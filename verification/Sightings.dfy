/** What a sweep leaves of the inference tables, row by row; and the challenges, the
    capabilities and the response hashes of every run as functions of its events. */
module Sightings {
  import opened Types
  import opened Tables
  import opened Branches
  import opened InferenceIndex
  import opened StoreModel
  import opened Listings
  import opened Requests
  import opened Responses

  // --- one sweep ---

  /** Requests at or above the cutoff stay; a key stays unless a request that goes is filed under
      it, and a first response also needs its own DAA. */
  ghost predicate RequestsSwept(a: Inference, b: Inference, cutoff: nat) {
    && (forall s :: s in b.requests <==> s in a.requests && a.requests[s].daa >= cutoff)
    && (forall s :: s in b.requests ==> b.requests[s] == a.requests[s])
    && (forall k :: k in b.requestByKey <==> k in a.requestByKey && !DropsRequest(a, cutoff, k))
    && (forall k :: k in b.requestByKey ==> b.requestByKey[k] == a.requestByKey[k])
    && (forall k :: k in b.firstResponse <==>
          k in a.firstResponse && a.firstResponse[k].daa >= cutoff && !DropsRequest(a, cutoff, k))
    && (forall k :: k in b.firstResponse ==> b.firstResponse[k] == a.firstResponse[k])
  }

  /** Challenges and sightings at or above the cutoff stay, and a response hash whose target is
      still a request key. */
  ghost predicate NotesSwept(a: Inference, b: Inference, cutoff: nat) {
    && (forall s :: s in b.challenges <==> s in a.challenges && a.challenges[s].daa >= cutoff)
    && (forall s :: s in b.challenges ==> b.challenges[s] == a.challenges[s])
    && (forall k :: k in b.capabilities <==> k in a.capabilities && a.capabilities[k] >= cutoff)
    && (forall k :: k in b.capabilities ==> b.capabilities[k] == a.capabilities[k])
    && (forall h :: h in b.responseHash <==> h in a.responseHash && a.responseHash[h] in b.requestByKey)
    && (forall h :: h in b.responseHash ==> b.responseHash[h] == a.responseHash[h])
  }

  function StaleRequests(a: Inference, cutoff: nat): set<nat> {
    a.requests.Keys - Kept(a.requests, OldRequest(cutoff)).Keys
  }

  lemma SweepsRequests(a: Inference, live: set<nat>, cutoff: nat)
    ensures RequestsSwept(a, ExpireInference(a, live, cutoff), cutoff)
  {
    var stale := StaleRequests(a, cutoff);
    forall k ensures k in KeysOf(a, stale) <==> DropsRequest(a, cutoff, k) {
      StaleKeys(a, cutoff, k);
    }
    hide KeysOf, DropsRequest;
  }

  lemma SweepsHashes(a: Inference, live: set<nat>, cutoff: nat)
    ensures var b := ExpireInference(a, live, cutoff);
      && (forall h :: h in b.responseHash <==> h in a.responseHash && a.responseHash[h] in b.requestByKey)
      && (forall h :: h in b.responseHash ==> b.responseHash[h] == a.responseHash[h])
  {
    hide KeysOf;
  }

  lemma SweepsChallenges(a: Inference, live: set<nat>, cutoff: nat)
    ensures var b := ExpireInference(a, live, cutoff);
      && (forall s :: s in b.challenges <==> s in a.challenges && a.challenges[s].daa >= cutoff)
      && (forall s :: s in b.challenges ==> b.challenges[s] == a.challenges[s])
      && b.challengeSeq == a.challengeSeq
  {
    hide KeysOf;
  }

  lemma SweepsSightings(a: Inference, live: set<nat>, cutoff: nat)
    ensures var b := ExpireInference(a, live, cutoff);
      && (forall k :: k in b.capabilities <==> k in a.capabilities && a.capabilities[k] >= cutoff)
      && (forall k :: k in b.capabilities ==> b.capabilities[k] == a.capabilities[k])
  {
    hide KeysOf;
  }

  lemma SweepsNotes(a: Inference, live: set<nat>, cutoff: nat)
    ensures var b := ExpireInference(a, live, cutoff);
      NotesSwept(a, b, cutoff) && b.challengeSeq == a.challengeSeq
  {
    hide ExpireInference;
    SweepsHashes(a, live, cutoff);
    SweepsChallenges(a, live, cutoff);
    SweepsSightings(a, live, cutoff);
  }

  /** After any sweep of any run: what stayed of every inference table, unchanged, and that nothing
      else did; a list entry stays with its transaction. */
  lemma SweepKeepsIff(es: seq<Event>, cutoff: nat, cx: Codec)
    ensures var d, d' := Run(es, cx), Run(es + [Swept(cutoff)], cx);
      && RequestsSwept(d.ai, d'.ai, cutoff) && NotesSwept(d.ai, d'.ai, cutoff)
      && forall rh, n :: (rh, n) in d'.ai.responseList <==>
           (rh, n) in d.ai.responseList && n in d'.core.rows.tx
  {
    hide *;
    var d := Run(es, cx);
    SweptRun(es, cutoff, cx);
    ExpireAi(d, cutoff);
    ExpireParts(d, cutoff);
    SweepsRequests(d.ai, ExpireCore(d.core, cutoff).rows.tx.Keys, cutoff);
    SweepsNotes(d.ai, ExpireCore(d.core, cutoff).rows.tx.Keys, cutoff);
  }

  lemma SweptRun(es: seq<Event>, cutoff: nat, cx: Codec)
    ensures Run(es + [Swept(cutoff)], cx) == Expire(Run(es, cx), cutoff)
  {
    hide Expire;
    assert (es + [Swept(cutoff)])[..|es|] == es;
  }

  lemma ExpireAi(d: Database, cutoff: nat)
    ensures Expire(d, cutoff).ai == ExpireInference(d.ai, ExpireCore(d.core, cutoff).rows.tx.Keys, cutoff)
  {
    hide ExpireCore, ExpireInference;
  }

  // --- capabilities ---

  /** When `raw` declares the capability `k`, it was seen now. */
  function SeenTx(c: Option<nat>, raw: RawTx, daa: nat, k: (string, string), cx: Codec): Option<nat> {
    if raw.isCoinbase && k in cx.capabilities(raw) then Some(daa) else c
  }

  function SeenTxs(c: Option<nat>, txs: seq<RawTx>, daa: nat, k: (string, string), cx: Codec): Option<nat> {
    if txs == [] then c else SeenTx(SeenTxs(c, txs[..|txs| - 1], daa, k, cx), txs[|txs| - 1], daa, k, cx)
  }

  function SeenGroups(c: Option<nat>, gs: seq<Group>, k: (string, string), cx: Codec): Option<nat> {
    if gs == [] then c
    else SeenTxs(SeenGroups(c, gs[..|gs| - 1], k, cx), gs[|gs| - 1].txs, gs[|gs| - 1].daa, k, cx)
  }

  /** The DAA of the last accepted coinbase that declared it; a removal changes nothing. */
  function NextSeen(c: Option<nat>, d: Database, e: Event, k: (string, string), cx: Codec): Option<nat> {
    match e
    case Applied(gs) => SeenGroups(c, Fresh(d, gs, cx), k, cx)
    case Unwound(h) => c
    case Swept(cutoff) => if c.Some? && c.value < cutoff then None else c
  }

  function RunSeen(es: seq<Event>, k: (string, string), cx: Codec): Option<nat> {
    if es == [] then None
    else
      var i := |es| - 1;
      NextSeen(RunSeen(es[..i], k, cx), Run(es[..i], cx), es[i], k, cx)
  }

  predicate SeenIs(ai: Inference, k: (string, string), c: Option<nat>) {
    (k in ai.capabilities <==> c.Some?) && (c.Some? ==> ai.capabilities[k] == c.value)
  }

  lemma PayloadLeavesSeen(ai: Inference, num: nat, raw: RawTx, hash: string, daa: nat, cx: Codec)
    ensures IndexPayload(ai, num, raw, hash, daa, cx).capabilities == ai.capabilities
  {
    hide SubnetOf;
  }

  lemma SeenOfTx(
    ai: Inference, num: nat, raw: RawTx, hash: string, daa: nat, cx: Codec, k: (string, string), c: Option<nat>)
    requires SeenIs(ai, k, c)
    ensures SeenIs(IndexTx(ai, num, raw, hash, daa, cx), k, SeenTx(c, raw, daa, k, cx))
  {
    hide IndexPayload;
    PayloadLeavesSeen(ai, num, raw, hash, daa, cx);
  }

  lemma {:induction false} SeenOfTxs(
    ai: Inference, num: nat, txs: seq<RawTx>, hash: string, daa: nat, cx: Codec, k: (string, string), c: Option<nat>)
    requires SeenIs(ai, k, c)
    ensures SeenIs(IndexTxs(ai, num, txs, hash, daa, cx), k, SeenTxs(c, txs, daa, k, cx))
    decreases |txs|
  {
    hide SeenIs, IndexTx, SeenTx;
    if txs != [] {
      var i := |txs| - 1;
      IndexTxsSnoc(ai, num, txs, hash, daa, cx);
      SeenOfTxs(ai, num, txs[..i], hash, daa, cx, k, c);
      SeenOfTx(IndexTxs(ai, num, txs[..i], hash, daa, cx), num + i, txs[i], hash, daa, cx, k,
               SeenTxs(c, txs[..i], daa, k, cx));
    }
  }

  lemma SeenGroupsSnoc(c: Option<nat>, gs: seq<Group>, g: Group, k: (string, string), cx: Codec)
    ensures SeenGroups(c, gs + [g], k, cx) == SeenTxs(SeenGroups(c, gs, k, cx), g.txs, g.daa, k, cx)
  {
    hide SeenTxs;
    assert (gs + [g])[..|gs|] == gs;
  }

  lemma {:induction false} SeenOfApply(d: Database, gs: seq<Group>, cx: Codec, k: (string, string), c: Option<nat>)
    requires SeenIs(d.ai, k, c)
    ensures SeenIs(Apply(d, gs, cx).ai, k, SeenGroups(c, Fresh(d, gs, cx), k, cx))
    decreases |gs|
  {
    hide SeenIs, Apply, ApplyGroup, SeenTxs;
    if gs == [] {
      ApplyNone(d, cx);
    } else {
      var i := |gs| - 1;
      var mid := Apply(d, gs[..i], cx);
      SeenOfApply(d, gs[..i], cx, k, c);
      ApplySnoc(d, gs, cx);
      if gs[i].hash in mid.core.blocks.applied {
        ApplyMarked(mid, gs[i], cx);
      } else {
        ApplyGroupRows(mid, gs[i], cx);
        SeenGroupsSnoc(c, Fresh(d, gs[..i], cx), gs[i], k, cx);
        SeenOfTxs(mid.ai, mid.nextTxNum, gs[i].txs, gs[i].hash, gs[i].daa, cx, k,
                  SeenGroups(c, Fresh(d, gs[..i], cx), k, cx));
      }
    }
  }

  lemma SeenOfStep(d: Database, e: Event, cx: Codec, k: (string, string), c: Option<nat>)
    requires SeenIs(d.ai, k, c)
    ensures SeenIs(Step(d, e, cx).ai, k, NextSeen(c, d, e, k, cx))
  {
    hide Apply, UnwindBlock, ExpireCore, ExpireInference, SeenGroups, Fresh;
    match e
    case Applied(gs) => SeenOfApply(d, gs, cx, k, c);
    case Unwound(h) =>
    case Swept(cutoff) => SweepsNotes(d.ai, ExpireCore(d.core, cutoff).rows.tx.Keys, cutoff);
  }

  /** Over every run a capability is listed with the DAA of the last accepted coinbase that declared
      it, until a sweep passes that DAA. */
  lemma {:induction false} RunSeenIs(es: seq<Event>, cx: Codec, k: (string, string))
    ensures SeenIs(Run(es, cx).ai, k, RunSeen(es, k, cx))
    decreases |es|
  {
    if es != [] {
      hide SeenIs, Step, NextSeen;
      RunSeenIs(es[..|es| - 1], cx, k);
      SeenOfStep(Run(es[..|es| - 1], cx), es[|es| - 1], cx, k, RunSeen(es[..|es| - 1], k, cx));
    }
  }

  // --- challenges and the response hashes they name ---

  /** The request each response hash stands for, and the challenges in acceptance order. */
  datatype Notes = Notes(names: map<string, string>, challenges: seq<ChallengeRec>)

  /** The request a challenge is about: the one it names, else the one its response hash stands
      for, else unknown. */
  function ChallengedRequest(names: map<string, string>, c: Challenge): string {
    match c.requestHash
    case Some(rh) => rh
    case None => if c.responseHash in names then names[c.responseHash] else ""
  }

  function NoteTx(n: Notes, raw: RawTx, daa: nat, cx: Codec): Notes {
    var p, c := cx.response(raw.payload), cx.challenge(raw.payload);
    if raw.subnetworkId == SUBNET_AI_RESPONSE && p.Some?
    then n.(names := n.names[p.value.ownHash := p.value.requestHash])
    else if raw.subnetworkId == SUBNET_AI_CHALLENGE && c.Some?
    then n.(challenges := n.challenges + [ChallengeRec(raw.txId, ChallengedRequest(n.names, c.value), daa)])
    else n
  }

  function NoteTxs(n: Notes, txs: seq<RawTx>, daa: nat, cx: Codec): Notes {
    if txs == [] then n else NoteTx(NoteTxs(n, txs[..|txs| - 1], daa, cx), txs[|txs| - 1], daa, cx)
  }

  function NoteGroups(n: Notes, gs: seq<Group>, cx: Codec): Notes {
    if gs == [] then n
    else NoteTxs(NoteGroups(n, gs[..|gs| - 1], cx), gs[|gs| - 1].txs, gs[|gs| - 1].daa, cx)
  }

  function RecentChallenge(cutoff: nat): ChallengeRec -> bool { (c: ChallengeRec) => c.daa >= cutoff }

  /** A sweep keeps the challenges at or above its cutoff, and the response hashes that stand for
      a request key the store still has. */
  function NextNotes(n: Notes, d: Database, e: Event, cx: Codec): Notes {
    match e
    case Applied(gs) => NoteGroups(n, Fresh(d, gs, cx), cx)
    case Unwound(h) => n
    case Swept(cutoff) =>
      var keys := Step(d, e, cx).ai.requestByKey.Keys;
      Notes(map h | h in n.names && n.names[h] in keys :: n.names[h], Filter(n.challenges, RecentChallenge(cutoff)))
  }

  function RunNotes(es: seq<Event>, cx: Codec): Notes {
    if es == [] then Notes(map[], [])
    else
      var k := |es| - 1;
      NextNotes(RunNotes(es[..k], cx), Run(es[..k], cx), es[k], cx)
  }

  ghost predicate NotesAre(ai: Inference, n: Notes) {
    && ai.responseHash == n.names && Listing(ai.challenges, n.challenges)
    && forall s :: s in ai.challenges ==> s < ai.challengeSeq
  }

  lemma SubnetIsChallenge(raw: RawTx)
    ensures SubnetOf(raw) == AiChallenge <==> raw.subnetworkId == SUBNET_AI_CHALLENGE
    ensures raw.subnetworkId == SUBNET_AI_RESPONSE ==> raw.subnetworkId != SUBNET_AI_CHALLENGE
  {
    assert SUBNET_AI_REQUEST[1] != SUBNET_AI_CHALLENGE[1] && SUBNET_AI_RESPONSE[1] != SUBNET_AI_CHALLENGE[1];
  }

  lemma IndexTxNotes(ai: Inference, num: nat, raw: RawTx, hash: string, daa: nat, cx: Codec)
    ensures var ai', p, c := IndexTx(ai, num, raw, hash, daa, cx), cx.response(raw.payload), cx.challenge(raw.payload);
      && ai'.responseHash ==
           (if SubnetOf(raw) == AiResponse && p.Some? then ai.responseHash[p.value.ownHash := p.value.requestHash]
            else ai.responseHash)
      && if SubnetOf(raw) == AiChallenge && c.Some?
         then ai'.challenges == ai.challenges[ai.challengeSeq :=
                ChallengeRec(raw.txId, ChallengedRequest(ai.responseHash, c.value), daa)] &&
              ai'.challengeSeq == ai.challengeSeq + 1
         else ai'.challenges == ai.challenges && ai'.challengeSeq == ai.challengeSeq
  {
    hide SubnetOf;
  }

  lemma NotesOfTx(ai: Inference, num: nat, raw: RawTx, hash: string, daa: nat, cx: Codec, n: Notes)
    requires NotesAre(ai, n)
    ensures NotesAre(IndexTx(ai, num, raw, hash, daa, cx), NoteTx(n, raw, daa, cx))
  {
    hide SubnetOf, Listing, IndexTx, ChallengedRequest;
    SubnetIsResponse(raw);
    SubnetIsChallenge(raw);
    IndexTxNotes(ai, num, raw, hash, daa, cx);
    var c := cx.challenge(raw.payload);
    if raw.subnetworkId == SUBNET_AI_CHALLENGE && c.Some? {
      ListingSnoc(ai.challenges, n.challenges, ai.challengeSeq,
                  ChallengeRec(raw.txId, ChallengedRequest(n.names, c.value), daa));
    }
  }

  lemma {:induction false} NotesOfTxs(
    ai: Inference, num: nat, txs: seq<RawTx>, hash: string, daa: nat, cx: Codec, n: Notes)
    requires NotesAre(ai, n)
    ensures NotesAre(IndexTxs(ai, num, txs, hash, daa, cx), NoteTxs(n, txs, daa, cx))
    decreases |txs|
  {
    hide NotesAre, IndexTx, NoteTx;
    if txs != [] {
      var i := |txs| - 1;
      IndexTxsSnoc(ai, num, txs, hash, daa, cx);
      NotesOfTxs(ai, num, txs[..i], hash, daa, cx, n);
      NotesOfTx(IndexTxs(ai, num, txs[..i], hash, daa, cx), num + i, txs[i], hash, daa, cx,
                NoteTxs(n, txs[..i], daa, cx));
    }
  }

  lemma NoteGroupsSnoc(n: Notes, gs: seq<Group>, g: Group, cx: Codec)
    ensures NoteGroups(n, gs + [g], cx) == NoteTxs(NoteGroups(n, gs, cx), g.txs, g.daa, cx)
  {
    hide NoteTxs;
    assert (gs + [g])[..|gs|] == gs;
  }

  lemma {:induction false} NotesOfApply(d: Database, gs: seq<Group>, cx: Codec, n: Notes)
    requires NotesAre(d.ai, n)
    ensures NotesAre(Apply(d, gs, cx).ai, NoteGroups(n, Fresh(d, gs, cx), cx))
    decreases |gs|
  {
    hide NotesAre, Apply, ApplyGroup, NoteTxs;
    if gs == [] {
      ApplyNone(d, cx);
    } else {
      var i := |gs| - 1;
      var mid := Apply(d, gs[..i], cx);
      NotesOfApply(d, gs[..i], cx, n);
      ApplySnoc(d, gs, cx);
      if gs[i].hash in mid.core.blocks.applied {
        ApplyMarked(mid, gs[i], cx);
      } else {
        ApplyGroupRows(mid, gs[i], cx);
        NoteGroupsSnoc(n, Fresh(d, gs[..i], cx), gs[i], cx);
        NotesOfTxs(mid.ai, mid.nextTxNum, gs[i].txs, gs[i].hash, gs[i].daa, cx,
                   NoteGroups(n, Fresh(d, gs[..i], cx), cx));
      }
    }
  }

  lemma NotesOfSweep(a: Inference, b: Inference, cutoff: nat, n: Notes)
    requires NotesAre(a, n) && NotesSwept(a, b, cutoff) && b.challengeSeq == a.challengeSeq
    ensures NotesAre(b, Notes(map h | h in n.names && n.names[h] in b.requestByKey.Keys :: n.names[h],
                              Filter(n.challenges, RecentChallenge(cutoff))))
  {
    hide Listing, Filter;
    ListingFilter(a.challenges, b.challenges, n.challenges, RecentChallenge(cutoff));
  }

  lemma NotesOfStep(d: Database, e: Event, cx: Codec, n: Notes)
    requires NotesAre(d.ai, n)
    ensures NotesAre(Step(d, e, cx).ai, NextNotes(n, d, e, cx))
  {
    match e
    case Applied(gs) => NotesOfApply(d, gs, cx, n);
    case Unwound(h) =>
    case Swept(cutoff) =>
      SweepsNotes(d.ai, ExpireCore(d.core, cutoff).rows.tx.Keys, cutoff);
      NotesOfSweep(d.ai, Step(d, e, cx).ai, cutoff, n);
    hide NotesAre, NotesSwept, Apply, UnwindBlock, ExpireCore, ExpireInference, NoteGroups, Fresh, Filter;
  }

  lemma NothingNoted()
    ensures NotesAre(EMPTY.ai, Notes(map[], []))
  {
    ListingNone(EMPTY.ai.challenges);
  }

  /** Over every run the challenge table, by ascending sequence number, is the list of accepted
      challenges no sweep has passed, each with the request it was about when it was accepted. */
  lemma {:induction false} RunNotesAre(es: seq<Event>, cx: Codec)
    ensures NotesAre(Run(es, cx).ai, RunNotes(es, cx))
    decreases |es|
  {
    hide NotesAre, Step, NextNotes;
    if es == [] {
      NothingNoted();
    } else {
      RunNotesAre(es[..|es| - 1], cx);
      NotesOfStep(Run(es[..|es| - 1], cx), es[|es| - 1], cx, RunNotes(es[..|es| - 1], cx));
    }
  }
}
