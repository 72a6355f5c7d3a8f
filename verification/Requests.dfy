/** Which requests the inference lookups find, as a list computed from the events: the
    first acceptance of a request keeps its place, and its DAA, until a sweep passes
    it. A reorg does not touch the request tables, so neither removing the accepting
    block nor accepting the request again changes the list. */
module Requests {
  import opened Types
  import opened Attribution
  import opened Tables
  import opened Branches
  import opened InferenceIndex
  import opened StoreModel
  import opened Listings
  import opened Amounts

  // --- the list of requests ---

  predicate IsRequest(raw: RawTx, cx: Codec) {
    raw.subnetworkId == SUBNET_AI_REQUEST && cx.request(raw).Some?
  }

  predicate Known(list: seq<RequestRec>, id: string) {
    exists i :: 0 <= i < |list| && list[i].request.identity == id
  }

  /** A request joins the list unless its identity is on it. */
  function AskTx(list: seq<RequestRec>, raw: RawTx, hash: string, daa: nat, cx: Codec): seq<RequestRec> {
    if IsRequest(raw, cx) && !Known(list, cx.request(raw).value.identity)
    then list + [RequestRec(raw.txId, cx.request(raw).value, daa, hash)]
    else list
  }

  function AskTxs(list: seq<RequestRec>, txs: seq<RawTx>, hash: string, daa: nat, cx: Codec): seq<RequestRec> {
    if txs == [] then list else AskTx(AskTxs(list, txs[..|txs| - 1], hash, daa, cx), txs[|txs| - 1], hash, daa, cx)
  }

  function AskGroups(list: seq<RequestRec>, gs: seq<Group>, cx: Codec): seq<RequestRec> {
    if gs == [] then list
    else
      var g := gs[|gs| - 1];
      AskTxs(AskGroups(list, gs[..|gs| - 1], cx), g.txs, g.hash, g.daa, cx)
  }

  function NotBelow(cutoff: nat): RequestRec -> bool { (q: RequestRec) => q.daa >= cutoff }

  /** Only a sweep past its DAA takes a request off the list. */
  function NextRequests(list: seq<RequestRec>, d: Database, e: Event, cx: Codec): seq<RequestRec> {
    match e
    case Applied(gs) => AskGroups(list, Fresh(d, gs, cx), cx)
    case Unwound(h) => list
    case Swept(cutoff) => Filter(list, NotBelow(cutoff))
  }

  function RunRequests(es: seq<Event>, cx: Codec): seq<RequestRec> {
    if es == [] then []
    else
      var k := |es| - 1;
      NextRequests(RunRequests(es[..k], cx), Run(es[..k], cx), es[k], cx)
  }

  // --- no clashing keys ---

  /** Transaction id and identity of a request. */
  type Ask = (string, string)

  ghost predicate AllAsked(txs: seq<RawTx>, pairs: set<Ask>, cx: Codec) {
    forall i :: 0 <= i < |txs| && IsRequest(txs[i], cx) ==>
      (txs[i].txId, cx.request(txs[i]).value.identity) in pairs
  }

  ghost predicate GroupsAsked(gs: seq<Group>, pairs: set<Ask>, cx: Codec) {
    forall i :: 0 <= i < |gs| ==> AllAsked(gs[i].txs, pairs, cx)
  }

  /** Every request of the run is among `pairs`. */
  ghost predicate RunAsked(es: seq<Event>, pairs: set<Ask>, cx: Codec) {
    forall k :: 0 <= k < |es| && es[k].Applied? ==> GroupsAsked(es[k].groups, pairs, cx)
  }

  /** A transaction id stands for one identity, and is not some other request's identity. */
  ghost predicate Unclashed(pairs: set<Ask>) {
    && (forall p, q :: p in pairs && q in pairs && p.0 == q.0 ==> p.1 == q.1)
    && (forall p, q :: p in pairs && q in pairs && p.0 == q.1 ==> p.0 == q.0)
  }

  // --- the tables against the list ---

  /** Each stored request is filed under both its keys, and keys lead to such requests only. */
  ghost predicate Filed(ai: Inference, pairs: set<Ask>) {
    && (forall s :: s in ai.requests ==> s < ai.requestSeq && FiledAt(ai, s, pairs))
    && (forall k :: k in ai.requestByKey ==> KeyResolves(ai, k))
  }

  predicate FiledAt(ai: Inference, s: nat, pairs: set<Ask>)
    requires s in ai.requests
  {
    var q := ai.requests[s];
    && (q.txId, q.request.identity) in pairs
    && q.request.identity in ai.requestByKey && ai.requestByKey[q.request.identity] == s
    && q.txId in ai.requestByKey && ai.requestByKey[q.txId] == s
  }

  /** An identity that is filed at all is filed as an identity. */
  lemma FiledAsIdentity(ai: Inference, pairs: set<Ask>, p: Ask)
    requires Filed(ai, pairs) && Unclashed(pairs) && p in pairs && p.1 in ai.requestByKey
    ensures var s := ai.requestByKey[p.1]; s in ai.requests && ai.requests[s].request.identity == p.1
  {
    var s := ai.requestByKey[p.1];
    assert KeyResolves(ai, p.1);
    assert FiledAt(ai, s, pairs);
    var q := (ai.requests[s].txId, ai.requests[s].request.identity);
    assert q in pairs;
  }

  /** A new request's keys are nobody else's. */
  lemma KeysAreNew(ai: Inference, pairs: set<Ask>, p: Ask, s: nat)
    requires Filed(ai, pairs) && Unclashed(pairs) && p in pairs && p.1 !in ai.requestByKey && s in ai.requests
    ensures ai.requests[s].request.identity != p.0 && ai.requests[s].request.identity != p.1
    ensures ai.requests[s].txId != p.0 && ai.requests[s].txId != p.1
  {
    assert FiledAt(ai, s, pairs);
    var q := (ai.requests[s].txId, ai.requests[s].request.identity);
    assert q in pairs;
  }

  lemma IndexRequestIs(ai: Inference, raw: RawTx, hash: string, daa: nat, q: Request)
    requires q.identity !in ai.requestByKey
    ensures var ai' := IndexRequest(ai, raw, hash, daa, q);
      && ai'.requests == ai.requests[ai.requestSeq := RequestRec(raw.txId, q, daa, hash)]
      && ai'.requestByKey == ai.requestByKey[q.identity := ai.requestSeq][raw.txId := ai.requestSeq]
      && ai'.requestSeq == ai.requestSeq + 1
  {
  }

  lemma FiledStays(ai: Inference, raw: RawTx, hash: string, daa: nat, q: Request, pairs: set<Ask>, s: nat)
    requires Filed(ai, pairs) && Unclashed(pairs) && (raw.txId, q.identity) in pairs && q.identity !in ai.requestByKey
    requires s in ai.requests
    ensures var ai' := IndexRequest(ai, raw, hash, daa, q); s in ai'.requests && FiledAt(ai', s, pairs)
  {
    KeysAreNew(ai, pairs, (raw.txId, q.identity), s);
    assert FiledAt(ai, s, pairs) && s < ai.requestSeq;
    hide IndexRequest, Filed, Unclashed;
    IndexRequestIs(ai, raw, hash, daa, q);
  }

  lemma KeyStays(ai: Inference, raw: RawTx, hash: string, daa: nat, q: Request, k: string)
    requires q.identity !in ai.requestByKey && k in IndexRequest(ai, raw, hash, daa, q).requestByKey
    requires k in ai.requestByKey ==> KeyResolves(ai, k) && ai.requestByKey[k] != ai.requestSeq
    ensures KeyResolves(IndexRequest(ai, raw, hash, daa, q), k)
  {
    hide IndexRequest;
    IndexRequestIs(ai, raw, hash, daa, q);
  }

  lemma FileRequest(ai: Inference, raw: RawTx, hash: string, daa: nat, q: Request, pairs: set<Ask>)
    requires Filed(ai, pairs) && Unclashed(pairs) && (raw.txId, q.identity) in pairs && q.identity !in ai.requestByKey
    ensures Filed(IndexRequest(ai, raw, hash, daa, q), pairs)
  {
    hide IndexRequest, Unclashed, FiledAt;
    var ai' := IndexRequest(ai, raw, hash, daa, q);
    IndexRequestIs(ai, raw, hash, daa, q);
    forall s | s in ai'.requests ensures s < ai'.requestSeq && FiledAt(ai', s, pairs) {
      if s == ai.requestSeq {
        NewIsFiled(ai, raw, hash, daa, q, pairs);
      } else {
        FiledStays(ai, raw, hash, daa, q, pairs, s);
      }
    }
    forall k | k in ai'.requestByKey ensures KeyResolves(ai', k) {
      if k in ai.requestByKey {
        assert KeyResolves(ai, k);
      }
      KeyStays(ai, raw, hash, daa, q, k);
    }
  }

  lemma NewIsFiled(ai: Inference, raw: RawTx, hash: string, daa: nat, q: Request, pairs: set<Ask>)
    requires q.identity !in ai.requestByKey && (raw.txId, q.identity) in pairs
    ensures var ai' := IndexRequest(ai, raw, hash, daa, q);
      ai.requestSeq in ai'.requests && FiledAt(ai', ai.requestSeq, pairs)
  {
    hide IndexRequest;
    IndexRequestIs(ai, raw, hash, daa, q);
  }

  /** The request table is the list, and its keys are in order. */
  ghost predicate Agree(ai: Inference, pairs: set<Ask>, list: seq<RequestRec>) {
    Filed(ai, pairs) && Listing(ai.requests, list)
  }

  lemma KnownIff(ai: Inference, pairs: set<Ask>, list: seq<RequestRec>, p: Ask)
    requires Agree(ai, pairs, list) && Unclashed(pairs) && p in pairs
    ensures p.1 in ai.requestByKey <==> Known(list, p.1)
  {
    hide Listing;
    if p.1 in ai.requestByKey {
      FiledAsIdentity(ai, pairs, p);
      var q := ai.requests[ai.requestByKey[p.1]];
      ListingMembers(ai.requests, list, q);
      var i :| 0 <= i < |list| && list[i] == q;
    }
    if Known(list, p.1) {
      var i :| 0 <= i < |list| && list[i].request.identity == p.1;
      ListingMembers(ai.requests, list, list[i]);
      var s :| s in ai.requests && ai.requests[s] == list[i];
      assert FiledAt(ai, s, pairs);
    }
  }

  lemma AgreeFrame(ai: Inference, ai': Inference, pairs: set<Ask>, list: seq<RequestRec>)
    requires Agree(ai, pairs, list) && ai'.requests == ai.requests && ai'.requestByKey == ai.requestByKey
    requires ai'.requestSeq == ai.requestSeq
    ensures Agree(ai', pairs, list)
  {
    forall s | s in ai'.requests ensures s < ai'.requestSeq && FiledAt(ai', s, pairs) {
      assert FiledAt(ai, s, pairs);
    }
    forall k | k in ai'.requestByKey ensures KeyResolves(ai', k) {
      assert KeyResolves(ai, k);
    }
  }

  lemma RequestAgrees(
    ai: Inference, raw: RawTx, hash: string, daa: nat, cx: Codec, pairs: set<Ask>, list: seq<RequestRec>)
    requires Agree(ai, pairs, list) && Unclashed(pairs) && IsRequest(raw, cx)
    requires (raw.txId, cx.request(raw).value.identity) in pairs
    ensures Agree(IndexRequest(ai, raw, hash, daa, cx.request(raw).value), pairs, AskTx(list, raw, hash, daa, cx))
  {
    hide Unclashed, Known, Listing, FiledAt;
    var q := cx.request(raw).value;
    KnownIff(ai, pairs, list, (raw.txId, q.identity));
    if q.identity !in ai.requestByKey {
      FileRequest(ai, raw, hash, daa, q, pairs);
      ListingSnoc(ai.requests, list, ai.requestSeq, RequestRec(raw.txId, q, daa, hash));
      IndexRequestIs(ai, raw, hash, daa, q);
      hide IndexRequest, Filed;
    }
  }

  lemma SubnetIsRequest(raw: RawTx)
    ensures SubnetOf(raw) == AiRequest <==> raw.subnetworkId == SUBNET_AI_REQUEST
  {
  }

  lemma OtherPayload(ai: Inference, num: nat, raw: RawTx, hash: string, daa: nat, cx: Codec)
    ensures var ai' := IndexPayload(ai, num, raw, hash, daa, cx);
      if IsRequest(raw, cx)
      then ai' == IndexRequest(ai, raw, hash, daa, cx.request(raw).value)
      else ai'.requests == ai.requests && ai'.requestByKey == ai.requestByKey && ai'.requestSeq == ai.requestSeq
  {
    hide SubnetOf, IndexRequest;
    SubnetIsRequest(raw);
  }

  lemma CapabilitiesLeaveRequests(ai: Inference, num: nat, raw: RawTx, hash: string, daa: nat, cx: Codec)
    ensures var ai1, ai2 := IndexPayload(ai, num, raw, hash, daa, cx), IndexTx(ai, num, raw, hash, daa, cx);
      ai2.requests == ai1.requests && ai2.requestByKey == ai1.requestByKey && ai2.requestSeq == ai1.requestSeq
  {
    hide IndexPayload;
  }

  lemma TxAgrees(
    ai: Inference, num: nat, raw: RawTx, hash: string, daa: nat, cx: Codec, pairs: set<Ask>, list: seq<RequestRec>)
    requires Agree(ai, pairs, list) && Unclashed(pairs) && AllAsked([raw], pairs, cx)
    ensures Agree(IndexTx(ai, num, raw, hash, daa, cx), pairs, AskTx(list, raw, hash, daa, cx))
  {
    var ai1, ai2 := IndexPayload(ai, num, raw, hash, daa, cx), IndexTx(ai, num, raw, hash, daa, cx);
    assert IsRequest(raw, cx) ==> (raw.txId, cx.request(raw).value.identity) in pairs by { assert [raw][0] == raw; }
    hide IsRequest, Agree, Unclashed, AllAsked, IndexPayload, IndexTx, IndexRequest, Known;
    OtherPayload(ai, num, raw, hash, daa, cx);
    CapabilitiesLeaveRequests(ai, num, raw, hash, daa, cx);
    if IsRequest(raw, cx) {
      RequestAgrees(ai, raw, hash, daa, cx, pairs, list);
    } else {
      AgreeFrame(ai, ai1, pairs, list);
    }
    AgreeFrame(ai1, ai2, pairs, AskTx(list, raw, hash, daa, cx));
  }

  lemma AskedSplit(txs: seq<RawTx>, pairs: set<Ask>, cx: Codec)
    requires AllAsked(txs, pairs, cx) && txs != []
    ensures AllAsked(txs[..|txs| - 1], pairs, cx) && AllAsked([txs[|txs| - 1]], pairs, cx)
  {
    hide IsRequest;
  }

  lemma {:induction false} TxsAgree(
    ai: Inference, num: nat, txs: seq<RawTx>, hash: string, daa: nat, cx: Codec, pairs: set<Ask>,
    list: seq<RequestRec>)
    requires Agree(ai, pairs, list) && Unclashed(pairs) && AllAsked(txs, pairs, cx)
    ensures Agree(IndexTxs(ai, num, txs, hash, daa, cx), pairs, AskTxs(list, txs, hash, daa, cx))
    decreases |txs|
  {
    hide Agree, Unclashed, IndexTx, AllAsked, AskTx;
    if txs != [] {
      var k := |txs| - 1;
      AskedSplit(txs, pairs, cx);
      IndexTxsSnoc(ai, num, txs, hash, daa, cx);
      TxsAgree(ai, num, txs[..k], hash, daa, cx, pairs, list);
      TxAgrees(IndexTxs(ai, num, txs[..k], hash, daa, cx), num + k, txs[k], hash, daa, cx, pairs,
               AskTxs(list, txs[..k], hash, daa, cx));
    }
  }

  lemma AskGroupsSnoc(list: seq<RequestRec>, gs: seq<Group>, g: Group, cx: Codec)
    ensures AskGroups(list, gs + [g], cx) == AskTxs(AskGroups(list, gs, cx), g.txs, g.hash, g.daa, cx)
  {
    hide AskTxs;
    assert (gs + [g])[..|gs|] == gs;
  }

  lemma {:induction false} ApplyAgrees(
    d: Database, gs: seq<Group>, cx: Codec, pairs: set<Ask>, list: seq<RequestRec>)
    requires Agree(d.ai, pairs, list) && Unclashed(pairs) && GroupsAsked(gs, pairs, cx)
    ensures Agree(Apply(d, gs, cx).ai, pairs, AskGroups(list, Fresh(d, gs, cx), cx))
    decreases |gs|
  {
    hide Agree, Unclashed, AllAsked, Apply, ApplyGroup, AskTxs;
    if gs == [] {
      ApplyNone(d, cx);
    } else {
      var k := |gs| - 1;
      var mid := Apply(d, gs[..k], cx);
      ApplyAgrees(d, gs[..k], cx, pairs, list);
      ApplySnoc(d, gs, cx);
      if gs[k].hash in mid.core.blocks.applied {
        ApplyMarked(mid, gs[k], cx);
      } else {
        ApplyGroupRows(mid, gs[k], cx);
        AskGroupsSnoc(list, Fresh(d, gs[..k], cx), gs[k], cx);
        TxsAgree(mid.ai, mid.nextTxNum, gs[k].txs, gs[k].hash, gs[k].daa, cx, pairs,
                 AskGroups(list, Fresh(d, gs[..k], cx), cx));
      }
    }
  }

  // --- sweeping ---

  /** A kept request shares no key with a dropped one. */
  lemma KeysAreKept(ai: Inference, pairs: set<Ask>, cutoff: nat, s: nat)
    requires Filed(ai, pairs) && s in ai.requests && ai.requests[s].daa >= cutoff
    ensures var dropped := ai.requests.Keys - Kept(ai.requests, OldRequest(cutoff)).Keys;
      ai.requests[s].request.identity !in KeysOf(ai, dropped) && ai.requests[s].txId !in KeysOf(ai, dropped)
  {
    var dropped := ai.requests.Keys - Kept(ai.requests, OldRequest(cutoff)).Keys;
    assert FiledAt(ai, s, pairs);
    forall t | t in dropped ensures t != s && FiledAt(ai, t, pairs) {
      assert t in ai.requests;
    }
  }

  lemma SweepFiles(ai: Inference, pairs: set<Ask>, live: set<nat>, cutoff: nat)
    requires Filed(ai, pairs)
    ensures Filed(ExpireInference(ai, live, cutoff), pairs)
  {
    var ai' := ExpireInference(ai, live, cutoff);
    forall s | s in ai'.requests ensures s < ai'.requestSeq && FiledAt(ai', s, pairs) {
      KeysAreKept(ai, pairs, cutoff, s);
      assert FiledAt(ai, s, pairs);
    }
    forall k | k in ai'.requestByKey ensures KeyResolves(ai', k) {
      assert KeyResolves(ai, k);
    }
  }

  lemma SweptRequests(ai: Inference, live: set<nat>, cutoff: nat)
    ensures var ai' := ExpireInference(ai, live, cutoff);
      && (forall s :: s in ai'.requests <==> s in ai.requests && ai.requests[s].daa >= cutoff)
      && (forall s :: s in ai'.requests ==> ai'.requests[s] == ai.requests[s])
  {
    hide KeysOf;
  }

  lemma SweepAgrees(ai: Inference, pairs: set<Ask>, live: set<nat>, cutoff: nat, list: seq<RequestRec>)
    requires Agree(ai, pairs, list)
    ensures Agree(ExpireInference(ai, live, cutoff), pairs, Filter(list, NotBelow(cutoff)))
  {
    hide Filed, Listing, ExpireInference, Filter;
    SweepFiles(ai, pairs, live, cutoff);
    SweptRequests(ai, live, cutoff);
    ListingFilter(ai.requests, ExpireInference(ai, live, cutoff).requests, list, NotBelow(cutoff));
  }

  // --- runs ---

  lemma StepAgrees(d: Database, e: Event, cx: Codec, pairs: set<Ask>, list: seq<RequestRec>)
    requires Agree(d.ai, pairs, list) && Unclashed(pairs) && (e.Applied? ==> GroupsAsked(e.groups, pairs, cx))
    ensures Agree(Step(d, e, cx).ai, pairs, NextRequests(list, d, e, cx))
  {
    hide Agree, Unclashed, GroupsAsked, Apply, UnwindBlock, ExpireCore, ExpireInference, AskGroups, Fresh, Filter;
    match e
    case Applied(gs) => ApplyAgrees(d, gs, cx, pairs, list);
    case Unwound(h) =>
    case Swept(cutoff) => SweepAgrees(d.ai, pairs, ExpireCore(d.core, cutoff).rows.tx.Keys, cutoff, list);
  }

  lemma RunAskedPrefix(es: seq<Event>, pairs: set<Ask>, cx: Codec)
    requires RunAsked(es, pairs, cx) && es != []
    ensures RunAsked(es[..|es| - 1], pairs, cx)
    ensures es[|es| - 1].Applied? ==> GroupsAsked(es[|es| - 1].groups, pairs, cx)
  {
    hide GroupsAsked;
  }

  lemma EmptyAgrees(pairs: set<Ask>)
    ensures Agree(EMPTY.ai, pairs, [])
  {
    ListingNone(EMPTY.ai.requests);
  }

  lemma {:induction false} RunAgrees(es: seq<Event>, cx: Codec, pairs: set<Ask>)
    requires Unclashed(pairs) && RunAsked(es, pairs, cx)
    ensures Agree(Run(es, cx).ai, pairs, RunRequests(es, cx))
    decreases |es|
  {
    hide Agree, Unclashed, RunAsked, Step, NextRequests;
    if es == [] {
      EmptyAgrees(pairs);
    } else {
      RunAskedPrefix(es, pairs, cx);
      RunAgrees(es[..|es| - 1], cx, pairs);
      StepAgrees(Run(es[..|es| - 1], cx), es[|es| - 1], cx, pairs, RunRequests(es[..|es| - 1], cx));
    }
  }

  /** Over every run the request table, by ascending sequence number, is the list of requests in
      the order they were first accepted. */
  lemma RunRequestsAre(es: seq<Event>, cx: Codec, pairs: set<Ask>)
    requires Unclashed(pairs) && RunAsked(es, pairs, cx)
    ensures Listing(Run(es, cx).ai.requests, RunRequests(es, cx))
  {
    hide Run, RunRequests, Filed, Unclashed, RunAsked, Listing;
    RunAgrees(es, cx, pairs);
  }

  /** `q` is addressed by `k`. */
  predicate Keyed(q: RequestRec, k: string) {
    q.request.identity == k || q.txId == k
  }

  /** `k` leads to a request on the list that it addresses. */
  predicate LeadsTo(ai: Inference, k: string, list: seq<RequestRec>)
    requires k in ai.requestByKey
  {
    var s := ai.requestByKey[k];
    s in ai.requests && Keyed(ai.requests[s], k) && ai.requests[s] in list
  }

  lemma ResolvesTo(ai: Inference, pairs: set<Ask>, list: seq<RequestRec>, k: string)
    requires Agree(ai, pairs, list)
    ensures k in ai.requestByKey <==> exists i :: 0 <= i < |list| && Keyed(list[i], k)
    ensures k in ai.requestByKey ==> LeadsTo(ai, k, list)
  {
    hide Listing;
    if k in ai.requestByKey {
      assert KeyResolves(ai, k);
      ListingMembers(ai.requests, list, ai.requests[ai.requestByKey[k]]);
    }
    if i :| 0 <= i < |list| && Keyed(list[i], k) {
      ListingMembers(ai.requests, list, list[i]);
      var s :| s in ai.requests && ai.requests[s] == list[i];
      assert FiledAt(ai, s, pairs);
    }
  }

  /** Over every run: a key resolves if and only if it is the identity or the transaction id of a
      request on the list, and then to such a request. */
  lemma KeyResolvesIff(es: seq<Event>, cx: Codec, pairs: set<Ask>, k: string)
    requires Unclashed(pairs) && RunAsked(es, pairs, cx)
    ensures var ai, list := Run(es, cx).ai, RunRequests(es, cx);
      && (k in ai.requestByKey <==> exists i :: 0 <= i < |list| && Keyed(list[i], k))
      && (k in ai.requestByKey ==> LeadsTo(ai, k, list))
  {
    hide *;
    RunAgrees(es, cx, pairs);
    ResolvesTo(Run(es, cx).ai, pairs, RunRequests(es, cx), k);
  }

  /** The request `p` is on the list. */
  predicate OnList(list: seq<RequestRec>, p: Ask) {
    exists i :: 0 <= i < |list| && (list[i].txId, list[i].request.identity) == p
  }

  lemma ResolvesIff(ai: Inference, pairs: set<Ask>, list: seq<RequestRec>, p: Ask)
    requires Agree(ai, pairs, list) && Unclashed(pairs) && p in pairs
    ensures p.0 in ai.requestByKey <==> OnList(list, p)
  {
    hide Listing;
    ResolvesTo(ai, pairs, list, p.0);
    if p.0 in ai.requestByKey {
      var s := ai.requestByKey[p.0];
      var i :| 0 <= i < |list| && list[i] == ai.requests[s];
      assert FiledAt(ai, s, pairs);
      var q := (ai.requests[s].txId, ai.requests[s].request.identity);
      assert q in pairs;
    }
    if i :| 0 <= i < |list| && (list[i].txId, list[i].request.identity) == p {
      assert Keyed(list[i], p.0);
    }
  }

  /** Over every run: a request resolves by its transaction id if and only if it is on the list,
      that is, if it was the first accepted under its identity since a sweep last freed that
      identity. */
  lemma RequestResolvesIff(es: seq<Event>, cx: Codec, pairs: set<Ask>, p: Ask)
    requires Unclashed(pairs) && RunAsked(es, pairs, cx) && p in pairs
    ensures p.0 in Run(es, cx).ai.requestByKey <==> OnList(RunRequests(es, cx), p)
  {
    hide *;
    RunAgrees(es, cx, pairs);
    ResolvesIff(Run(es, cx).ai, pairs, RunRequests(es, cx), p);
  }

  /** In particular for every stored request. */
  lemma StoredRequestResolvesIff(es: seq<Event>, cx: Codec, pairs: set<Ask>, n: nat)
    requires Unclashed(pairs) && RunAsked(es, pairs, cx) && n in Run(es, cx).core.rows.tx
    requires IsRequest(Run(es, cx).core.rows.tx[n].raw, cx)
    ensures var d := Run(es, cx);
      var raw := d.core.rows.tx[n].raw;
      raw.txId in d.ai.requestByKey <==> OnList(RunRequests(es, cx), (raw.txId, cx.request(raw).value.identity))
  {
    var raw := Run(es, cx).core.rows.tx[n].raw;
    var s := StoredWasIndexed(es, cx, n);
    hide Run, RunRequests, Unclashed, IsRequest, OnList, StoreBefore, MetBy, LedgerOf;
    assert raw == es[s.event].groups[s.group].txs[s.index];
    assert GroupsAsked(es[s.event].groups, pairs, cx) && AllAsked(es[s.event].groups[s.group].txs, pairs, cx);
    RequestResolvesIff(es, cx, pairs, (raw.txId, cx.request(raw).value.identity));
  }
}
