/** The inference tables over whole runs. Unwinding leaves them alone, so stale
    entries stay behind until a sweep; because numbers are never reassigned, a
    request's response list read through the transaction table is nevertheless
    exactly the stored responses that name it. */
module InferenceIndex {
  import opened Types
  import opened Scans
  import opened Tables
  import opened Lookups
  import opened Branches

  /** `raw` is a decodable AiResponse naming the request identity `rh`. */
  predicate Answers(raw: RawTx, rh: string, cx: Codec) {
    SubnetOf(raw) == AiResponse &&
    var p := cx.response(raw.payload);
    p.Some? && p.value.requestHash == rh
  }

  ghost predicate BelowCounter(d: Database) {
    && (forall n :: n in d.core.rows.tx ==> n < d.nextTxNum)
    && (forall rh, n :: (rh, n) in d.ai.responseList ==> n < d.nextTxNum)
  }

  /** On stored numbers, the list holds exactly the responses. */
  ghost predicate ListExact(tx: map<nat, IndexedTx>, list: set<(string, nat)>, cx: Codec) {
    forall rh, n :: n in tx ==> ((rh, n) in list <==> Answers(tx[n].raw, rh, cx))
  }

  ghost predicate ListInv(d: Database, cx: Codec) {
    BelowCounter(d) && ListExact(d.core.rows.tx, d.ai.responseList, cx)
  }

  // --- apply ---

  lemma IndexPayloadList(ai: Inference, num: nat, raw: RawTx, hash: string, daa: nat, cx: Codec, rh: string, n: nat)
    ensures (rh, n) in IndexPayload(ai, num, raw, hash, daa, cx).responseList <==>
      (rh, n) in ai.responseList || (n == num && Answers(raw, rh, cx))
  {
    hide SubnetOf;
    match SubnetOf(raw)
    case AiRequest =>
    case AiResponse =>
    case AiChallenge =>
    case OtherSubnet =>
  }

  lemma IndexTxList(ai: Inference, num: nat, raw: RawTx, hash: string, daa: nat, cx: Codec, rh: string, n: nat)
    ensures (rh, n) in IndexTx(ai, num, raw, hash, daa, cx).responseList <==>
      (rh, n) in ai.responseList || (n == num && Answers(raw, rh, cx))
  {
    hide IndexPayload, Answers;
    IndexPayloadList(ai, num, raw, hash, daa, cx, rh, n);
  }

  lemma IndexTxsSnoc(ai: Inference, num: nat, txs: seq<RawTx>, hash: string, daa: nat, cx: Codec)
    requires txs != []
    ensures var k := |txs| - 1;
      IndexTxs(ai, num, txs, hash, daa, cx) ==
        IndexTx(IndexTxs(ai, num, txs[..k], hash, daa, cx), num + k, txs[k], hash, daa, cx)
  {
    hide IndexTx;
  }

  lemma {:induction false} IndexTxsList(
    ai: Inference, num: nat, txs: seq<RawTx>, hash: string, daa: nat, cx: Codec, rh: string, n: nat)
    ensures (rh, n) in IndexTxs(ai, num, txs, hash, daa, cx).responseList <==>
      (rh, n) in ai.responseList || (num <= n < num + |txs| && Answers(txs[n - num], rh, cx))
    decreases |txs|
  {
    hide IndexTx, Answers;
    if txs != [] {
      var k := |txs| - 1;
      IndexTxsSnoc(ai, num, txs, hash, daa, cx);
      IndexTxsList(ai, num, txs[..k], hash, daa, cx, rh, n);
      IndexTxList(IndexTxs(ai, num, txs[..k], hash, daa, cx), num + k, txs[k], hash, daa, cx, rh, n);
    }
  }

  lemma ApplyFreshList(d: Database, g: Group, cx: Codec)
    requires ListInv(d, cx) && g.hash !in d.core.blocks.applied
    ensures ListInv(ApplyGroup(d, g, cx), cx)
  {
    hide ApplyGroup, InsertTxs, IndexTxs, Answers;
    var d', num := ApplyGroup(d, g, cx), d.nextTxNum;
    ApplyGroupRows(d, g, cx);
    InsertTxsAppends(d.core.rows, num, g.txs, g.hash, g.daa, cx.attr);
    forall rh, n: nat ensures (rh, n) in d'.ai.responseList ==> n < d'.nextTxNum {
      IndexTxsList(d.ai, num, g.txs, g.hash, g.daa, cx, rh, n);
    }
    forall rh, n | n in d'.core.rows.tx
      ensures (rh, n) in d'.ai.responseList <==> Answers(d'.core.rows.tx[n].raw, rh, cx)
    {
      IndexTxsList(d.ai, num, g.txs, g.hash, g.daa, cx, rh, n);
    }
  }

  lemma {:induction false} ApplyList(d: Database, gs: seq<Group>, cx: Codec)
    requires ListInv(d, cx)
    ensures ListInv(Apply(d, gs, cx), cx)
    decreases |gs|
  {
    hide *;
    if gs == [] {
      ApplyNone(d, cx);
    } else {
      var k := |gs| - 1;
      var mid := Apply(d, gs[..k], cx);
      ApplyList(d, gs[..k], cx);
      ApplySnoc(d, gs, cx);
      if gs[k].hash in mid.core.blocks.applied {
        ApplyMarked(mid, gs[k], cx);
      } else {
        ApplyFreshList(mid, gs[k], cx);
      }
    }
  }

  // --- unwind and sweep ---

  ghost predicate Submap(small: map<nat, IndexedTx>, big: map<nat, IndexedTx>) {
    forall n :: n in small ==> n in big && small[n] == big[n]
  }

  lemma {:induction false} RemoveTxsShrinks(r: Rows, nums: seq<nat>)
    ensures Submap(RemoveTxs(r, nums).tx, r.tx)
    decreases |nums|
  {
    hide HistoryKeys, Uncredited;
    if nums != [] {
      RemoveTxsShrinks(RemoveTx(r, nums[|nums| - 1]), nums[..|nums| - 1]);
    }
  }

  lemma UnwindShrinks(c: Core, h: string)
    ensures Submap(UnwindBlock(c, h).rows.tx, c.rows.tx)
  {
    hide RemoveTxs, ForgetBlock;
    if h in c.blocks.acceptedBy {
      RemoveTxsShrinks(c.rows, c.blocks.acceptedBy[h]);
    }
  }

  lemma UnwindList(d: Database, h: string, cx: Codec)
    requires ListInv(d, cx)
    ensures ListInv(d.(core := UnwindBlock(d.core, h)), cx)
  {
    hide UnwindBlock, Answers;
    UnwindShrinks(d.core, h);
  }

  lemma ExpireParts(d: Database, cutoff: nat)
    ensures Submap(Expire(d, cutoff).core.rows.tx, d.core.rows.tx)
    ensures Expire(d, cutoff).nextTxNum == d.nextTxNum
    ensures forall rh, n :: (rh, n) in Expire(d, cutoff).ai.responseList <==>
      (rh, n) in d.ai.responseList && n in Expire(d, cutoff).core.rows.tx
  {
    hide Expired, DropBlocks;
  }

  lemma ExpireList(d: Database, cutoff: nat, cx: Codec)
    requires ListInv(d, cx)
    ensures ListInv(Expire(d, cutoff), cx)
  {
    hide Expire, Answers;
    ExpireParts(d, cutoff);
  }

  lemma StepList(d: Database, e: Event, cx: Codec)
    requires ListInv(d, cx)
    ensures ListInv(Step(d, e, cx), cx)
  {
    hide ListInv, Apply, UnwindBlock, Expire;
    match e
    case Applied(gs) => ApplyList(d, gs, cx);
    case Unwound(h) => UnwindList(d, h, cx);
    case Swept(c) => ExpireList(d, c, cx);
  }

  /** In every run of a fresh store the list, restricted to stored numbers, is exact. */
  lemma {:induction false} RunListInv(es: seq<Event>, cx: Codec)
    ensures ListInv(Run(es, cx), cx)
    decreases |es|
  {
    hide ListInv, Step;
    if es == [] {
      EmptyList(cx);
    } else {
      RunListInv(es[..|es| - 1], cx);
      StepList(Run(es[..|es| - 1], cx), es[|es| - 1], cx);
    }
  }

  lemma EmptyList(cx: Codec)
    ensures ListInv(EMPTY, cx)
  {
  }

  // --- reading a request's responses ---

  function ListNums(ai: Inference, rh: string): set<nat> {
    set e | e in ai.responseList && e.0 == rh :: e.1
  }

  /** The numbers of the stored transactions that answer `rh`. */
  function AnswerNums(tx: map<nat, IndexedTx>, rh: string, cx: Codec): set<nat> {
    set n | n in tx && Answers(tx[n].raw, rh, cx)
  }

  /** What the read keeps of a scan: entries whose transaction is stored and decodes. */
  function Readable(tx: map<nat, IndexedTx>, nums: seq<nat>, cx: Codec): seq<nat> {
    if nums == [] then []
    else
      var n := nums[|nums| - 1];
      Readable(tx, nums[..|nums| - 1], cx) +
      if n in tx && cx.response(tx[n].raw.payload).Some? then [n] else []
  }

  lemma ReadableLast(tx: map<nat, IndexedTx>, nums: seq<nat>, cx: Codec)
    requires nums != []
    ensures var pre, last := nums[..|nums| - 1], nums[|nums| - 1];
      Readable(tx, nums, cx) == Readable(tx, pre, cx) +
        if last in tx && cx.response(tx[last].raw.payload).Some? then [last] else []
  {
  }

  lemma ReadableStep(tx: map<nat, IndexedTx>, pre: seq<nat>, last: nat, xs: seq<nat>, cx: Codec)
    requires Increasing(pre + [last]) && Increasing(xs)
    requires forall n :: n in xs <==> n in pre && n in tx && cx.response(tx[n].raw.payload).Some?
    ensures var ys := xs + if last in tx && cx.response(tx[last].raw.payload).Some? then [last] else [];
      && Increasing(ys)
      && forall n :: n in ys <==> n in pre + [last] && n in tx && cx.response(tx[n].raw.payload).Some?
  {
    forall n | n in pre ensures n < last {
      var i :| 0 <= i < |pre| && pre[i] == n;
      assert (pre + [last])[i] < (pre + [last])[|pre|];
    }
    forall i | 0 <= i < |xs| ensures xs[i] < last {
      assert xs[i] in xs;
    }
    assert forall n :: n in pre + [last] <==> n in pre || n == last;
    assert forall n :: n in xs + [last] <==> n in xs || n == last;
    if !(last in tx && cx.response(tx[last].raw.payload).Some?) {
      assert xs + [] == xs;
    }
  }

  lemma {:induction false} ReadableIs(tx: map<nat, IndexedTx>, nums: seq<nat>, cx: Codec)
    requires Increasing(nums)
    ensures var xs := Readable(tx, nums, cx);
      && Increasing(xs)
      && forall n :: n in xs <==> n in nums && n in tx && cx.response(tx[n].raw.payload).Some?
    decreases |nums|
  {
    assert Readable(tx, [], cx) == [];
    hide Readable;
    if nums != [] {
      var pre, last := nums[..|nums| - 1], nums[|nums| - 1];
      ReadableIs(tx, pre, cx);
      ReadableLast(tx, nums, cx);
      ReadableStep(tx, pre, last, Readable(tx, pre, cx), cx);
      assert nums == pre + [last];
    }
  }

  lemma ListNumsMember(ai: Inference, rh: string, n: nat)
    ensures n in ListNums(ai, rh) <==> (rh, n) in ai.responseList
  {
    if (rh, n) in ai.responseList {
      assert (rh, n).1 in ListNums(ai, rh);
    }
  }

  /** Scanning the list and skipping what is gone yields exactly the stored answers,
      oldest first. */
  lemma ResponsesAreExact(d: Database, rh: string, cx: Codec)
    requires ListInv(d, cx)
    ensures Readable(d.core.rows.tx, Ascending(ListNums(d.ai, rh)), cx) ==
      Ascending(AnswerNums(d.core.rows.tx, rh, cx))
  {
    var tx, nums := d.core.rows.tx, Ascending(ListNums(d.ai, rh));
    var xs, ys := Readable(tx, nums, cx), Ascending(AnswerNums(tx, rh, cx));
    ReadableIs(tx, nums, cx);
    hide Readable, Ascending, ListNums, Increasing, BelowCounter;
    forall n ensures n in Members(xs) <==> n in Members(ys) {
      ListNumsMember(d.ai, rh, n);
      assert n in nums <==> n in Members(nums);
    }
    IncreasingIsUnique(xs, ys);
  }

  /** In every run of a fresh store, reorgs and sweeps included, the responses read for an
      identity are exactly the stored AiResponse transactions naming it, oldest first. */
  lemma RunResponses(es: seq<Event>, rh: string, cx: Codec)
    ensures var d := Run(es, cx);
      Readable(d.core.rows.tx, Ascending(ListNums(d.ai, rh)), cx) == Ascending(AnswerNums(d.core.rows.tx, rh, cx))
  {
    hide *;
    RunListInv(es, cx);
    ResponsesAreExact(Run(es, cx), rh, cx);
  }

  // --- requests ---

  /** Every request key points to a stored request that carries it, and sequence numbers
      are below the counter. */
  ghost predicate KeysInv(ai: Inference) {
    && (forall s :: s in ai.requests ==> s < ai.requestSeq)
    && (forall k :: k in ai.requestByKey ==> KeyResolves(ai, k))
  }

  predicate KeyResolves(ai: Inference, k: string)
    requires k in ai.requestByKey
  {
    var s := ai.requestByKey[k];
    s in ai.requests && (ai.requests[s].request.identity == k || ai.requests[s].txId == k)
  }

  lemma IndexRequestKeys(ai: Inference, raw: RawTx, hash: string, daa: nat, q: Request)
    requires KeysInv(ai)
    ensures KeysInv(IndexRequest(ai, raw, hash, daa, q))
  {
    var ai' := IndexRequest(ai, raw, hash, daa, q);
    forall k | k in ai'.requestByKey ensures KeyResolves(ai', k) {
      if k in ai.requestByKey {
        assert KeyResolves(ai, k);
      }
    }
  }

  lemma KeysFrame(ai: Inference, ai': Inference)
    requires KeysInv(ai) && ai'.requests == ai.requests && ai'.requestByKey == ai.requestByKey
    requires ai'.requestSeq == ai.requestSeq
    ensures KeysInv(ai')
  {
    forall k | k in ai'.requestByKey ensures KeyResolves(ai', k) {
      assert KeyResolves(ai, k);
    }
  }

  lemma IndexPayloadKeys(ai: Inference, num: nat, raw: RawTx, hash: string, daa: nat, cx: Codec)
    requires KeysInv(ai)
    ensures KeysInv(IndexPayload(ai, num, raw, hash, daa, cx))
  {
    hide SubnetOf, KeysInv, IndexRequest;
    match SubnetOf(raw)
    case AiRequest =>
      if cx.request(raw).Some? { IndexRequestKeys(ai, raw, hash, daa, cx.request(raw).value); }
    case AiResponse => KeysFrame(ai, IndexPayload(ai, num, raw, hash, daa, cx));
    case AiChallenge => KeysFrame(ai, IndexPayload(ai, num, raw, hash, daa, cx));
    case OtherSubnet =>
  }

  lemma IndexTxKeys(ai: Inference, num: nat, raw: RawTx, hash: string, daa: nat, cx: Codec)
    requires KeysInv(ai)
    ensures KeysInv(IndexTx(ai, num, raw, hash, daa, cx))
  {
    hide IndexPayload, KeysInv;
    IndexPayloadKeys(ai, num, raw, hash, daa, cx);
    KeysFrame(IndexPayload(ai, num, raw, hash, daa, cx), IndexTx(ai, num, raw, hash, daa, cx));
  }

  lemma {:induction false} IndexTxsKeys(ai: Inference, num: nat, txs: seq<RawTx>, hash: string, daa: nat, cx: Codec)
    requires KeysInv(ai)
    ensures KeysInv(IndexTxs(ai, num, txs, hash, daa, cx))
    decreases |txs|
  {
    hide KeysInv, IndexTx;
    if txs != [] {
      var k := |txs| - 1;
      IndexTxsSnoc(ai, num, txs, hash, daa, cx);
      IndexTxsKeys(ai, num, txs[..k], hash, daa, cx);
      IndexTxKeys(IndexTxs(ai, num, txs[..k], hash, daa, cx), num + k, txs[k], hash, daa, cx);
    }
  }

  lemma {:induction false} ApplyKeys(d: Database, gs: seq<Group>, cx: Codec)
    requires KeysInv(d.ai)
    ensures KeysInv(Apply(d, gs, cx).ai)
    decreases |gs|
  {
    hide *;
    if gs == [] {
      ApplyNone(d, cx);
    } else {
      var k := |gs| - 1;
      var mid := Apply(d, gs[..k], cx);
      ApplyKeys(d, gs[..k], cx);
      ApplySnoc(d, gs, cx);
      if gs[k].hash in mid.core.blocks.applied {
        ApplyMarked(mid, gs[k], cx);
      } else {
        ApplyGroupRows(mid, gs[k], cx);
        IndexTxsKeys(mid.ai, mid.nextTxNum, gs[k].txs, gs[k].hash, gs[k].daa, cx);
      }
    }
  }

  lemma ExpireKeys(ai: Inference, live: set<nat>, cutoff: nat)
    requires KeysInv(ai)
    ensures KeysInv(ExpireInference(ai, live, cutoff))
  {
    var ai' := ExpireInference(ai, live, cutoff);
    forall k | k in ai'.requestByKey ensures KeyResolves(ai', k) {
      assert KeyResolves(ai, k);
    }
  }

  /** In every run, every request key resolves. */
  lemma {:induction false} RunKeysInv(es: seq<Event>, cx: Codec)
    ensures KeysInv(Run(es, cx).ai)
    decreases |es|
  {
    if es != [] {
      var d, e := Run(es[..|es| - 1], cx), es[|es| - 1];
      RunKeysInv(es[..|es| - 1], cx);
      StepKeys(d, e, cx);
    }
    hide Step;
  }

  lemma StepKeys(d: Database, e: Event, cx: Codec)
    requires KeysInv(d.ai)
    ensures KeysInv(Step(d, e, cx).ai)
  {
    hide KeysInv, Apply, UnwindBlock, ExpireCore, ExpireInference;
    match e
    case Applied(gs) => ApplyKeys(d, gs, cx);
    case Unwound(h) =>
    case Swept(c) => ExpireKeys(d.ai, ExpireCore(d.core, c).rows.tx.Keys, c);
  }

  /** Nothing the sweep at `cutoff` is responsible for is left behind, and what is left is closed. */
  ghost predicate SweptClean(d: Database, cutoff: nat) {
    && (forall s :: s in d.ai.requests ==> d.ai.requests[s].daa >= cutoff)
    && (forall k :: k in d.ai.firstResponse ==> d.ai.firstResponse[k].daa >= cutoff)
    && (forall s :: s in d.ai.challenges ==> d.ai.challenges[s].daa >= cutoff)
    && (forall k :: k in d.ai.capabilities ==> d.ai.capabilities[k] >= cutoff)
    && (forall e :: e in d.ai.responseList ==> e.1 in d.core.rows.tx)
    && (forall h :: h in d.ai.responseHash ==> d.ai.responseHash[h] in d.ai.requestByKey)
    && KeysInv(d.ai)
  }

  /** After any sweep of any run: no inference row below the cutoff, every list entry names a
      stored transaction, every response hash resolves to an indexed request key, and every
      request key to a stored request carrying it. */
  lemma SweepClosesInference(es: seq<Event>, cutoff: nat, cx: Codec)
    ensures SweptClean(Run(es + [Swept(cutoff)], cx), cutoff)
  {
    var d := Run(es, cx);
    RunKeysInv(es + [Swept(cutoff)], cx);
    assert (es + [Swept(cutoff)])[..|es|] == es;
    assert Run(es + [Swept(cutoff)], cx) == Expire(d, cutoff) by { hide Expire; }
    hide Run, ExpireCore, KeysInv;
  }

  // --- the whole read ---

  /** A stored response with what its payload decodes to. */
  datatype Reply = Reply(tx: IndexedTx, decoded: Response)

  datatype Detail = Detail(request: RequestRec, first: Option<ResponseRec>, responses: seq<Reply>)

  /** The feed's response to a request: filed under its identity, else under its tx id. */
  function FirstResponse(ai: Inference, q: RequestRec): Option<ResponseRec> {
    if q.request.identity in ai.firstResponse then Some(ai.firstResponse[q.request.identity])
    else if q.txId in ai.firstResponse then Some(ai.firstResponse[q.txId])
    else None
  }

  /** What is shown is the response filed under the identity, if any; else the one filed under
      the transaction id, if any; else nothing. */
  predicate ShowsFirst(ai: Inference, q: RequestRec, shown: Option<ResponseRec>) {
    var id := q.request.identity;
    && (id in ai.firstResponse ==> shown == Some(ai.firstResponse[id]))
    && (id !in ai.firstResponse && q.txId in ai.firstResponse ==> shown == Some(ai.firstResponse[q.txId]))
    && (id !in ai.firstResponse && q.txId !in ai.firstResponse ==> shown == None)
  }

  lemma FirstIsShown(ai: Inference, q: RequestRec)
    ensures ShowsFirst(ai, q, FirstResponse(ai, q))
  {
  }

  function RepliesAt(tx: map<nat, IndexedTx>, nums: seq<nat>, cx: Codec): seq<Reply>
    requires forall n :: n in nums ==> n in tx && cx.response(tx[n].raw.payload).Some?
  {
    seq(|nums|, i requires 0 <= i < |nums| => Reply(tx[nums[i]], cx.response(tx[nums[i]].raw.payload).value))
  }

  lemma AnswerScan(tx: map<nat, IndexedTx>, rh: string, cx: Codec)
    ensures forall n :: n in Ascending(AnswerNums(tx, rh, cx)) ==> n in tx && cx.response(tx[n].raw.payload).Some?
  {
    forall n | n in Ascending(AnswerNums(tx, rh, cx)) ensures n in tx && cx.response(tx[n].raw.payload).Some? {
      assert n in Members(Ascending(AnswerNums(tx, rh, cx)));
    }
  }

  /** Every stored transaction that answers `rh`, decoded, in acceptance order. */
  function AnswersTo(tx: map<nat, IndexedTx>, rh: string, cx: Codec): seq<Reply> {
    AnswerScan(tx, rh, cx);
    RepliesAt(tx, Ascending(AnswerNums(tx, rh, cx)), cx)
  }

  /** `inference_by_tx`. */
  function DetailOf(d: Database, txId: string, cx: Codec): Option<Detail> {
    if txId in d.ai.requestByKey && d.ai.requestByKey[txId] in d.ai.requests
    then
      var q := d.ai.requests[d.ai.requestByKey[txId]];
      Some(Detail(q, FirstResponse(d.ai, q), AnswersTo(d.core.rows.tx, q.request.identity, cx)))
    else None
  }

  /** A stored response transaction whose payload decodes and names `rh`. */
  predicate NamesRequest(raw: RawTx, rh: string, cx: Codec) {
    raw.subnetworkId == SUBNET_AI_RESPONSE && cx.response(raw.payload).Some? &&
    cx.response(raw.payload).value.requestHash == rh
  }

  /** Entry by entry: the i-th reply is the i-th such transaction by number, with its decoding. */
  ghost predicate Lists(replies: seq<Reply>, tx: map<nat, IndexedTx>, rh: string, cx: Codec) {
    exists nums: seq<nat> :: ListsAt(replies, nums, tx, rh, cx)
  }

  ghost predicate ListsAt(replies: seq<Reply>, nums: seq<nat>, tx: map<nat, IndexedTx>, rh: string, cx: Codec) {
    && Increasing(nums) && |replies| == |nums|
    && (forall n :: n in nums <==> n in tx && NamesRequest(tx[n].raw, rh, cx))
    && forall i :: 0 <= i < |nums| ==>
         && nums[i] in tx && replies[i].tx == tx[nums[i]]
         && Some(replies[i].decoded) == cx.response(tx[nums[i]].raw.payload)
  }

  lemma SubnetIsResponse(raw: RawTx)
    ensures SubnetOf(raw) == AiResponse <==> raw.subnetworkId == SUBNET_AI_RESPONSE
  {
    assert SUBNET_AI_REQUEST[1] != SUBNET_AI_RESPONSE[1];
  }

  lemma AnswersIff(raw: RawTx, rh: string, cx: Codec)
    ensures Answers(raw, rh, cx) <==> NamesRequest(raw, rh, cx)
  {
    hide SubnetOf;
    SubnetIsResponse(raw);
  }

  lemma RepliesAreListed(tx: map<nat, IndexedTx>, rh: string, cx: Codec)
    ensures Lists(AnswersTo(tx, rh, cx), tx, rh, cx)
  {
    hide Ascending, Answers, NamesRequest;
    AnswerScan(tx, rh, cx);
    var nums := Ascending(AnswerNums(tx, rh, cx));
    forall n ensures n in nums <==> n in tx && NamesRequest(tx[n].raw, rh, cx) {
      assert n in nums <==> n in Members(nums);
      if n in tx { AnswersIff(tx[n].raw, rh, cx); }
    }
    forall i | 0 <= i < |nums| ensures nums[i] in tx && cx.response(tx[nums[i]].raw.payload).Some? {
      assert nums[i] in nums;
    }
    assert ListsAt(AnswersTo(tx, rh, cx), nums, tx, rh, cx);
  }
}
