/** Which response the feed and the detail show for a request. A reorg does not touch
    the table of first responses, so a record outlives the removal of its block. */
module Responses {
  import opened Types
  import opened Scans
  import opened Tables
  import opened Coupling
  import opened Branches
  import opened InferenceIndex
  import opened FeedModel
  import opened StoreModel
  import opened Listings
  import opened Requests
  import opened Runs
  import opened Accounts

  // --- which response is first ---

  /** The acceptance a request hash's first response was recorded from. */
  datatype First = First(num: nat, rec: ResponseRec)

  function RecordOf(raw: RawTx, hash: string, daa: nat, p: Response): ResponseRec {
    ResponseRec(p.cid, hash, p.length, daa, raw.txId, p.responder, p.body.Some?)
  }

  function FirstTx(
    c: Option<First>, num: nat, raw: RawTx, hash: string, daa: nat, rh: string, cx: Codec): Option<First>
  {
    if c.None? && Answers(raw, rh, cx)
    then Some(First(num, RecordOf(raw, hash, daa, cx.response(raw.payload).value)))
    else c
  }

  function FirstTxs(
    c: Option<First>, num: nat, txs: seq<RawTx>, hash: string, daa: nat, rh: string, cx: Codec): Option<First>
  {
    if txs == [] then c
    else
      var k := |txs| - 1;
      FirstTx(FirstTxs(c, num, txs[..k], hash, daa, rh, cx), num + k, txs[k], hash, daa, rh, cx)
  }

  function FirstGroups(c: Option<First>, num: nat, gs: seq<Group>, rh: string, cx: Codec): Option<First> {
    if gs == [] then c
    else
      var k := |gs| - 1;
      FirstTxs(FirstGroups(c, num, gs[..k], rh, cx), num + |AllTxs(gs[..k])|, gs[k].txs, gs[k].hash, gs[k].daa, rh, cx)
  }

  /** The sweep at `cutoff` drops a request whose identity or transaction id is `rh`. */
  ghost predicate DropsRequest(ai: Inference, cutoff: nat, rh: string) {
    exists s :: s in ai.requests && ai.requests[s].daa < cutoff && Keyed(ai.requests[s], rh)
  }

  /** The first accepted response is recorded; a sweep clears it with its DAA or with its request,
      a reorg does not. */
  ghost function NextFirst(c: Option<First>, d: Database, e: Event, rh: string, cx: Codec): Option<First> {
    match e
    case Applied(gs) => FirstGroups(c, d.nextTxNum, Fresh(d, gs, cx), rh, cx)
    case Unwound(h) => c
    case Swept(cutoff) =>
      if c.Some? && (c.value.rec.daa < cutoff || DropsRequest(d.ai, cutoff, rh)) then None else c
  }

  ghost function RunFirst(es: seq<Event>, rh: string, cx: Codec): Option<First> {
    if es == [] then None
    else
      var k := |es| - 1;
      NextFirst(RunFirst(es[..k], rh, cx), Run(es[..k], cx), es[k], rh, cx)
  }

  predicate FirstIs(ai: Inference, rh: string, c: Option<First>) {
    (rh in ai.firstResponse <==> c.Some?) && (c.Some? ==> ai.firstResponse[rh] == c.value.rec)
  }

  lemma FirstOfPayload(ai: Inference, num: nat, raw: RawTx, hash: string, daa: nat, cx: Codec, rh: string)
    ensures var ai' := IndexPayload(ai, num, raw, hash, daa, cx);
      if rh !in ai.firstResponse && Answers(raw, rh, cx)
      then rh in ai'.firstResponse && ai'.firstResponse[rh] == RecordOf(raw, hash, daa, cx.response(raw.payload).value)
      else (rh in ai'.firstResponse <==> rh in ai.firstResponse) &&
           (rh in ai.firstResponse ==> ai'.firstResponse[rh] == ai.firstResponse[rh])
  {
    hide SubnetOf, IndexRequest;
    RequestLeavesFirst(ai, raw, hash, daa, cx);
  }

  lemma RequestLeavesFirst(ai: Inference, raw: RawTx, hash: string, daa: nat, cx: Codec)
    ensures cx.request(raw).Some? ==>
      IndexRequest(ai, raw, hash, daa, cx.request(raw).value).firstResponse == ai.firstResponse
  {
  }

  lemma CapabilitiesLeaveFirst(ai: Inference, num: nat, raw: RawTx, hash: string, daa: nat, cx: Codec)
    ensures IndexTx(ai, num, raw, hash, daa, cx).firstResponse ==
      IndexPayload(ai, num, raw, hash, daa, cx).firstResponse
  {
    hide IndexPayload;
  }

  lemma FirstOfTx(ai: Inference, num: nat, raw: RawTx, hash: string, daa: nat, cx: Codec, rh: string, c: Option<First>)
    requires FirstIs(ai, rh, c)
    ensures FirstIs(IndexTx(ai, num, raw, hash, daa, cx), rh, FirstTx(c, num, raw, hash, daa, rh, cx))
  {
    hide IndexTx, IndexPayload, Answers, RecordOf;
    FirstOfPayload(ai, num, raw, hash, daa, cx, rh);
    CapabilitiesLeaveFirst(ai, num, raw, hash, daa, cx);
  }

  lemma {:induction false} FirstOfTxs(
    ai: Inference, num: nat, txs: seq<RawTx>, hash: string, daa: nat, cx: Codec, rh: string, c: Option<First>)
    requires FirstIs(ai, rh, c)
    ensures FirstIs(IndexTxs(ai, num, txs, hash, daa, cx), rh, FirstTxs(c, num, txs, hash, daa, rh, cx))
    decreases |txs|
  {
    hide FirstIs, IndexTx, FirstTx;
    if txs != [] {
      var k := |txs| - 1;
      IndexTxsSnoc(ai, num, txs, hash, daa, cx);
      FirstOfTxs(ai, num, txs[..k], hash, daa, cx, rh, c);
      FirstOfTx(IndexTxs(ai, num, txs[..k], hash, daa, cx), num + k, txs[k], hash, daa, cx, rh,
                FirstTxs(c, num, txs[..k], hash, daa, rh, cx));
    }
  }

  lemma FirstGroupsSnoc(c: Option<First>, num: nat, gs: seq<Group>, g: Group, rh: string, cx: Codec)
    ensures FirstGroups(c, num, gs + [g], rh, cx) ==
      FirstTxs(FirstGroups(c, num, gs, rh, cx), num + |AllTxs(gs)|, g.txs, g.hash, g.daa, rh, cx)
  {
    hide FirstTxs, AllTxs;
    assert (gs + [g])[..|gs|] == gs;
  }

  lemma {:induction false} FirstOfApply(d: Database, gs: seq<Group>, cx: Codec, rh: string, c: Option<First>)
    requires FirstIs(d.ai, rh, c)
    ensures FirstIs(Apply(d, gs, cx).ai, rh, FirstGroups(c, d.nextTxNum, Fresh(d, gs, cx), rh, cx))
    ensures Apply(d, gs, cx).nextTxNum == d.nextTxNum + |AllTxs(Fresh(d, gs, cx))|
    decreases |gs|
  {
    hide *;
    if gs == [] {
      ApplyNone(d, cx);
      FirstOfNothing(d, rh, c, cx);
    } else {
      var k := |gs| - 1;
      var mid, added := Apply(d, gs[..k], cx), Fresh(d, gs[..k], cx);
      assert gs[..k + 1] == gs;
      FreshSnoc(d, gs, k, cx);
      FirstOfApply(d, gs[..k], cx, rh, c);
      if gs[k].hash in mid.core.blocks.applied {
        ApplyMarked(mid, gs[k], cx);
      } else {
        ApplyGroupRows(mid, gs[k], cx);
        FirstGroupsSnoc(c, d.nextTxNum, added, gs[k], rh, cx);
        AllTxsSnoc(added, gs[k]);
        FirstOfTxs(mid.ai, mid.nextTxNum, gs[k].txs, gs[k].hash, gs[k].daa, cx, rh,
                   FirstGroups(c, d.nextTxNum, added, rh, cx));
      }
    }
  }

  lemma FirstOfNothing(d: Database, rh: string, c: Option<First>, cx: Codec)
    ensures AllTxs(Fresh(d, [], cx)) == [] && FirstGroups(c, d.nextTxNum, Fresh(d, [], cx), rh, cx) == c
  {
  }

  lemma FirstOfSweep(ai: Inference, live: set<nat>, cutoff: nat, rh: string, c: Option<First>)
    requires FirstIs(ai, rh, c)
    ensures FirstIs(ExpireInference(ai, live, cutoff), rh,
                    if c.Some? && (c.value.rec.daa < cutoff || DropsRequest(ai, cutoff, rh)) then None else c)
  {
    var stale := ai.requests.Keys - Kept(ai.requests, OldRequest(cutoff)).Keys;
    StaleKeys(ai, cutoff, rh);
    hide KeysOf, DropsRequest;
  }

  lemma StaleKeys(ai: Inference, cutoff: nat, rh: string)
    ensures rh in KeysOf(ai, ai.requests.Keys - Kept(ai.requests, OldRequest(cutoff)).Keys) <==>
      DropsRequest(ai, cutoff, rh)
  {
    var stale := ai.requests.Keys - Kept(ai.requests, OldRequest(cutoff)).Keys;
    assert forall s :: s in stale <==> s in ai.requests && ai.requests[s].daa < cutoff;
    if s :| s in ai.requests && ai.requests[s].daa < cutoff && Keyed(ai.requests[s], rh) {
      assert s in stale;
    }
    if rh in KeysOf(ai, stale) {
      var s :| s in stale && (ai.requests[s].request.identity == rh || ai.requests[s].txId == rh);
      assert Keyed(ai.requests[s], rh);
    }
  }

  lemma FirstOfStep(d: Database, e: Event, cx: Codec, rh: string, c: Option<First>)
    requires FirstIs(d.ai, rh, c)
    ensures FirstIs(Step(d, e, cx).ai, rh, NextFirst(c, d, e, rh, cx))
  {
    hide FirstIs, Apply, UnwindBlock, ExpireCore, ExpireInference, FirstGroups, Fresh, DropsRequest;
    match e
    case Applied(gs) => FirstOfApply(d, gs, cx, rh, c);
    case Unwound(h) =>
    case Swept(cutoff) => FirstOfSweep(d.ai, ExpireCore(d.core, cutoff).rows.tx.Keys, cutoff, rh, c);
  }

  /** Over every run the response the feed shows for a request hash is the first one accepted since
      the last sweep that cleared it, whether or not that acceptance has been removed since. */
  lemma {:induction false} RunFirstIs(es: seq<Event>, cx: Codec, rh: string)
    ensures FirstIs(Run(es, cx).ai, rh, RunFirst(es, rh, cx))
    decreases |es|
  {
    if es != [] {
      hide FirstIs, Step, NextFirst;
      RunFirstIs(es[..|es| - 1], cx, rh);
      FirstOfStep(Run(es[..|es| - 1], cx), es[|es| - 1], cx, rh, RunFirst(es[..|es| - 1], rh, cx));
    }
  }

  // --- is it still stored ---

  /** If acceptance `c.num` is still stored, it is the transaction the record names. */
  ghost predicate Backed(d: Database, rh: string, c: Option<First>, cx: Codec) {
    c.Some? ==>
      && c.value.num < d.nextTxNum
      && (c.value.num in d.core.rows.tx ==> Names(d.core.rows.tx[c.value.num], c.value.rec, rh, cx))
  }

  predicate Names(itx: IndexedTx, rec: ResponseRec, rh: string, cx: Codec) {
    itx.raw.txId == rec.txId && itx.block == rec.block && itx.daa == rec.daa && Answers(itx.raw, rh, cx)
  }

  lemma {:induction false} FirstTxsIs(
    c: Option<First>, num: nat, txs: seq<RawTx>, hash: string, daa: nat, rh: string, cx: Codec)
    ensures var r := FirstTxs(c, num, txs, hash, daa, rh, cx);
      r == c || (c.None? && r.Some? && exists i :: 0 <= i < |txs| && FirstAt(r.value, num, txs, i, hash, daa, rh, cx))
    decreases |txs|
  {
    hide Answers, RecordOf;
    if txs != [] {
      var k := |txs| - 1;
      FirstTxsIs(c, num, txs[..k], hash, daa, rh, cx);
      var mid, r := FirstTxs(c, num, txs[..k], hash, daa, rh, cx), FirstTxs(c, num, txs, hash, daa, rh, cx);
      if mid != c {
        var i :| 0 <= i < k && FirstAt(mid.value, num, txs[..k], i, hash, daa, rh, cx);
        assert FirstAt(r.value, num, txs, i, hash, daa, rh, cx);
      } else if r != c {
        assert FirstAt(r.value, num, txs, k, hash, daa, rh, cx);
      }
    }
  }

  /** `f` was recorded from the transaction at position `i`. */
  ghost predicate FirstAt(
    f: First, num: nat, txs: seq<RawTx>, i: nat, hash: string, daa: nat, rh: string, cx: Codec)
  {
    i < |txs| && f.num == num + i && Answers(txs[i], rh, cx) &&
    f.rec == RecordOf(txs[i], hash, daa, cx.response(txs[i].payload).value)
  }

  lemma BackedGroup(d: Database, g: Group, cx: Codec, books: Log, rh: string, c: Option<First>)
    requires Inv(d, books) && g.hash !in d.core.blocks.applied && Backed(d, rh, c, cx)
    ensures Backed(ApplyGroup(d, g, cx), rh, FirstTxs(c, d.nextTxNum, g.txs, g.hash, g.daa, rh, cx), cx)
  {
    var d', num, r := ApplyGroup(d, g, cx), d.nextTxNum, FirstTxs(c, d.nextTxNum, g.txs, g.hash, g.daa, rh, cx);
    hide ApplyGroup, Inv, FirstTxs, Answers;
    FirstTxsIs(c, num, g.txs, g.hash, g.daa, rh, cx);
    EnteredOne(d, g, cx, books);
    ApplyGroupKeeps(d, g, cx, books);
    if r == c {
      hide Entered, Since;
    } else {
      var i :| 0 <= i < |g.txs| && FirstAt(r.value, num, g.txs, i, g.hash, g.daa, rh, cx);
      var entries := Since(d'.core.rows.tx, num);
      assert num + i in entries && entries[num + i] == d'.core.rows.tx[num + i];
    }
  }

  lemma {:induction false} BackedApply(d: Database, gs: seq<Group>, cx: Codec, books: Log, rh: string, c: Option<First>)
    requires Inv(d, books) && Backed(d, rh, c, cx) && FirstIs(d.ai, rh, c)
    ensures Backed(Apply(d, gs, cx), rh, FirstGroups(c, d.nextTxNum, Fresh(d, gs, cx), rh, cx), cx)
    decreases |gs|
  {
    hide *;
    if gs == [] {
      ApplyNone(d, cx);
      FirstOfNothing(d, rh, c, cx);
    } else {
      var k := |gs| - 1;
      var mid, added := Apply(d, gs[..k], cx), Fresh(d, gs[..k], cx);
      assert gs[..k + 1] == gs;
      FreshSnoc(d, gs, k, cx);
      BackedApply(d, gs[..k], cx, books, rh, c);
      FirstOfApply(d, gs[..k], cx, rh, c);
      ApplyKeeps(d, gs[..k], cx, books);
      if gs[k].hash in mid.core.blocks.applied {
        ApplyMarked(mid, gs[k], cx);
      } else {
        FirstGroupsSnoc(c, d.nextTxNum, added, gs[k], rh, cx);
        BackedGroup(mid, gs[k], cx, books + Since(mid.core.rows.tx, d.nextTxNum), rh,
                    FirstGroups(c, d.nextTxNum, added, rh, cx));
      }
    }
  }

  lemma BackedLess(d: Database, d': Database, rh: string, c: Option<First>, cx: Codec)
    requires Backed(d, rh, c, cx) && Submap(d'.core.rows.tx, d.core.rows.tx) && d'.nextTxNum == d.nextTxNum
    ensures Backed(d', rh, c, cx) && Backed(d', rh, None, cx)
  {
    hide Names;
  }

  lemma BackedStep(d: Database, e: Event, cx: Codec, books: Log, rh: string, c: Option<First>)
    requires Inv(d, books) && Backed(d, rh, c, cx) && FirstIs(d.ai, rh, c)
    ensures Backed(Step(d, e, cx), rh, NextFirst(c, d, e, rh, cx), cx)
  {
    hide Inv, Backed, FirstIs, Apply, UnwindBlock, Expire, Submap, FirstGroups, Fresh, DropsRequest;
    match e
    case Applied(gs) => BackedApply(d, gs, cx, books, rh, c);
    case Unwound(h) =>
      UnwindShrinks(d.core, h);
      BackedLess(d, d.(core := UnwindBlock(d.core, h)), rh, c, cx);
    case Swept(cutoff) =>
      ExpireParts(d, cutoff);
      BackedLess(d, Expire(d, cutoff), rh, c, cx);
  }

  /** Over every run: while the acceptance a first response was recorded from is still stored, it is
      the transaction the record names, under that block and DAA; otherwise the record outlives it. */
  lemma {:induction false} RunFirstIsBacked(es: seq<Event>, cx: Codec, rh: string)
    ensures Backed(Run(es, cx), rh, RunFirst(es, rh, cx), cx)
    decreases |es|
  {
    if es != [] {
      hide Inv, Backed, FirstIs, Step, NextFirst;
      var pre := es[..|es| - 1];
      RunFirstIsBacked(pre, cx, rh);
      RunFirstIs(pre, cx, rh);
      RunInv(pre, cx);
      BackedStep(Run(pre, cx), es[|es| - 1], cx, RunBooks(pre, cx), rh, RunFirst(pre, rh, cx));
    }
  }

  // --- has it been removed ---

  /** Whether the recorded acceptance has escaped removal: `c` is recorded before the event, `c'` after. */
  predicate NextStands(stands: bool, c: Option<First>, c': Option<First>, e: Event) {
    match e
    case Applied(gs) => stands
    case Unwound(h) => stands && (c.Some? ==> c.value.rec.block != h)
    case Swept(cutoff) => stands || c'.None?
  }

  /** No block has been removed since a response accepted in it was recorded as the first. */
  ghost predicate RunStands(es: seq<Event>, rh: string, cx: Codec) {
    if es == [] then true
    else
      var k := |es| - 1;
      NextStands(RunStands(es[..k], rh, cx), RunFirst(es[..k], rh, cx), RunFirst(es, rh, cx), es[k])
  }

  /** A recorded acceptance that stands is stored and listed for its block; one that does not is gone. */
  ghost predicate Standing(core: Core, c: Option<First>, stands: bool) {
    && (c.None? ==> stands)
    && (c.Some? ==>
          && (c.value.num in core.rows.tx <==> stands)
          && (stands ==> ListedAt(core.blocks, c.value.rec.block, c.value.num)))
  }

  predicate ListedAt(b: Blocks, h: string, n: nat) {
    h in b.acceptedBy && n in b.acceptedBy[h]
  }

  lemma ListedStays(b: Blocks, h: string, daa: nat, nums: seq<nat>, x: string, n: nat)
    requires b.applied.Keys == b.acceptedBy.Keys && h !in b.applied && ListedAt(b, x, n)
    ensures ListedAt(RecordBlock(b, h, daa, nums), x, n)
  {
  }

  lemma NewListed(b: Blocks, h: string, daa: nat, num: nat, k: nat, i: nat)
    requires i < k
    ensures ListedAt(RecordBlock(b, h, daa, Numbers(num, k)), h, num + i)
  {
    assert Numbers(num, k)[i] == num + i;
  }

  lemma StandsGroup(d: Database, g: Group, cx: Codec, books: Log, rh: string, c: Option<First>, stands: bool)
    requires Inv(d, books) && g.hash !in d.core.blocks.applied && Backed(d, rh, c, cx) && Standing(d.core, c, stands)
    ensures Standing(ApplyGroup(d, g, cx).core, FirstTxs(c, d.nextTxNum, g.txs, g.hash, g.daa, rh, cx), stands)
  {
    var d', num, r := ApplyGroup(d, g, cx), d.nextTxNum, FirstTxs(c, d.nextTxNum, g.txs, g.hash, g.daa, rh, cx);
    hide ApplyGroup, RowsInv, Listed, FirstTxs, Answers, ListedAt, RecordBlock, Numbers, InsertTxs, IndexTxs, Names;
    FirstTxsIs(c, num, g.txs, g.hash, g.daa, rh, cx);
    ApplyGroupKeeps(d, g, cx, books);
    ApplyGroupRows(d, g, cx);
    if r == c {
      if c.Some? && stands {
        ListedStays(d.core.blocks, g.hash, g.daa, Numbers(num, |g.txs|), c.value.rec.block, c.value.num);
      }
    } else {
      var i :| 0 <= i < |g.txs| && FirstAt(r.value, num, g.txs, i, g.hash, g.daa, rh, cx);
      EnteredOne(d, g, cx, books);
      var entries := Since(d'.core.rows.tx, num);
      assert num + i in entries && entries[num + i] == d'.core.rows.tx[num + i];
      NewListed(d.core.blocks, g.hash, g.daa, num, |g.txs|, i);
    }
  }

  lemma {:induction false} StandsApply(
    d: Database, gs: seq<Group>, cx: Codec, books: Log, rh: string, c: Option<First>, stands: bool)
    requires Inv(d, books) && Backed(d, rh, c, cx) && FirstIs(d.ai, rh, c) && Standing(d.core, c, stands)
    ensures Standing(Apply(d, gs, cx).core, FirstGroups(c, d.nextTxNum, Fresh(d, gs, cx), rh, cx), stands)
    decreases |gs|
  {
    hide *;
    if gs == [] {
      ApplyNone(d, cx);
      FirstOfNothing(d, rh, c, cx);
    } else {
      var k := |gs| - 1;
      var mid, added := Apply(d, gs[..k], cx), Fresh(d, gs[..k], cx);
      assert gs[..k + 1] == gs;
      FreshSnoc(d, gs, k, cx);
      StandsApply(d, gs[..k], cx, books, rh, c, stands);
      BackedApply(d, gs[..k], cx, books, rh, c);
      FirstOfApply(d, gs[..k], cx, rh, c);
      ApplyKeeps(d, gs[..k], cx, books);
      if gs[k].hash in mid.core.blocks.applied {
        ApplyMarked(mid, gs[k], cx);
      } else {
        FirstGroupsSnoc(c, d.nextTxNum, added, gs[k], rh, cx);
        StandsGroup(mid, gs[k], cx, books + Since(mid.core.rows.tx, d.nextTxNum), rh,
                    FirstGroups(c, d.nextTxNum, added, rh, cx), stands);
      }
    }
  }

  /** Removing block `h` takes out the acceptances listed for it, and no other block's. */
  lemma StandsRemoved(d: Database, h: string, c: Option<First>, stands: bool, books: Log, rh: string, cx: Codec)
    requires Inv(d, books) && Backed(d, rh, c, cx) && Standing(d.core, c, stands)
    ensures Standing(UnwindBlock(d.core, h), c, stands && (c.Some? ==> c.value.rec.block != h))
  {
    hide RowsInv, RemoveTxs, Answers;
    if h in d.core.blocks.acceptedBy {
      assert Listed(d.core, h);
      RemoveTxsKeeps(d.core.rows, d.core.blocks.acceptedBy[h], books, d.nextTxNum);
    }
  }

  /** A sweep that keeps the record keeps its transaction and its block. */
  lemma StandsSwept(d: Database, cutoff: nat, c: First, stands: bool, books: Log, rh: string, cx: Codec)
    requires Inv(d, books) && Backed(d, rh, Some(c), cx) && Standing(d.core, Some(c), stands) && c.rec.daa >= cutoff
    ensures Standing(ExpireCore(d.core, cutoff), Some(c), stands)
  {
    hide RowsInv, Answers, DropBlocks;
    if stands {
      var h := c.rec.block;
      assert Listed(d.core, h);
      DropBlocksApplied(d.core, cutoff, h);
      KeptList(d.core.blocks, cutoff, h);
    }
  }

  lemma KeptList(b: Blocks, cutoff: nat, h: string)
    requires h in DropBlocks(b, cutoff).acceptedBy
    ensures h in b.acceptedBy && DropBlocks(b, cutoff).acceptedBy[h] == b.acceptedBy[h]
  {
  }

  lemma StandsStep(d: Database, e: Event, cx: Codec, books: Log, rh: string, c: Option<First>, stands: bool)
    requires Inv(d, books) && Backed(d, rh, c, cx) && FirstIs(d.ai, rh, c) && Standing(d.core, c, stands)
    ensures var c' := NextFirst(c, d, e, rh, cx); Standing(Step(d, e, cx).core, c', NextStands(stands, c, c', e))
  {
    hide Inv, Backed, FirstIs, Apply, UnwindBlock, ExpireCore, ExpireInference, FirstGroups, Fresh, DropsRequest;
    hide ListedAt;
    match e
    case Applied(gs) => StandsApply(d, gs, cx, books, rh, c, stands);
    case Unwound(h) => StandsRemoved(d, h, c, stands, books, rh, cx);
    case Swept(cutoff) =>
      if c.Some? && c.value.rec.daa >= cutoff {
        StandsSwept(d, cutoff, c.value, stands, books, rh, cx);
      }
  }

  lemma {:induction false} RunStanding(es: seq<Event>, cx: Codec, rh: string)
    ensures Standing(Run(es, cx).core, RunFirst(es, rh, cx), RunStands(es, rh, cx))
    decreases |es|
  {
    if es != [] {
      hide Inv, Backed, FirstIs, Standing, Step, NextFirst, NextStands;
      var pre := es[..|es| - 1];
      RunStanding(pre, cx, rh);
      RunFirstIsBacked(pre, cx, rh);
      RunFirstIs(pre, cx, rh);
      RunInv(pre, cx);
      StandsStep(Run(pre, cx), es[|es| - 1], cx, RunBooks(pre, cx), rh, RunFirst(pre, rh, cx), RunStands(pre, rh, cx));
    }
  }

  /** Over every run the acceptance behind the first response shown for a request hash is still
      stored if and only if its block was not removed since it was recorded: no sweep drops it and
      keeps the record. */
  lemma FirstIsStoredIff(es: seq<Event>, cx: Codec, rh: string)
    requires RunFirst(es, rh, cx).Some?
    ensures var tx, c := Run(es, cx).core.rows.tx, RunFirst(es, rh, cx).value;
      && rh in Run(es, cx).ai.firstResponse && Run(es, cx).ai.firstResponse[rh] == c.rec
      && (c.num in tx <==> RunStands(es, rh, cx))
      && (c.num in tx ==> Names(tx[c.num], c.rec, rh, cx))
  {
    hide Run, RunFirst, RunStands, Names, ListedAt;
    RunFirstIs(es, cx, rh);
    RunFirstIsBacked(es, cx, rh);
    RunStanding(es, cx, rh);
  }

  // --- the reads, as functions of the events ---

  /** The response shown for a request: the first recorded for its identity, else the first
      recorded for its transaction id. */
  ghost function Shown(es: seq<Event>, q: RequestRec, cx: Codec): Option<ResponseRec> {
    var byIdentity, byTxId := RunFirst(es, q.request.identity, cx), RunFirst(es, q.txId, cx);
    if byIdentity.Some? then Some(byIdentity.value.rec)
    else if byTxId.Some? then Some(byTxId.value.rec)
    else None
  }

  lemma RunShows(es: seq<Event>, cx: Codec, q: RequestRec, shown: Option<ResponseRec>)
    requires ShowsFirst(Run(es, cx).ai, q, shown)
    ensures shown == Shown(es, q, cx)
  {
    hide Run, RunFirst;
    RunFirstIs(es, cx, q.request.identity);
    RunFirstIs(es, cx, q.txId);
  }

  /** The unsealed requests of `list`, last one first, each with the response shown for it. */
  ghost function FeedOf(list: seq<RequestRec>, es: seq<Event>, cx: Codec): seq<FeedRow> {
    if list == [] then []
    else
      var q := list[|list| - 1];
      (if q.request.sealed then [] else [(q, Shown(es, q, cx))]) + FeedOf(list[..|list| - 1], es, cx)
  }

  lemma {:induction false} PublicRowsCons(ai: Inference, n: nat, ys: seq<nat>)
    requires n in ai.requests
    ensures PublicRows(ai, [n] + ys) ==
      (if ai.requests[n].request.sealed then [] else [(ai.requests[n], FirstResponse(ai, ai.requests[n]))]) +
      PublicRows(ai, ys)
    decreases |ys|
  {
    hide FirstResponse;
    if ys == [] {
      assert [n] + ys == [n] && [n][..0] == [];
      assert PublicRows(ai, []) == [];
    } else {
      var k := |ys| - 1;
      PublicRowsCons(ai, n, ys[..k]);
      assert ([n] + ys)[..k + 1] == [n] + ys[..k];
    }
  }

  lemma {:induction false} FeedByList(es: seq<Event>, cx: Codec, nums: seq<nat>, list: seq<RequestRec>)
    requires |nums| == |list|
    requires forall i :: 0 <= i < |nums| ==>
      nums[i] in Run(es, cx).ai.requests && Run(es, cx).ai.requests[nums[i]] == list[i]
    ensures PublicRows(Run(es, cx).ai, Reverse(nums)) == FeedOf(list, es, cx)
    decreases |list|
  {
    hide Run, FirstResponse, Shown;
    var ai := Run(es, cx).ai;
    if list == [] {
      assert Reverse(nums) == [];
    } else {
      var k := |list| - 1;
      assert Reverse(nums) == [nums[k]] + Reverse(nums[..k]);
      PublicRowsCons(ai, nums[k], Reverse(nums[..k]));
      FirstIsShown(ai, list[k]);
      RunShows(es, cx, list[k], FirstResponse(ai, list[k]));
      FeedByList(es, cx, nums[..k], list[..k]);
    }
  }

  /** Over every run the feed is the list of requests, newest first and sealed ones left out, each
      with the first response recorded for its identity, else for its transaction id. */
  lemma RunFeedIs(es: seq<Event>, cx: Codec, pairs: set<Ask>)
    requires Unclashed(pairs) && RunAsked(es, pairs, cx)
    ensures Feed(Run(es, cx).ai) == FeedOf(RunRequests(es, cx), es, cx)
  {
    hide Run, RunRequests, Unclashed, RunAsked, FeedOf, PublicRows, Ascending, Listing, Increasing;
    RunRequestsAre(es, cx, pairs);
    ListingIsScan(Run(es, cx).ai.requests, RunRequests(es, cx));
    FeedByList(es, cx, Ascending(Run(es, cx).ai.requests.Keys), RunRequests(es, cx));
  }

  /** Over every run a transaction id has a detail if and only if it addresses a request on the
      list; the detail is of such a request, with the response shown for it and every stored
      response to its identity, in acceptance order. */
  lemma RunDetailIs(es: seq<Event>, cx: Codec, pairs: set<Ask>, txId: string)
    requires Unclashed(pairs) && RunAsked(es, pairs, cx)
    ensures var d, list := Run(es, cx), RunRequests(es, cx);
      var r := DetailOf(d, txId, cx);
      && (r.Some? <==> exists i :: 0 <= i < |list| && Keyed(list[i], txId))
      && (r.Some? ==>
            var q := r.value.request;
            && q in list && Keyed(q, txId) && r.value.first == Shown(es, q, cx)
            && Lists(r.value.responses, d.core.rows.tx, q.request.identity, cx))
  {
    hide Run, RunRequests, Unclashed, RunAsked, FirstResponse, ShowsFirst, Shown, AnswersTo, Lists;
    KeyResolvesIff(es, cx, pairs, txId);
    var d := Run(es, cx);
    if txId in d.ai.requestByKey {
      var q := d.ai.requests[d.ai.requestByKey[txId]];
      FirstIsShown(d.ai, q);
      RunShows(es, cx, q, FirstResponse(d.ai, q));
      RepliesAreListed(d.core.rows.tx, q.request.identity, cx);
    }
  }
}
