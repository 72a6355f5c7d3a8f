/** The retention sweep under the chain discipline: blocks are removed from the
    top, and new blocks carry a DAA score no lower than the block below them. */
module Retention {
  import opened Types
  import opened Scans
  import opened Tables
  import opened Coupling
  import opened Runs

  // --- exactness of the early-breaking scan ---

  /** The stored transactions a sweep at `cutoff` is meant to drop. */
  function Below(tx: map<nat, IndexedTx>, cutoff: nat): set<nat> {
    set n | n in tx && tx[n].daa < cutoff
  }

  /** No transaction below the cutoff is numbered after one at or above it. */
  ghost predicate NoInversion(tx: map<nat, IndexedTx>, cutoff: nat) {
    forall n, m :: n in tx && m in tx && n < m && tx[m].daa < cutoff ==> tx[n].daa < cutoff
  }

  /** The scan that stops at the first transaction at or above the cutoff collects exactly
      the transactions below it if and only if there is no inversion. */
  lemma SweepIsExact(tx: map<nat, IndexedTx>, cutoff: nat)
    ensures Expired(tx, cutoff) == Below(tx, cutoff) <==> NoInversion(tx, cutoff)
  {
    if Expired(tx, cutoff) == Below(tx, cutoff) {
      forall n, m | n in tx && m in tx && n < m && tx[m].daa < cutoff ensures tx[n].daa < cutoff {
        assert m in Below(tx, cutoff);
        assert m in Expired(tx, cutoff);
      }
    }
    if NoInversion(tx, cutoff) {
      forall m | m in Below(tx, cutoff) ensures m in Expired(tx, cutoff) {
        forall n | n in tx && n <= m ensures tx[n].daa < cutoff {
        }
      }
    }
  }

  ghost predicate SortedByDaa(tx: map<nat, IndexedTx>) {
    forall n, m :: n in tx && m in tx && n < m ==> tx[n].daa <= tx[m].daa
  }

  /** `window_low_daa`: the DAA of the lowest-numbered transaction. */
  function WindowLow(tx: map<nat, IndexedTx>): Option<nat> {
    if tx == map[] then None
    else
      assert tx.Keys != {};
      Some(tx[Least(tx.Keys)].daa)
  }

  // --- the chain discipline ---

  datatype Link = Link(hash: string, daa: nat)

  ghost predicate Ascends(chain: seq<Link>) {
    && (forall i, j :: 0 <= i < j < |chain| ==> chain[i].daa <= chain[j].daa)
    && (forall i, j :: 0 <= i < j < |chain| ==> chain[i].hash != chain[j].hash)
  }

  predicate OnTop(chain: seq<Link>, g: Group) {
    && (forall i :: 0 <= i < |chain| ==> chain[i].hash != g.hash)
    && (chain != [] ==> chain[|chain| - 1].daa <= g.daa)
  }

  /** The chain after applying `gs`; blocks already marked are where they were. */
  function Extend(d: Database, chain: seq<Link>, gs: seq<Group>, cx: Codec): seq<Link>
    decreases |gs|
  {
    if gs == [] then chain
    else
      var k := |gs| - 1;
      var pre := Extend(d, chain, gs[..k], cx);
      if gs[k].hash in Apply(d, gs[..k], cx).core.blocks.applied then pre
      else pre + [Link(gs[k].hash, gs[k].daa)]
  }

  ghost predicate ExtendsTop(d: Database, chain: seq<Link>, gs: seq<Group>, cx: Codec)
    decreases |gs|
  {
    gs != [] ==>
      var k := |gs| - 1;
      ExtendsTop(d, chain, gs[..k], cx) &&
      (gs[k].hash in Apply(d, gs[..k], cx).core.blocks.applied || OnTop(Extend(d, chain, gs[..k], cx), gs[k]))
  }

  ghost predicate Disciplined(d: Database, chain: seq<Link>, e: Event, cx: Codec) {
    match e
    case Applied(gs) => ExtendsTop(d, chain, gs, cx)
    case Unwound(h) => chain != [] && chain[|chain| - 1].hash == h
    case Swept(c) => true
  }

  function NextChain(d: Database, chain: seq<Link>, e: Event, cx: Codec): seq<Link> {
    match e
    case Applied(gs) => Extend(d, chain, gs, cx)
    case Unwound(h) => if chain == [] then [] else chain[..|chain| - 1]
    case Swept(c) => chain
  }

  function RunChain(es: seq<Event>, cx: Codec): seq<Link> {
    if es == [] then []
    else
      var k := |es| - 1;
      NextChain(Run(es[..k], cx), RunChain(es[..k], cx), es[k], cx)
  }

  ghost predicate DisciplinedRun(es: seq<Event>, cx: Codec) {
    forall k :: 0 <= k < |es| ==> Disciplined(Run(es[..k], cx), RunChain(es[..k], cx), es[k], cx)
  }

  // --- the invariant ---

  /** Every stored transaction is listed by its still-indexed block, under that block's DAA. */
  ghost predicate Anchored(c: Core) {
    forall n :: n in c.rows.tx ==>
      var h := c.rows.tx[n].block;
      && h in c.blocks.applied && c.blocks.applied[h] == c.rows.tx[n].daa
      && h in c.blocks.acceptedBy && n in c.blocks.acceptedBy[h]
  }

  ghost predicate OnChain(b: Blocks, chain: seq<Link>) {
    forall h :: h in b.applied ==> Link(h, b.applied[h]) in chain
  }

  ghost predicate Ordered(c: Core, chain: seq<Link>) {
    Ascends(chain) && OnChain(c.blocks, chain) && Anchored(c) && SortedByDaa(c.rows.tx)
  }

  lemma ChainTop(c: Core, chain: seq<Link>, n: nat)
    requires Ordered(c, chain) && n in c.rows.tx
    ensures chain != [] && c.rows.tx[n].daa <= chain[|chain| - 1].daa
  {
    var h := c.rows.tx[n].block;
    assert Link(h, c.blocks.applied[h]) in chain;
  }

  lemma AscendsPush(chain: seq<Link>, g: Group)
    requires Ascends(chain) && OnTop(chain, g)
    ensures Ascends(chain + [Link(g.hash, g.daa)])
  {
  }

  lemma RecordAnchors(c: Core, c': Core, num: nat, n: nat, h: string, daa: nat)
    requires Anchored(c) && h !in c.blocks.applied && (forall k :: k in c.rows.tx ==> k < num)
    requires InsertedRange(c.rows.tx, c'.rows.tx, num, n, h, daa)
    requires c'.blocks == RecordBlock(c.blocks, h, daa, Numbers(num, n))
    ensures Anchored(c')
  {
    forall k | k in c'.rows.tx ensures
      var x := c'.rows.tx[k].block;
      && x in c'.blocks.applied && c'.blocks.applied[x] == c'.rows.tx[k].daa
      && x in c'.blocks.acceptedBy && k in c'.blocks.acceptedBy[x]
    {
      if k >= num {
        assert Numbers(num, n)[k - num] == k;
      } else {
        assert k in c.rows.tx;
      }
    }
  }

  lemma PushSorts(c: Core, c': Core, chain: seq<Link>, num: nat, n: nat, h: string, daa: nat)
    requires Ordered(c, chain) && (chain != [] ==> chain[|chain| - 1].daa <= daa)
    requires forall k :: k in c.rows.tx ==> k < num
    requires InsertedRange(c.rows.tx, c'.rows.tx, num, n, h, daa)
    ensures SortedByDaa(c'.rows.tx)
  {
    forall k | k in c.rows.tx ensures c.rows.tx[k].daa <= daa {
      ChainTop(c, chain, k);
    }
    hide Ascends, OnChain, Anchored;
  }

  lemma PushOnChain(b: Blocks, chain: seq<Link>, h: string, daa: nat, nums: seq<nat>)
    requires OnChain(b, chain)
    ensures OnChain(RecordBlock(b, h, daa, nums), chain + [Link(h, daa)])
  {
  }

  lemma ApplyFreshOrdered(d: Database, g: Group, cx: Codec, log: Log, chain: seq<Link>)
    requires Inv(d, log) && Ordered(d.core, chain) && g.hash !in d.core.blocks.applied && OnTop(chain, g)
    ensures Ordered(ApplyGroup(d, g, cx).core, chain + [Link(g.hash, g.daa)])
  {
    hide RowsInv, BlocksCoupled, InsertTxs, IndexTxs, InsertedRange, Anchored, OnChain, SortedByDaa, Ascends,
      RecordBlock, Numbers;
    var c', n := ApplyGroup(d, g, cx).core, d.nextTxNum;
    LiveBelow(d.core.rows, log, n);
    InsertTxsRange(d.core.rows, n, g.txs, g.hash, g.daa, cx.attr);
    AscendsPush(chain, g);
    PushOnChain(d.core.blocks, chain, g.hash, g.daa, Numbers(n, |g.txs|));
    RecordAnchors(d.core, c', n, |g.txs|, g.hash, g.daa);
    PushSorts(d.core, c', chain, n, |g.txs|, g.hash, g.daa);
  }

  lemma {:induction false} ApplyOrdered(d: Database, gs: seq<Group>, cx: Codec, log: Log, chain: seq<Link>)
    requires Inv(d, log) && Ordered(d.core, chain) && ExtendsTop(d, chain, gs, cx)
    ensures Ordered(Apply(d, gs, cx).core, Extend(d, chain, gs, cx))
    decreases |gs|
  {
    hide Inv, Ordered, ApplyGroup, OnTop, Since;
    if gs != [] {
      var k := |gs| - 1;
      var mid := Apply(d, gs[..k], cx);
      ApplyOrdered(d, gs[..k], cx, log, chain);
      ApplyKeeps(d, gs[..k], cx, log);
      var log1 := log + Since(mid.core.rows.tx, d.nextTxNum);
      if gs[k].hash in mid.core.blocks.applied {
        ApplyStaleIsNoOp(mid, gs[k], cx, log1);
      } else {
        ApplyFreshOrdered(mid, gs[k], cx, log1, Extend(d, chain, gs[..k], cx));
      }
    }
  }

  lemma PopOnChain(b: Blocks, chain: seq<Link>)
    requires OnChain(b, chain) && Ascends(chain) && chain != []
    ensures var h := chain[|chain| - 1].hash;
      OnChain(Blocks(b.applied - {h}, b.chainByDaa, b.acceptedBy), chain[..|chain| - 1])
  {
    var k := |chain| - 1;
    forall x | x in b.applied && x != chain[k].hash ensures Link(x, b.applied[x]) in chain[..k] {
      var i :| 0 <= i < |chain| && chain[i] == Link(x, b.applied[x]);
      assert chain[..k][i] == Link(x, b.applied[x]);
    }
  }

  lemma ForgetAnchors(c: Core, r': Rows, h: string)
    requires Anchored(c) && h in c.blocks.acceptedBy
    requires r'.tx == c.rows.tx - Members(c.blocks.acceptedBy[h])
    ensures Anchored(Core(r', ForgetBlock(c.blocks, h)))
  {
  }

  lemma SubsetSorted(tx: map<nat, IndexedTx>, gone: set<nat>)
    requires SortedByDaa(tx)
    ensures SortedByDaa(tx - gone)
  {
  }

  lemma PopAscends(chain: seq<Link>)
    requires Ascends(chain) && chain != []
    ensures Ascends(chain[..|chain| - 1])
  {
  }

  lemma UnwindTopOrdered(c: Core, n: nat, log: Log, chain: seq<Link>)
    requires RowsInv(c.rows, log, n) && BlocksCoupled(c) && Ordered(c, chain) && chain != []
    ensures Ordered(UnwindBlock(c, chain[|chain| - 1].hash), chain[..|chain| - 1])
  {
    var h := chain[|chain| - 1].hash;
    PopAscends(chain);
    PopOnChain(c.blocks, chain);
    if h in c.blocks.acceptedBy {
      UnwindAppliedKeeps(c, n, h, log);
      ForgetAnchors(c, UnwindBlock(c, h).rows, h);
      SubsetSorted(c.rows.tx, Members(c.blocks.acceptedBy[h]));
    } else {
      assert c.blocks.applied - {h} == c.blocks.applied;
    }
    hide RowsInv, Listed, RemoveTxs, Anchored, SortedByDaa, Ascends;
  }

  lemma SortedNoInversion(tx: map<nat, IndexedTx>, cutoff: nat)
    requires SortedByDaa(tx)
    ensures Expired(tx, cutoff) == Below(tx, cutoff)
  {
    hide Expired, Below;
    SweepIsExact(tx, cutoff);
  }

  lemma SweepAnchors(c: Core, cutoff: nat)
    requires BlocksCoupled(c) && Anchored(c) && Expired(c.rows.tx, cutoff) == Below(c.rows.tx, cutoff)
    ensures Anchored(ExpireCore(c, cutoff))
  {
    hide Expired;
    var c' := ExpireCore(c, cutoff);
    forall n | n in c'.rows.tx ensures
      var h := c'.rows.tx[n].block;
      && h in c'.blocks.applied && c'.blocks.applied[h] == c'.rows.tx[n].daa
      && h in c'.blocks.acceptedBy && n in c'.blocks.acceptedBy[h]
    {
      assert n in c.rows.tx && n !in Below(c.rows.tx, cutoff);
      DropBlocksApplied(c, cutoff, c.rows.tx[n].block);
    }
  }

  lemma SweepOnChain(c: Core, cutoff: nat, chain: seq<Link>)
    requires OnChain(c.blocks, chain)
    ensures OnChain(DropBlocks(c.blocks, cutoff), chain)
  {
  }

  lemma SweepOrdered(c: Core, cutoff: nat, chain: seq<Link>)
    requires BlocksCoupled(c) && Ordered(c, chain)
    ensures Ordered(ExpireCore(c, cutoff), chain)
  {
    hide BlocksCoupled, Anchored, OnChain, Ascends, SortedByDaa, Expired, Below, DropBlocks;
    SortedNoInversion(c.rows.tx, cutoff);
    SweepAnchors(c, cutoff);
    SweepOnChain(c, cutoff, chain);
    SubsetSorted(c.rows.tx, Expired(c.rows.tx, cutoff));
  }

  // --- whole runs ---

  lemma StepOrdered(d: Database, log: Log, chain: seq<Link>, e: Event, cx: Codec)
    requires Inv(d, log) && Ordered(d.core, chain) && Disciplined(d, chain, e, cx)
    ensures Ordered(Step(d, e, cx).core, NextChain(d, chain, e, cx))
  {
    hide RowsInv, BlocksCoupled, Ordered, Apply, UnwindBlock, ExpireCore, ExpireInference, Extend, ExtendsTop;
    match e
    case Applied(gs) => ApplyOrdered(d, gs, cx, log, chain);
    case Unwound(h) => UnwindTopOrdered(d.core, d.nextTxNum, log, chain);
    case Swept(c) => SweepOrdered(d.core, c, chain);
  }

  lemma DisciplinedPrefix(es: seq<Event>, cx: Codec)
    requires DisciplinedRun(es, cx) && es != []
    ensures var pre := es[..|es| - 1];
      DisciplinedRun(pre, cx) && Disciplined(Run(pre, cx), RunChain(pre, cx), es[|es| - 1], cx)
  {
    hide Disciplined, Run, RunChain;
    var pre := es[..|es| - 1];
    forall k | 0 <= k < |pre| ensures Disciplined(Run(pre[..k], cx), RunChain(pre[..k], cx), pre[k], cx) {
      assert pre[..k] == es[..k] && pre[k] == es[k];
    }
  }

  lemma EmptyOrdered()
    ensures Ordered(EMPTY.core, [])
  {
  }

  /** In every disciplined run, across reorgs and sweeps, stored transactions stay sorted by
      DAA and anchored to indexed blocks of the current chain. */
  lemma {:induction false} RunOrdered(es: seq<Event>, cx: Codec)
    requires DisciplinedRun(es, cx)
    ensures Ordered(Run(es, cx).core, RunChain(es, cx))
    decreases |es|
  {
    hide Inv, Ordered, DisciplinedRun, Disciplined, Step, NextChain;
    if es == [] {
      EmptyOrdered();
    } else {
      var pre := es[..|es| - 1];
      DisciplinedPrefix(es, cx);
      RunOrdered(pre, cx);
      RunInv(pre, cx);
      StepOrdered(Run(pre, cx), RunBooks(pre, cx), RunChain(pre, cx), es[|es| - 1], cx);
    }
  }

  lemma OrderedSorted(c: Core, chain: seq<Link>)
    requires Ordered(c, chain)
    ensures SortedByDaa(c.rows.tx)
  {
    hide SortedByDaa, Ascends, Anchored, OnChain;
  }

  /** A sweep of a disciplined run drops exactly the transactions below its cutoff, although
      its scan stops at the first one it may keep. */
  lemma SweepDropsExactlyBelow(es: seq<Event>, cx: Codec, cutoff: nat)
    requires DisciplinedRun(es, cx)
    ensures var tx := Run(es, cx).core.rows.tx;
      Expire(Run(es, cx), cutoff).core.rows.tx == tx - Below(tx, cutoff)
  {
    var d := Run(es, cx);
    assert Expire(d, cutoff).core.rows.tx == d.core.rows.tx - Expired(d.core.rows.tx, cutoff)
      by { hide Run, ExpireInference, DropBlocks, Expired; }
    hide *;
    RunOrdered(es, cx);
    OrderedSorted(d.core, RunChain(es, cx));
    SortedNoInversion(d.core.rows.tx, cutoff);
  }

  lemma LowOfSorted(tx: map<nat, IndexedTx>, n: nat)
    requires SortedByDaa(tx) && n in tx
    ensures WindowLow(tx).Some? && WindowLow(tx).value <= tx[n].daa
    ensures exists m :: m in tx && tx[m].daa == WindowLow(tx).value
  {
    assert tx.Keys != {};
  }

  /** `window_low_daa` of a disciplined run is the true minimum of the stored DAA scores. */
  lemma WindowLowIsMinimum(es: seq<Event>, cx: Codec, n: nat)
    requires DisciplinedRun(es, cx) && n in Run(es, cx).core.rows.tx
    ensures var tx := Run(es, cx).core.rows.tx;
      && WindowLow(tx).Some? && WindowLow(tx).value <= tx[n].daa
      && exists m :: m in tx && tx[m].daa == WindowLow(tx).value
  {
    hide *;
    RunOrdered(es, cx);
    OrderedSorted(Run(es, cx).core, RunChain(es, cx));
    LowOfSorted(Run(es, cx).core.rows.tx, n);
  }

  // --- outside the discipline ---

  lemma GroupRange(d: Database, g: Group, cx: Codec, log: Log)
    requires Inv(d, log) && g.hash !in d.core.blocks.applied
    ensures InsertedRange(d.core.rows.tx, ApplyGroup(d, g, cx).core.rows.tx, d.nextTxNum, |g.txs|, g.hash, g.daa)
    ensures forall n :: n in d.core.rows.tx ==> n < d.nextTxNum
  {
    hide RowsInv, BlocksCoupled, InsertTxs, IndexTxs, RecordBlock, Numbers, InsertedRange;
    LiveBelow(d.core.rows, log, d.nextTxNum);
    InsertTxsRange(d.core.rows, d.nextTxNum, g.txs, g.hash, g.daa, cx.attr);
  }

  lemma GroupMarked(d: Database, g: Group, cx: Codec)
    requires g.hash !in d.core.blocks.applied
    ensures var b := ApplyGroup(d, g, cx).core.blocks; g.hash in b.applied && b.applied[g.hash] == g.daa
  {
    hide InsertTxs, IndexTxs, Numbers;
  }

  lemma SweptParts(d: Database, cutoff: nat, h: string)
    ensures var c := Expire(d, cutoff).core;
      && c.rows.tx == d.core.rows.tx - Expired(d.core.rows.tx, cutoff)
      && c.blocks == DropBlocks(d.core.blocks, cutoff)
      && (h !in c.blocks.acceptedBy ==> UnwindBlock(c, h) == c)
  {
    hide Expired, DropBlocks, ExpireInference, RemoveTxs;
  }
}
