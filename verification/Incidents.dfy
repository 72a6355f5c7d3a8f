/** What goes wrong on the program's own path: sweeps only as the follower issues
    them, and runs that start from a fresh follower. */
module Incidents {
  import opened Types
  import opened Scans
  import opened Tables
  import opened Coupling
  import opened Branches
  import opened Replay
  import opened Retention
  import opened StoreModel
  import opened FollowerModel
  import opened WindowModel
  import opened Accounts
  import opened BackfillModel
  import opened FollowReorg
  import opened InferenceIndex
  import opened Listings
  import opened Requests
  import opened Responses
  import Runs

  // --- a block applied below the cutoff ---

  lemma KeptIff(
    tx: map<nat, IndexedTx>, mid: map<nat, IndexedTx>, tx': map<nat, IndexedTx>, num: nat, k: nat, i: nat, h: string,
    daa: nat, cutoff: nat)
    requires InsertedRange(tx, mid, num, k, h, daa) && daa < cutoff && i < k
    requires forall n :: n in tx ==> n < num
    requires forall n :: n in mid ==> n in tx' && tx'[n] == mid[n]
    requires forall n :: n in tx' && n < num + k ==> n in mid
    ensures num + i in tx' - Expired(tx', cutoff) <==> exists n :: n in tx && tx[n].daa >= cutoff
  {
    if n :| n in tx && tx[n].daa >= cutoff {
      assert n in tx' && tx'[n] == tx[n] && n <= num + i;
    } else {
      assert forall m :: m in tx' && m <= num + i ==> m in mid && mid[m].daa < cutoff;
    }
  }

  lemma ExtendsIs(d: Database, d': Database)
    requires Extends(d, d')
    ensures forall n :: n in d.core.rows.tx ==> n in d'.core.rows.tx && d'.core.rows.tx[n] == d.core.rows.tx[n]
    ensures forall n :: n in d'.core.rows.tx && n < d.nextTxNum ==> n in d.core.rows.tx
  {
  }

  /** A batch that contains a block `g` below the cutoff of the sweep it triggers, as one whose
      DAA could not be resolved is (DAA 0). The sweep drops `g`'s metadata, so no reorg can undo
      it any more; and it keeps `g`'s transactions if and only if some transaction stored before
      them is at or above the cutoff. */
  lemma UnresolvedDaaEscapesSweep(
    f: State, before: seq<Group>, g: Group, rest: seq<Group>, window: nat, cx: Codec, log: Log, i: nat)
    requires Inv(f.d, log) && g.hash !in Apply(f.d, before, cx).core.blocks.applied && i < |g.txs|
    requires var daa := StatsFor(f.d, before + [g] + rest, cx).checkpointDaa;
      Due(window, f.last, daa) && g.daa + window < daa
    ensures var d, daa := Apply(f.d, before, cx), StatsFor(f.d, before + [g] + rest, cx).checkpointDaa;
      var f' := FollowApply(f, before + [g] + rest, window, cx);
      && (d.nextTxNum + i in f'.d.core.rows.tx <==>
            exists n :: n in d.core.rows.tx && d.core.rows.tx[n].daa + window >= daa)
      && (d.nextTxNum + i in f'.d.core.rows.tx ==> f'.d.core.rows.tx[d.nextTxNum + i].daa == g.daa)
      && g.hash !in f'.d.core.blocks.acceptedBy
      && UnwindBlock(f'.d.core, g.hash) == f'.d.core
  {
    hide *;
    var gs := before + [g] + rest;
    var daa, d := StatsFor(f.d, gs, cx).checkpointDaa, Apply(f.d, before, cx);
    var log1 := log + Since(d.core.rows.tx, f.d.nextTxNum);
    var mid, d' := ApplyGroup(d, g, cx), Apply(f.d, gs, cx);
    var log2 := log1 + Since(mid.core.rows.tx, d.nextTxNum);
    ApplyConcat(f.d, before + [g], rest, cx);
    ApplyConcat(f.d, before, [g], cx);
    ApplyOne(d, g, cx);
    ApplyKeeps(f.d, before, cx, log);
    ApplyGroupKeeps(d, g, cx, log1);
    ApplyKeeps(mid, rest, cx, log2);
    UnfoldInv(d', log2 + Since(d'.core.rows.tx, mid.nextTxNum));
    GroupRange(d, g, cx, log1);
    ApplyGroupRows(d, g, cx);
    ExtendsIs(mid, d');
    FollowSweeps(f, gs, window, cx);
    RangeDaa(d.core.rows.tx, mid.core.rows.tx, d.nextTxNum, |g.txs|, g.hash, g.daa, i);
    KeptIff(d.core.rows.tx, mid.core.rows.tx, d'.core.rows.tx, d.nextTxNum, |g.txs|, i, g.hash, g.daa, daa - window);
    CutoffSides(d.core.rows.tx, window, daa);
    GroupMarked(d, g, cx);
    MarkStays(mid, rest, cx, g.hash);
    DropBlocksApplied(d'.core, daa - window, g.hash);
    SweptParts(d', daa - window, g.hash);
  }

  lemma CutoffSides(tx: map<nat, IndexedTx>, window: nat, daa: nat)
    requires daa > window
    ensures (exists n :: n in tx && tx[n].daa >= daa - window) <==> exists n :: n in tx && tx[n].daa + window >= daa
  {
    if n :| n in tx && tx[n].daa >= daa - window {
      assert tx[n].daa + window >= daa;
    }
    if n :| n in tx && tx[n].daa + window >= daa {
      assert tx[n].daa >= daa - window;
    }
  }

  lemma RangeDaa(tx: map<nat, IndexedTx>, tx': map<nat, IndexedTx>, num: nat, k: nat, h: string, daa: nat, i: nat)
    requires InsertedRange(tx, tx', num, k, h, daa) && i < k
    ensures num + i in tx' && tx'[num + i].daa == daa
  {
  }

  // --- first turns of a fresh follower ---

  /** A first block at or below the window triggers no sweep. */
  lemma FirstTurn(a: Group, window: nat, cx: Codec)
    requires a.daa <= window
    ensures var t := Follow([Notice(NOTHING, [a])], window, cx);
      && t.f == State(ApplyGroup(EMPTY, a, cx), 0) && t.chain == [Link(a.hash, a.daa)]
      && OrderlyRun([Notice(NOTHING, [a])], window, cx)
  {
    hide *;
    var n, l := Notice(NOTHING, [a]), Link(a.hash, a.daa);
    assert [] + [n] == [n];
    FollowStart(window, cx, a.hash);
    FollowSnoc([], n, window, cx);
    NothingRemoved(State(EMPTY, 0));
    BareChain(l);
    FreshOne(EMPTY, a, cx);
    OnTopNothing(a);
    OnTopOne(EMPTY, [], a, cx);
    NotAboveWindow(window, a.daa);
    FollowSkips(State(EMPTY, 0), [a], window, cx);
    ApplyOne(EMPTY, a, cx);
  }

  lemma NotAboveWindow(window: nat, daa: nat)
    requires daa <= window
    ensures !Due(window, 0, daa)
  {
  }

  lemma OnlyFirst(a: Group, cx: Codec, h: string)
    ensures h in ApplyGroup(EMPTY, a, cx).core.blocks.applied <==> h == a.hash
    ensures ApplyGroup(EMPTY, a, cx).nextTxNum == |a.txs|
  {
    hide InsertTxs, IndexTxs, Numbers;
  }

  lemma FirstRow(a: Group, cx: Codec)
    requires a.txs != []
    ensures var tx := ApplyGroup(EMPTY, a, cx).core.rows.tx; 0 in tx && tx[0].daa == a.daa
  {
    hide *;
    Runs.EmptyInv();
    EmptyParts();
    EmptyBlocks(a.hash);
    GroupRange(EMPTY, a, cx, map[]);
    RangeDaa(EMPTY.core.rows.tx, ApplyGroup(EMPTY, a, cx).core.rows.tx, 0, |a.txs|, a.hash, a.daa, 0);
  }

  lemma EmptyBlocks(h: string)
    ensures h !in EMPTY.core.blocks.applied
  {
  }

  /** A fresh follower applies `a`, then `g` with an unresolved DAA together with `c`, which
      triggers a sweep: `g`'s transactions stay stored with DAA 0, below the cutoff, and removing
      `g` undoes nothing. */
  lemma UnresolvedDaaRun(a: Group, g: Group, c: Group, window: nat, cx: Codec, i: nat)
    requires a.hash != g.hash && a.hash != c.hash && g.hash != c.hash && a.txs != [] && i < |g.txs|
    requires g.daa == 0 && a.daa <= window < c.daa <= a.daa + window && EXPIRE_INTERVAL_DAA <= c.daa
    ensures var f := Follow([Notice(NOTHING, [a]), Notice(NOTHING, [g, c])], window, cx).f;
      && f.last == c.daa
      && |a.txs| + i in f.d.core.rows.tx && f.d.core.rows.tx[|a.txs| + i].daa == 0
      && AfterRemoval(f, [g.hash]) == f
  {
    hide *;
    var n1, n2 := Notice(NOTHING, [a]), Notice(NOTHING, [g, c]);
    var d := ApplyGroup(EMPTY, a, cx);
    var f1 := State(d, 0);
    FirstTurn(a, window, cx);
    FollowSnoc([n1], n2, window, cx);
    assert [n1] + [n2] == [n1, n2];
    NothingRemoved(f1);
    OnlyFirst(a, cx, g.hash);
    OnlyFirst(a, cx, c.hash);
    FreshPair(d, g, c, cx);
    DueAtFirst(window, c.daa);
    FollowSweeps(f1, [g, c], window, cx);
    Runs.EmptyInv();
    EmptyBlocks(a.hash);
    ApplyFreshKeeps(EMPTY, a, cx, map[]);
    ApplyNone(d, cx);
    assert [] + [g] + [c] == [g, c];
    UnresolvedDaaEscapesSweep(f1, [], g, [c], window, cx, map[] + Since(d.core.rows.tx, EMPTY.nextTxNum), i);
    FirstRow(a, cx);
    RemoveOne(Follow([n1, n2], window, cx).f, g.hash);
  }

  lemma RemoveOne(f: State, h: string)
    requires UnwindBlock(f.d.core, h) == f.d.core
    ensures AfterRemoval(f, [h]) == f
  {
    hide UnwindBlock;
    assert [h][..0] == [];
    assert UnwindAll(f.d.core, []) == f.d.core;
  }

  // --- a block removed after it was swept ---

  lemma RemoveTwo(c: Core, x: string, h: string)
    ensures UnwindAll(c, [x, h]) == UnwindBlock(UnwindBlock(c, x), h)
  {
    hide UnwindBlock;
    assert [x, h][..1] == [x] && [x][..0] == [];
    assert UnwindAll(c, []) == c;
    assert UnwindAll(c, [x]) == UnwindBlock(c, x);
  }

  /** The events of the run below. */
  function SweptEvents(g: Group, c: Group, window: nat): seq<Event>
    requires window <= c.daa
  {
    [Applied([g]), Applied([c]), Swept(c.daa - window), Unwound(c.hash), Unwound(g.hash)]
  }

  /** The store after those events. */
  function SweptStore(g: Group, c: Group, window: nat, cx: Codec): Database
    requires window <= c.daa
  {
    var d := Expire(ApplyGroup(ApplyGroup(EMPTY, g, cx), c, cx), c.daa - window);
    d.(core := UnwindBlock(UnwindBlock(d.core, c.hash), g.hash))
  }

  lemma SweptEventsRun(g: Group, c: Group, window: nat, cx: Codec)
    requires window <= c.daa
    ensures Run(SweptEvents(g, c, window), cx) == SweptStore(g, c, window, cx)
    ensures var d1 := ApplyGroup(EMPTY, g, cx);
      var log1 := Since(d1.core.rows.tx, 0);
      var log2 := log1 + Since(ApplyGroup(d1, c, cx).core.rows.tx, d1.nextTxNum);
      RunLog(SweptEvents(g, c, window), cx) ==
        (log2 - OfBlock(log2, c.hash)) - OfBlock(log2 - OfBlock(log2, c.hash), g.hash)
  {
    hide *;
    var e1, e2, e3, e4, e5 := Applied([g]), Applied([c]), Swept(c.daa - window), Unwound(c.hash), Unwound(g.hash);
    FirstRun(g, cx);
    RunNext([e1], e2, cx);
    RunNext([e1, e2], e3, cx);
    RunNext([e1, e2, e3], e4, cx);
    RunNext([e1, e2, e3, e4], e5, cx);
    assert [e1] + [e2] == [e1, e2] && [e1, e2] + [e3] == [e1, e2, e3];
    assert [e1, e2, e3] + [e4] == [e1, e2, e3, e4] && [e1, e2, e3, e4] + [e5] == [e1, e2, e3, e4, e5];
    EventsAre(g, c, window);
    var d1 := ApplyGroup(EMPTY, g, cx);
    var log1 := Since(d1.core.rows.tx, 0);
    var d2 := ApplyGroup(d1, c, cx);
    var log2 := log1 + Since(d2.core.rows.tx, d1.nextTxNum);
    var d3 := Expire(d2, c.daa - window);
    ApplyStep(d1, log1, c, cx);
    SweepStep(d2, log2, c.daa - window, cx);
    RemovedStep(d3, log2, c.hash, cx);
    var d4 := d3.(core := UnwindBlock(d3.core, c.hash));
    RemovedStep(d4, log2 - OfBlock(log2, c.hash), g.hash, cx);
    SweptStoreIs(g, c, window, cx);
  }

  lemma EventsAre(g: Group, c: Group, window: nat)
    requires window <= c.daa
    ensures SweptEvents(g, c, window) ==
      [Applied([g]), Applied([c]), Swept(c.daa - window), Unwound(c.hash), Unwound(g.hash)]
  {
  }

  lemma SweptStoreIs(g: Group, c: Group, window: nat, cx: Codec)
    requires window <= c.daa
    ensures var d := Expire(ApplyGroup(ApplyGroup(EMPTY, g, cx), c, cx), c.daa - window);
      SweptStore(g, c, window, cx) == d.(core := UnwindBlock(UnwindBlock(d.core, c.hash), g.hash))
  {
    hide Expire, ApplyGroup, UnwindBlock;
  }

  lemma ApplyStep(d: Database, log: Log, g: Group, cx: Codec)
    ensures Step(d, Applied([g]), cx) == ApplyGroup(d, g, cx)
    ensures NextLog(log, d, Applied([g]), cx) == log + Since(ApplyGroup(d, g, cx).core.rows.tx, d.nextTxNum)
  {
    hide Apply, ApplyGroup, Since;
    ApplyOne(d, g, cx);
  }

  lemma RemovedStep(d: Database, log: Log, h: string, cx: Codec)
    ensures Step(d, Unwound(h), cx) == d.(core := UnwindBlock(d.core, h))
    ensures NextLog(log, d, Unwound(h), cx) == log - OfBlock(log, h)
  {
    hide UnwindBlock;
  }

  /** Two blocks' entries taken out again, by the events and by the store. */
  lemma TakenOut(log: Log, entries: Log, g: string, c: string, num: nat, k: nat)
    requires g != c && (forall n :: n in log ==> n < num && log[n].block == g)
    requires forall n :: n in entries <==> num <= n < num + k
    requires forall n :: n in entries ==> entries[n].block == c
    ensures var both := log + entries;
      && (both - OfBlock(both, c)) - OfBlock(both - OfBlock(both, c), g) == map[]
      && both - Members(Numbers(num, k)) == log
  {
    var both := log + entries;
    assert both - OfBlock(both, c) == log;
    assert log - OfBlock(log, g) == map[];
    forall n ensures n in Members(Numbers(num, k)) <==> num <= n < num + k {
      if num <= n < num + k { assert Numbers(num, k)[n - num] == n; }
    }
  }

  lemma UnlistedStays(c: Core, x: string, h: string)
    requires x != h && h !in c.blocks.acceptedBy
    ensures UnwindBlock(UnwindBlock(c, x), h) == UnwindBlock(c, x)
  {
    UnwindKeepsList(c, x, h);
    hide RemoveTxs, ForgetBlock;
  }

  /** The log and the store after two blocks. */
  lemma TwoBlocks(g: Group, c: Group, cx: Codec)
    requires g.hash != c.hash
    ensures var d1 := ApplyGroup(EMPTY, g, cx);
      var d2, log1 := ApplyGroup(d1, c, cx), Since(d1.core.rows.tx, 0);
      var entries := Since(d2.core.rows.tx, d1.nextTxNum);
      var log2 := log1 + entries;
      && c.hash !in d1.core.blocks.applied
      && Inv(d2, log2) && |log1| == |g.txs|
      && (log2 - OfBlock(log2, c.hash)) - OfBlock(log2 - OfBlock(log2, c.hash), g.hash) == map[]
      && log2 - Members(Numbers(d1.nextTxNum, |c.txs|)) == log1
      && g.hash in d2.core.blocks.applied && d2.core.blocks.applied[g.hash] == g.daa
  {
    hide *;
    var d1 := ApplyGroup(EMPTY, g, cx);
    var d2, log1 := ApplyGroup(d1, c, cx), Since(d1.core.rows.tx, 0);
    var entries := Since(d2.core.rows.tx, d1.nextTxNum);
    FirstBlock(g, cx);
    FirstBlockOnly(g, cx);
    TotalOf(d1, log1);
    OnlyFirst(g, cx, c.hash);
    EnteredOne(d1, c, cx, log1);
    EnteredKeys(entries, d1.nextTxNum, c.txs);
    ApplyFreshKeeps(d1, c, cx, log1);
    TakenOut(log1, entries, g.hash, c.hash, d1.nextTxNum, |c.txs|);
    OldMark(d1, g, c, cx);
  }

  lemma SecondRemoved(d1: Database, c: Group, cutoff: nat, cx: Codec, log1: Log, log2: Log, h: string)
    requires var d2 := ApplyGroup(d1, c, cx);
      && c.hash !in d1.core.blocks.applied && Inv(d2, log2) && c.daa >= cutoff
      && log2 - Members(Numbers(d1.nextTxNum, |c.txs|)) == log1
      && h != c.hash && h in d2.core.blocks.applied && d2.core.blocks.applied[h] < cutoff
    ensures var c3 := Expire(ApplyGroup(d1, c, cx), cutoff).core;
      UnwindBlock(UnwindBlock(c3, c.hash), h).rows.totalTxs == |log1|
  {
    hide *;
    var d2 := ApplyGroup(d1, c, cx);
    var d3 := Expire(d2, cutoff);
    ExpireKeeps(d2, cutoff, log2);
    SparedList(d1, c, cx, cutoff, log2);
    UnwindKeeps(d3, c.hash, log2);
    UndoneIs(d3.core, c.hash);
    TotalOf(d3.(core := UnwindBlock(d3.core, c.hash)), log1);
    UnfoldInv(d2, log2);
    DropBlocksApplied(d2.core, cutoff, h);
    SweptParts(d2, cutoff, h);
    UnlistedStays(d3.core, c.hash, h);
  }

  /** What is left of the two blocks once the sweep has dropped the first one's list. */
  lemma SweptStoreCounts(g: Group, c: Group, window: nat, cx: Codec)
    requires g.hash != c.hash && g.daa + window < c.daa
    ensures SweptStore(g, c, window, cx).core.rows.totalTxs == |g.txs|
  {
    hide *;
    var d1 := ApplyGroup(EMPTY, g, cx);
    var log1 := Since(d1.core.rows.tx, 0);
    TwoBlocks(g, c, cx);
    SecondRemoved(d1, c, c.daa - window, cx, log1, log1 + Since(ApplyGroup(d1, c, cx).core.rows.tx, d1.nextTxNum),
      g.hash);
    SweptStoreIs(g, c, window, cx);
  }

  lemma SweptLogIsEmpty(g: Group, c: Group, window: nat, cx: Codec)
    requires g.hash != c.hash && g.daa + window < c.daa
    ensures RunLog(SweptEvents(g, c, window), cx) == map[]
  {
    hide *;
    TwoBlocks(g, c, cx);
    SweptEventsRun(g, c, window, cx);
  }

  lemma EnteredKeys(entries: Log, num: nat, txs: seq<RawTx>)
    requires Entered(entries, num, txs)
    ensures forall n :: n in entries <==> num <= n < num + |txs|
  {
  }

  lemma UndoneIs(c: Core, h: string)
    requires h in c.blocks.acceptedBy
    ensures Undone(c, h) == Members(c.blocks.acceptedBy[h])
  {
  }

  lemma OldMark(d: Database, g: Group, c: Group, cx: Codec)
    requires g.hash in d.core.blocks.applied && d.core.blocks.applied[g.hash] == g.daa && g.hash != c.hash
    ensures var b := ApplyGroup(d, c, cx).core.blocks; g.hash in b.applied && b.applied[g.hash] == g.daa
  {
    hide InsertTxs, IndexTxs, Numbers;
  }

  /** A fresh follower applies `g`, then `c`, whose sweep drops `g`; then both are removed, from
      the top and in order. The log of what happened is empty, yet `g` stays counted. */
  lemma SweptBlockStaysCounted(g: Group, c: Group, window: nat, cx: Codec)
    requires g.hash != c.hash && 0 < window && g.daa <= window && g.daa + window < c.daa && EXPIRE_INTERVAL_DAA <= c.daa
    ensures var ns := [Notice(NOTHING, [g]), Notice(NOTHING, [c]), Notice([c.hash, g.hash], [])];
      && OrderlyRun(ns, window, cx)
      && Follow(ns, window, cx).f.d == Run(SweptEvents(g, c, window), cx)
      && RunLog(SweptEvents(g, c, window), cx) == map[]
      && Follow(ns, window, cx).f.d.core.rows.totalTxs == |g.txs|
  {
    hide *;
    var n1, n2, n3 := Notice(NOTHING, [g]), Notice(NOTHING, [c]), Notice([c.hash, g.hash], []);
    FirstTurn(g, window, cx);
    SecondTurn(g, c, window, cx);
    FollowSnoc([n1, n2], n3, window, cx);
    assert [n1, n2] + [n3] == [n1, n2, n3];
    TopTwo(Link(g.hash, g.daa), Link(c.hash, c.daa));
    var f2 := Follow([n1, n2], window, cx).f;
    NothingAdded(AfterRemoval(f2, [c.hash, g.hash]), window, cx);
    RemovedParts(f2, [c.hash, g.hash]);
    RemoveTwo(f2.d.core, c.hash, g.hash);
    SweptStoreIs(g, c, window, cx);
    SweptEventsRun(g, c, window, cx);
    SweptStoreCounts(g, c, window, cx);
    SweptLogIsEmpty(g, c, window, cx);
  }

  lemma SecondTurn(g: Group, c: Group, window: nat, cx: Codec)
    requires g.hash != c.hash && 0 < window && g.daa <= window && g.daa + window < c.daa && EXPIRE_INTERVAL_DAA <= c.daa
    ensures var ns := [Notice(NOTHING, [g]), Notice(NOTHING, [c])];
      var t := Follow(ns, window, cx);
      && OrderlyRun(ns, window, cx) && t.chain == [Link(g.hash, g.daa), Link(c.hash, c.daa)]
      && t.f == State(Expire(ApplyGroup(ApplyGroup(EMPTY, g, cx), c, cx), c.daa - window), c.daa)
  {
    hide *;
    var n1, n2 := Notice(NOTHING, [g]), Notice(NOTHING, [c]);
    var d, l := ApplyGroup(EMPTY, g, cx), Link(g.hash, g.daa);
    FirstTurn(g, window, cx);
    FollowSnoc([n1], n2, window, cx);
    assert [n1] + [n2] == [n1, n2];
    NothingRemoved(State(d, 0));
    BareChain(l);
    OnlyFirst(g, cx, c.hash);
    FreshOne(d, c, cx);
    OnTopOf(l, c);
    OnTopOne(d, [l], c, cx);
    DueAtFirst(window, c.daa);
    FollowSweeps(State(d, 0), [c], window, cx);
    ApplyOne(d, c, cx);
    assert [l] + [Link(c.hash, c.daa)] == [l, Link(c.hash, c.daa)];
  }

  lemma TopTwo(l: Link, m: Link)
    ensures FromTop([l, m], [m.hash, l.hash]) && ChainAfter([l, m], [m.hash, l.hash]) == []
  {
  }

  lemma NothingAdded(f: State, window: nat, cx: Codec)
    ensures FollowApply(f, [], window, cx) == f && ExtendsTop(f.d, [], [], cx)
  {
    hide Apply, StatsFor;
  }

  // --- a gap-fill that should have removed ---

  lemma FirstListed(a: Group, window: nat, cx: Codec)
    ensures var f := Follow([Notice(NOTHING, [a])], window, cx).f;
      && a.hash in f.d.core.blocks.acceptedBy && a.hash in f.d.core.blocks.applied
      && f.d.core.blocks.acceptedBy[a.hash] == Numbers(0, |a.txs|)
      && exists log :: Inv(f.d, log)
  {
    hide *;
    var n, f0 := Notice(NOTHING, [a]), State(EMPTY, 0);
    assert [] + [n] == [n];
    FollowStart(window, cx, a.hash);
    FollowSnoc([], n, window, cx);
    NothingRemoved(f0);
    FreshOne(EMPTY, a, cx);
    ApplyOne(EMPTY, a, cx);
    EmptyParts();
    Runs.EmptyInv();
    var d := ApplyGroup(EMPTY, a, cx);
    var log := map[] + Since(d.core.rows.tx, 0);
    ApplyFreshKeeps(EMPTY, a, cx, map[]);
    UnfoldInv(d, log);
    ApplyGroupRows(EMPTY, a, cx);
    RecordedBlock(EMPTY.core.blocks, a.hash, a.daa, Numbers(0, |a.txs|));
    if Due(window, 0, a.daa) {
      FollowSweeps(f0, [a], window, cx);
      ExpireKeeps(d, a.daa - window, log);
      SparedList(EMPTY, a, cx, a.daa - window, log);
      DropBlocksApplied(d.core, a.daa - window, a.hash);
      SweptParts(d, a.daa - window, a.hash);
    } else {
      FollowSkips(f0, [a], window, cx);
    }
  }

  /** A fresh follower applies `a`; then the node answers a gap-fill with `a` removed and `gs`
      added. Whatever `gs` is, the follower ends up different from one that heard the same as a
      notification: `a`'s transactions stay. */
  lemma GapFillRun(a: Group, gs: seq<Group>, window: nat, cx: Codec)
    requires a.txs != []
    ensures var f := Follow([Notice(NOTHING, [a])], window, cx).f;
      FollowApply(f, gs, window, cx) != FollowNotice(f, [a.hash], gs, window, cx)
  {
    hide *;
    var f := Follow([Notice(NOTHING, [a])], window, cx).f;
    FirstListed(a, window, cx);
    var log :| Inv(f.d, log);
    FirstNumber(0, |a.txs|);
    NotAllBare(f.d.core.blocks, a.hash);
    StakesShow(f, [a.hash], gs, window, cx, log);
  }

  lemma NotAllBare(b: Blocks, h: string)
    requires h in b.acceptedBy && b.acceptedBy[h] != []
    ensures !AllBare(b, [h])
  {
    assert h in [h];
  }

  // --- a request accepted again ---

  /** The states the run below goes through. */
  function Requested(g: Group, cx: Codec): Database {
    var d := ApplyGroup(EMPTY, g, cx);
    d.(core := UnwindBlock(d.core, g.hash))
  }

  function Repeated(g: Group, b: Group, c: Group, cx: Codec): Database {
    ApplyGroup(ApplyGroup(Requested(g, cx), b, cx), c, cx)
  }

  lemma RequestedParts(g: Group, cx: Codec, h: string)
    ensures var d := Requested(g, cx);
      && d.nextTxNum == |g.txs| && h !in d.core.blocks.applied
      && Inv(d, map[]) && d.ai == ApplyGroup(EMPTY, g, cx).ai
  {
    hide *;
    var d1 := ApplyGroup(EMPTY, g, cx);
    var log := Since(d1.core.rows.tx, 0);
    RequestedIs(g, cx);
    FirstBlock(g, cx);
    OnlyFirst(g, cx, h);
    Runs.EmptyInv();
    EmptyParts();
    LogSplits(EMPTY, g, cx, map[]);
    assert map[] + log == log;
    FirstList(g, cx);
    UnwindKeeps(d1, g.hash, log);
    UndoneIs(d1.core, g.hash);
    SameKeys(d1, log);
    UnwindUnmarks(d1.core, g.hash);
    UnwindSublist(d1.core, g.hash, h);
  }

  lemma RequestedIs(g: Group, cx: Codec)
    ensures var d := ApplyGroup(EMPTY, g, cx); Requested(g, cx) == d.(core := UnwindBlock(d.core, g.hash))
  {
    hide ApplyGroup, UnwindBlock;
  }

  lemma FirstList(g: Group, cx: Codec)
    ensures var b := ApplyGroup(EMPTY, g, cx).core.blocks;
      g.hash in b.acceptedBy && b.acceptedBy[g.hash] == Numbers(0, |g.txs|)
  {
    hide InsertTxs, IndexTxs, Numbers;
  }

  /** What the follower holds after the three notifications. */
  lemma RepeatedTurns(g: Group, b: Group, c: Group, window: nat, cx: Codec)
    requires b.hash != c.hash && 0 < window && g.daa <= window && b.daa <= window < c.daa &&
      EXPIRE_INTERVAL_DAA <= c.daa
    ensures var ns := [Notice(NOTHING, [g]), Notice([g.hash], [b]), Notice(NOTHING, [c])];
      OrderlyRun(ns, window, cx) &&
        Follow(ns, window, cx).f == State(Expire(Repeated(g, b, c, cx), c.daa - window), c.daa)
  {
    hide *;
    var n1, n2, n3 := Notice(NOTHING, [g]), Notice([g.hash], [b]), Notice(NOTHING, [c]);
    var d1, d2 := ApplyGroup(EMPTY, g, cx), Requested(g, cx);
    var d3, l := ApplyGroup(d2, b, cx), Link(b.hash, b.daa);
    FirstTurn(g, window, cx);
    FollowSnoc([n1], n2, window, cx);
    FollowSnoc([n1, n2], n3, window, cx);
    assert [n1] + [n2] == [n1, n2] && [n1, n2] + [n3] == [n1, n2, n3];
    RequestedIs(g, cx);
    RemovedParts(State(d1, 0), [g.hash]);
    RemoveJust(d1.core, g.hash);
    BareChain(Link(g.hash, g.daa));
    BareChain(l);
    RequestedParts(g, cx, b.hash);
    RequestedParts(g, cx, c.hash);
    FreshOne(d2, b, cx);
    OnTopNothing(b);
    OnTopOne(d2, [], b, cx);
    NotAboveWindow(window, b.daa);
    FollowSkips(State(d2, 0), [b], window, cx);
    ApplyOne(d2, b, cx);
    NothingRemoved(State(d3, 0));
    StillUnmarked(d2, b, cx, c.hash);
    FreshOne(d3, c, cx);
    OnTopOf(l, c);
    OnTopOne(d3, [l], c, cx);
    DueAtFirst(window, c.daa);
    FollowSweeps(State(d3, 0), [c], window, cx);
    ApplyOne(d3, c, cx);
    RepeatedIs(g, b, c, cx);
  }

  lemma RepeatedIs(g: Group, b: Group, c: Group, cx: Codec)
    ensures Repeated(g, b, c, cx) == ApplyGroup(ApplyGroup(Requested(g, cx), b, cx), c, cx)
  {
    hide ApplyGroup, Requested;
  }

  lemma RemoveJust(c: Core, h: string)
    ensures UnwindAll(c, [h]) == UnwindBlock(c, h)
  {
    hide UnwindBlock;
    assert [h][..0] == [];
    assert UnwindAll(c, []) == c;
  }

  lemma StillUnmarked(d: Database, b: Group, cx: Codec, h: string)
    requires h !in d.core.blocks.applied && h != b.hash
    ensures h !in ApplyGroup(d, b, cx).core.blocks.applied
  {
    hide InsertTxs, IndexTxs, Numbers;
  }

  function RepeatedEvents(g: Group, b: Group, c: Group, window: nat): seq<Event>
    requires window <= c.daa
  {
    [Applied([g]), Unwound(g.hash), Applied([b]), Applied([c]), Swept(c.daa - window)]
  }

  lemma RequestsNext(es: seq<Event>, e: Event, cx: Codec)
    ensures RunRequests(es + [e], cx) == NextRequests(RunRequests(es, cx), Run(es, cx), e, cx)
  {
    hide NextRequests, Run;
    assert (es + [e])[..|es|] == es;
  }

  /** The request as first accepted. */
  function FirstAsk(g: Group, q: RawTx, cx: Codec): RequestRec
    requires IsRequest(q, cx)
  {
    RequestRec(q.txId, cx.request(q).value, g.daa, g.hash)
  }

  /** A block with the request, or with nothing, leaves a list that knows the request alone. */
  lemma AskedAlready(rec: RequestRec, d: Database, b: Group, q: RawTx, cx: Codec)
    requires IsRequest(q, cx) && rec.request.identity == cx.request(q).value.identity && (b.txs == [q] || b.txs == [])
    ensures NextRequests([rec], d, Applied([b]), cx) == [rec]
  {
    assert [b][..0] == [] && [q][..0] == [] && [rec][0] == rec;
    assert Fresh(d, [], cx) == [];
    assert AskTxs([rec], [], b.hash, b.daa, cx) == [rec];
    assert AskTx([rec], q, b.hash, b.daa, cx) == [rec];
    assert AskTxs([rec], b.txs, b.hash, b.daa, cx) == [rec];
    assert AskGroups([rec], [], cx) == [rec] && AskGroups([rec], [b], cx) == [rec];
    assert Fresh(d, [b], cx) == [] || Fresh(d, [b], cx) == [b] by { assert [] + [b] == [b]; }
    hide IsRequest, Fresh, Apply;
  }

  lemma AskedOnce(g: Group, q: RawTx, cx: Codec)
    requires g.txs == [q] && IsRequest(q, cx)
    ensures AskGroups([], [g], cx) == [FirstAsk(g, q, cx)]
  {
    hide IsRequest;
    assert [g][..0] == [] && [q][..0] == [];
    assert AskTxs([], [q], g.hash, g.daa, cx) == [FirstAsk(g, q, cx)];
  }

  lemma FirstAsked(g: Group, q: RawTx, cx: Codec)
    requires g.txs == [q] && IsRequest(q, cx)
    ensures RunRequests([Applied([g])], cx) == [FirstAsk(g, q, cx)]
  {
    var es: seq<Event> := [];
    assert es + [Applied([g])] == [Applied([g])];
    assert Run(es, cx) == EMPTY && RunRequests(es, cx) == [];
    hide IsRequest, Fresh, StatsFor, EMPTY, FirstAsk, AskGroups, Run, RunRequests;
    RequestsNext(es, Applied([g]), cx);
    EmptyBlocks(g.hash);
    FreshOne(EMPTY, g, cx);
    AskedOnce(g, q, cx);
  }

  lemma AskSwept(rec: RequestRec, d: Database, cutoff: nat, cx: Codec)
    requires rec.daa < cutoff
    ensures NextRequests([rec], d, Swept(cutoff), cx) == []
  {
    assert [rec][..0] == [];
    assert Filter([], NotBelow(cutoff)) == [];
  }

  lemma AskRemoved(list: seq<RequestRec>, d: Database, h: string, cx: Codec)
    ensures NextRequests(list, d, Unwound(h), cx) == list
  {
  }

  /** The events give the same store, and empty the list of requests. */
  lemma RepeatedRun(g: Group, b: Group, c: Group, window: nat, cx: Codec, q: RawTx)
    requires g.daa + window < c.daa && g.txs == [q] && b.txs == [q] && c.txs == [] && IsRequest(q, cx)
    ensures Run(RepeatedEvents(g, b, c, window), cx) == Expire(Repeated(g, b, c, cx), c.daa - window)
    ensures RunRequests(RepeatedEvents(g, b, c, window), cx) == []
  {
    hide *;
    var e1, e2, e3, e4, e5 := Applied([g]), Unwound(g.hash), Applied([b]), Applied([c]), Swept(c.daa - window);
    var d1, d2, rec := ApplyGroup(EMPTY, g, cx), Requested(g, cx), FirstAsk(g, q, cx);
    FirstRun(g, cx);
    RunNext([e1], e2, cx);
    RunNext([e1, e2], e3, cx);
    RunNext([e1, e2, e3], e4, cx);
    RunNext([e1, e2, e3, e4], e5, cx);
    RequestsNext([e1], e2, cx);
    RequestsNext([e1, e2], e3, cx);
    RequestsNext([e1, e2, e3], e4, cx);
    RequestsNext([e1, e2, e3, e4], e5, cx);
    assert [e1] + [e2] == [e1, e2] && [e1, e2] + [e3] == [e1, e2, e3];
    assert [e1, e2, e3] + [e4] == [e1, e2, e3, e4] && [e1, e2, e3, e4] + [e5] == [e1, e2, e3, e4, e5];
    RepeatedEventsAre(g, b, c, window);
    RequestedIs(g, cx);
    RepeatedIs(g, b, c, cx);
    RemovedStep(d1, map[], g.hash, cx);
    ApplyStep(d2, map[], b, cx);
    ApplyStep(ApplyGroup(d2, b, cx), map[], c, cx);
    SweepStep(Repeated(g, b, c, cx), map[], c.daa - window, cx);
    FirstAsked(g, q, cx);
    FirstAskIs(g, q, cx);
    AskRemoved([rec], d1, g.hash, cx);
    AskedAlready(rec, d2, b, q, cx);
    AskedAlready(rec, ApplyGroup(d2, b, cx), c, q, cx);
    AskSwept(rec, Repeated(g, b, c, cx), c.daa - window, cx);
  }

  lemma FirstAskIs(g: Group, q: RawTx, cx: Codec)
    requires IsRequest(q, cx)
    ensures cx.request(q).Some?
    ensures FirstAsk(g, q, cx).daa == g.daa && FirstAsk(g, q, cx).request == cx.request(q).value
  {
  }

  lemma RepeatedEventsAre(g: Group, b: Group, c: Group, window: nat)
    requires window <= c.daa
    ensures RepeatedEvents(g, b, c, window) ==
      [Applied([g]), Unwound(g.hash), Applied([b]), Applied([c]), Swept(c.daa - window)]
  {
  }

  lemma RepeatedStored(g: Group, b: Group, c: Group, cx: Codec, cutoff: nat, q: RawTx)
    requires g.txs == [q] && b.txs == [q] && b.hash != c.hash && b.daa >= cutoff
    ensures var tx := Expire(Repeated(g, b, c, cx), cutoff).core.rows.tx; 1 in tx && tx[1].raw == q
  {
    hide *;
    var d2 := Requested(g, cx);
    var d3 := ApplyGroup(d2, b, cx);
    var d4 := ApplyGroup(d3, c, cx);
    RepeatedIs(g, b, c, cx);
    RequestedParts(g, cx, b.hash);
    EnteredOne(d2, b, cx, map[]);
    GroupRange(d2, b, cx, map[]);
    RangeDaa(d2.core.rows.tx, d3.core.rows.tx, 1, 1, b.hash, b.daa, 0);
    EnteredRaw(d3.core.rows.tx, 1, b.txs);
    ApplyGroupKeeps(d2, b, cx, map[]);
    ApplyGroupKeeps(d3, c, cx, map[] + Since(d3.core.rows.tx, d2.nextTxNum));
    ExtendsIs(d3, d4);
    SweptParts2(d4, cutoff);
    KeptAbove(d4.core.rows.tx, 1, cutoff);
  }

  lemma EnteredRaw(tx: map<nat, IndexedTx>, num: nat, txs: seq<RawTx>)
    requires Entered(Since(tx, num), num, txs) && |txs| == 1
    ensures num in tx && tx[num].raw == txs[0]
  {
    assert num in Since(tx, num);
  }

  lemma KeptAbove(tx: map<nat, IndexedTx>, n: nat, cutoff: nat)
    requires n in tx && tx[n].daa >= cutoff
    ensures n in tx - Expired(tx, cutoff)
  {
  }

  /** A request accepted in `g`, removed, and accepted again in `b`: it stays filed with `g`'s DAA.
      The sweep `c` triggers passes that DAA but not `b`'s, so the transaction is stored and
      `/inference/{tx_id}` no longer knows it. */
  lemma ReacceptedRequestIsLost(g: Group, b: Group, c: Group, window: nat, cx: Codec, q: RawTx)
    requires IsRequest(q, cx) && g.txs == [q] && b.txs == [q] && c.txs == [] && b.hash != c.hash
    requires 0 < window && g.daa + window < c.daa <= b.daa + window && b.daa <= window && EXPIRE_INTERVAL_DAA <= c.daa
    requires g.daa <= window < c.daa
    ensures var ns := [Notice(NOTHING, [g]), Notice([g.hash], [b]), Notice(NOTHING, [c])];
      var d := Follow(ns, window, cx).f.d;
      && OrderlyRun(ns, window, cx)
      && 1 in d.core.rows.tx && d.core.rows.tx[1].raw == q
      && DetailOf(d, q.txId, cx) == None
  {
    hide *;
    RepeatedTurns(g, b, c, window, cx);
    RepeatedRun(g, b, c, window, cx, q);
    RepeatedStored(g, b, c, cx, c.daa - window, q);
    var pairs := RepeatedAsked(g, b, c, window, cx, q);
    KeyResolvesIff(RepeatedEvents(g, b, c, window), cx, pairs, q.txId);
    NoDetail(Expire(Repeated(g, b, c, cx), c.daa - window), q.txId, cx);
  }

  lemma NoDetail(d: Database, k: string, cx: Codec)
    requires k !in d.ai.requestByKey
    ensures DetailOf(d, k, cx) == None
  {
  }

  lemma RepeatedAsked(g: Group, b: Group, c: Group, window: nat, cx: Codec, q: RawTx) returns (pairs: set<Ask>)
    requires IsRequest(q, cx) && g.txs == [q] && b.txs == [q] && c.txs == [] && window <= c.daa
    ensures Unclashed(pairs) && RunAsked(RepeatedEvents(g, b, c, window), pairs, cx)
  {
    pairs := {(q.txId, cx.request(q).value.identity)};
    hide IsRequest;
    assert AllAsked([q], pairs, cx);
    var none: seq<RawTx> := [];
    assert AllAsked(none, pairs, cx);
  }

  // --- a response whose block is removed ---

  /** A response accepted in `g` and removed again: nothing is stored, yet the feed goes on showing
      it as the first response. */
  lemma RemovedResponseStaysFirst(g: Group, p: RawTx, rh: string, window: nat, cx: Codec)
    requires g.txs == [p] && Answers(p, rh, cx) && g.daa <= window
    ensures var d := Follow([Notice(NOTHING, [g]), Notice([g.hash], [])], window, cx).f.d;
      && d.core.rows.tx == map[] && rh in d.ai.firstResponse && d.ai.firstResponse[rh].txId == p.txId
  {
    hide *;
    var n1, n2 := Notice(NOTHING, [g]), Notice([g.hash], []);
    var d1 := ApplyGroup(EMPTY, g, cx);
    FirstTurn(g, window, cx);
    FollowSnoc([n1], n2, window, cx);
    assert [n1] + [n2] == [n1, n2];
    RequestedIs(g, cx);
    RequestedParts(g, cx, g.hash);
    RemovedParts(State(d1, 0), [g.hash]);
    RemoveJust(d1.core, g.hash);
    NothingAdded(State(Requested(g, cx), 0), window, cx);
    StoredIsBooked(Requested(g, cx));
    FirstFiled(g, p, rh, cx);
  }

  lemma StoredIsBooked(d: Database)
    requires Inv(d, map[])
    ensures d.core.rows.tx == map[]
  {
    hide RowsCoupled, BlocksCoupled, Counted;
  }

  lemma FirstFiled(g: Group, p: RawTx, rh: string, cx: Codec)
    requires g.txs == [p] && Answers(p, rh, cx)
    ensures var ai := ApplyGroup(EMPTY, g, cx).ai; rh in ai.firstResponse && ai.firstResponse[rh].txId == p.txId
  {
    var none: Option<First> := None;
    EmptyBlocks(g.hash);
    ApplyGroupRows(EMPTY, g, cx);
    assert FirstIs(EMPTY.ai, rh, none);
    FirstOfTxs(EMPTY.ai, EMPTY.nextTxNum, g.txs, g.hash, g.daa, cx, rh, none);
    assert [p][..0] == [];
    hide ApplyGroup, IndexTxs, InsertTxs, Answers, EMPTY;
  }
}
