/** The stored window over whole follower runs: what one apply adds, when the
    rate-limited sweep bounds the window, and what breaks the bound. */
module WindowModel {
  import opened Types
  import opened Tables
  import opened Coupling
  import opened Branches
  import opened Replay
  import opened Retention
  import opened StoreModel
  import opened FollowerModel
  import InferenceIndex
  import Runs

  // --- what an apply adds ---

  /** Stored rows of `d'` are rows of `d` or carry the DAA of an added non-empty group. */
  ghost predicate AddsOnly(d: Database, d': Database, added: seq<Group>) {
    forall n :: n in d'.core.rows.tx ==>
      (n in d.core.rows.tx && d'.core.rows.tx[n] == d.core.rows.tx[n]) ||
      exists i :: 0 <= i < |added| && added[i].txs != [] && added[i].daa == d'.core.rows.tx[n].daa
  }

  ghost predicate AddsEach(d': Database, added: seq<Group>) {
    forall i :: 0 <= i < |added| && added[i].txs != [] ==>
      exists n :: n in d'.core.rows.tx && d'.core.rows.tx[n].daa == added[i].daa
  }

  lemma AddsOnlyOne(d: Database, mid: Database, d': Database, added: seq<Group>, g: Group, num: nat)
    requires AddsOnly(d, mid, added) && (forall n :: n in mid.core.rows.tx ==> n < num)
    requires InsertedRange(mid.core.rows.tx, d'.core.rows.tx, num, |g.txs|, g.hash, g.daa)
    ensures AddsOnly(d, d', added + [g])
  {
    var all := added + [g];
    forall n | n in d'.core.rows.tx && !(n in d.core.rows.tx && d'.core.rows.tx[n] == d.core.rows.tx[n])
      ensures exists i :: 0 <= i < |all| && all[i].txs != [] && all[i].daa == d'.core.rows.tx[n].daa
    {
      if n in mid.core.rows.tx {
        var i :| 0 <= i < |added| && added[i].txs != [] && added[i].daa == mid.core.rows.tx[n].daa;
        assert all[i].txs != [] && all[i].daa == d'.core.rows.tx[n].daa;
      } else {
        assert all[|added|].txs != [] && all[|added|].daa == d'.core.rows.tx[n].daa;
      }
    }
  }

  lemma AddsEachOne(mid: Database, d': Database, added: seq<Group>, g: Group, num: nat)
    requires AddsEach(mid, added) && (forall n :: n in mid.core.rows.tx ==> n < num)
    requires InsertedRange(mid.core.rows.tx, d'.core.rows.tx, num, |g.txs|, g.hash, g.daa)
    ensures AddsEach(d', added + [g])
  {
    var all := added + [g];
    forall i | 0 <= i < |all| && all[i].txs != []
      ensures exists n :: n in d'.core.rows.tx && d'.core.rows.tx[n].daa == all[i].daa
    {
      if i < |added| {
        var n :| n in mid.core.rows.tx && mid.core.rows.tx[n].daa == added[i].daa;
        assert d'.core.rows.tx[n].daa == all[i].daa;
      } else {
        assert num in d'.core.rows.tx;
      }
    }
  }

  lemma AddedOne(d: Database, mid: Database, added: seq<Group>, g: Group, cx: Codec, log: Log)
    requires Inv(mid, log) && g.hash !in mid.core.blocks.applied && AddsOnly(d, mid, added) && AddsEach(mid, added)
    ensures AddsOnly(d, ApplyGroup(mid, g, cx), added + [g]) && AddsEach(ApplyGroup(mid, g, cx), added + [g])
  {
    hide *;
    var d' := ApplyGroup(mid, g, cx);
    ApplyGroupRows(mid, g, cx);
    SoundBelow(mid, log);
    InsertTxsRange(mid.core.rows, mid.nextTxNum, g.txs, g.hash, g.daa, cx.attr);
    AddsOnlyOne(d, mid, d', added, g, mid.nextTxNum);
    AddsEachOne(mid, d', added, g, mid.nextTxNum);
  }

  lemma {:induction false} ApplyAdds(d: Database, gs: seq<Group>, cx: Codec, log: Log)
    requires Inv(d, log)
    ensures AddsOnly(d, Apply(d, gs, cx), Fresh(d, gs, cx)) && AddsEach(Apply(d, gs, cx), Fresh(d, gs, cx))
    decreases |gs|
  {
    hide Inv, ApplyGroup, AddsOnly, AddsEach, Since;
    if gs == [] {
      AddsNothing(d);
    } else {
      var k := |gs| - 1;
      var mid := Apply(d, gs[..k], cx);
      ApplyAdds(d, gs[..k], cx, log);
      ApplyKeeps(d, gs[..k], cx, log);
      var log1 := log + Since(mid.core.rows.tx, d.nextTxNum);
      if gs[k].hash in mid.core.blocks.applied {
        ApplyStaleIsNoOp(mid, gs[k], cx, log1);
      } else {
        AddedOne(d, mid, Fresh(d, gs[..k], cx), gs[k], cx, log1);
      }
    }
  }

  lemma AddsNothing(d: Database)
    ensures AddsOnly(d, d, []) && AddsEach(d, [])
  {
  }

  // --- the window ---

  /** The retention promise, measured from DAA `daa`. */
  ghost predicate Bounded(tx: map<nat, IndexedTx>, window: nat, daa: nat) {
    forall n :: n in tx ==> tx[n].daa + window + EXPIRE_INTERVAL_DAA > daa
  }

  /** The added blocks that carry transactions are no further below `daa` than the promise. */
  ghost predicate Recent(added: seq<Group>, window: nat, daa: nat) {
    forall i :: 0 <= i < |added| && added[i].txs != [] ==> added[i].daa + window + EXPIRE_INTERVAL_DAA > daa
  }

  /** Neither is `window_low_daa`. */
  predicate LowIsRecent(tx: map<nat, IndexedTx>, window: nat, daa: nat) {
    WindowLow(tx).Some? ==> WindowLow(tx).value + window + EXPIRE_INTERVAL_DAA > daa
  }

  lemma LowBounds(tx: map<nat, IndexedTx>, window: nat, daa: nat)
    requires SortedByDaa(tx)
    ensures Bounded(tx, window, daa) <==> LowIsRecent(tx, window, daa)
  {
    if n :| n in tx {
      LowOfSorted(tx, n);
      forall m | m in tx ensures WindowLow(tx).value <= tx[m].daa {
        LowOfSorted(tx, m);
      }
    } else {
      assert tx == map[];
    }
    hide WindowLow, SortedByDaa;
  }

  lemma SweepBounds(tx: map<nat, IndexedTx>, window: nat, daa: nat)
    requires SortedByDaa(tx) && daa > window
    ensures var kept := tx - Expired(tx, daa - window);
      Bounded(kept, window, daa) && WithinWindow(kept, window, daa)
  {
    SortedNoInversion(tx, daa - window);
    hide Expired, SortedByDaa;
  }

  /** Without a sweep the old rows stay and each added block with transactions adds some. */
  lemma SkipBounds(d: Database, d': Database, added: seq<Group>, window: nat, daa: nat)
    requires AddsOnly(d, d', added) && AddsEach(d', added) && Extends(d, d')
    ensures Bounded(d'.core.rows.tx, window, daa) <==>
      Recent(added, window, daa) && Bounded(d.core.rows.tx, window, daa)
  {
    var tx := d'.core.rows.tx;
    if Bounded(tx, window, daa) {
      forall i | 0 <= i < |added| && added[i].txs != [] ensures added[i].daa + window + EXPIRE_INTERVAL_DAA > daa {
        var n :| n in tx && tx[n].daa == added[i].daa;
      }
    }
    if Recent(added, window, daa) && Bounded(d.core.rows.tx, window, daa) {
      forall n | n in tx ensures tx[n].daa + window + EXPIRE_INTERVAL_DAA > daa {
        if n in d.core.rows.tx && tx[n] == d.core.rows.tx[n] {
        } else {
          var i :| 0 <= i < |added| && added[i].txs != [] && added[i].daa == tx[n].daa;
        }
      }
    }
  }

  lemma FollowSkips(f: State, gs: seq<Group>, window: nat, cx: Codec)
    requires !Due(window, f.last, StatsFor(f.d, gs, cx).checkpointDaa)
    ensures FollowApply(f, gs, window, cx) == State(Apply(f.d, gs, cx), f.last)
  {
    hide StatsFor, Apply, Due;
    if gs == [] { ApplyNone(f.d, cx); }
  }

  lemma FollowSweeps(f: State, gs: seq<Group>, window: nat, cx: Codec)
    requires var daa := StatsFor(f.d, gs, cx).checkpointDaa; Due(window, f.last, daa)
    ensures var daa := StatsFor(f.d, gs, cx).checkpointDaa;
      daa > window && FollowApply(f, gs, window, cx) == State(Expire(Apply(f.d, gs, cx), daa - window), daa)
  {
    NothingReached(f.d, cx);
    hide StatsFor, Apply, Expire;
  }

  lemma NothingReached(d: Database, cx: Codec)
    ensures StatsFor(d, [], cx).checkpointDaa == 0
  {
    hide Apply, AllTxs;
  }

  /** The state of a follower on an orderly chain, whatever it has been through. */
  ghost predicate Tracked(f: State, log: Log, chain: seq<Link>) {
    Inv(f.d, log) && Ordered(f.d.core, chain)
  }

  lemma UnfoldTracked(f: State, log: Log, chain: seq<Link>)
    requires Tracked(f, log, chain)
    ensures Inv(f.d, log) && Ordered(f.d.core, chain)
  {
    hide Inv, Ordered;
  }

  /** After any apply on an orderly chain the stored window is bounded if and only if a sweep
      ran, or every added block with transactions is recent and so was `window_low_daa`
      before the call. */
  lemma WindowBoundedIff(f: State, gs: seq<Group>, window: nat, cx: Codec, log: Log, chain: seq<Link>)
    requires Tracked(f, log, chain) && ExtendsTop(f.d, chain, gs, cx)
    ensures var daa := StatsFor(f.d, gs, cx).checkpointDaa;
      Bounded(FollowApply(f, gs, window, cx).d.core.rows.tx, window, daa) <==>
        Due(window, f.last, daa) ||
          (Recent(Fresh(f.d, gs, cx), window, daa) && LowIsRecent(f.d.core.rows.tx, window, daa))
  {
    hide *;
    UnfoldTracked(f, log, chain);
    var daa, d1 := StatsFor(f.d, gs, cx).checkpointDaa, Apply(f.d, gs, cx);
    ApplyOrdered(f.d, gs, cx, log, chain);
    if Due(window, f.last, daa) {
      FollowSweeps(f, gs, window, cx);
      OrderedSorted(d1.core, Extend(f.d, chain, gs, cx));
      SweepBounds(d1.core.rows.tx, window, daa);
      ExpireTx(d1, daa - window);
    } else {
      FollowSkips(f, gs, window, cx);
      ApplyAdds(f.d, gs, cx, log);
      ApplyKeeps(f.d, gs, cx, log);
      SkipBounds(f.d, d1, Fresh(f.d, gs, cx), window, daa);
      OrderedSorted(f.d.core, chain);
      LowBounds(f.d.core.rows.tx, window, daa);
    }
  }

  lemma ExpireTx(d: Database, cutoff: nat)
    ensures Expire(d, cutoff).core.rows.tx == d.core.rows.tx - Expired(d.core.rows.tx, cutoff)
    ensures Expire(d, cutoff).core == ExpireCore(d.core, cutoff)
  {
    hide ExpireInference, DropBlocks, Expired;
  }

  // --- unwinding inside a run ---

  /** The removal list names the top of the chain, highest first. */
  ghost predicate FromTop(chain: seq<Link>, removed: seq<string>) {
    |removed| <= |chain| && forall i :: 0 <= i < |removed| ==> removed[i] == chain[|chain| - 1 - i].hash
  }

  function UndoneAll(c: Core, removed: seq<string>): set<nat>
    decreases |removed|
  {
    if removed == [] then {}
    else
      var k := |removed| - 1;
      UndoneAll(c, removed[..k]) + Undone(UnwindAll(c, removed[..k]), removed[k])
  }

  lemma UnwindOneTracks(f: State, log: Log, chain: seq<Link>)
    requires Tracked(f, log, chain) && chain != []
    ensures var h := chain[|chain| - 1].hash;
      Tracked(f.(d := f.d.(core := UnwindBlock(f.d.core, h))), log - Undone(f.d.core, h), chain[..|chain| - 1])
  {
    hide Inv, Ordered, UnwindBlock, Undone;
    var h := chain[|chain| - 1].hash;
    UnfoldInv(f.d, log);
    UnwindKeeps(f.d, h, log);
    UnwindTopOrdered(f.d.core, f.d.nextTxNum, log, chain);
  }

  lemma {:induction false} UnwindAllTracks(f: State, removed: seq<string>, log: Log, chain: seq<Link>)
    requires Tracked(f, log, chain) && FromTop(chain, removed)
    ensures Tracked(AfterRemoval(f, removed), log - UndoneAll(f.d.core, removed), chain[..|chain| - |removed|])
    decreases |removed|
  {
    hide Tracked, UnwindBlock, Undone;
    if removed == [] {
      assert log - {} == log && chain[..|chain|] == chain;
      assert AfterRemoval(f, removed) == f;
    } else {
      var k := |removed| - 1;
      UnwindAllTracks(f, removed[..k], log, chain);
      var f1, log1, chain1 := AfterRemoval(f, removed[..k]), log - UndoneAll(f.d.core, removed[..k]),
        chain[..|chain| - k];
      UnwindOneTracks(f1, log1, chain1);
      assert log1 - Undone(f1.d.core, removed[k]) == log - UndoneAll(f.d.core, removed);
      assert chain1[..|chain1| - 1] == chain[..|chain| - |removed|];
    }
  }

  function LogApplied(f: State, gs: seq<Group>, cx: Codec, log: Log): Log {
    log + Since(Apply(f.d, gs, cx).core.rows.tx, f.d.nextTxNum)
  }

  lemma ApplyTracks(f: State, gs: seq<Group>, window: nat, cx: Codec, log: Log, chain: seq<Link>)
    requires Tracked(f, log, chain) && ExtendsTop(f.d, chain, gs, cx)
    ensures Tracked(FollowApply(f, gs, window, cx), LogApplied(f, gs, cx, log), Extend(f.d, chain, gs, cx))
  {
    hide Inv, Ordered, ExtendsTop, Extend, StatsFor, Apply, FollowApply, Due, Since, ExpireCore, Expire;
    var daa, d1 := StatsFor(f.d, gs, cx).checkpointDaa, Apply(f.d, gs, cx);
    ApplyKeeps(f.d, gs, cx, log);
    ApplyOrdered(f.d, gs, cx, log, chain);
    if Due(window, f.last, daa) {
      FollowSweeps(f, gs, window, cx);
      UnfoldInv(d1, LogApplied(f, gs, cx, log));
      ExpireKeeps(d1, daa - window, LogApplied(f, gs, cx, log));
      SweepOrdered(d1.core, daa - window, Extend(f.d, chain, gs, cx));
      ExpireTx(d1, daa - window);
    } else {
      FollowSkips(f, gs, window, cx);
    }
  }

  // --- whole follower runs ---

  /** One turn of the follower: a notification (a gap-fill removes nothing), or a restart over
      the durable store. */
  datatype Turn = Notice(removed: seq<string>, groups: seq<Group>) | Restart

  /** A follower state with the books and chain it corresponds to. */
  datatype Trace = Trace(f: State, log: Log, chain: seq<Link>)

  function ChainAfter(chain: seq<Link>, removed: seq<string>): seq<Link> {
    if |removed| <= |chain| then chain[..|chain| - |removed|] else []
  }

  function FollowOne(t: Trace, n: Turn, window: nat, cx: Codec): Trace {
    match n
    case Notice(removed, groups) =>
      var f1 := AfterRemoval(t.f, removed);
      Trace(FollowApply(f1, groups, window, cx),
            LogApplied(f1, groups, cx, t.log - UndoneAll(t.f.d.core, removed)),
            Extend(f1.d, ChainAfter(t.chain, removed), groups, cx))
    case Restart => t.(f := t.f.(last := 0))
  }

  const START := Trace(State(EMPTY, 0), map[], [])

  function Follow(ns: seq<Turn>, window: nat, cx: Codec): Trace {
    if ns == [] then START else FollowOne(Follow(ns[..|ns| - 1], window, cx), ns[|ns| - 1], window, cx)
  }

  /** The chain discipline for one turn: a notification removes from the top and adds on top. */
  ghost predicate Orderly(t: Trace, n: Turn, cx: Codec) {
    n.Notice? ==>
      && FromTop(t.chain, n.removed)
      && ExtendsTop(AfterRemoval(t.f, n.removed).d, ChainAfter(t.chain, n.removed), n.groups, cx)
  }

  ghost predicate OrderlyRun(ns: seq<Turn>, window: nat, cx: Codec)
    decreases |ns|
  {
    ns != [] ==>
      var pre := ns[..|ns| - 1];
      OrderlyRun(pre, window, cx) && Orderly(Follow(pre, window, cx), ns[|ns| - 1], cx)
  }

  lemma RemovalTracks(t: Trace, removed: seq<string>)
    requires Tracked(t.f, t.log, t.chain) && FromTop(t.chain, removed)
    ensures Tracked(AfterRemoval(t.f, removed), t.log - UndoneAll(t.f.d.core, removed), ChainAfter(t.chain, removed))
  {
    hide Tracked, AfterRemoval;
    UnwindAllTracks(t.f, removed, t.log, t.chain);
  }

  lemma FollowOneTracks(t: Trace, n: Turn, window: nat, cx: Codec)
    requires Tracked(t.f, t.log, t.chain) && Orderly(t, n, cx)
    ensures var t' := FollowOne(t, n, window, cx); Tracked(t'.f, t'.log, t'.chain)
  {
    hide Tracked, AfterRemoval, ExtendsTop, FollowApply, LogApplied, Extend;
    if n.Restart? {
      RestartTracks(t.f, t.log, t.chain);
    } else {
      RemovalTracks(t, n.removed);
      ApplyTracks(AfterRemoval(t.f, n.removed), n.groups, window, cx, t.log - UndoneAll(t.f.d.core, n.removed),
                  ChainAfter(t.chain, n.removed));
    }
  }

  lemma RestartTracks(f: State, log: Log, chain: seq<Link>)
    requires Tracked(f, log, chain)
    ensures Tracked(f.(last := 0), log, chain)
  {
    hide Inv, Ordered;
  }

  lemma StartTracks()
    ensures Tracked(START.f, START.log, START.chain)
  {
    Runs.EmptyInv();
    EmptyOrdered();
    hide Inv, Ordered;
  }

  /** Every orderly run keeps the tables coupled and sorted by DAA along the chain. */
  lemma {:induction false} RunTracks(ns: seq<Turn>, window: nat, cx: Codec)
    requires OrderlyRun(ns, window, cx)
    ensures var t := Follow(ns, window, cx); Tracked(t.f, t.log, t.chain)
    decreases |ns|
  {
    hide Tracked, Orderly, FollowOne;
    if ns == [] {
      StartTracks();
    } else {
      RunTracks(ns[..|ns| - 1], window, cx);
      FollowOneTracks(Follow(ns[..|ns| - 1], window, cx), ns[|ns| - 1], window, cx);
    }
  }

  predicate EndsInNotice(ns: seq<Turn>) {
    ns != [] && ns[|ns| - 1].Notice?
  }

  /** The follower after the last notification's removals, before its blocks are applied. */
  function BeforeApply(ns: seq<Turn>, window: nat, cx: Codec): State
    requires EndsInNotice(ns)
  {
    AfterRemoval(Follow(ns[..|ns| - 1], window, cx).f, ns[|ns| - 1].removed)
  }

  /** The DAA the last notification reached. */
  function Reached(ns: seq<Turn>, window: nat, cx: Codec): nat
    requires EndsInNotice(ns)
  {
    StatsFor(BeforeApply(ns, window, cx).d, ns[|ns| - 1].groups, cx).checkpointDaa
  }

  lemma FollowLast(ns: seq<Turn>, window: nat, cx: Codec)
    requires EndsInNotice(ns)
    ensures Follow(ns, window, cx).f == FollowApply(BeforeApply(ns, window, cx), ns[|ns| - 1].groups, window, cx)
  {
    hide FollowApply, AfterRemoval, LogApplied, Extend;
  }

  lemma BeforeApplyTracks(ns: seq<Turn>, window: nat, cx: Codec)
    requires OrderlyRun(ns, window, cx) && EndsInNotice(ns)
    ensures var t, n := Follow(ns[..|ns| - 1], window, cx), ns[|ns| - 1];
      var f1, chain1 := BeforeApply(ns, window, cx), ChainAfter(t.chain, n.removed);
      Tracked(f1, t.log - UndoneAll(t.f.d.core, n.removed), chain1) && ExtendsTop(f1.d, chain1, n.groups, cx)
  {
    hide Tracked, AfterRemoval, ExtendsTop, Follow, ChainAfter, FromTop;
    RunTracks(ns[..|ns| - 1], window, cx);
    RemovalTracks(Follow(ns[..|ns| - 1], window, cx), ns[|ns| - 1].removed);
  }

  /** After every notification of every orderly run, however deep its reorgs: the window is
      bounded if and only if that notification swept, or both its blocks with transactions
      and `window_low_daa` before its apply are recent. */
  lemma RunWindowBoundedIff(ns: seq<Turn>, window: nat, cx: Codec)
    requires OrderlyRun(ns, window, cx) && EndsInNotice(ns)
    ensures var f1, daa := BeforeApply(ns, window, cx), Reached(ns, window, cx);
      Bounded(Follow(ns, window, cx).f.d.core.rows.tx, window, daa) <==>
        Due(window, f1.last, daa) ||
        (Recent(Fresh(f1.d, ns[|ns| - 1].groups, cx), window, daa) && LowIsRecent(f1.d.core.rows.tx, window, daa))
  {
    var t, n := Follow(ns[..|ns| - 1], window, cx), ns[|ns| - 1];
    assert Reached(ns, window, cx) == StatsFor(BeforeApply(ns, window, cx).d, n.groups, cx).checkpointDaa by {
      hide BeforeApply, StatsFor;
    }
    hide *;
    BeforeApplyTracks(ns, window, cx);
    FollowLast(ns, window, cx);
    WindowBoundedIff(BeforeApply(ns, window, cx), n.groups, window, cx, t.log - UndoneAll(t.f.d.core, n.removed),
                     ChainAfter(t.chain, n.removed));
  }

  // --- shallow runs ---

  /** Nothing stored lies further below the last sweep than the window. */
  ghost predicate WithinWindow(tx: map<nat, IndexedTx>, window: nat, last: nat) {
    forall n :: n in tx ==> tx[n].daa + window >= last
  }

  /** No added block with transactions lies below the window of the last sweep: reorgs stay
      shallower than the window. */
  ghost predicate Shallow(added: seq<Group>, window: nat, last: nat) {
    forall i :: 0 <= i < |added| && added[i].txs != [] ==> added[i].daa + window >= last
  }

  ghost predicate ShallowRun(ns: seq<Turn>, window: nat, cx: Codec)
    decreases |ns|
  {
    ns != [] ==>
      && ShallowRun(ns[..|ns| - 1], window, cx)
      && (ns[|ns| - 1].Notice? ==>
            var f1 := BeforeApply(ns, window, cx);
            Shallow(Fresh(f1.d, ns[|ns| - 1].groups, cx), window, f1.last))
  }

  lemma ShallowIsBounded(tx: map<nat, IndexedTx>, window: nat, last: nat, daa: nat)
    requires WithinWindow(tx, window, last) && window > 0 && !Due(window, last, daa)
    ensures Bounded(tx, window, daa)
  {
  }

  lemma SkipKeepsWithin(d: Database, d': Database, added: seq<Group>, window: nat, last: nat)
    requires AddsOnly(d, d', added) && WithinWindow(d.core.rows.tx, window, last) && Shallow(added, window, last)
    ensures WithinWindow(d'.core.rows.tx, window, last)
  {
    forall n | n in d'.core.rows.tx ensures d'.core.rows.tx[n].daa + window >= last {
      if !(n in d.core.rows.tx && d'.core.rows.tx[n] == d.core.rows.tx[n]) {
        var i :| 0 <= i < |added| && added[i].txs != [] && added[i].daa == d'.core.rows.tx[n].daa;
      }
    }
  }

  lemma UnwindKeepsWithin(c: Core, h: string, window: nat, last: nat)
    requires WithinWindow(c.rows.tx, window, last)
    ensures WithinWindow(UnwindBlock(c, h).rows.tx, window, last)
  {
    hide UnwindBlock;
    InferenceIndex.UnwindShrinks(c, h);
  }

  lemma {:induction false} RemovalKeepsWithin(f: State, removed: seq<string>, window: nat)
    requires WithinWindow(f.d.core.rows.tx, window, f.last)
    ensures var f1 := AfterRemoval(f, removed); WithinWindow(f1.d.core.rows.tx, window, f1.last)
    decreases |removed|
  {
    hide WithinWindow, UnwindBlock;
    if removed != [] {
      var k := |removed| - 1;
      RemovalKeepsWithin(f, removed[..k], window);
      UnwindKeepsWithin(UnwindAll(f.d.core, removed[..k]), removed[k], window, f.last);
    }
  }

  lemma ApplyKeepsWithin(f: State, gs: seq<Group>, window: nat, cx: Codec, log: Log, chain: seq<Link>)
    requires Tracked(f, log, chain) && ExtendsTop(f.d, chain, gs, cx) && window > 0
    requires WithinWindow(f.d.core.rows.tx, window, f.last) && Shallow(Fresh(f.d, gs, cx), window, f.last)
    ensures var f' := FollowApply(f, gs, window, cx);
      && WithinWindow(f'.d.core.rows.tx, window, f'.last)
      && Bounded(f'.d.core.rows.tx, window, StatsFor(f.d, gs, cx).checkpointDaa)
  {
    hide *;
    UnfoldTracked(f, log, chain);
    var daa, d1 := StatsFor(f.d, gs, cx).checkpointDaa, Apply(f.d, gs, cx);
    if Due(window, f.last, daa) {
      ApplyOrdered(f.d, gs, cx, log, chain);
      FollowSweeps(f, gs, window, cx);
      OrderedSorted(d1.core, Extend(f.d, chain, gs, cx));
      SweepBounds(d1.core.rows.tx, window, daa);
      ExpireTx(d1, daa - window);
    } else {
      FollowSkips(f, gs, window, cx);
      ApplyAdds(f.d, gs, cx, log);
      SkipKeepsWithin(f.d, d1, Fresh(f.d, gs, cx), window, f.last);
      ShallowIsBounded(d1.core.rows.tx, window, f.last, daa);
    }
  }

  lemma {:induction false} RunKeepsWithin(ns: seq<Turn>, window: nat, cx: Codec)
    requires window > 0 && OrderlyRun(ns, window, cx) && ShallowRun(ns, window, cx)
    ensures var f := Follow(ns, window, cx).f; WithinWindow(f.d.core.rows.tx, window, f.last)
    ensures EndsInNotice(ns) ==> Bounded(Follow(ns, window, cx).f.d.core.rows.tx, window, Reached(ns, window, cx))
    decreases |ns|
  {
    if ns != [] && ns[|ns| - 1].Restart? {
      hide FollowApply, AfterRemoval, LogApplied, Extend, Shallow, Fresh;
    } else if ns != [] {
      var t, n, f1 := Follow(ns[..|ns| - 1], window, cx), ns[|ns| - 1], BeforeApply(ns, window, cx);
      hide WithinWindow, Bounded, Shallow, Follow, Tracked, ExtendsTop, AfterRemoval, StatsFor, Fresh, FollowApply,
        Orderly, UndoneAll, ChainAfter;
      RunKeepsWithin(ns[..|ns| - 1], window, cx);
      RemovalKeepsWithin(t.f, n.removed, window);
      BeforeApplyTracks(ns, window, cx);
      FollowLast(ns, window, cx);
      ApplyKeepsWithin(f1, n.groups, window, cx, t.log - UndoneAll(t.f.d.core, n.removed),
        ChainAfter(t.chain, n.removed));
    }
  }

  /** Bounded window over every shallow run: after each notification every stored transaction
      lies less than `window + 900` below the DAA that notification reached. */
  lemma WindowStaysBounded(ns: seq<Turn>, window: nat, cx: Codec)
    requires window > 0 && EndsInNotice(ns) && OrderlyRun(ns, window, cx) && ShallowRun(ns, window, cx)
    ensures Bounded(Follow(ns, window, cx).f.d.core.rows.tx, window, Reached(ns, window, cx))
  {
    hide *;
    RunKeepsWithin(ns, window, cx);
  }

  // --- the checkpoint ---

  /** The DAA a batch reports is its new checkpoint's; 0 when it only repeated marked blocks. */
  lemma {:induction false} ReachedIsCheckpoint(d: Database, gs: seq<Group>, cx: Codec)
    ensures Apply(d, gs, cx).checkpoint == CheckpointAfter(d, Fresh(d, gs, cx))
    decreases |gs|
  {
    hide ApplyGroup;
    if gs != [] {
      var k := |gs| - 1;
      var mid := Apply(d, gs[..k], cx);
      ReachedIsCheckpoint(d, gs[..k], cx);
      if gs[k].hash in mid.core.blocks.applied {
        ApplyMarked(mid, gs[k], cx);
      } else {
        ApplyGroupRows(mid, gs[k], cx);
      }
    }
  }

  lemma KeptByExpire(d: Database, log: Log, cutoff: nat, n: nat, h: string)
    requires Inv(d, log)
    ensures n in d.core.rows.tx && d.core.rows.tx[n].daa >= cutoff ==> n in Expire(d, cutoff).core.rows.tx
    ensures h in d.core.blocks.applied && d.core.blocks.applied[h] >= cutoff ==>
      h in Expire(d, cutoff).core.blocks.applied && h in Expire(d, cutoff).core.blocks.acceptedBy
  {
    UnfoldInv(d, log);
    DropBlocksApplied(d.core, cutoff, h);
    hide Inv, BlocksCoupled, ExpireInference, DropBlocks;
  }

  /** Whatever a notification's sweep removes, the checkpoint block's rows and metadata stay,
      whether or not the table is sorted. */
  lemma SweepKeepsCheckpoint(f: State, gs: seq<Group>, window: nat, cx: Codec, log: Log, n: nat, h: string)
    requires Inv(f.d, log)
    ensures var daa, d1, d' := StatsFor(f.d, gs, cx).checkpointDaa, Apply(f.d, gs, cx),
      FollowApply(f, gs, window, cx).d;
      && (n in d1.core.rows.tx && d1.core.rows.tx[n].daa == daa ==> n in d'.core.rows.tx)
      && (h in d1.core.blocks.applied && d1.core.blocks.applied[h] == daa ==>
            h in d'.core.blocks.applied && h in d'.core.blocks.acceptedBy)
  {
    var daa, d1 := StatsFor(f.d, gs, cx).checkpointDaa, Apply(f.d, gs, cx);
    assert gs == [] ==> d1 == f.d by { ApplyNone(f.d, cx); hide StatsFor; }
    ApplyKeeps(f.d, gs, cx, log);
    var log1 := log + Since(d1.core.rows.tx, f.d.nextTxNum);
    UnfoldInv(d1, log1);
    assert d1.core.blocks.applied.Keys == d1.core.blocks.acceptedBy.Keys by { hide Apply, RowsInv; }
    hide StatsFor, Apply, Expire, Inv, BlocksCoupled, Since;
    if Due(window, f.last, daa) && gs != [] {
      KeptByExpire(d1, log1, daa - window, n, h);
    }
  }

  // --- deep reorgs ---

  lemma FollowSnoc(ns: seq<Turn>, n: Turn, window: nat, cx: Codec)
    requires n.Notice?
    ensures EndsInNotice(ns + [n])
    ensures var t, t' := Follow(ns, window, cx), Follow(ns + [n], window, cx);
      var f1, chain1 := AfterRemoval(t.f, n.removed), ChainAfter(t.chain, n.removed);
      && t'.f == FollowApply(f1, n.groups, window, cx) && t'.chain == Extend(f1.d, chain1, n.groups, cx)
      && (OrderlyRun(ns + [n], window, cx) <==>
            OrderlyRun(ns, window, cx) && FromTop(t.chain, n.removed) && ExtendsTop(f1.d, chain1, n.groups, cx))
      && BeforeApply(ns + [n], window, cx) == f1
      && Reached(ns + [n], window, cx) == StatsFor(f1.d, n.groups, cx).checkpointDaa
  {
    hide FollowApply, FromTop, AfterRemoval, StatsFor, Extend, ExtendsTop, ChainAfter, LogApplied;
    assert (ns + [n])[..|ns|] == ns;
  }

  lemma FollowStart(window: nat, cx: Codec, h: string)
    ensures Follow([], window, cx).f == State(EMPTY, 0) && Follow([], window, cx).chain == [] &&
      OrderlyRun([], window, cx)
    ensures h !in EMPTY.core.blocks.applied
  {
  }

  lemma BareChain(l: Link)
    ensures ChainAfter([], NOTHING) == [] && FromTop([], NOTHING) && [] + [l] == [l]
    ensures ChainAfter([l], NOTHING) == [l] && FromTop([l], NOTHING)
    ensures ChainAfter([l], [l.hash]) == [] && FromTop([l], [l.hash])
  {
  }

  lemma FreshOne(d: Database, g: Group, cx: Codec)
    requires g.hash !in d.core.blocks.applied
    ensures Fresh(d, [g], cx) == [g] && StatsFor(d, [g], cx).checkpointDaa == g.daa
  {
    hide ApplyGroup, AllTxs;
    assert [g][..0] == [];
    assert Apply(d, [], cx) == d;
  }

  lemma FreshPair(d: Database, b: Group, c: Group, cx: Codec)
    requires b.hash !in d.core.blocks.applied && c.hash !in d.core.blocks.applied && b.hash != c.hash
    ensures Fresh(d, [b, c], cx) == [b, c] && StatsFor(d, [b, c], cx).checkpointDaa == c.daa
  {
    hide ApplyGroup, AllTxs;
    assert [b, c][..1] == [b] && [b][..0] == [];
    assert Apply(d, [], cx) == d;
    assert Apply(d, [b], cx) == ApplyGroup(d, b, cx);
    ApplyGroupApplied(d, b, cx);
    assert Fresh(d, [b], cx) == [b];
  }

  lemma OnTopOne(d: Database, chain: seq<Link>, g: Group, cx: Codec)
    requires g.hash !in d.core.blocks.applied
    ensures OnTop(chain, g) ==> ExtendsTop(d, chain, [g], cx)
    ensures Extend(d, chain, [g], cx) == chain + [Link(g.hash, g.daa)]
  {
    hide ApplyGroup;
    assert [g][..0] == [];
    assert Apply(d, [], cx) == d && Extend(d, chain, [], cx) == chain;
  }

  lemma OnTopPair(d: Database, b: Group, c: Group, cx: Codec)
    requires b.hash != c.hash && b.daa <= c.daa
    ensures ExtendsTop(d, [], [b, c], cx)
  {
    hide Apply;
    assert [b, c][..1] == [b] && [b][..0] == [];
    assert Extend(d, [], [b][..0], cx) == [];
    assert ExtendsTop(d, [], [b], cx);
    assert Extend(d, [], [b], cx) == [] || Extend(d, [], [b], cx) == [Link(b.hash, b.daa)];
  }

  lemma EmptyChain(f: State, log: Log, h: string)
    requires Tracked(f, log, [])
    ensures h !in f.d.core.blocks.applied
  {
    hide Inv, Anchored, SortedByDaa;
    assert OnChain(f.d.core.blocks, []);
  }

  const NOTHING: seq<string> := []

  /** A fresh follower that applied `g`, swept, and saw `g` removed again: the chain is empty
      and the next sweep is not due before `g.daa + 900`. */
  lemma SweptThenRemoved(g: Group, window: nat, cx: Codec)
    requires window > 0 && g.daa > window && g.daa >= EXPIRE_INTERVAL_DAA
    ensures var t := Follow([Notice(NOTHING, [g])], window, cx);
      && OrderlyRun([Notice(NOTHING, [g])], window, cx)
      && FromTop(t.chain, [g.hash]) && ChainAfter(t.chain, [g.hash]) == []
      && AfterRemoval(t.f, [g.hash]).last == g.daa
      && exists log :: Tracked(AfterRemoval(t.f, [g.hash]), log, [])
  {
    hide *;
    var n, l := Notice(NOTHING, [g]), Link(g.hash, g.daa);
    assert [] + [n] == [n];
    FollowStart(window, cx, g.hash);
    FollowSnoc([], n, window, cx);
    NothingRemoved(State(EMPTY, 0));
    BareChain(l);
    FreshOne(EMPTY, g, cx);
    OnTopNothing(g);
    OnTopOne(EMPTY, [], g, cx);
    DueAtFirst(window, g.daa);
    FollowSweeps(State(EMPTY, 0), [g], window, cx);
    var t := Follow([n], window, cx);
    RunTracks([n], window, cx);
    RemovalTracks(t, [g.hash]);
    RemovalKeepsLast(t.f, [g.hash]);
  }

  lemma DueAtFirst(window: nat, daa: nat)
    requires window > 0 && daa > window && daa >= EXPIRE_INTERVAL_DAA
    ensures Due(window, 0, daa)
  {
  }

  lemma OnTopNothing(g: Group)
    ensures OnTop([], g)
  {
  }

  lemma RemovalKeepsLast(f: State, removed: seq<string>)
    ensures AfterRemoval(f, removed).last == f.last
  {
    hide UnwindAll;
  }

  lemma NothingRemoved(f: State)
    ensures AfterRemoval(f, NOTHING) == f
  {
  }

  /** The bound needs reorgs shallower than the window. A fresh follower applies `g` and sweeps;
      then a reorg removes `g` and adds, in order, `b` far below the window and `c` short of the
      next sweep: `b`'s rows stay stored beyond the bound. */
  lemma DeepReorgEscapesWindow(g: Group, b: Group, c: Group, window: nat, cx: Codec)
    requires window > 0 && g.daa > window && g.daa >= EXPIRE_INTERVAL_DAA && b.hash != c.hash && b.txs != []
    requires b.daa + window + EXPIRE_INTERVAL_DAA <= c.daa < g.daa + EXPIRE_INTERVAL_DAA
    ensures var ns := [Notice(NOTHING, [g]), Notice([g.hash], [b, c])];
      && OrderlyRun(ns, window, cx) && Reached(ns, window, cx) == c.daa
      && !Bounded(Follow(ns, window, cx).f.d.core.rows.tx, window, c.daa)
  {
    hide *;
    InOrder(b.daa, c.daa, g.daa, window);
    var n1, n2 := Notice(NOTHING, [g]), Notice([g.hash], [b, c]);
    SweptThenRemoved(g, window, cx);
    FollowSnoc([n1], n2, window, cx);
    assert [n1] + [n2] == [n1, n2];
    var f1 := AfterRemoval(Follow([n1], window, cx).f, [g.hash]);
    var log :| Tracked(f1, log, []);
    EmptyChain(f1, log, b.hash);
    EmptyChain(f1, log, c.hash);
    FreshPair(f1.d, b, c, cx);
    OnTopPair(f1.d, b, c, cx);
    NotDueYet(window, f1.last, c.daa);
    FarBelow(b, c, window);
    RunWindowBoundedIff([n1, n2], window, cx);
  }

  lemma InOrder(b: nat, c: nat, g: nat, window: nat)
    requires b + window + EXPIRE_INTERVAL_DAA <= c < g + EXPIRE_INTERVAL_DAA
    ensures b <= c && b < g + EXPIRE_INTERVAL_DAA
  {
  }

  lemma FarBelow(b: Group, c: Group, window: nat)
    requires b.txs != [] && b.daa + window + EXPIRE_INTERVAL_DAA <= c.daa
    ensures !Recent([b, c], window, c.daa)
  {
    assert [b, c][0] == b;
  }

  /** The state after `b` alone has replaced `g`. */
  lemma AfterDeepReorg(g: Group, b: Group, window: nat, cx: Codec)
    requires window > 0 && g.daa > window && g.daa >= EXPIRE_INTERVAL_DAA && b.txs != []
    requires b.daa < g.daa + EXPIRE_INTERVAL_DAA
    ensures var ns := [Notice(NOTHING, [g]), Notice([g.hash], [b])];
      var t := Follow(ns, window, cx);
      && OrderlyRun(ns, window, cx) && Reached(ns, window, cx) == b.daa
      && t.f.last == g.daa && t.chain == [Link(b.hash, b.daa)]
      && (forall h :: h in t.f.d.core.blocks.applied ==> h == b.hash)
      && exists n :: n in t.f.d.core.rows.tx && t.f.d.core.rows.tx[n].daa == b.daa
  {
    hide *;
    var n1, n2 := Notice(NOTHING, [g]), Notice([g.hash], [b]);
    SweptThenRemoved(g, window, cx);
    FollowSnoc([n1], n2, window, cx);
    assert [n1] + [n2] == [n1, n2];
    var f1 := AfterRemoval(Follow([n1], window, cx).f, [g.hash]);
    var log :| Tracked(f1, log, []);
    ReplacedBy(f1, log, b, window, cx);
  }

  lemma ReplacedBy(f: State, log: Log, b: Group, window: nat, cx: Codec)
    requires Tracked(f, log, []) && b.txs != [] && b.daa < f.last + EXPIRE_INTERVAL_DAA
    ensures ExtendsTop(f.d, [], [b], cx) && Extend(f.d, [], [b], cx) == [Link(b.hash, b.daa)]
    ensures StatsFor(f.d, [b], cx).checkpointDaa == b.daa
    ensures var f' := FollowApply(f, [b], window, cx);
      && f'.last == f.last
      && (forall h :: h in f'.d.core.blocks.applied ==> h == b.hash)
      && exists n :: n in f'.d.core.rows.tx && f'.d.core.rows.tx[n].daa == b.daa
  {
    hide *;
    BareChain(Link(b.hash, b.daa));
    OnTopNothing(b);
    UnfoldTracked(f, log, []);
    forall h ensures h !in f.d.core.blocks.applied { EmptyChain(f, log, h); }
    FreshOne(f.d, b, cx);
    OnTopOne(f.d, [], b, cx);
    NotDueYet(window, f.last, b.daa);
    FollowSkips(f, [b], window, cx);
    MarksOne(f.d, b, cx);
    ApplyAdds(f.d, [b], cx, log);
    AddedFirst(Apply(f.d, [b], cx), b);
  }

  lemma MarksOne(d: Database, b: Group, cx: Codec)
    ensures forall h :: h in Apply(d, [b], cx).core.blocks.applied ==> h == b.hash || h in d.core.blocks.applied
  {
    ApplyMarks(d, [b], cx);
    hide Apply;
  }

  lemma NotDueYet(window: nat, last: nat, daa: nat)
    requires daa < last + EXPIRE_INTERVAL_DAA
    ensures !Due(window, last, daa)
  {
  }

  lemma AddedFirst(d: Database, b: Group)
    requires AddsEach(d, [b]) && b.txs != []
    ensures exists n :: n in d.core.rows.tx && d.core.rows.tx[n].daa == b.daa
  {
    assert [b][0] == b;
  }

  /** Recent blocks alone do not save the bound: when `b` and `c` arrive one after the other,
      each is recent at its own notification and no sweep is due, yet `b`'s rows are beyond the
      bound once `c` is applied. Only `window_low_daa` tells. */
  lemma DeepReorgEscapesLater(g: Group, b: Group, c: Group, window: nat, cx: Codec)
    requires window > 0 && g.daa > window && g.daa >= EXPIRE_INTERVAL_DAA && b.hash != c.hash && b.txs != []
    requires b.daa + window + EXPIRE_INTERVAL_DAA <= c.daa < g.daa + EXPIRE_INTERVAL_DAA
    ensures var ns := [Notice(NOTHING, [g]), Notice([g.hash], [b]), Notice(NOTHING, [c])];
      var f1 := BeforeApply(ns, window, cx);
      && OrderlyRun(ns, window, cx) && Reached(ns, window, cx) == c.daa
      && !Due(window, f1.last, c.daa) && Recent(Fresh(f1.d, [c], cx), window, c.daa)
      && !Bounded(Follow(ns, window, cx).f.d.core.rows.tx, window, c.daa)
  {
    hide *;
    InOrder(b.daa, c.daa, g.daa, window);
    var two, n3 := [Notice(NOTHING, [g]), Notice([g.hash], [b])], Notice(NOTHING, [c]);
    AfterDeepReorg(g, b, window, cx);
    FollowSnoc(two, n3, window, cx);
    assert two + [n3] == [Notice(NOTHING, [g]), Notice([g.hash], [b]), n3];
    var t, l := Follow(two, window, cx), Link(b.hash, b.daa);
    NothingRemoved(t.f);
    BareChain(l);
    FreshOne(t.f.d, c, cx);
    OnTopOf(l, c);
    OnTopOne(t.f.d, [l], c, cx);
    NotDueYet(window, t.f.last, c.daa);
    RecentAlone(c, window);
    var n :| n in t.f.d.core.rows.tx && t.f.d.core.rows.tx[n].daa == b.daa;
    RunTracks(two, window, cx);
    UnfoldTracked(t.f, t.log, t.chain);
    OrderedSorted(t.f.d.core, t.chain);
    LowBounds(t.f.d.core.rows.tx, window, c.daa);
    Unbounded(t.f.d.core.rows.tx, n, window, c.daa);
    RunWindowBoundedIff(two + [n3], window, cx);
  }

  lemma OnTopOf(l: Link, c: Group)
    requires l.hash != c.hash && l.daa <= c.daa
    ensures OnTop([l], c)
  {
  }

  lemma RecentAlone(c: Group, window: nat)
    ensures Recent([c], window, c.daa)
  {
  }

  lemma Unbounded(tx: map<nat, IndexedTx>, n: nat, window: nat, daa: nat)
    requires n in tx && tx[n].daa + window + EXPIRE_INTERVAL_DAA <= daa
    ensures !Bounded(tx, window, daa)
  {
  }

  // --- no window ---

  /** The store after the removals and applies alone. */
  function Unswept(ns: seq<Turn>, cx: Codec): Database {
    if ns == [] then EMPTY
    else
      var d := Unswept(ns[..|ns| - 1], cx);
      match ns[|ns| - 1]
      case Notice(removed, groups) => Apply(d.(core := UnwindAll(d.core, removed)), groups, cx)
      case Restart => d
  }

  /** With retention switched off (a window of 0) no follower run ever sweeps. */
  lemma {:induction false} NoWindowNeverSweeps(ns: seq<Turn>, cx: Codec)
    ensures Follow(ns, 0, cx).f == State(Unswept(ns, cx), 0)
    decreases |ns|
  {
    hide FollowApply, LogApplied, Extend, UndoneAll, Apply, UnwindAll;
    if ns != [] {
      NoWindowNeverSweeps(ns[..|ns| - 1], cx);
      if ns[|ns| - 1].Notice? {
        var d := Unswept(ns[..|ns| - 1], cx);
        FollowSkips(State(d.(core := UnwindAll(d.core, ns[|ns| - 1].removed)), 0), ns[|ns| - 1].groups, 0, cx);
      }
    }
  }
}
