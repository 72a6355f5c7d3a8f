/** The gap-fill after a (re)connect against the live path: a response that also
    removes blocks is applied without unwinding them. */
module BackfillModel {
  import opened Types
  import opened Tables
  import opened Coupling
  import opened Branches
  import opened Replay
  import opened StoreModel
  import opened FollowerModel
  import opened WindowModel
  import opened Accounts

  // --- removing blocks without transactions ---

  /** The chain tables without the blocks `gone`. */
  function Minus(b: Blocks, gone: set<string>): Blocks {
    Blocks(b.applied - gone, map k | k in b.chainByDaa && k.1 !in gone :: b.chainByDaa[k], b.acceptedBy - gone)
  }

  function LessBlocks(d: Database, gone: set<string>): Database {
    d.(core := Core(d.core.rows, Minus(d.core.blocks, gone)))
  }

  function AsSet(hs: seq<string>): set<string> {
    set h | h in hs
  }

  lemma ForgetOne(r: Rows, b: Blocks, gone: set<string>, h: string)
    requires BlocksCoupled(Core(r, b))
    ensures h in Minus(b, gone).acceptedBy ==> ForgetBlock(Minus(b, gone), h) == Minus(b, gone + {h})
    ensures h !in Minus(b, gone).acceptedBy ==> Minus(b, gone) == Minus(b, gone + {h})
  {
    MinusChain(r, b, gone, h);
    assert b.applied.Keys == b.acceptedBy.Keys by { hide Listed; }
    hide BlocksCoupled;
    var m, m' := Minus(b, gone), Minus(b, gone + {h});
    assert m'.applied == m.applied - {h} && m'.acceptedBy == m.acceptedBy - {h};
    assert h !in m.acceptedBy ==> m.applied - {h} == m.applied && m.acceptedBy - {h} == m.acceptedBy;
  }

  lemma MinusChain(r: Rows, b: Blocks, gone: set<string>, h: string)
    requires BlocksCoupled(Core(r, b))
    ensures var m, m' := Minus(b, gone), Minus(b, gone + {h});
      && (h in m.applied ==> m'.chainByDaa == m.chainByDaa - {(m.applied[h], h)})
      && (h !in m.applied ==> m'.chainByDaa == m.chainByDaa)
  {
    hide Listed;
    var m, m' := Minus(b, gone), Minus(b, gone + {h});
    forall k ensures k in m'.chainByDaa <==> k in m.chainByDaa && k.1 != h {
    }
  }

  lemma AsSetSnoc(hs: seq<string>)
    requires hs != []
    ensures AsSet(hs) == AsSet(hs[..|hs| - 1]) + {hs[|hs| - 1]}
  {
    assert hs == hs[..|hs| - 1] + [hs[|hs| - 1]];
  }

  /** No block of `removed` that is indexed holds a transaction. */
  ghost predicate AllBare(b: Blocks, removed: seq<string>) {
    forall h :: h in removed && h in b.acceptedBy ==> b.acceptedBy[h] == []
  }

  lemma UnwindBare(c: Core, h: string)
    requires h in c.blocks.acceptedBy ==> c.blocks.acceptedBy[h] == []
    ensures UnwindBlock(c, h) == if h in c.blocks.acceptedBy then Core(c.rows, ForgetBlock(c.blocks, h)) else c
  {
    hide ForgetBlock;
  }

  lemma MinusNothing(b: Blocks)
    ensures Minus(b, {}) == b
  {
  }

  lemma {:induction false} UnwindAllBare(c: Core, removed: seq<string>)
    requires BlocksCoupled(c) && AllBare(c.blocks, removed)
    ensures UnwindAll(c, removed) == Core(c.rows, Minus(c.blocks, AsSet(removed)))
    decreases |removed|
  {
    if removed == [] {
      assert AsSet(removed) == {};
      MinusNothing(c.blocks);
      hide BlocksCoupled;
    } else {
      var k := |removed| - 1;
      hide BlocksCoupled, UnwindBlock, ForgetBlock;
      assert removed[k] in removed && forall h :: h in removed[..k] ==> h in removed;
      UnwindAllBare(c, removed[..k]);
      AsSetSnoc(removed);
      UnwindBare(UnwindAll(c, removed[..k]), removed[k]);
      ForgetOne(c.rows, c.blocks, AsSet(removed[..k]), removed[k]);
    }
  }

  // --- applying afterwards ---

  lemma RecordCommutes(b: Blocks, gone: set<string>, h: string, daa: nat, nums: seq<nat>)
    requires h !in gone
    ensures RecordBlock(Minus(b, gone), h, daa, nums) == Minus(RecordBlock(b, h, daa, nums), gone)
  {
  }

  lemma {:induction false} InsertTxsTotal(r: Rows, num: nat, txs: seq<RawTx>, hash: string, daa: nat, cx: Codec)
    ensures InsertTxs(r, num, txs, hash, daa, cx.attr).totalTxs == r.totalTxs + |txs|
    decreases |txs|
  {
    hide *;
    if txs == [] {
      InsertTxsNone(r, num, hash, daa, cx.attr);
    } else {
      var k := |txs| - 1;
      var mid := InsertTxs(r, num, txs[..k], hash, daa, cx.attr);
      InsertTxsTotal(r, num, txs[..k], hash, daa, cx);
      InsertTxsSnoc(r, num, txs, hash, daa, cx.attr);
      StoredTx(mid, Indexed(mid, num + k, txs[k], hash, daa, cx.attr));
    }
  }

  lemma {:induction false} ApplyTotal(d: Database, gs: seq<Group>, cx: Codec)
    ensures Apply(d, gs, cx).core.rows.totalTxs == d.core.rows.totalTxs + |AllTxs(Fresh(d, gs, cx))|
    decreases |gs|
  {
    hide *;
    if gs == [] {
      ApplyNone(d, cx);
      FreshNone(d, cx);
    } else {
      var k := |gs| - 1;
      var mid := Apply(d, gs[..k], cx);
      assert gs[..k + 1] == gs;
      ApplyTotal(d, gs[..k], cx);
      FreshSnoc(d, gs, k, cx);
      if gs[k].hash in mid.core.blocks.applied {
        ApplyMarked(mid, gs[k], cx);
      } else {
        ApplyGroupRows(mid, gs[k], cx);
        InsertTxsTotal(mid.core.rows, mid.nextTxNum, gs[k].txs, gs[k].hash, gs[k].daa, cx);
        AllTxsSnoc(Fresh(d, gs[..k], cx), gs[k]);
      }
    }
  }

  lemma FreshNone(d: Database, cx: Codec)
    ensures AllTxs(Fresh(d, [], cx)) == []
  {
  }

  // --- removing blocks with transactions shows in the total ---

  lemma UnwindLowers(d: Database, h: string, log: Log)
    requires Inv(d, log)
    ensures var total := UnwindBlock(d.core, h).rows.totalTxs;
      && total <= d.core.rows.totalTxs
      && (h in d.core.blocks.acceptedBy && d.core.blocks.acceptedBy[h] != [] ==> total < d.core.rows.totalTxs)
  {
    var undone := Undone(d.core, h);
    UnwindKeeps(d, h, log);
    TotalOf(d, log);
    TotalOf(d.(core := UnwindBlock(d.core, h)), log - undone);
    LogWithout(log, undone);
    if h in d.core.blocks.acceptedBy && d.core.blocks.acceptedBy[h] != [] {
      var n := d.core.blocks.acceptedBy[h][0];
      ListedIsLogged(d, log, h, n);
      assert n in undone;
    }
    hide Inv, UnwindBlock;
  }

  lemma TotalOf(d: Database, log: Log)
    requires Inv(d, log)
    ensures d.core.rows.totalTxs == |log|
  {
    hide RowsCoupled, BlocksCoupled, TallyOf, Logged, CountedAt;
  }

  lemma LogWithout(log: Log, gone: set<nat>)
    ensures |log - gone| <= |log|
    ensures (exists n :: n in gone && n in log) ==> |log - gone| < |log|
  {
    assert log.Keys == (log - gone).Keys + (log.Keys * gone);
  }

  lemma ListedIsLogged(d: Database, log: Log, h: string, n: nat)
    requires Inv(d, log) && h in d.core.blocks.acceptedBy && n in d.core.blocks.acceptedBy[h]
    ensures n in log
  {
    UnfoldInv(d, log);
    RowsLogged(d.core.rows, log, d.nextTxNum);
    ListedNow(d.core, h);
    hide Inv, RowsInv, BlocksCoupled;
  }

  lemma {:induction false} UnwindAllInv(d: Database, removed: seq<string>, log: Log)
    requires Inv(d, log)
    ensures Inv(d.(core := UnwindAll(d.core, removed)), log - UndoneAll(d.core, removed))
    decreases |removed|
  {
    hide Inv, Undone, UnwindBlock;
    if removed == [] {
      assert log - {} == log;
    } else {
      var k := |removed| - 1;
      var d1, log1 := d.(core := UnwindAll(d.core, removed[..k])), log - UndoneAll(d.core, removed[..k]);
      UnwindAllInv(d, removed[..k], log);
      UnwindKeeps(d1, removed[k], log1);
      assert log1 - Undone(d1.core, removed[k]) == log - UndoneAll(d.core, removed);
    }
  }

  lemma UnwindKeepsList(c: Core, x: string, h: string)
    requires x != h
    ensures h in c.blocks.acceptedBy <==> h in UnwindBlock(c, x).blocks.acceptedBy
    ensures h in c.blocks.acceptedBy ==> UnwindBlock(c, x).blocks.acceptedBy[h] == c.blocks.acceptedBy[h]
  {
    hide RemoveTxs;
  }

  lemma {:induction false} OthersKeepList(c: Core, removed: seq<string>, h: string)
    requires h !in removed
    ensures h in c.blocks.acceptedBy <==> h in UnwindAll(c, removed).blocks.acceptedBy
    ensures h in c.blocks.acceptedBy ==> UnwindAll(c, removed).blocks.acceptedBy[h] == c.blocks.acceptedBy[h]
    decreases |removed|
  {
    hide UnwindBlock;
    if removed != [] {
      var k := |removed| - 1;
      assert removed[k] in removed;
      OthersKeepList(c, removed[..k], h);
      UnwindKeepsList(UnwindAll(c, removed[..k]), removed[k], h);
    }
  }

  lemma {:induction false} UnwindAllLowers(d: Database, removed: seq<string>, log: Log, h: string)
    requires Inv(d, log)
    ensures var total := UnwindAll(d.core, removed).rows.totalTxs;
      && total <= d.core.rows.totalTxs
      && (h in removed && h in d.core.blocks.acceptedBy && d.core.blocks.acceptedBy[h] != [] ==>
            total < d.core.rows.totalTxs)
    decreases |removed|
  {
    hide Inv, UnwindBlock, UndoneAll;
    if removed != [] {
      var k := |removed| - 1;
      var d1 := d.(core := UnwindAll(d.core, removed[..k]));
      UnwindAllLowers(d, removed[..k], log, h);
      UnwindAllInv(d, removed[..k], log);
      UnwindLowers(d1, removed[k], log - UndoneAll(d.core, removed[..k]));
      if h !in removed[..k] {
        OthersKeepList(d.core, removed[..k], h);
      }
    }
  }

  lemma UnwindKeepsMarks(c: Core, x: string, h: string)
    requires x != h
    ensures h in c.blocks.applied <==> h in UnwindBlock(c, x).blocks.applied
  {
    hide RemoveTxs;
  }

  lemma {:induction false} UnwindAllMarks(c: Core, removed: seq<string>, h: string)
    requires h !in removed
    ensures h in c.blocks.applied <==> h in UnwindAll(c, removed).blocks.applied
    decreases |removed|
  {
    hide UnwindBlock;
    if removed != [] {
      var k := |removed| - 1;
      assert removed[k] in removed;
      UnwindAllMarks(c, removed[..k], h);
      UnwindKeepsMarks(UnwindAll(c, removed[..k]), removed[k], h);
    }
  }

  // --- the sweep ---

  lemma DroppedLists(c: Core, cutoff: nat, h: string)
    requires BlocksCoupled(c)
    ensures h in DropBlocks(c.blocks, cutoff).applied ==>
      h in c.blocks.applied && DropBlocks(c.blocks, cutoff).applied[h] == c.blocks.applied[h]
    ensures h in DropBlocks(c.blocks, cutoff).acceptedBy ==>
      h in c.blocks.acceptedBy && DropBlocks(c.blocks, cutoff).acceptedBy[h] == c.blocks.acceptedBy[h]
  {
    hide BlocksCoupled;
  }

  // --- the comparison ---

  lemma RemovedParts(f: State, removed: seq<string>)
    ensures var f1 := AfterRemoval(f, removed);
      f1.d == f.d.(core := UnwindAll(f.d.core, removed)) && f1.last == f.last
  {
    hide UnwindAll;
  }

  lemma NoticeIs(f: State, removed: seq<string>, gs: seq<Group>, window: nat, cx: Codec)
    ensures FollowNotice(f, removed, gs, window, cx) == FollowApply(AfterRemoval(f, removed), gs, window, cx)
  {
    hide FollowApply, AfterRemoval;
  }

  lemma FollowTotal(f: State, gs: seq<Group>, window: nat, cx: Codec)
    ensures FollowApply(f, gs, window, cx).d.core.rows.totalTxs == Apply(f.d, gs, cx).core.rows.totalTxs
  {
    ApplyNone(f.d, cx);
    hide Apply, StatsFor, Expired, DropBlocks, ExpireInference;
  }

  // --- blocks both removed and added ---

  /** The blocks of `gs` in `gone`, and the others. */
  function Mine(gs: seq<Group>, gone: set<string>): seq<Group> {
    if gs == [] then []
    else Mine(gs[..|gs| - 1], gone) + if gs[|gs| - 1].hash in gone then [gs[|gs| - 1]] else []
  }

  function Others(gs: seq<Group>, gone: set<string>): seq<Group> {
    if gs == [] then []
    else Others(gs[..|gs| - 1], gone) + if gs[|gs| - 1].hash in gone then [] else [gs[|gs| - 1]]
  }

  lemma FilterSnoc(gs: seq<Group>, g: Group, gone: set<string>)
    ensures Mine(gs + [g], gone) == Mine(gs, gone) + if g.hash in gone then [g] else []
    ensures Others(gs + [g], gone) == Others(gs, gone) + if g.hash in gone then [] else [g]
  {
    assert (gs + [g])[..|gs|] == gs;
  }

  lemma {:induction false} FilterCounts(gs: seq<Group>, gone: set<string>)
    ensures |AllTxs(gs)| == |AllTxs(Mine(gs, gone))| + |AllTxs(Others(gs, gone))|
    decreases |gs|
  {
    if gs != [] {
      var pre, g := gs[..|gs| - 1], gs[|gs| - 1];
      FilterCounts(pre, gone);
      hide AllTxs;
      AllTxsSnoc(pre, g);
      assert gs == pre + [g];
      if g.hash in gone {
        AllTxsSnoc(Mine(pre, gone), g);
        assert Others(gs, gone) == Others(pre, gone);
      } else {
        AllTxsSnoc(Others(pre, gone), g);
        assert Mine(gs, gone) == Mine(pre, gone);
      }
    }
  }

  ghost predicate AllEmpty(gs: seq<Group>) {
    forall i :: 0 <= i < |gs| ==> gs[i].txs == []
  }

  lemma {:induction false} EmptyIff(gs: seq<Group>)
    ensures AllTxs(gs) == [] <==> AllEmpty(gs)
    decreases |gs|
  {
    if gs != [] {
      EmptyIff(gs[..|gs| - 1]);
      assert gs == gs[..|gs| - 1] + [gs[|gs| - 1]];
    }
  }

  /** The two stores mark the same blocks, except that only `d` marks those in `gone`. */
  ghost predicate Unmarked(d: Database, d1: Database, gone: set<string>) {
    && (forall h :: h !in gone ==> (h in d.core.blocks.applied <==> h in d1.core.blocks.applied))
    && (forall h :: h in gone ==> h in d.core.blocks.applied && h !in d1.core.blocks.applied)
  }

  /** The gap-fill applies what the live path applies, except for blocks it still has marked. */
  lemma {:induction false} FreshOthers(d: Database, d1: Database, gs: seq<Group>, gone: set<string>, cx: Codec)
    requires Unmarked(d, d1, gone)
    ensures Fresh(d, gs, cx) == Others(Fresh(d1, gs, cx), gone)
    decreases |gs|
  {
    hide Apply, Mine;
    if gs != [] {
      var k := |gs| - 1;
      FreshOthers(d, d1, gs[..k], gone, cx);
      ApplyMarks(d, gs[..k], cx);
      ApplyMarks(d1, gs[..k], cx);
      FilterSnoc(Fresh(d1, gs[..k], cx), gs[k], gone);
      hide Unmarked;
    }
  }

  /** Record blocks without transactions. */
  function RecordAll(b: Blocks, gs: seq<Group>): Blocks {
    if gs == [] then b else RecordBlock(RecordAll(b, gs[..|gs| - 1]), gs[|gs| - 1].hash, gs[|gs| - 1].daa, [])
  }

  lemma RecordAllSnoc(b: Blocks, gs: seq<Group>, g: Group)
    ensures RecordAll(b, gs + [g]) == RecordBlock(RecordAll(b, gs), g.hash, g.daa, [])
  {
    assert (gs + [g])[..|gs|] == gs;
  }

  /** The DAA `h` is last recorded with. */
  function DaaIn(gs: seq<Group>, h: string): Option<nat> {
    if gs == [] then None
    else if gs[|gs| - 1].hash == h then Some(gs[|gs| - 1].daa)
    else DaaIn(gs[..|gs| - 1], h)
  }

  lemma {:induction false} RecordAllAt(b: Blocks, gs: seq<Group>, h: string)
    ensures var b', daa := RecordAll(b, gs), DaaIn(gs, h);
      && (daa.Some? ==> h in b'.applied && b'.applied[h] == daa.value && h in b'.acceptedBy && b'.acceptedBy[h] == [])
      && (daa.None? ==> (h in b'.applied <==> h in b.applied) && (h in b.applied ==> b'.applied[h] == b.applied[h]))
      && (daa.None? ==>
            (h in b'.acceptedBy <==> h in b.acceptedBy) && (h in b.acceptedBy ==> b'.acceptedBy[h] == b.acceptedBy[h]))
    decreases |gs|
  {
    if gs != [] {
      RecordAllAt(b, gs[..|gs| - 1], h);
    }
  }

  lemma UpdatesSwap<K, V>(m: map<K, V>, k: K, v: V, k': K, v': V)
    requires k != k'
    ensures m[k' := v'][k := v] == m[k := v][k' := v']
  {
  }

  lemma RecordSwap(b: Blocks, h: string, daa: nat, nums: seq<nat>, x: string, daa': nat)
    requires h != x
    ensures RecordBlock(RecordBlock(b, x, daa', []), h, daa, nums) ==
      RecordBlock(RecordBlock(b, h, daa, nums), x, daa', [])
  {
    UpdatesSwap(b.applied, h, daa, x, daa');
    UpdatesSwap(b.chainByDaa, (daa, h), h, (daa', x), x);
    UpdatesSwap(b.acceptedBy, h, nums, x, []);
  }

  lemma {:induction false} RecordAllSwap(b: Blocks, gs: seq<Group>, h: string, daa: nat, nums: seq<nat>)
    requires forall i :: 0 <= i < |gs| ==> gs[i].hash != h
    ensures RecordBlock(RecordAll(b, gs), h, daa, nums) == RecordAll(RecordBlock(b, h, daa, nums), gs)
    decreases |gs|
  {
    hide RecordBlock;
    if gs != [] {
      var pre, g := gs[..|gs| - 1], gs[|gs| - 1];
      RecordAllSwap(b, pre, h, daa, nums);
      RecordSwap(RecordAll(b, pre), h, daa, nums, g.hash, g.daa);
    }
  }

  lemma {:induction false} MineAreGone(gs: seq<Group>, gone: set<string>)
    ensures forall i :: 0 <= i < |Mine(gs, gone)| ==> Mine(gs, gone)[i].hash in gone
    decreases |gs|
  {
    if gs != [] {
      MineAreGone(gs[..|gs| - 1], gone);
    }
  }

  /** `x` with the blocks `gone` forgotten and `again` recorded anew. */
  function Patched(x: Database, gone: set<string>, again: seq<Group>, cp: Option<Checkpoint>): Database {
    x.(core := Core(x.core.rows, RecordAll(Minus(x.core.blocks, gone), again)), checkpoint := cp)
  }

  lemma PatchedIs(x: Database, gone: set<string>, again: seq<Group>, cp: Option<Checkpoint>)
    ensures var y := Patched(x, gone, again, cp);
      && y.core.rows == x.core.rows && y.core.blocks == RecordAll(Minus(x.core.blocks, gone), again)
      && y.nextTxNum == x.nextTxNum && y.ai == x.ai && y.checkpoint == cp
  {
    hide RecordAll, Minus;
  }

  lemma SameParts(x: Database, y: Database)
    requires x.core.rows == y.core.rows && x.core.blocks == y.core.blocks && x.nextTxNum == y.nextTxNum
    requires x.ai == y.ai && x.checkpoint == y.checkpoint
    ensures x == y
  {
  }

  /** A block outside `gone` does the same on both sides. */
  lemma PatchOther(x: Database, gone: set<string>, again: seq<Group>, cp: Option<Checkpoint>, g: Group, cx: Codec)
    requires g.hash !in gone && g.hash !in x.core.blocks.applied
    requires forall i :: 0 <= i < |again| ==> again[i].hash in gone
    requires g.hash !in Patched(x, gone, again, cp).core.blocks.applied
    ensures ApplyGroup(Patched(x, gone, again, cp), g, cx) ==
      Patched(ApplyGroup(x, g, cx), gone, again, Some(Checkpoint(g.hash, g.daa)))
  {
    hide *;
    var y, x' := Patched(x, gone, again, cp), ApplyGroup(x, g, cx);
    var nums, z := Numbers(x.nextTxNum, |g.txs|), Patched(x', gone, again, Some(Checkpoint(g.hash, g.daa)));
    PatchedIs(x, gone, again, cp);
    PatchedIs(x', gone, again, Some(Checkpoint(g.hash, g.daa)));
    ApplyGroupRows(x, g, cx);
    ApplyGroupRows(y, g, cx);
    RecordCommutes(x.core.blocks, gone, g.hash, g.daa, nums);
    RecordAllSwap(Minus(x.core.blocks, gone), again, g.hash, g.daa, nums);
    SameParts(ApplyGroup(y, g, cx), z);
  }

  /** A block of `gone` without transactions is recorded anew on the live side only. */
  lemma PatchMine(x: Database, gone: set<string>, again: seq<Group>, cp: Option<Checkpoint>, g: Group, cx: Codec)
    requires g.txs == [] && g.hash !in Patched(x, gone, again, cp).core.blocks.applied
    ensures ApplyGroup(Patched(x, gone, again, cp), g, cx) ==
      Patched(x, gone, again + [g], Some(Checkpoint(g.hash, g.daa)))
  {
    hide *;
    var y, z := Patched(x, gone, again, cp), Patched(x, gone, again + [g], Some(Checkpoint(g.hash, g.daa)));
    PatchedIs(x, gone, again, cp);
    PatchedIs(x, gone, again + [g], Some(Checkpoint(g.hash, g.daa)));
    ApplyGroupRows(y, g, cx);
    InsertTxsNone(x.core.rows, x.nextTxNum, g.hash, g.daa, cx.attr);
    IndexNothing(x.ai, x.nextTxNum, g.hash, g.daa, cx);
    NoNumbers(x.nextTxNum);
    RecordAllSnoc(Minus(x.core.blocks, gone), again, g);
    SameParts(ApplyGroup(y, g, cx), z);
  }

  lemma IndexNothing(ai: Inference, num: nat, hash: string, daa: nat, cx: Codec)
    ensures IndexTxs(ai, num, [], hash, daa, cx) == ai
  {
  }

  lemma NoNumbers(num: nat)
    ensures Numbers(num, 0) == []
  {
  }

  lemma CheckpointSnoc(d: Database, gs: seq<Group>, g: Group)
    ensures CheckpointAfter(d, gs + [g]) == Some(Checkpoint(g.hash, g.daa))
  {
  }

  lemma LessIsPatched(d: Database, gone: set<string>)
    ensures LessBlocks(d, gone) == Patched(d, gone, [], d.checkpoint) && CheckpointAfter(d, []) == d.checkpoint
  {
    hide Minus;
  }

  lemma EmptySplit(gs: seq<Group>, g: Group)
    requires AllEmpty(gs + [g])
    ensures AllEmpty(gs) && g.txs == []
  {
    assert (gs + [g])[|gs|] == g;
    assert forall i :: 0 <= i < |gs| ==> (gs + [g])[i] == gs[i];
  }

  lemma {:induction false} ApplyPatched(d: Database, gs: seq<Group>, gone: set<string>, cx: Codec)
    requires forall h :: h in gone ==> h in d.core.blocks.applied
    requires AllEmpty(Mine(Fresh(LessBlocks(d, gone), gs, cx), gone))
    ensures var live := Fresh(LessBlocks(d, gone), gs, cx);
      Apply(LessBlocks(d, gone), gs, cx) == Patched(Apply(d, gs, cx), gone, Mine(live, gone), CheckpointAfter(d, live))
    decreases |gs|
  {
    hide *;
    var d1 := LessBlocks(d, gone);
    if gs == [] {
      ApplyNone(d, cx);
      ApplyNone(d1, cx);
      LessIsPatched(d, gone);
      NothingMine(d1, gone, cx);
    } else {
      ApplyPatchedLast(d, gs, gone, cx);
    }
  }

  lemma NothingMine(d: Database, gone: set<string>, cx: Codec)
    ensures Fresh(d, [], cx) == [] && Mine([], gone) == []
  {
  }

  lemma {:induction false} ApplyPatchedLast(d: Database, gs: seq<Group>, gone: set<string>, cx: Codec)
    requires gs != [] && forall h :: h in gone ==> h in d.core.blocks.applied
    requires AllEmpty(Mine(Fresh(LessBlocks(d, gone), gs, cx), gone))
    ensures var live := Fresh(LessBlocks(d, gone), gs, cx);
      Apply(LessBlocks(d, gone), gs, cx) == Patched(Apply(d, gs, cx), gone, Mine(live, gone), CheckpointAfter(d, live))
    decreases |gs|, 0
  {
    hide *;
    var d1, k := LessBlocks(d, gone), |gs| - 1;
    var x, y, g := Apply(d, gs[..k], cx), Apply(d1, gs[..k], cx), gs[k];
    var live := Fresh(d1, gs[..k], cx);
    assert gs[..k + 1] == gs;
    FreshSnoc(d1, gs, k, cx);
    ApplySnoc(d, gs, cx);
    FilterSnoc(live, g, gone);
    if g.hash in y.core.blocks.applied {
      ApplyPatched(d, gs[..k], gone, cx);
      ApplyMarked(y, g, cx);
      MarkedBoth(d, gs[..k], gone, cx, g.hash);
      ApplyMarked(x, g, cx);
    } else if g.hash in gone {
      EmptySplit(Mine(live, gone), g);
      ApplyPatched(d, gs[..k], gone, cx);
      ApplyMarks(d, gs[..k], cx);
      ApplyMarked(x, g, cx);
      PatchMine(x, gone, Mine(live, gone), CheckpointAfter(d, live), g, cx);
      CheckpointSnoc(d, live, g);
    } else {
      AddNothing(Mine(live, gone));
      ApplyPatched(d, gs[..k], gone, cx);
      MarkedBoth(d, gs[..k], gone, cx, g.hash);
      MineAreGone(live, gone);
      PatchOther(x, gone, Mine(live, gone), CheckpointAfter(d, live), g, cx);
      CheckpointSnoc(d, live, g);
    }
  }

  lemma AddNothing(gs: seq<Group>)
    ensures gs + [] == gs
  {
  }

  lemma MarkedBoth(d: Database, gs: seq<Group>, gone: set<string>, cx: Codec, h: string)
    requires forall x :: x in gone ==> x in d.core.blocks.applied
    ensures h in Apply(LessBlocks(d, gone), gs, cx).core.blocks.applied ==> h in Apply(d, gs, cx).core.blocks.applied
    ensures h !in gone && h in Apply(d, gs, cx).core.blocks.applied ==>
      h in Apply(LessBlocks(d, gone), gs, cx).core.blocks.applied
  {
    ApplyMarks(d, gs, cx);
    ApplyMarks(LessBlocks(d, gone), gs, cx);
    hide Apply;
  }

  // --- when the two stores end up equal ---

  /** Coupled chain tables are determined by the marks and the lists. */
  lemma BlocksAreDetermined(c: Core, c': Core)
    requires BlocksCoupled(c) && BlocksCoupled(c') && c.blocks.applied == c'.blocks.applied
    requires c.blocks.acceptedBy == c'.blocks.acceptedBy
    ensures c.blocks == c'.blocks
  {
    hide Listed;
    assert c.blocks.chainByDaa == c'.blocks.chainByDaa;
  }

  /** The removed blocks the store has indexed. */
  function IndexedOf(b: Blocks, removed: seq<string>): set<string> {
    set h | h in removed && h in b.applied
  }

  lemma MinusIndexed(r: Rows, b: Blocks, removed: seq<string>)
    requires BlocksCoupled(Core(r, b))
    ensures Minus(b, AsSet(removed)) == Minus(b, IndexedOf(b, removed))
  {
    hide Listed;
    var m, m' := Minus(b, AsSet(removed)), Minus(b, IndexedOf(b, removed));
    assert m.applied == m'.applied && m.acceptedBy == m'.acceptedBy;
    assert m.chainByDaa == m'.chainByDaa;
  }

  /** A removed block's mark comes out the same: it is recorded again with its old DAA, or the
      sweep at `cutoff` drops both. */
  predicate SameMark(was: nat, again: Option<nat>, cutoff: Option<nat>) {
    again == Some(was) ||
    (cutoff.Some? && was < cutoff.value && (again.None? || again.value < cutoff.value))
  }

  /** Marks and lists of the two sides, before any sweep. */
  lemma PatchedMarks(x: Database, gone: set<string>, again: seq<Group>, cp: Option<Checkpoint>, h: string)
    requires forall i :: 0 <= i < |again| ==> again[i].hash in gone
    ensures var b, b' := x.core.blocks, Patched(x, gone, again, cp).core.blocks;
      if h in gone
      then (h in b'.applied <==> DaaIn(again, h).Some?) &&
           (h in b'.applied ==> b'.applied[h] == DaaIn(again, h).value) &&
           (h in b'.acceptedBy ==> b'.acceptedBy[h] == [])
      else (h in b'.applied <==> h in b.applied) && (h in b.applied ==> b'.applied[h] == b.applied[h]) &&
           (h in b'.acceptedBy <==> h in b.acceptedBy) && (h in b.acceptedBy ==> b'.acceptedBy[h] == b.acceptedBy[h])
  {
    hide RecordAll, DaaIn;
    RecordAllAt(Minus(x.core.blocks, gone), again, h);
    NotIn(again, h);
  }

  lemma {:induction false} NotIn(gs: seq<Group>, h: string)
    ensures (forall i :: 0 <= i < |gs| ==> gs[i].hash != h) ==> DaaIn(gs, h).None?
    decreases |gs|
  {
    if gs != [] {
      NotIn(gs[..|gs| - 1], h);
    }
  }

  lemma PatchedEqualIff(
    x: Database, y: Database, logx: Log, logy: Log, gone: set<string>, again: seq<Group>, cp: Option<Checkpoint>)
    requires y == Patched(x, gone, again, cp) && Inv(x, logx) && Inv(y, logy)
    requires forall i :: 0 <= i < |again| ==> again[i].hash in gone
    requires forall h :: h in gone ==>
      h in x.core.blocks.applied && h in x.core.blocks.acceptedBy && x.core.blocks.acceptedBy[h] == []
    ensures x == y <==> cp == x.checkpoint && forall h :: h in gone ==>
      SameMark(x.core.blocks.applied[h], DaaIn(again, h), None)
  {
    UnfoldInv(x, logx);
    UnfoldInv(y, logy);
    var b, b' := x.core.blocks, y.core.blocks;
    assert b'.applied.Keys == b'.acceptedBy.Keys &&
      b.applied.Keys == b.acceptedBy.Keys by { hide RowsInv, Listed, Patched; }
    hide Inv, RowsInv, BlocksCoupled, DaaIn, Patched;
    PatchedIs(x, gone, again, cp);
    forall h ensures PatchedAt(b, b', gone, again, h) {
      PatchedMarks(x, gone, again, cp, h);
    }
    if cp == x.checkpoint && forall h :: h in gone ==> SameMark(b.applied[h], DaaIn(again, h), None) {
      SameTables(b, b', gone, again);
      BlocksAreDetermined(x.core, y.core);
      SameParts(x, y);
    }
    if x == y {
      forall h | h in gone ensures SameMark(b.applied[h], DaaIn(again, h), None) {
        assert PatchedAt(b, b', gone, again, h);
      }
    }
  }

  ghost predicate PatchedAt(b: Blocks, b': Blocks, gone: set<string>, again: seq<Group>, h: string) {
    if h in gone
    then (h in b'.applied <==> DaaIn(again, h).Some?) && (h in b'.applied ==> b'.applied[h] == DaaIn(again, h).value) &&
         (h in b'.acceptedBy ==> b'.acceptedBy[h] == [])
    else (h in b'.applied <==> h in b.applied) && (h in b.applied ==> b'.applied[h] == b.applied[h]) &&
         (h in b'.acceptedBy <==> h in b.acceptedBy) && (h in b.acceptedBy ==> b'.acceptedBy[h] == b.acceptedBy[h])
  }

  lemma SameTables(b: Blocks, b': Blocks, gone: set<string>, again: seq<Group>)
    requires b.applied.Keys == b.acceptedBy.Keys && b'.applied.Keys == b'.acceptedBy.Keys
    requires forall h :: PatchedAt(b, b', gone, again, h)
    requires forall h :: h in gone ==> h in b.applied && h in b.acceptedBy && b.acceptedBy[h] == []
    requires forall h :: h in gone ==> DaaIn(again, h) == Some(b.applied[h])
    ensures b.applied == b'.applied && b.acceptedBy == b'.acceptedBy
  {
    hide DaaIn;
    forall h ensures h in b.applied <==> h in b'.applied
             ensures h in b.applied ==> b.applied[h] == b'.applied[h] && b.acceptedBy[h] == b'.acceptedBy[h] {
      assert PatchedAt(b, b', gone, again, h);
    }
  }

  lemma UnwindSublist(c: Core, x: string, h: string)
    ensures h in UnwindBlock(c, x).blocks.acceptedBy ==>
      h in c.blocks.acceptedBy && UnwindBlock(c, x).blocks.acceptedBy[h] == c.blocks.acceptedBy[h]
    ensures h in UnwindBlock(c, x).blocks.applied ==> h in c.blocks.applied
  {
    hide RemoveTxs;
  }

  lemma UnwindUnmarks(c: Core, h: string)
    requires c.blocks.applied.Keys == c.blocks.acceptedBy.Keys
    ensures h !in UnwindBlock(c, h).blocks.applied
    ensures UnwindBlock(c, h).blocks.applied.Keys == UnwindBlock(c, h).blocks.acceptedBy.Keys
  {
    hide RemoveTxs;
  }

  lemma {:induction false} UnwindAllUnmarks(c: Core, hs: seq<string>)
    requires c.blocks.applied.Keys == c.blocks.acceptedBy.Keys
    ensures var b := UnwindAll(c, hs).blocks;
      b.applied.Keys == b.acceptedBy.Keys && forall h :: h in hs ==> h !in b.applied
    decreases |hs|
  {
    hide UnwindBlock;
    if hs != [] {
      var k := |hs| - 1;
      var c1 := UnwindAll(c, hs[..k]);
      UnwindAllUnmarks(c, hs[..k]);
      UnwindUnmarks(c1, hs[k]);
      forall h | h in hs ensures h !in UnwindBlock(c1, hs[k]).blocks.applied {
        UnwindSublist(c1, hs[k], h);
        assert h in hs[..k] || h == hs[k];
      }
    }
  }

  lemma SameKeys(d: Database, log: Log)
    requires Inv(d, log)
    ensures d.core.blocks.applied.Keys == d.core.blocks.acceptedBy.Keys
  {
    hide RowsInv, Listed;
  }

  lemma {:induction false} MarkStays(d: Database, gs: seq<Group>, cx: Codec, h: string)
    requires h in d.core.blocks.applied
    ensures var b' := Apply(d, gs, cx).core.blocks; h in b'.applied && b'.applied[h] == d.core.blocks.applied[h]
    decreases |gs|
  {
    hide InsertTxs, IndexTxs, Numbers;
    if gs != [] {
      MarkStays(d, gs[..|gs| - 1], cx, h);
    }
  }

  lemma DroppedAt(c: Core, cutoff: nat, h: string)
    requires BlocksCoupled(c)
    ensures var b, e := c.blocks, DropBlocks(c.blocks, cutoff);
      && (h in e.applied <==> h in b.applied && b.applied[h] >= cutoff)
      && (h in e.acceptedBy <==> h in b.applied && b.applied[h] >= cutoff)
      && (h in e.applied ==> e.applied[h] == b.applied[h])
      && (h in e.acceptedBy ==> h in b.acceptedBy && e.acceptedBy[h] == b.acceptedBy[h])
  {
    hide BlocksCoupled, DropBlocks;
    DropBlocksApplied(c, cutoff, h);
    DroppedLists(c, cutoff, h);
  }

  lemma SweptPatch(x: Database, gone: set<string>, again: seq<Group>, cp: Option<Checkpoint>, cutoff: nat)
    ensures var e, e' := Expire(x, cutoff), Expire(Patched(x, gone, again, cp), cutoff);
      && e'.core.rows == e.core.rows && e'.nextTxNum == e.nextTxNum && e'.ai == e.ai && e'.checkpoint == cp
      && e.checkpoint == x.checkpoint && e.core.blocks == DropBlocks(x.core.blocks, cutoff)
      && e'.core.blocks == DropBlocks(Patched(x, gone, again, cp).core.blocks, cutoff)
  {
    hide Expired, DropTxs, DropBlocks, ExpireInference, RecordAll, Minus;
  }

  /** Marks and lists of the two sides after a sweep. */
  ghost predicate SweptAt(
    b: Blocks, b': Blocks, x: Blocks, gone: set<string>, again: seq<Group>, cutoff: nat, h: string)
  {
    if h in gone
    then (h in b'.applied <==> DaaIn(again, h).Some? && DaaIn(again, h).value >= cutoff) &&
         (h in b'.applied ==> b'.applied[h] == DaaIn(again, h).value) &&
         (h in b'.acceptedBy ==> b'.acceptedBy[h] == []) &&
         (h in b.applied <==> h in x.applied && x.applied[h] >= cutoff) &&
         (h in b.applied ==> b.applied[h] == x.applied[h]) &&
         (h in b.acceptedBy && h in x.acceptedBy ==> b.acceptedBy[h] == x.acceptedBy[h])
    else (h in b'.applied <==> h in b.applied) && (h in b.applied ==> b'.applied[h] == b.applied[h]) &&
         (h in b'.acceptedBy <==> h in b.acceptedBy) && (h in b.acceptedBy ==> b'.acceptedBy[h] == b.acceptedBy[h])
  }

  lemma SweptMarks(x: Core, y: Core, gone: set<string>, again: seq<Group>, cutoff: nat, h: string)
    requires BlocksCoupled(x) && BlocksCoupled(y) && PatchedAt(x.blocks, y.blocks, gone, again, h)
    ensures SweptAt(DropBlocks(x.blocks, cutoff), DropBlocks(y.blocks, cutoff), x.blocks, gone, again, cutoff, h)
  {
    hide BlocksCoupled, DropBlocks, DaaIn;
    DroppedAt(x, cutoff, h);
    DroppedAt(y, cutoff, h);
  }

  lemma SweptTables(b: Blocks, b': Blocks, x: Blocks, gone: set<string>, again: seq<Group>, cutoff: nat)
    requires b.applied.Keys == b.acceptedBy.Keys && b'.applied.Keys == b'.acceptedBy.Keys
    requires forall h :: SweptAt(b, b', x, gone, again, cutoff, h)
    requires forall h :: h in gone ==> h in x.applied && h in x.acceptedBy && x.acceptedBy[h] == []
    ensures (forall h :: h in gone ==> SameMark(x.applied[h], DaaIn(again, h), Some(cutoff))) ==>
      b.applied == b'.applied && b.acceptedBy == b'.acceptedBy
    ensures b == b' ==> forall h :: h in gone ==> SameMark(x.applied[h], DaaIn(again, h), Some(cutoff))
  {
    hide DaaIn;
    if forall h :: h in gone ==> SameMark(x.applied[h], DaaIn(again, h), Some(cutoff)) {
      forall h ensures h in b.applied <==> h in b'.applied
               ensures h in b.applied ==> b.applied[h] == b'.applied[h] && b.acceptedBy[h] == b'.acceptedBy[h] {
        assert SweptAt(b, b', x, gone, again, cutoff, h);
      }
    }
    if b == b' {
      forall h | h in gone ensures SameMark(x.applied[h], DaaIn(again, h), Some(cutoff)) {
        assert SweptAt(b, b', x, gone, again, cutoff, h);
      }
    }
  }

  lemma SweptEqualIff(
    x: Database, y: Database, logx: Log, logy: Log, gone: set<string>, again: seq<Group>, cp: Option<Checkpoint>,
    cutoff: nat)
    requires y == Patched(x, gone, again, cp) && Inv(x, logx) && Inv(y, logy)
    requires forall i :: 0 <= i < |again| ==> again[i].hash in gone
    requires forall h :: h in gone ==>
      h in x.core.blocks.applied && h in x.core.blocks.acceptedBy && x.core.blocks.acceptedBy[h] == []
    ensures Expire(x, cutoff) == Expire(y, cutoff) <==>
      cp == x.checkpoint && forall h :: h in gone ==> SameMark(x.core.blocks.applied[h], DaaIn(again, h), Some(cutoff))
  {
    hide *;
    var e, e' := Expire(x, cutoff), Expire(y, cutoff);
    UnfoldInv(x, logx);
    UnfoldInv(y, logy);
    ExpireKeeps(x, cutoff, logx);
    ExpireKeeps(y, cutoff, logy);
    UnfoldInv(e, logx);
    UnfoldInv(e', logy);
    SameKeys(e, logx);
    SameKeys(e', logy);
    SweptPatch(x, gone, again, cp, cutoff);
    forall h ensures SweptAt(e.core.blocks, e'.core.blocks, x.core.blocks, gone, again, cutoff, h) {
      PatchedMarks(x, gone, again, cp, h);
      PatchedAtIs(x, gone, again, cp, h);
      SweptMarks(x.core, y.core, gone, again, cutoff, h);
    }
    SweptTables(e.core.blocks, e'.core.blocks, x.core.blocks, gone, again, cutoff);
    if cp == x.checkpoint && forall h :: h in gone ==>
      SameMark(x.core.blocks.applied[h], DaaIn(again, h), Some(cutoff)) {
      BlocksAreDetermined(e.core, e'.core);
      SameParts(e, e');
    }
  }

  lemma PatchedAtIs(x: Database, gone: set<string>, again: seq<Group>, cp: Option<Checkpoint>, h: string)
    requires forall i :: 0 <= i < |again| ==> again[i].hash in gone
    ensures PatchedAt(x.core.blocks, Patched(x, gone, again, cp).core.blocks, gone, again, h)
  {
    hide Patched, DaaIn;
    PatchedMarks(x, gone, again, cp, h);
  }

  // --- the comparison ---

  lemma {:induction false} DaaInMine(gs: seq<Group>, gone: set<string>, h: string)
    requires h in gone
    ensures DaaIn(Mine(gs, gone), h) == DaaIn(gs, h)
    decreases |gs|
  {
    if gs != [] {
      var pre, g := gs[..|gs| - 1], gs[|gs| - 1];
      DaaInMine(pre, gone, h);
      if g.hash in gone {
        assert Mine(gs, gone)[..|Mine(gs, gone)| - 1] == Mine(pre, gone);
      } else {
        assert Mine(gs, gone) == Mine(pre, gone);
      }
    }
  }

  lemma RemovalUnmarks(f: State, removed: seq<string>, log: Log)
    requires Inv(f.d, log)
    ensures Unmarked(f.d, AfterRemoval(f, removed).d, IndexedOf(f.d.core.blocks, removed))
  {
    hide Inv, UnwindAll;
    SameKeys(f.d, log);
    UnwindAllUnmarks(f.d.core, removed);
    forall h | h !in IndexedOf(f.d.core.blocks, removed)
      ensures h in f.d.core.blocks.applied <==> h in AfterRemoval(f, removed).d.core.blocks.applied {
      if h !in removed {
        UnwindAllMarks(f.d.core, removed, h);
      }
    }
  }

  lemma ApplyNumbers(d: Database, gs: seq<Group>, cx: Codec, log: Log)
    requires Inv(d, log)
    ensures Apply(d, gs, cx).nextTxNum == d.nextTxNum + |AllTxs(Fresh(d, gs, cx))|
  {
    hide *;
    AppliedAreLogged(d, gs, cx, log);
  }

  lemma FollowNumbers(f: State, gs: seq<Group>, window: nat, cx: Codec)
    ensures FollowApply(f, gs, window, cx).d.nextTxNum == Apply(f.d, gs, cx).nextTxNum
  {
    ApplyNone(f.d, cx);
    hide Apply, StatsFor, Expired, DropBlocks, ExpireInference;
  }

  /** What each path applies, and the DAA it reaches. */
  function Own(f: State, gs: seq<Group>, cx: Codec): seq<Group> {
    Fresh(f.d, gs, cx)
  }

  function Live(f: State, removed: seq<string>, gs: seq<Group>, cx: Codec): seq<Group> {
    Fresh(AfterRemoval(f, removed).d, gs, cx)
  }

  function ReachedBy(gs: seq<Group>): nat {
    if gs == [] then 0 else gs[|gs| - 1].daa
  }

  lemma ReachedByIs(d: Database, gs: seq<Group>, cx: Codec)
    ensures StatsFor(d, gs, cx).checkpointDaa == ReachedBy(Fresh(d, gs, cx))
  {
    hide Apply, Fresh, AllTxs;
  }

  function CutoffOf(window: nat, last: nat, daa: nat): Option<nat> {
    if Due(window, last, daa) then Some(if window <= daa then daa - window else 0) else None
  }

  /** The removal makes no difference: no removed block that is indexed holds transactions, nor is
      added again with some; both paths leave the same checkpoint and sweep alike; and every such
      block's mark comes out the same. */
  ghost predicate Harmless(f: State, removed: seq<string>, gs: seq<Group>, window: nat, cx: Codec) {
    var b, gone := f.d.core.blocks, IndexedOf(f.d.core.blocks, removed);
    var own, live := Own(f, gs, cx), Live(f, removed, gs, cx);
    && AllBare(b, removed) && AllEmpty(Mine(live, gone))
    && CheckpointAfter(f.d, live) == CheckpointAfter(f.d, own)
    && CutoffOf(window, f.last, ReachedBy(live)) == CutoffOf(window, f.last, ReachedBy(own))
    && forall h :: h in gone ==> SameMark(b.applied[h], DaaIn(live, h), CutoffOf(window, f.last, ReachedBy(own)))
  }

  /** With no transaction at stake, in terms of the two stores. */
  lemma BarePaths(f: State, removed: seq<string>, gs: seq<Group>, window: nat, cx: Codec, log: Log)
    requires Inv(f.d, log) && AllBare(f.d.core.blocks, removed)
    requires AllEmpty(Mine(Live(f, removed, gs, cx), IndexedOf(f.d.core.blocks, removed)))
    ensures var gone, live := IndexedOf(f.d.core.blocks, removed), Live(f, removed, gs, cx);
      var x, y := Apply(f.d, gs, cx), Apply(AfterRemoval(f, removed).d, gs, cx);
      && y == Patched(x, gone, Mine(live, gone), CheckpointAfter(f.d, live))
      && (forall i :: 0 <= i < |Mine(live, gone)| ==> Mine(live, gone)[i].hash in gone)
      && (exists logx :: Inv(x, logx)) && (exists logy :: Inv(y, logy))
      && (forall h :: h in gone ==>
        h in x.core.blocks.applied && x.core.blocks.applied[h] == f.d.core.blocks.applied[h] &&
                                    h in x.core.blocks.acceptedBy && x.core.blocks.acceptedBy[h] == [])
      && x.checkpoint == CheckpointAfter(f.d, Own(f, gs, cx))
  {
    hide *;
    var gone, f1 := IndexedOf(f.d.core.blocks, removed), AfterRemoval(f, removed);
    LiveIs(f, removed, gs, cx);
    UnfoldInv(f.d, log);
    RemovedParts(f, removed);
    UnwindAllBare(f.d.core, removed);
    CoreOf(f.d.core);
    MinusIndexed(f.d.core.rows, f.d.core.blocks, removed);
    LessBlocksIs(f.d, gone);
    IndexedAre(f.d.core.blocks, removed);
    ApplyPatched(f.d, gs, gone, cx);
    MineAreGone(Live(f, removed, gs, cx), gone);
    ApplyKeeps(f.d, gs, cx, log);
    UnwindAllInv(f.d, removed, log);
    ApplyKeeps(f1.d, gs, cx, log - UndoneAll(f.d.core, removed));
    SameKeys(f.d, log);
    forall h | h in gone ensures BareMark(f.d.core.blocks, Apply(f.d, gs, cx).core.blocks, h) {
      MarkStays(f.d, gs, cx, h);
      ListStays(f.d, gs, cx, h);
      BareAt(f.d.core.blocks, removed, h);
      BareMarkIs(f.d.core.blocks, Apply(f.d, gs, cx).core.blocks, h);
    }
    BareMarks(f.d.core.blocks, Apply(f.d, gs, cx).core.blocks, gone);
    ReachedIsCheckpoint(f.d, gs, cx);
    OwnIs(f, gs, cx);
  }

  ghost predicate BareMark(b: Blocks, b': Blocks, h: string) {
    && h in b.applied && h in b'.applied && b'.applied[h] == b.applied[h]
    && h in b'.acceptedBy && b'.acceptedBy[h] == []
  }

  lemma BareMarkIs(b: Blocks, b': Blocks, h: string)
    requires h in b.applied && h in b'.applied && b'.applied[h] == b.applied[h]
    requires h in b'.acceptedBy && b'.acceptedBy[h] == []
    ensures BareMark(b, b', h)
  {
  }

  lemma BareMarks(b: Blocks, b': Blocks, gone: set<string>)
    requires forall h :: h in gone ==> BareMark(b, b', h)
    ensures forall h :: h in gone ==>
      h in b.applied && h in b'.applied && b'.applied[h] == b.applied[h] && h in b'.acceptedBy && b'.acceptedBy[h] == []
  {
  }

  lemma BareAt(b: Blocks, removed: seq<string>, h: string)
    requires AllBare(b, removed) && h in IndexedOf(b, removed) && b.applied.Keys == b.acceptedBy.Keys
    ensures h in b.acceptedBy && b.acceptedBy[h] == []
  {
  }

  lemma {:induction false} ListStays(d: Database, gs: seq<Group>, cx: Codec, h: string)
    requires h in d.core.blocks.applied && h in d.core.blocks.acceptedBy
    ensures var b' := Apply(d, gs, cx).core.blocks;
      h in b'.applied && h in b'.acceptedBy && b'.acceptedBy[h] == d.core.blocks.acceptedBy[h]
    decreases |gs|
  {
    hide InsertTxs, IndexTxs, Numbers;
    if gs != [] {
      ListStays(d, gs[..|gs| - 1], cx, h);
    }
  }

  lemma IndexedAre(b: Blocks, removed: seq<string>)
    ensures forall h :: h in IndexedOf(b, removed) ==> h in b.applied
  {
  }

  lemma CoreOf(c: Core)
    ensures Core(c.rows, c.blocks) == c
  {
  }

  lemma LessBlocksIs(d: Database, gone: set<string>)
    ensures LessBlocks(d, gone) == d.(core := Core(d.core.rows, Minus(d.core.blocks, gone)))
  {
    hide Minus;
  }

  lemma LiveIs(f: State, removed: seq<string>, gs: seq<Group>, cx: Codec)
    ensures Live(f, removed, gs, cx) == Fresh(AfterRemoval(f, removed).d, gs, cx)
  {
    hide Fresh, AfterRemoval;
  }

  lemma OwnIs(f: State, gs: seq<Group>, cx: Codec)
    ensures Own(f, gs, cx) == Fresh(f.d, gs, cx)
  {
    hide Fresh;
  }

  /** Both paths as states. */
  lemma PathIs(f: State, gs: seq<Group>, window: nat, cx: Codec)
    ensures var x, cut := Apply(f.d, gs, cx), CutoffOf(window, f.last, ReachedBy(Fresh(f.d, gs, cx)));
      && (cut.None? ==> FollowApply(f, gs, window, cx) == State(x, f.last))
      && (cut.Some? ==> f.last < ReachedBy(Fresh(f.d, gs, cx)) == cut.value + window &&
                        FollowApply(f, gs, window, cx) == State(Expire(x, cut.value), ReachedBy(Fresh(f.d, gs, cx))))
  {
    hide Fresh, Apply, StatsFor, Expire, FollowApply;
    ReachedByIs(f.d, gs, cx);
    if Due(window, f.last, ReachedBy(Fresh(f.d, gs, cx))) {
      FollowSweeps(f, gs, window, cx);
    } else {
      FollowSkips(f, gs, window, cx);
    }
  }

  /** Sweeping at different DAAs shows in the follower's memory. */
  lemma SweepsDiffer(last: nat, a: nat, b: nat, ca: Option<nat>, cb: Option<nat>, window: nat, sa: State, sb: State)
    requires ca != cb
    requires ca.None? ==> sa.last == last
    requires ca.Some? ==> last < a == ca.value + window && sa.last == a
    requires cb.None? ==> sb.last == last
    requires cb.Some? ==> last < b == cb.value + window && sb.last == b
    ensures sa != sb
  {
  }

  lemma BareAgreeIff(f: State, removed: seq<string>, gs: seq<Group>, window: nat, cx: Codec, log: Log)
    requires Inv(f.d, log) && AllBare(f.d.core.blocks, removed)
    requires AllEmpty(Mine(Live(f, removed, gs, cx), IndexedOf(f.d.core.blocks, removed)))
    ensures FollowApply(f, gs, window, cx) == FollowNotice(f, removed, gs, window, cx) <==>
      Harmless(f, removed, gs, window, cx)
  {
    hide *;
    var gone, live, own := IndexedOf(f.d.core.blocks, removed), Live(f, removed, gs, cx), Own(f, gs, cx);
    var f1, again, cp := AfterRemoval(f, removed), Mine(live, gone), CheckpointAfter(f.d, live);
    var x, y := Apply(f.d, gs, cx), Apply(f1.d, gs, cx);
    BarePaths(f, removed, gs, window, cx, log);
    var logx :| Inv(x, logx);
    var logy :| Inv(y, logy);
    NoticeIs(f, removed, gs, window, cx);
    RemovedParts(f, removed);
    LiveIs(f, removed, gs, cx);
    OwnIs(f, gs, cx);
    PathIs(f, gs, window, cx);
    PathIs(f1, gs, window, cx);
    var cut, cut' := CutoffOf(window, f.last, ReachedBy(own)), CutoffOf(window, f.last, ReachedBy(live));
    HarmlessIs(f, removed, gs, window, cx);
    forall h | h in gone ensures DaaIn(again, h) == DaaIn(live, h) { DaaInMine(live, gone, h); }
    if cut != cut' {
      SweepsDiffer(f.last, ReachedBy(own), ReachedBy(live), cut, cut', window,
                   FollowApply(f, gs, window, cx), FollowApply(f1, gs, window, cx));
    } else if cut.Some? {
      SweptEqualIff(x, y, logx, logy, gone, again, cp, cut.value);
    } else {
      PatchedEqualIff(x, y, logx, logy, gone, again, cp);
    }
  }

  lemma HarmlessIs(f: State, removed: seq<string>, gs: seq<Group>, window: nat, cx: Codec)
    ensures var b, gone := f.d.core.blocks, IndexedOf(f.d.core.blocks, removed);
      var own, live := Own(f, gs, cx), Live(f, removed, gs, cx);
      && (forall h :: h in gone ==> h in b.applied)
      && (Harmless(f, removed, gs, window, cx) <==>
            && AllBare(b, removed) && AllEmpty(Mine(live, gone))
            && CheckpointAfter(f.d, live) == CheckpointAfter(f.d, own)
            && CutoffOf(window, f.last, ReachedBy(live)) == CutoffOf(window, f.last, ReachedBy(own))
            && forall h :: h in gone ==>
              SameMark(b.applied[h], DaaIn(live, h), CutoffOf(window, f.last, ReachedBy(own))))
  {
    hide Own, Live, AllBare, AllEmpty, Mine, DaaIn, CutoffOf, SameMark, CheckpointAfter;
  }

  /** Transactions at stake show in the counters. */
  lemma StakesShow(f: State, removed: seq<string>, gs: seq<Group>, window: nat, cx: Codec, log: Log)
    requires Inv(f.d, log)
    requires !(AllBare(f.d.core.blocks, removed) &&
               AllEmpty(Mine(Live(f, removed, gs, cx), IndexedOf(f.d.core.blocks, removed))))
    ensures FollowApply(f, gs, window, cx) != FollowNotice(f, removed, gs, window, cx)
  {
    hide *;
    var gone, live, f1 := IndexedOf(f.d.core.blocks, removed), Live(f, removed, gs, cx), AfterRemoval(f, removed);
    LiveIs(f, removed, gs, cx);
    NoticeIs(f, removed, gs, window, cx);
    RemovedParts(f, removed);
    RemovalUnmarks(f, removed, log);
    FreshOthers(f.d, f1.d, gs, gone, cx);
    FilterCounts(live, gone);
    EmptyIff(Mine(live, gone));
    UnwindAllInv(f.d, removed, log);
    ApplyNumbers(f.d, gs, cx, log);
    ApplyNumbers(f1.d, gs, cx, log - UndoneAll(f.d.core, removed));
    FollowNumbers(f, gs, window, cx);
    FollowNumbers(f1, gs, window, cx);
    if AllEmpty(Mine(live, gone)) {
      var h := NotBare(f.d.core.blocks, removed);
      UnwindAllLowers(f.d, removed, log, h);
      ApplyTotal(f.d, gs, cx);
      ApplyTotal(f1.d, gs, cx);
      FollowTotal(f, gs, window, cx);
      FollowTotal(f1, gs, window, cx);
    }
  }

  lemma NotBare(b: Blocks, removed: seq<string>) returns (h: string)
    requires !AllBare(b, removed)
    ensures h in removed && h in b.acceptedBy && b.acceptedBy[h] != []
  {
    h :| h in removed && h in b.acceptedBy && b.acceptedBy[h] != [];
  }

  /** The gap-fill leaves the follower as a live notification of the same content would, sweep
      included and whatever the two lists hold, if and only if the removal makes no difference. */
  lemma BackfillAgreesIff(f: State, removed: seq<string>, gs: seq<Group>, window: nat, cx: Codec, log: Log)
    requires Inv(f.d, log)
    ensures FollowApply(f, gs, window, cx) == FollowNotice(f, removed, gs, window, cx) <==>
      Harmless(f, removed, gs, window, cx)
  {
    hide *;
    HarmlessIs(f, removed, gs, window, cx);
    if AllBare(f.d.core.blocks, removed) &&
       AllEmpty(Mine(Live(f, removed, gs, cx), IndexedOf(f.d.core.blocks, removed)))
    {
      BareAgreeIff(f, removed, gs, window, cx, log);
    } else {
      StakesShow(f, removed, gs, window, cx, log);
    }
  }
}
