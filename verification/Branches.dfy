/** Applying a branch of new blocks: what it appends, and that it keeps the store
    coupled and its lookups complete. */
module Branches {
  import opened Types
  import opened Tables
  import opened Coupling
  import opened Lookups

  function AllTxs(gs: seq<Group>): seq<RawTx> {
    if gs == [] then [] else AllTxs(gs[..|gs| - 1]) + gs[|gs| - 1].txs
  }

  /** New blocks with distinct hashes whose transactions, taken together, repeat no id and
      spend no outpoint twice, against each other and against what is stored. */
  ghost predicate Branch(d: Database, gs: seq<Group>) {
    && (forall i :: 0 <= i < |gs| ==> gs[i].hash !in d.core.blocks.applied)
    && (forall i, j :: 0 <= i < j < |gs| ==> gs[i].hash != gs[j].hash)
    && Legal(d.core.rows.tx, AllTxs(gs))
  }

  /** What applying `gs` did to the block index, the counter and the transaction table. */
  ghost predicate Grown(d: Database, d': Database, gs: seq<Group>) {
    && (forall h :: h in d'.core.blocks.applied <==>
      h in d.core.blocks.applied || exists i :: 0 <= i < |gs| && gs[i].hash == h)
    && d'.nextTxNum == d.nextTxNum + |AllTxs(gs)|
    && Appended(d.core.rows.tx, d'.core.rows.tx, d.nextTxNum, AllTxs(gs))
  }

  lemma LegalSplit(tx: map<nat, IndexedTx>, tx': map<nat, IndexedTx>, num: nat, xs: seq<RawTx>, ys: seq<RawTx>)
    requires Legal(tx, xs + ys) && Appended(tx, tx', num, xs)
    ensures Legal(tx, xs) && Legal(tx', ys)
  {
    hide SpentBy;
    var all := xs + ys;
    assert forall i :: 0 <= i < |xs| ==> all[i] == xs[i];
    assert forall i :: 0 <= i < |ys| ==> all[|xs| + i] == ys[i];
    forall i | 0 <= i < |ys| ensures CleanTx(tx', ys[i]) {
      assert CleanTx(tx, all[|xs| + i]);
      forall n | n in tx' ensures tx'[n].raw.txId != ys[i].txId && SpentBy(tx'[n].raw) !! SpentBy(ys[i]) {
        if n !in tx {
          assert tx'[n].raw == all[n - num];
        }
      }
    }
  }

  lemma AppendedJoin(
    tx: map<nat, IndexedTx>, tx1: map<nat, IndexedTx>, tx2: map<nat, IndexedTx>, num: nat,
    xs: seq<RawTx>, ys: seq<RawTx>)
    requires Appended(tx, tx1, num, xs) && Appended(tx1, tx2, num + |xs|, ys)
    ensures Appended(tx, tx2, num, xs + ys)
  {
    assert forall i :: 0 <= i < |xs| ==> (xs + ys)[i] == xs[i];
    assert forall i :: 0 <= i < |ys| ==> (xs + ys)[|xs| + i] == ys[i];
  }

  lemma GrownByOne(d: Database, mid: Database, gs: seq<Group>, g: Group, cx: Codec)
    requires Grown(d, mid, gs) && g.hash !in mid.core.blocks.applied
    requires Appended(mid.core.rows.tx, ApplyGroup(mid, g, cx).core.rows.tx, mid.nextTxNum, g.txs)
    ensures Grown(d, ApplyGroup(mid, g, cx), gs + [g])
  {
    hide InsertTxs, IndexTxs, Appended, Numbers;
    var d', gs' := ApplyGroup(mid, g, cx), gs + [g];
    assert gs'[..|gs|] == gs;
    AppendedJoin(d.core.rows.tx, mid.core.rows.tx, d'.core.rows.tx, d.nextTxNum, AllTxs(gs), g.txs);
    forall h ensures h in d'.core.blocks.applied <==>
      h in d.core.blocks.applied || exists i :: 0 <= i < |gs'| && gs'[i].hash == h
    {
      if h == g.hash {
        assert gs'[|gs|].hash == h;
      } else if h in mid.core.blocks.applied && h !in d.core.blocks.applied {
        var i :| 0 <= i < |gs| && gs[i].hash == h;
        assert gs'[i].hash == h;
      }
    }
  }

  lemma BranchPrefix(d: Database, gs: seq<Group>)
    requires Branch(d, gs) && gs != []
    ensures Branch(d, gs[..|gs| - 1])
  {
    var pre, g := gs[..|gs| - 1], gs[|gs| - 1];
    AppendNone(d.core.rows.tx, 0);
    hide Legal, Appended;
    LegalPrefix(d.core.rows.tx, AllTxs(pre), g.txs);
  }

  lemma LegalPrefix(tx: map<nat, IndexedTx>, xs: seq<RawTx>, ys: seq<RawTx>)
    requires Legal(tx, xs + ys)
    ensures Legal(tx, xs)
  {
    hide SpentBy, CleanTx;
    assert forall i :: 0 <= i < |xs| ==> (xs + ys)[i] == xs[i];
  }

  /** The next block of a branch is still new, and legal against what the prefix stored. */
  lemma BranchNext(d: Database, mid: Database, gs: seq<Group>)
    requires Branch(d, gs) && gs != [] && Grown(d, mid, gs[..|gs| - 1])
    ensures gs[|gs| - 1].hash !in mid.core.blocks.applied && Legal(mid.core.rows.tx, gs[|gs| - 1].txs)
  {
    hide Legal, Appended;
    var pre, g := gs[..|gs| - 1], gs[|gs| - 1];
    LegalSplit(d.core.rows.tx, mid.core.rows.tx, d.nextTxNum, AllTxs(pre), g.txs);
  }

  lemma ApplyGroupRows(d: Database, g: Group, cx: Codec)
    requires g.hash !in d.core.blocks.applied
    ensures var d' := ApplyGroup(d, g, cx);
      && d'.core.rows == InsertTxs(d.core.rows, d.nextTxNum, g.txs, g.hash, g.daa, cx.attr)
      && d'.core.blocks == RecordBlock(d.core.blocks, g.hash, g.daa, Numbers(d.nextTxNum, |g.txs|))
      && d'.nextTxNum == d.nextTxNum + |g.txs|
      && d'.checkpoint == Some(Checkpoint(g.hash, g.daa))
      && d'.ai == IndexTxs(d.ai, d.nextTxNum, g.txs, g.hash, g.daa, cx)
  {
    hide InsertTxs, IndexTxs, RecordBlock, Numbers;
  }

  lemma ApplyMarked(d: Database, g: Group, cx: Codec)
    requires g.hash in d.core.blocks.applied
    ensures ApplyGroup(d, g, cx) == d
  {
    hide InsertTxs, IndexTxs;
  }

  lemma ApplyNone(d: Database, cx: Codec)
    ensures Apply(d, [], cx) == d
  {
    hide ApplyGroup;
  }

  lemma ApplySnoc(d: Database, gs: seq<Group>, cx: Codec)
    requires gs != []
    ensures Apply(d, gs, cx) == ApplyGroup(Apply(d, gs[..|gs| - 1], cx), gs[|gs| - 1], cx)
  {
    hide ApplyGroup;
  }

  lemma GrownNone(d: Database)
    ensures Grown(d, d, [])
  {
    hide Appended;
    AppendNone(d.core.rows.tx, d.nextTxNum);
  }

  /** The state a branch is applied to: coupled, with complete lookups. */
  ghost predicate Sound(d: Database, log: Log) {
    Inv(d, log) && Complete(d.core.rows)
  }

  lemma SoundBelow(d: Database, log: Log)
    requires Inv(d, log)
    ensures forall k :: k in d.core.rows.tx ==> k < d.nextTxNum
  {
    hide RowsInv, BlocksCoupled;
    LiveBelow(d.core.rows, log, d.nextTxNum);
  }

  /** The log after applying groups to `d`. */
  function LogAfter(log: Log, d: Database, d': Database): Log {
    log + Since(d'.core.rows.tx, d.nextTxNum)
  }

  lemma ApplyLegalGroup(d: Database, g: Group, cx: Codec, log: Log)
    requires Sound(d, log) && g.hash !in d.core.blocks.applied && Legal(d.core.rows.tx, g.txs)
    ensures var d' := ApplyGroup(d, g, cx);
      && Sound(d', LogAfter(log, d, d')) && Extends(d, d')
      && Appended(d.core.rows.tx, d'.core.rows.tx, d.nextTxNum, g.txs)
  {
    hide Inv, Complete, Legal, Appended, Extends, ApplyGroup, InsertTxs, RecordBlock, Numbers;
    SoundBelow(d, log);
    ApplyGroupKeeps(d, g, cx, log);
    ApplyGroupRows(d, g, cx);
    InsertTxsAppends(d.core.rows, d.nextTxNum, g.txs, g.hash, g.daa, cx.attr);
    InsertTxsComplete(d.core.rows, d.nextTxNum, g.txs, g.hash, g.daa, cx.attr);
  }

  /** Applying a branch keeps the state sound and grows it by exactly the branch. */
  lemma {:induction false} ApplyBranch(d: Database, gs: seq<Group>, cx: Codec, log: Log)
    requires Sound(d, log) && Branch(d, gs)
    ensures var d' := Apply(d, gs, cx);
      Sound(d', LogAfter(log, d, d')) && Extends(d, d') && Grown(d, d', gs)
    decreases |gs|
  {
    hide *;
    if gs == [] {
      ApplyNone(d, cx);
      GrownNone(d);
      ApplyBranchNone(d, log);
    } else {
      var k := |gs| - 1;
      var mid := Apply(d, gs[..k], cx);
      BranchPrefix(d, gs);
      ApplyBranch(d, gs[..k], cx, log);
      BranchNext(d, mid, gs);
      ApplyLegalGroup(mid, gs[k], cx, LogAfter(log, d, mid));
      ApplySnoc(d, gs, cx);
      GrownByOne(d, mid, gs[..k], gs[k], cx);
      assert gs[..k] + [gs[k]] == gs;
      LogJoin(d, mid, Apply(d, gs, cx), log);
    }
  }

  lemma ApplyBranchNone(d: Database, log: Log)
    requires Sound(d, log)
    ensures LogAfter(log, d, d) == log && Extends(d, d)
  {
    hide RowsInv, BlocksCoupled, Complete, Since;
    SoundBelow(d, log);
    SinceNone(d.core.rows, log, d.nextTxNum);
  }

  lemma LogJoin(d: Database, d1: Database, d2: Database, log: Log)
    requires Extends(d, d1) && Extends(d1, d2)
    ensures Extends(d, d2) && LogAfter(LogAfter(log, d, d1), d1, d2) == LogAfter(log, d, d2)
  {
    hide Extends, Since;
    SinceJoin(d, d1, d2, log);
  }
}
