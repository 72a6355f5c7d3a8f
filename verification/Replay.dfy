/** Batching and crash recovery: how the accepted groups are split over write
    transactions does not matter, and replaying blocks already committed changes
    no table, the inference tables included. */
module Replay {
  import opened Types
  import opened Tables
  import opened Branches

  /** One batch or two: the same database. */
  lemma {:induction false} ApplyConcat(d: Database, xs: seq<Group>, ys: seq<Group>, cx: Codec)
    ensures Apply(d, xs + ys, cx) == Apply(Apply(d, xs, cx), ys, cx)
    decreases |ys|
  {
    hide *;
    if ys == [] {
      assert xs + ys == xs;
      ApplyNone(Apply(d, xs, cx), cx);
    } else {
      var k := |ys| - 1;
      ApplyConcat(d, xs, ys[..k], cx);
      assert (xs + ys)[..|xs + ys| - 1] == xs + ys[..k];
      ApplySnoc(d, xs + ys, cx);
      ApplySnoc(Apply(d, xs, cx), ys, cx);
    }
  }

  lemma ApplyGroupApplied(d: Database, g: Group, cx: Codec)
    ensures ApplyGroup(d, g, cx).core.blocks.applied.Keys == d.core.blocks.applied.Keys + {g.hash}
  {
    hide InsertTxs, IndexTxs;
  }

  /** After an apply exactly the old hashes and the batch's hashes are marked. */
  lemma {:induction false} ApplyMarks(d: Database, gs: seq<Group>, cx: Codec)
    ensures Apply(d, gs, cx).core.blocks.applied.Keys ==
      d.core.blocks.applied.Keys + set i | 0 <= i < |gs| :: gs[i].hash
    decreases |gs|
  {
    hide *;
    if gs == [] {
      ApplyNone(d, cx);
    } else {
      var k := |gs| - 1;
      ApplyMarks(d, gs[..k], cx);
      ApplyGroupApplied(Apply(d, gs[..k], cx), gs[k], cx);
      ApplySnoc(d, gs, cx);
      assert (set i | 0 <= i < |gs| :: gs[i].hash) == (set i | 0 <= i < k :: gs[..k][i].hash) + {gs[k].hash};
    }
  }

  /** Groups that are all marked are skipped. */
  lemma {:induction false} ReplayIsNoOp(d: Database, gs: seq<Group>, cx: Codec)
    requires forall i :: 0 <= i < |gs| ==> gs[i].hash in d.core.blocks.applied
    ensures Apply(d, gs, cx) == d
    decreases |gs|
  {
    hide *;
    if gs == [] {
      ApplyNone(d, cx);
    } else {
      ReplayIsNoOp(d, gs[..|gs| - 1], cx);
      ApplySnoc(d, gs, cx);
      ApplyMarked(d, gs[|gs| - 1], cx);
    }
  }

  /** Crash after any committed prefix, then resume from any earlier point: the result is
      the one uninterrupted apply. */
  lemma CrashReplay(d: Database, gs: seq<Group>, i: nat, j: nat, cx: Codec)
    requires i <= j <= |gs|
    ensures Apply(Apply(d, gs[..j], cx), gs[i..], cx) == Apply(d, gs, cx)
  {
    hide *;
    var done := Apply(d, gs[..j], cx);
    ApplyMarks(d, gs[..j], cx);
    forall n | 0 <= n < |gs[i..j]| ensures gs[i..j][n].hash in done.core.blocks.applied {
      assert gs[i..j][n] == gs[..j][i + n];
    }
    ReplayIsNoOp(done, gs[i..j], cx);
    assert gs[i..] == gs[i..j] + gs[j..];
    ApplyConcat(done, gs[i..j], gs[j..], cx);
    assert gs == gs[..j] + gs[j..];
    ApplyConcat(d, gs[..j], gs[j..], cx);
  }
}
