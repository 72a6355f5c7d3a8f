/** The counters against the chain's own history. The log follows the events alone:
    an applied block's transactions enter it, a removed block's leave it. The store
    can only take back what its tables still list for a block, so a block removed
    after a sweep has dropped its metadata stays counted for ever. */
module Accounts {
  import opened Types
  import opened Tables
  import opened Coupling
  import opened Lookups
  import opened Branches
  import opened Replay
  import opened Runs
  import opened Retention
  import opened StoreModel

  // --- the log ---

  /** The logged transactions of block `h`. */
  function OfBlock(log: Log, h: string): set<nat> {
    set n | n in log && log[n].block == h
  }

  function NextLog(log: Log, d: Database, e: Event, cx: Codec): Log {
    match e
    case Applied(gs) => log + Since(Step(d, e, cx).core.rows.tx, d.nextTxNum)
    case Unwound(h) => log - OfBlock(log, h)
    case Swept(c) => log
  }

  /** Transactions applied and not removed again, by number. */
  function RunLog(es: seq<Event>, cx: Codec): Log {
    if es == [] then map[]
    else
      var k := |es| - 1;
      NextLog(RunLog(es[..k], cx), Run(es[..k], cx), es[k], cx)
  }

  /** The logged transactions of `h` that unwinding it does not find. */
  function Missed(d: Database, log: Log, h: string): Log {
    map n | n in log && log[n].block == h && n !in Undone(d.core, h) :: log[n]
  }

  function NextMissed(missed: Log, log: Log, d: Database, e: Event): Log {
    if e.Unwound? then missed + Missed(d, log, e.hash) else missed
  }

  /** Everything some unwind of the run did not find. */
  function RunMissed(es: seq<Event>, cx: Codec): Log {
    if es == [] then map[]
    else
      var k := |es| - 1;
      NextMissed(RunMissed(es[..k], cx), RunLog(es[..k], cx), Run(es[..k], cx), es[k])
  }

  // --- what an apply logs ---

  /** `entries` holds `txs`, numbered from `num`. */
  ghost predicate Entered(entries: Log, num: nat, txs: seq<RawTx>) {
    && (forall n :: n in entries <==> num <= n < num + |txs|)
    && (forall n :: n in entries ==> entries[n].raw == txs[n - num])
  }

  /** Every entry's block is one of `gs`, and it carries that block's DAA. */
  ghost predicate FromGroups(entries: Log, gs: seq<Group>) {
    forall n :: n in entries ==> exists i ::
      0 <= i < |gs| && entries[n].block == gs[i].hash && entries[n].daa == gs[i].daa
  }

  lemma EnteredOne(d: Database, g: Group, cx: Codec, books: Log)
    requires Inv(d, books) && g.hash !in d.core.blocks.applied
    ensures var d' := ApplyGroup(d, g, cx);
      var entries := Since(d'.core.rows.tx, d.nextTxNum);
      && Entered(entries, d.nextTxNum, g.txs) && d'.nextTxNum == d.nextTxNum + |g.txs|
      && forall n :: n in entries ==> entries[n].block == g.hash && entries[n].daa == g.daa
  {
    hide RowsInv, BlocksCoupled, InsertTxs, IndexTxs, RecordBlock, Numbers, ApplyGroup;
    LiveBelow(d.core.rows, books, d.nextTxNum);
    ApplyGroupRows(d, g, cx);
    InsertTxsRange(d.core.rows, d.nextTxNum, g.txs, g.hash, g.daa, cx.attr);
    InsertTxsAppends(d.core.rows, d.nextTxNum, g.txs, g.hash, g.daa, cx.attr);
  }

  /** `all` is `earlier` and `entries` together. */
  ghost predicate Joined(all: Log, earlier: Log, entries: Log) {
    && (forall n :: n in all <==> n in earlier || n in entries)
    && (forall n :: n in earlier ==> n in all && all[n] == earlier[n])
    && (forall n :: n in entries ==> n in all && all[n] == entries[n])
  }

  lemma SinceJoined(d: Database, mid: Database, d': Database)
    requires Extends(d, mid) && Extends(mid, d')
    ensures Joined(Since(d'.core.rows.tx, d.nextTxNum), Since(mid.core.rows.tx, d.nextTxNum),
                   Since(d'.core.rows.tx, mid.nextTxNum))
  {
  }

  lemma EnteredJoin(all: Log, earlier: Log, entries: Log, num: nat, xs: seq<RawTx>, ys: seq<RawTx>)
    requires Joined(all, earlier, entries) && Entered(earlier, num, xs) && Entered(entries, num + |xs|, ys)
    ensures Entered(all, num, xs + ys)
  {
  }

  lemma GroupsJoin(all: Log, earlier: Log, entries: Log, gs: seq<Group>, g: Group)
    requires Joined(all, earlier, entries) && FromGroups(earlier, gs)
    requires forall n :: n in entries ==> entries[n].block == g.hash && entries[n].daa == g.daa
    ensures FromGroups(all, gs + [g])
  {
    var gs' := gs + [g];
    forall n | n in all ensures exists i :: 0 <= i < |gs'| && all[n].block == gs'[i].hash && all[n].daa == gs'[i].daa {
      if n in earlier {
        var i :| 0 <= i < |gs| && earlier[n].block == gs[i].hash && earlier[n].daa == gs[i].daa;
        assert gs'[i] == gs[i];
      } else {
        assert gs'[|gs|] == g;
      }
    }
  }

  /** An apply logs exactly the transactions of the groups it did not skip, numbered in order,
      each under its own block and DAA. */
  lemma {:induction false} AppliedAreLogged(d: Database, gs: seq<Group>, cx: Codec, books: Log)
    requires Inv(d, books)
    ensures var d', added := Apply(d, gs, cx), Fresh(d, gs, cx);
      var entries := Since(d'.core.rows.tx, d.nextTxNum);
      && Entered(entries, d.nextTxNum, AllTxs(added)) && FromGroups(entries, added)
      && d'.nextTxNum == d.nextTxNum + |AllTxs(added)|
    decreases |gs|
  {
    if gs == [] {
      ApplyNone(d, cx);
      UnfoldInv(d, books);
      LiveBelow(d.core.rows, books, d.nextTxNum);
      hide Inv, Apply;
    } else {
      AppliedAreLoggedStep(d, gs, cx, books);
    }
  }

  lemma {:induction false} AppliedAreLoggedStep(d: Database, gs: seq<Group>, cx: Codec, books: Log)
    requires Inv(d, books) && gs != []
    ensures var d', added := Apply(d, gs, cx), Fresh(d, gs, cx);
      var entries := Since(d'.core.rows.tx, d.nextTxNum);
      && Entered(entries, d.nextTxNum, AllTxs(added)) && FromGroups(entries, added)
      && d'.nextTxNum == d.nextTxNum + |AllTxs(added)|
    decreases |gs|, 0
  {
    hide *;
    var k := |gs| - 1;
    var mid := Apply(d, gs[..k], cx);
    var books1 := books + Since(mid.core.rows.tx, d.nextTxNum);
    assert gs[..k + 1] == gs;
    FreshSnoc(d, gs, k, cx);
    AppliedAreLogged(d, gs[..k], cx, books);
    ApplyKeeps(d, gs[..k], cx, books);
    if gs[k].hash in mid.core.blocks.applied {
      ApplyMarked(mid, gs[k], cx);
    } else {
      ApplyGroupKeeps(mid, gs[k], cx, books1);
      EnteredOne(mid, gs[k], cx, books1);
      var d', added := ApplyGroup(mid, gs[k], cx), Fresh(d, gs[..k], cx);
      var all, earlier, entries := Since(d'.core.rows.tx, d.nextTxNum), Since(mid.core.rows.tx, d.nextTxNum),
                             Since(d'.core.rows.tx, mid.nextTxNum);
      SinceJoined(d, mid, d');
      EnteredJoin(all, earlier, entries, d.nextTxNum, AllTxs(added), gs[k].txs);
      GroupsJoin(all, earlier, entries, added, gs[k]);
      AllTxsSnoc(added, gs[k]);
    }
  }

  // --- books are the log and what was missed ---

  ghost predicate Split(books: Log, log: Log, missed: Log) {
    log.Keys !! missed.Keys && books == log + missed
  }

  /** The store lists none of these for any block. */
  ghost predicate Unlisted(b: Blocks, missed: Log) {
    forall h :: h in b.acceptedBy ==> forall n :: n in b.acceptedBy[h] ==> n !in missed
  }

  lemma BooksBelow(d: Database, books: Log)
    requires Inv(d, books)
    ensures forall n :: n in books ==> n < d.nextTxNum
  {
    UnfoldInv(d, books);
    RowsLogged(d.core.rows, books, d.nextTxNum);
    hide Inv, RowsInv, BlocksCoupled;
  }

  lemma ApplyGroupUnlisted(d: Database, g: Group, cx: Codec, missed: Log)
    requires Unlisted(d.core.blocks, missed) && forall n :: n in missed ==> n < d.nextTxNum
    ensures Unlisted(ApplyGroup(d, g, cx).core.blocks, missed) && d.nextTxNum <= ApplyGroup(d, g, cx).nextTxNum
  {
    hide InsertTxs, IndexTxs;
  }

  lemma {:induction false} ApplyUnlisted(d: Database, gs: seq<Group>, cx: Codec, missed: Log)
    requires Unlisted(d.core.blocks, missed) && forall n :: n in missed ==> n < d.nextTxNum
    ensures Unlisted(Apply(d, gs, cx).core.blocks, missed) && d.nextTxNum <= Apply(d, gs, cx).nextTxNum
    decreases |gs|
  {
    hide *;
    if gs == [] {
      ApplyNone(d, cx);
    } else {
      ApplyUnlisted(d, gs[..|gs| - 1], cx, missed);
      ApplySnoc(d, gs, cx);
      ApplyGroupUnlisted(Apply(d, gs[..|gs| - 1], cx), gs[|gs| - 1], cx, missed);
    }
  }

  lemma SplitApplied(books: Log, log: Log, missed: Log, entries: Log, num: nat)
    requires Split(books, log, missed)
    requires (forall n :: n in books ==> n < num) && (forall n :: n in entries ==> num <= n)
    ensures Split(books + entries, log + entries, missed)
  {
  }

  /** What unwinding finds belongs to the block, in the books too. */
  lemma UndoneIsOfBlock(d: Database, books: Log, h: string, n: nat)
    requires Inv(d, books) && h in d.core.blocks.acceptedBy && n in d.core.blocks.acceptedBy[h]
    ensures n in books && books[n].block == h
  {
    UnfoldInv(d, books);
    RowsLogged(d.core.rows, books, d.nextTxNum);
    assert Listed(d.core, h);
    hide Inv, RowsInv, BlocksCoupled;
  }

  lemma SplitWithout(books: Log, log: Log, missed: Log, undone: set<nat>, gone: set<nat>, lost: Log)
    requires Split(books, log, missed)
    requires undone <= gone <= log.Keys && lost.Keys == gone - undone
    requires forall n :: n in lost ==> lost[n] == log[n]
    ensures Split(books - undone, log - gone, missed + lost)
  {
    var books', log', missed' := books - undone, log - gone, missed + lost;
    forall n ensures n in books' <==> n in log' + missed' {
    }
    forall n | n in books' ensures books'[n] == (log' + missed')[n] {
    }
  }

  lemma SplitUnwound(d: Database, books: Log, log: Log, missed: Log, h: string)
    requires Inv(d, books) && Split(books, log, missed) && Unlisted(d.core.blocks, missed)
    ensures Split(books - Undone(d.core, h), log - OfBlock(log, h), missed + Missed(d, log, h))
  {
    var undone, gone, lost := Undone(d.core, h), OfBlock(log, h), Missed(d, log, h);
    forall n | n in undone ensures n in gone {
      UndoneIsOfBlock(d, books, h, n);
    }
    hide Inv, Undone, Unlisted, Split;
    SplitWithout(books, log, missed, undone, gone, lost);
  }

  lemma UnlistedUnwound(d: Database, books: Log, log: Log, missed: Log, h: string)
    requires Inv(d, books) && Split(books, log, missed) && Unlisted(d.core.blocks, missed)
    ensures Unlisted(UnwindBlock(d.core, h).blocks, missed + Missed(d, log, h))
  {
    var b', missed' := UnwindBlock(d.core, h).blocks, missed + Missed(d, log, h);
    assert forall x :: x in b'.acceptedBy <==> x != h && x in d.core.blocks.acceptedBy by { hide RemoveTxs, Inv; }
    assert forall x :: x in b'.acceptedBy ==>
      b'.acceptedBy[x] == d.core.blocks.acceptedBy[x] by { hide RemoveTxs, Inv; }
    hide Inv, UnwindBlock, Undone;
    forall x, n | x in b'.acceptedBy && n in b'.acceptedBy[x] ensures n !in missed' {
      UndoneIsOfBlock(d, books, x, n);
    }
  }

  lemma UnlistedSwept(b: Blocks, missed: Log, cutoff: nat)
    requires Unlisted(b, missed)
    ensures Unlisted(DropBlocks(b, cutoff), missed)
  {
  }

  lemma StepSplits(d: Database, books: Log, log: Log, missed: Log, e: Event, cx: Codec)
    requires Inv(d, books) && Split(books, log, missed) && Unlisted(d.core.blocks, missed)
    ensures Split(NextBooks(books, d, e, cx), NextLog(log, d, e, cx), NextMissed(missed, log, d, e))
    ensures Unlisted(Step(d, e, cx).core.blocks, NextMissed(missed, log, d, e))
  {
    match e
    case Applied(gs) =>
      hide Inv, Apply, Unlisted;
      BooksBelow(d, books);
      SplitApplied(books, log, missed, Since(Apply(d, gs, cx).core.rows.tx, d.nextTxNum), d.nextTxNum);
      ApplyUnlisted(d, gs, cx, missed);
    case Unwound(h) =>
      hide Inv, Unlisted, Split, Missed, UnwindBlock, OfBlock, Undone;
      SplitUnwound(d, books, log, missed, h);
      UnlistedUnwound(d, books, log, missed, h);
    case Swept(c) =>
      hide Inv, Unlisted, Split, DropTxs, DropBlocks, ExpireInference;
      UnlistedSwept(d.core.blocks, missed, c);
  }

  /** Over every run the books are the log together with everything an unwind did not find. */
  lemma {:induction false} RunSplits(es: seq<Event>, cx: Codec)
    ensures Split(RunBooks(es, cx), RunLog(es, cx), RunMissed(es, cx))
    ensures Unlisted(Run(es, cx).core.blocks, RunMissed(es, cx))
    decreases |es|
  {
    if es != [] {
      hide Inv, Split, Unlisted, NextBooks, NextLog, NextMissed, Step;
      var pre := es[..|es| - 1];
      RunSplits(pre, cx);
      RunInv(pre, cx);
      StepSplits(Run(pre, cx), RunBooks(pre, cx), RunLog(pre, cx), RunMissed(pre, cx), es[|es| - 1], cx);
    }
  }

  // --- the counters, exactly ---

  lemma {:induction false} TallySplit(log: Log, missed: Log, a: string, n: nat)
    requires log.Keys !! missed.Keys
    ensures var t, t1, t2 := TallyOf(log + missed, a, n), TallyOf(log, a, n), TallyOf(missed, a, n);
      t.received == t1.received + t2.received && t.count == t1.count + t2.count
  {
    if n > 0 {
      TallySplit(log, missed, a, n - 1);
    }
  }

  lemma SizeSplit(log: Log, missed: Log)
    requires log.Keys !! missed.Keys
    ensures |log + missed| == |log| + |missed|
  {
    assert (log + missed).Keys == log.Keys + missed.Keys;
  }

  /** `total_txs` and an address's count exceed the log by exactly what was missed. */
  lemma CountsOverLog(es: seq<Event>, cx: Codec, a: string)
    ensures var d, log, missed := Run(es, cx), RunLog(es, cx), RunMissed(es, cx);
      && d.core.rows.totalTxs == |log| + |missed|
      && TotalsAt(d.core.rows.totals, a).count ==
           TallyOf(log, a, d.nextTxNum).count + TallyOf(missed, a, d.nextTxNum).count
  {
    RunSplits(es, cx);
    CountsAreBooked(es, cx, a);
    hide Run, RunBooks, RunLog, RunMissed, TallyOf, Unlisted, TotalsAt;
    SizeSplit(RunLog(es, cx), RunMissed(es, cx));
    TallySplit(RunLog(es, cx), RunMissed(es, cx), a, Run(es, cx).nextTxNum);
  }

  lemma ReceivedOverLog(es: seq<Event>, cx: Codec, a: string)
    requires SolventAt(es, cx, a)
    ensures var d, log, missed := Run(es, cx), RunLog(es, cx), RunMissed(es, cx);
      TotalsAt(d.core.rows.totals, a).received ==
        TallyOf(log, a, d.nextTxNum).received + TallyOf(missed, a, d.nextTxNum).received
  {
    RunSplits(es, cx);
    ReceivedIsBooked(es, cx, a);
    hide Run, RunBooks, RunLog, RunMissed, TallyOf, Unlisted, TotalsAt, SolventAt;
    TallySplit(RunLog(es, cx), RunMissed(es, cx), a, Run(es, cx).nextTxNum);
  }

  // --- which events lose track ---

  /** Event `k` removes the block of logged transaction `n`, and the store does not list `n`. */
  ghost predicate Loses(es: seq<Event>, cx: Codec, k: nat, n: nat) {
    k < |es| && es[k].Unwound? && n in Missed(Run(es[..k], cx), RunLog(es[..k], cx), es[k].hash)
  }

  lemma LosesPrefix(es: seq<Event>, cx: Codec, k: nat, n: nat)
    requires es != [] && k < |es| - 1
    ensures Loses(es, cx, k, n) <==> Loses(es[..|es| - 1], cx, k, n)
  {
    hide Run, RunLog, Missed;
    assert es[..|es| - 1][..k] == es[..k];
  }

  lemma {:induction false} LostIsMissed(es: seq<Event>, cx: Codec, k: nat, n: nat)
    requires Loses(es, cx, k, n)
    ensures n in RunMissed(es, cx) && RunMissed(es, cx)[n] == RunLog(es[..k], cx)[n]
    decreases |es|
  {
    hide Run, RunLog;
    var pre := es[..|es| - 1];
    if k < |es| - 1 {
      LosesPrefix(es, cx, k, n);
      LostIsMissed(pre, cx, k, n);
      assert pre[..k] == es[..k];
      RunSplits(pre, cx);
      assert n !in RunLog(pre, cx);
    }
  }

  lemma {:induction false} MissedWasLost(es: seq<Event>, cx: Codec, n: nat) returns (k: nat)
    requires n in RunMissed(es, cx)
    ensures Loses(es, cx, k, n)
    decreases |es|
  {
    hide Run, RunLog;
    var pre := es[..|es| - 1];
    if es[|es| - 1].Unwound? && n in Missed(Run(pre, cx), RunLog(pre, cx), es[|es| - 1].hash) {
      k := |es| - 1;
    } else {
      k := MissedWasLost(pre, cx, n);
      LosesPrefix(es, cx, k, n);
    }
  }

  /** `total_txs` is the number of transactions applied and not removed, expired ones included,
      if and only if no removed block had a logged transaction the store no longer listed. */
  lemma TotalIsExactIff(es: seq<Event>, cx: Codec)
    ensures Run(es, cx).core.rows.totalTxs == |RunLog(es, cx)| <==> forall k: nat, n: nat :: !Loses(es, cx, k, n)
  {
    CountsOverLog(es, cx, "");
    hide Run, RunLog, Loses, RunMissed;
    var missed := RunMissed(es, cx);
    if n :| n in missed {
      var k := MissedWasLost(es, cx, n);
      assert missed.Keys != {};
    } else {
      assert missed == map[];
      forall k: nat, n: nat ensures !Loses(es, cx, k, n) {
        if Loses(es, cx, k, n) { LostIsMissed(es, cx, k, n); }
      }
    }
  }

  lemma {:induction false} TallyNone(log: Log, a: string, n: nat)
    requires forall k :: k in log ==> k < n
    ensures TallyOf(log, a, n).count == 0 <==> forall k :: k in log ==> a !in log[k].ledger
    ensures TallyOf(log, a, n).received == 0 <==> forall k :: k in log && a in log[k].ledger ==>
      log[k].ledger[a].credit == 0
  {
    if n > 0 {
      var rest := log - {n - 1};
      TallyFrame(log, rest, a, n - 1);
      TallyNone(rest, a, n - 1);
      assert forall k :: k in log <==> k in rest || (k == n - 1 && k in log);
    } else {
      assert forall k :: k !in log;
    }
  }

  lemma MissedBelow(es: seq<Event>, cx: Codec)
    ensures forall n :: n in RunMissed(es, cx) ==> n < Run(es, cx).nextTxNum
  {
    RunSplits(es, cx);
    RunInv(es, cx);
    BooksBelow(Run(es, cx), RunBooks(es, cx));
    hide Run, RunBooks, RunLog, RunMissed, Inv, Unlisted;
  }

  /** The lost transaction touches `a`. */
  ghost predicate LosesFor(es: seq<Event>, cx: Codec, k: nat, n: nat, a: string) {
    Loses(es, cx, k, n) && a in RunLog(es[..k], cx)[n].ledger
  }

  /** The lost transaction credits `a`. */
  ghost predicate LosesCredit(es: seq<Event>, cx: Codec, k: nat, n: nat, a: string) {
    LosesFor(es, cx, k, n, a) && RunLog(es[..k], cx)[n].ledger[a].credit > 0
  }

  lemma LostFor(es: seq<Event>, cx: Codec, a: string)
    ensures var missed := RunMissed(es, cx);
      (forall n :: n in missed ==> a !in missed[n].ledger) <==> forall k: nat, n: nat :: !LosesFor(es, cx, k, n, a)
  {
    hide Run, RunLog, RunMissed, Loses;
    var missed := RunMissed(es, cx);
    if n :| n in missed && a in missed[n].ledger {
      var k := MissedWasLost(es, cx, n);
      LostIsMissed(es, cx, k, n);
      assert LosesFor(es, cx, k, n, a);
    } else {
      forall k: nat, n: nat ensures !LosesFor(es, cx, k, n, a) {
        if Loses(es, cx, k, n) { LostIsMissed(es, cx, k, n); }
      }
    }
  }

  lemma LostCredit(es: seq<Event>, cx: Codec, a: string)
    ensures var missed := RunMissed(es, cx);
      (forall n :: n in missed && a in missed[n].ledger ==> missed[n].ledger[a].credit == 0) <==>
      forall k: nat, n: nat :: !LosesCredit(es, cx, k, n, a)
  {
    hide Run, RunLog, RunMissed, Loses;
    var missed := RunMissed(es, cx);
    if n :| n in missed && a in missed[n].ledger && missed[n].ledger[a].credit != 0 {
      var k := MissedWasLost(es, cx, n);
      LostIsMissed(es, cx, k, n);
      assert LosesCredit(es, cx, k, n, a);
    } else {
      forall k: nat, n: nat ensures !LosesCredit(es, cx, k, n, a) {
        if Loses(es, cx, k, n) { LostIsMissed(es, cx, k, n); }
      }
    }
  }

  /** An address's transaction count is exact if and only if no transaction so lost touches it. */
  lemma CountIsExactIff(es: seq<Event>, cx: Codec, a: string)
    ensures var d := Run(es, cx);
      TotalsAt(d.core.rows.totals, a).count == TallyOf(RunLog(es, cx), a, d.nextTxNum).count <==>
        forall k: nat, n: nat :: !LosesFor(es, cx, k, n, a)
  {
    hide *;
    CountsOverLog(es, cx, a);
    MissedBelow(es, cx);
    TallyNone(RunMissed(es, cx), a, Run(es, cx).nextTxNum);
    LostFor(es, cx, a);
  }

  /** So is its received amount, while the sum stays below 2^64, if and only if none of them
      credits it. */
  lemma ReceivedIsExactIff(es: seq<Event>, cx: Codec, a: string)
    requires SolventAt(es, cx, a)
    ensures var d := Run(es, cx);
      TotalsAt(d.core.rows.totals, a).received == TallyOf(RunLog(es, cx), a, d.nextTxNum).received <==>
        forall k: nat, n: nat :: !LosesCredit(es, cx, k, n, a)
  {
    hide *;
    ReceivedOverLog(es, cx, a);
    MissedBelow(es, cx);
    TallyNone(RunMissed(es, cx), a, Run(es, cx).nextTxNum);
    LostCredit(es, cx, a);
  }

  // --- the check a caller can make ---

  /** No block is applied again while transactions of it are still logged. */
  ghost predicate NeverRepeats(es: seq<Event>, cx: Codec) {
    forall k :: 0 <= k < |es| ==> Unrepeated(Run(es[..k], cx), RunLog(es[..k], cx), es[k])
  }

  ghost predicate Unrepeated(d: Database, log: Log, e: Event) {
    e.Applied? ==> NewOrMarked(d, log, e.groups)
  }

  ghost predicate NewOrMarked(d: Database, log: Log, gs: seq<Group>) {
    forall i :: 0 <= i < |gs| ==> gs[i].hash in d.core.blocks.applied || OfBlock(log, gs[i].hash) == {}
  }

  /** A block still indexed lists all its logged transactions. */
  ghost predicate FullyListed(b: Blocks, log: Log) {
    forall n :: n in log && log[n].block in b.acceptedBy ==> n in b.acceptedBy[log[n].block]
  }

  lemma Unlogged(log: Log, h: string, n: nat)
    requires OfBlock(log, h) == {} && n in log
    ensures log[n].block != h
  {
    assert n in OfBlock(log, h) <==> log[n].block == h;
  }

  lemma ListedWith(b: Blocks, b': Blocks, log: Log, entries: Log, h: string, num: nat, k: nat)
    requires FullyListed(b, log) && OfBlock(log, h) == {} && b'.acceptedBy == b.acceptedBy[h := Numbers(num, k)]
    requires forall n :: n in entries ==> entries[n].block == h && num <= n < num + k
    ensures FullyListed(b', log + entries)
  {
    var all := log + entries;
    forall n | n in all && all[n].block in b'.acceptedBy ensures n in b'.acceptedBy[all[n].block] {
      if n in entries {
        assert Numbers(num, k)[n - num] == n;
      } else {
        Unlogged(log, h, n);
      }
    }
  }

  lemma FullyListedGroup(d: Database, log: Log, g: Group, cx: Codec, books: Log)
    requires Inv(d, books) && FullyListed(d.core.blocks, log) && g.hash !in d.core.blocks.applied
    requires OfBlock(log, g.hash) == {}
    ensures var d' := ApplyGroup(d, g, cx); FullyListed(d'.core.blocks, log + Since(d'.core.rows.tx, d.nextTxNum))
  {
    var d' := ApplyGroup(d, g, cx);
    ApplyGroupRows(d, g, cx);
    EnteredOne(d, g, cx, books);
    hide ApplyGroup, Inv, Since, FullyListed, OfBlock, Numbers, InsertTxs, IndexTxs;
    ListedWith(d.core.blocks, d'.core.blocks, log, Since(d'.core.rows.tx, d.nextTxNum), g.hash, d.nextTxNum, |g.txs|);
  }

  lemma {:induction false} FullyListedApply(d: Database, log: Log, gs: seq<Group>, cx: Codec, books: Log)
    requires Inv(d, books) && FullyListed(d.core.blocks, log) && NewOrMarked(d, log, gs)
    ensures var d' := Apply(d, gs, cx); FullyListed(d'.core.blocks, log + Since(d'.core.rows.tx, d.nextTxNum))
    decreases |gs|
  {
    if gs == [] {
      ApplyNone(d, cx);
      UnfoldInv(d, books);
      LiveBelow(d.core.rows, books, d.nextTxNum);
      hide Inv, Apply;
      assert log + Since(d.core.rows.tx, d.nextTxNum) == log;
    } else {
      FullyListedStep(d, log, gs, cx, books);
    }
  }

  lemma {:induction false} FullyListedStep(d: Database, log: Log, gs: seq<Group>, cx: Codec, books: Log)
    requires Inv(d, books) && FullyListed(d.core.blocks, log) && NewOrMarked(d, log, gs) && gs != []
    ensures var d' := Apply(d, gs, cx); FullyListed(d'.core.blocks, log + Since(d'.core.rows.tx, d.nextTxNum))
    decreases |gs|, 0
  {
    var k := |gs| - 1;
    var mid := Apply(d, gs[..k], cx);
    var books1, log1 := books + Since(mid.core.rows.tx, d.nextTxNum), log + Since(mid.core.rows.tx, d.nextTxNum);
    NewOrMarkedPrefix(d, log, gs);
    hide *;
    FullyListedApply(d, log, gs[..k], cx, books);
    ApplyKeeps(d, gs[..k], cx, books);
    ApplySnoc(d, gs, cx);
    ApplyGroupKeeps(mid, gs[k], cx, books1);
    SinceJoin(d, mid, Apply(d, gs, cx), log);
    if gs[k].hash in mid.core.blocks.applied {
      ApplyStaleIsNoOp(mid, gs[k], cx, books1);
      SinceNothing(mid, log1);
    } else {
      StillNew(d, log, gs, cx, books);
      FullyListedGroup(mid, log1, gs[k], cx, books1);
    }
  }

  lemma NewOrMarkedPrefix(d: Database, log: Log, gs: seq<Group>)
    requires NewOrMarked(d, log, gs) && gs != []
    ensures NewOrMarked(d, log, gs[..|gs| - 1])
  {
  }

  lemma SinceNothing(d: Database, log: Log)
    requires Extends(d, d)
    ensures log + Since(d.core.rows.tx, d.nextTxNum) == log
  {
  }

  lemma UnloggedWith(log: Log, entries: Log, added: seq<Group>, h: string)
    requires OfBlock(log, h) == {} && FromGroups(entries, added) && forall i :: 0 <= i < |added| ==> added[i].hash != h
    ensures OfBlock(log + entries, h) == {}
  {
    forall n | n in log + entries ensures (log + entries)[n].block != h {
      if n in entries {
        var i :| 0 <= i < |added| && entries[n].block == added[i].hash && entries[n].daa == added[i].daa;
      } else {
        Unlogged(log, h, n);
      }
    }
  }

  lemma FreshAreMarked(d: Database, gs: seq<Group>, cx: Codec, h: string)
    requires h !in Apply(d, gs, cx).core.blocks.applied
    ensures h !in d.core.blocks.applied
    ensures var added := Fresh(d, gs, cx); forall i :: 0 <= i < |added| ==> added[i].hash != h
  {
    hide *;
    ApplyMarks(d, gs, cx);
    FreshFrom(d, gs, cx);
    var added := Fresh(d, gs, cx);
    forall i | 0 <= i < |added| ensures added[i].hash != h {
      assert added[i] in gs;
      var j :| 0 <= j < |gs| && gs[j] == added[i];
      assert gs[j].hash in Apply(d, gs, cx).core.blocks.applied;
    }
  }

  /** A block not marked when its turn comes has nothing logged yet. */
  lemma StillNew(d: Database, log: Log, gs: seq<Group>, cx: Codec, books: Log)
    requires Inv(d, books) && NewOrMarked(d, log, gs) && gs != []
    requires gs[|gs| - 1].hash !in Apply(d, gs[..|gs| - 1], cx).core.blocks.applied
    ensures var mid := Apply(d, gs[..|gs| - 1], cx);
      OfBlock(log + Since(mid.core.rows.tx, d.nextTxNum), gs[|gs| - 1].hash) == {}
  {
    hide Inv, Apply, Fresh, AllTxs, Since, OfBlock, Entered, FromGroups;
    var k := |gs| - 1;
    AppliedAreLogged(d, gs[..k], cx, books);
    FreshAreMarked(d, gs[..k], cx, gs[k].hash);
    UnloggedWith(log, Since(Apply(d, gs[..k], cx).core.rows.tx, d.nextTxNum), Fresh(d, gs[..k], cx), gs[k].hash);
  }

  lemma {:induction false} FreshFrom(d: Database, gs: seq<Group>, cx: Codec)
    ensures forall g :: g in Fresh(d, gs, cx) ==> g in gs
    decreases |gs|
  {
    hide Apply;
    if gs != [] {
      FreshFrom(d, gs[..|gs| - 1], cx);
    }
  }

  lemma FullyListedUnwound(c: Core, log: Log, h: string)
    requires FullyListed(c.blocks, log)
    ensures FullyListed(UnwindBlock(c, h).blocks, log - OfBlock(log, h))
  {
    hide RemoveTxs;
  }

  lemma FullyListedSwept(b: Blocks, log: Log, cutoff: nat)
    requires FullyListed(b, log)
    ensures FullyListed(DropBlocks(b, cutoff), log)
  {
  }

  lemma FullyListedEvent(d: Database, books: Log, log: Log, e: Event, cx: Codec)
    requires Inv(d, books) && FullyListed(d.core.blocks, log) && Unrepeated(d, log, e)
    ensures FullyListed(Step(d, e, cx).core.blocks, NextLog(log, d, e, cx))
  {
    hide Inv, Apply, FullyListed, NewOrMarked, UnwindBlock, OfBlock, DropTxs, DropBlocks, ExpireInference, Since;
    match e
    case Applied(gs) => FullyListedApply(d, log, gs, cx, books);
    case Unwound(h) => FullyListedUnwound(d.core, log, h);
    case Swept(c) => FullyListedSwept(d.core.blocks, log, c);
  }

  lemma NeverRepeatsPrefix(es: seq<Event>, cx: Codec)
    requires NeverRepeats(es, cx) && es != []
    ensures NeverRepeats(es[..|es| - 1], cx)
    ensures Unrepeated(Run(es[..|es| - 1], cx), RunLog(es[..|es| - 1], cx), es[|es| - 1])
  {
    hide Unrepeated, Run, RunLog;
    var pre := es[..|es| - 1];
    forall k | 0 <= k < |pre| ensures Unrepeated(Run(pre[..k], cx), RunLog(pre[..k], cx), pre[k]) {
      assert pre[..k] == es[..k] && pre[k] == es[k];
    }
  }

  lemma {:induction false} RunFullyListed(es: seq<Event>, cx: Codec)
    requires NeverRepeats(es, cx)
    ensures FullyListed(Run(es, cx).core.blocks, RunLog(es, cx))
    decreases |es|
  {
    if es != [] {
      hide Inv, FullyListed, NeverRepeats, Unrepeated, Step, NextLog;
      var pre := es[..|es| - 1];
      NeverRepeatsPrefix(es, cx);
      RunFullyListed(pre, cx);
      RunInv(pre, cx);
      FullyListedEvent(Run(pre, cx), RunBooks(pre, cx), RunLog(pre, cx), es[|es| - 1], cx);
    }
  }

  /** Unwinding `h` takes back all its logged transactions if and only if it is applied or
      has none. */
  lemma UndoneIffApplied(d: Database, books: Log, log: Log, h: string)
    requires Inv(d, books) && FullyListed(d.core.blocks, log)
    ensures Missed(d, log, h) == map[] <==> h in d.core.blocks.applied || OfBlock(log, h) == {}
  {
    UnfoldInv(d, books);
    assert h in d.core.blocks.applied <==> h in d.core.blocks.acceptedBy by { hide RowsInv, Listed; }
    hide Inv, RowsInv, BlocksCoupled;
    if n :| n in OfBlock(log, h) {
      if h !in d.core.blocks.acceptedBy {
        assert n in Missed(d, log, h);
      }
    }
  }

  /** Event `k` removes a block with logged transactions that `is_applied` denies. */
  ghost predicate RemovesForgotten(es: seq<Event>, cx: Codec, k: nat) {
    && k < |es| && es[k].Unwound?
    && es[k].hash !in Run(es[..k], cx).core.blocks.applied
    && OfBlock(RunLog(es[..k], cx), es[k].hash) != {}
  }

  lemma ForgottenIff(es: seq<Event>, cx: Codec, k: nat)
    requires NeverRepeats(es, cx)
    ensures RemovesForgotten(es, cx, k) <==> exists n: nat :: Loses(es, cx, k, n)
  {
    if k < |es| && es[k].Unwound? {
      NeverRepeatsUpTo(es, cx, k);
      RunFullyListed(es[..k], cx);
      RunInv(es[..k], cx);
      hide Run, RunLog, RunBooks, NeverRepeats, Inv, FullyListed;
      UndoneIffApplied(Run(es[..k], cx), RunBooks(es[..k], cx), RunLog(es[..k], cx), es[k].hash);
      hide Missed, OfBlock;
      var missed := Missed(Run(es[..k], cx), RunLog(es[..k], cx), es[k].hash);
      if n :| n in missed {
        assert Loses(es, cx, k, n);
      } else {
        assert missed == map[];
      }
    }
  }

  lemma NeverRepeatsUpTo(es: seq<Event>, cx: Codec, k: nat)
    requires NeverRepeats(es, cx) && k <= |es|
    ensures NeverRepeats(es[..k], cx)
  {
    hide Unrepeated, Run, RunLog;
    var pre := es[..k];
    forall j | 0 <= j < |pre| ensures Unrepeated(Run(pre[..j], cx), RunLog(pre[..j], cx), pre[j]) {
      assert pre[..j] == es[..j] && pre[j] == es[j];
    }
  }

  /** As long as no block is applied again while still logged, `total_txs` is exact if and only
      if `is_applied` held at every removal of a block with logged transactions. */
  lemma TotalIsExactIffApplied(es: seq<Event>, cx: Codec)
    requires NeverRepeats(es, cx)
    ensures Run(es, cx).core.rows.totalTxs == |RunLog(es, cx)| <==> forall k: nat :: !RemovesForgotten(es, cx, k)
  {
    hide *;
    TotalIsExactIff(es, cx);
    if k: nat, n: nat :| Loses(es, cx, k, n) {
      ForgottenIff(es, cx, k);
      assert RemovesForgotten(es, cx, k);
    } else {
      forall k: nat ensures !RemovesForgotten(es, cx, k) {
        ForgottenIff(es, cx, k);
      }
    }
  }

  // --- disciplined runs never repeat a block ---

  predicate HasLink(chain: seq<Link>, h: string) {
    exists i :: 0 <= i < |chain| && chain[i].hash == h
  }

  predicate HasHash(gs: seq<Group>, h: string) {
    exists i :: 0 <= i < |gs| && gs[i].hash == h
  }

  /** Every logged transaction's block is on the chain. */
  ghost predicate LogOnChain(log: Log, chain: seq<Link>) {
    forall n :: n in log ==> HasLink(chain, log[n].block)
  }

  lemma {:induction false} ExtendLinks(d: Database, chain: seq<Link>, gs: seq<Group>, cx: Codec, h: string)
    ensures HasLink(Extend(d, chain, gs, cx), h) <==>
      HasLink(chain, h) || HasHash(Fresh(d, gs, cx), h)
    decreases |gs|
  {
    hide Apply, HasLink, HasHash;
    if gs == [] {
      NoHash(h);
    } else {
      var k := |gs| - 1;
      ExtendLinks(d, chain, gs[..k], cx, h);
      if gs[k].hash !in Apply(d, gs[..k], cx).core.blocks.applied {
        var pre, added := Extend(d, chain, gs[..k], cx), Fresh(d, gs[..k], cx);
        LinkSnoc(pre, Link(gs[k].hash, gs[k].daa), h);
        FreshHashSnoc(added, gs[k], h);
      }
    }
  }

  lemma NoHash(h: string)
    ensures !HasHash([], h)
  {
  }

  lemma LinkSnoc(chain: seq<Link>, l: Link, h: string)
    ensures HasLink(chain + [l], h) <==> HasLink(chain, h) || l.hash == h
  {
    var all := chain + [l];
    if HasLink(chain, h) {
      var i :| 0 <= i < |chain| && chain[i].hash == h;
      assert all[i].hash == h;
    }
    if l.hash == h {
      assert all[|chain|].hash == h;
    }
  }

  lemma FreshHashSnoc(gs: seq<Group>, g: Group, h: string)
    ensures HasHash(gs + [g], h) <==> HasHash(gs, h) || g.hash == h
  {
    var all := gs + [g];
    if HasHash(gs, h) {
      var i :| 0 <= i < |gs| && gs[i].hash == h;
      assert all[i].hash == h;
    }
    if g.hash == h {
      assert all[|gs|].hash == h;
    }
  }

  /** A block that extends the chain's top is marked already or not on the chain. */
  lemma {:induction false} ExtensionsAreNew(d: Database, chain: seq<Link>, gs: seq<Group>, cx: Codec, i: nat)
    requires ExtendsTop(d, chain, gs, cx) && i < |gs|
    ensures gs[i].hash in d.core.blocks.applied || !HasLink(chain, gs[i].hash)
    decreases |gs|
  {
    hide Apply, Extend;
    var k := |gs| - 1;
    if i < k {
      ExtensionsAreNew(d, chain, gs[..k], cx, i);
    } else if gs[k].hash in Apply(d, gs[..k], cx).core.blocks.applied {
      ApplyMarks(d, gs[..k], cx);
      if gs[k].hash !in d.core.blocks.applied {
        var j :| 0 <= j < k && gs[..k][j].hash == gs[k].hash;
        ExtensionsAreNew(d, chain, gs[..k], cx, j);
      }
    } else {
      ExtendLinks(d, chain, gs[..k], cx, gs[k].hash);
    }
  }

  lemma OffChainIsUnlogged(log: Log, chain: seq<Link>, h: string)
    requires LogOnChain(log, chain) && !HasLink(chain, h)
    ensures OfBlock(log, h) == {}
  {
    hide HasLink;
    forall n | n in log ensures log[n].block != h {
      assert HasLink(chain, log[n].block);
    }
  }

  lemma DisciplinedIsUnrepeated(d: Database, log: Log, chain: seq<Link>, e: Event, cx: Codec)
    requires LogOnChain(log, chain) && Disciplined(d, chain, e, cx)
    ensures Unrepeated(d, log, e)
  {
    if e.Applied? {
      var gs := e.groups;
      hide LogOnChain, ExtendsTop, OfBlock, HasLink;
      forall i | 0 <= i < |gs| ensures gs[i].hash in d.core.blocks.applied || OfBlock(log, gs[i].hash) == {} {
        ExtensionsAreNew(d, chain, gs, cx, i);
        if !HasLink(chain, gs[i].hash) {
          OffChainIsUnlogged(log, chain, gs[i].hash);
        }
      }
    }
  }

  lemma ApplyOnChain(d: Database, books: Log, log: Log, chain: seq<Link>, gs: seq<Group>, cx: Codec)
    requires Inv(d, books) && LogOnChain(log, chain)
    ensures LogOnChain(log + Since(Apply(d, gs, cx).core.rows.tx, d.nextTxNum), Extend(d, chain, gs, cx))
  {
    AppliedAreLogged(d, gs, cx, books);
    hide Inv, Apply, Since, Extend, Fresh, HasLink, Entered, AllTxs;
    var entries, added := Since(Apply(d, gs, cx).core.rows.tx, d.nextTxNum), Fresh(d, gs, cx);
    var all := log + entries;
    forall n | n in all ensures HasLink(Extend(d, chain, gs, cx), all[n].block) {
      ExtendLinks(d, chain, gs, cx, all[n].block);
      if n in entries {
        var i :| 0 <= i < |added| && entries[n].block == added[i].hash && entries[n].daa == added[i].daa;
        assert HasHash(added, all[n].block);
      } else {
        assert HasLink(chain, log[n].block);
      }
    }
  }

  lemma PopLink(chain: seq<Link>, h: string)
    requires chain != [] && HasLink(chain, h) && chain[|chain| - 1].hash != h
    ensures HasLink(chain[..|chain| - 1], h)
  {
    var i :| 0 <= i < |chain| && chain[i].hash == h;
    assert chain[..|chain| - 1][i].hash == h;
  }

  lemma RemoveOnChain(log: Log, chain: seq<Link>)
    requires LogOnChain(log, chain) && chain != []
    ensures LogOnChain(log - OfBlock(log, chain[|chain| - 1].hash), chain[..|chain| - 1])
  {
    var log' := log - OfBlock(log, chain[|chain| - 1].hash);
    forall n | n in log' ensures HasLink(chain[..|chain| - 1], log'[n].block) {
      assert HasLink(chain, log[n].block);
      PopLink(chain, log[n].block);
    }
  }

  lemma StepOnChain(d: Database, books: Log, log: Log, chain: seq<Link>, e: Event, cx: Codec)
    requires Inv(d, books) && LogOnChain(log, chain) && Disciplined(d, chain, e, cx)
    ensures LogOnChain(NextLog(log, d, e, cx), NextChain(d, chain, e, cx))
  {
    hide Inv, LogOnChain, Apply, Extend, ExtendsTop, OfBlock, Since;
    match e
    case Applied(gs) => ApplyOnChain(d, books, log, chain, gs, cx);
    case Unwound(h) => RemoveOnChain(log, chain);
    case Swept(c) =>
  }

  lemma {:induction false} RunOnChain(es: seq<Event>, cx: Codec)
    requires DisciplinedRun(es, cx)
    ensures LogOnChain(RunLog(es, cx), RunChain(es, cx))
    decreases |es|
  {
    if es != [] {
      hide Inv, LogOnChain, DisciplinedRun, Disciplined, NextLog, NextChain;
      var pre := es[..|es| - 1];
      DisciplinedPrefix(es, cx);
      RunOnChain(pre, cx);
      RunInv(pre, cx);
      StepOnChain(Run(pre, cx), RunBooks(pre, cx), RunLog(pre, cx), RunChain(pre, cx), es[|es| - 1], cx);
    }
  }

  lemma DisciplinedUpTo(es: seq<Event>, cx: Codec, k: nat)
    requires DisciplinedRun(es, cx) && k <= |es|
    ensures DisciplinedRun(es[..k], cx)
  {
    hide Disciplined, Run, RunChain;
    var pre := es[..k];
    forall j | 0 <= j < |pre| ensures Disciplined(Run(pre[..j], cx), RunChain(pre[..j], cx), pre[j], cx) {
      assert pre[..j] == es[..j] && pre[j] == es[j];
    }
  }

  lemma DisciplinedNeverRepeats(es: seq<Event>, cx: Codec)
    requires DisciplinedRun(es, cx)
    ensures NeverRepeats(es, cx)
  {
    forall k | 0 <= k < |es| ensures Unrepeated(Run(es[..k], cx), RunLog(es[..k], cx), es[k]) {
      DisciplinedUpTo(es, cx, k);
      RunOnChain(es[..k], cx);
      hide Run, RunLog, RunChain, LogOnChain, Disciplined, Unrepeated;
      DisciplinedIsUnrepeated(Run(es[..k], cx), RunLog(es[..k], cx), RunChain(es[..k], cx), es[k], cx);
    }
  }

  /** In a disciplined run `total_txs` is exact if and only if no removed block with logged
      transactions had already been swept. */
  lemma DisciplinedTotalIsExactIff(es: seq<Event>, cx: Codec)
    requires DisciplinedRun(es, cx)
    ensures Run(es, cx).core.rows.totalTxs == |RunLog(es, cx)| <==> forall k: nat :: !RemovesForgotten(es, cx, k)
  {
    hide *;
    DisciplinedNeverRepeats(es, cx);
    TotalIsExactIffApplied(es, cx);
  }

  // --- a run that loses track ---

  /** In any reachable state: once a sweep has passed a block, removing the block changes
      nothing. */
  lemma SweptBlockIsForgotten(d: Database, books: Log, h: string, cutoff: nat, cx: Codec)
    requires Inv(d, books) && h in d.core.blocks.applied && d.core.blocks.applied[h] < cutoff
    ensures Step(Expire(d, cutoff), Unwound(h), cx) == Expire(d, cutoff)
  {
    UnfoldInv(d, books);
    hide Inv, RowsInv, BlocksCoupled, Expire;
    DropBlocksApplied(d.core, cutoff, h);
    SweptParts(d, cutoff, h);
  }

  lemma {:induction false} RangeSize(s: set<nat>, num: nat, k: nat)
    requires forall n :: n in s <==> num <= n < num + k
    ensures |s| == k
  {
    if k > 0 {
      RangeSize(s - {num + k - 1}, num, k - 1);
      assert s == s - {num + k - 1} + {num + k - 1};
    } else {
      assert s == {};
    }
  }

  lemma RunOne(e: Event, cx: Codec)
    ensures Run([e], cx) == Step(EMPTY, e, cx) && RunLog([e], cx) == NextLog(map[], EMPTY, e, cx)
  {
    hide Step, NextLog;
    assert [e][..0] == [];
  }

  lemma RunNext(es: seq<Event>, e: Event, cx: Codec)
    ensures Run(es + [e], cx) == Step(Run(es, cx), e, cx)
    ensures RunLog(es + [e], cx) == NextLog(RunLog(es, cx), Run(es, cx), e, cx)
  {
    hide Step, NextLog;
    assert (es + [e])[..|es|] == es;
  }

  lemma ApplyOne(d: Database, g: Group, cx: Codec)
    ensures Apply(d, [g], cx) == ApplyGroup(d, g, cx)
  {
    hide ApplyGroup;
    assert [g][..0] == [];
  }

  /** The first block of a fresh store. */
  lemma FirstBlock(g: Group, cx: Codec)
    ensures var d := ApplyGroup(EMPTY, g, cx);
      var log := Since(d.core.rows.tx, 0);
      && Inv(d, log) && d.core.rows.totalTxs == |g.txs| && log - OfBlock(log, g.hash) == map[]
      && g.hash in d.core.blocks.applied && d.core.blocks.applied[g.hash] == g.daa
  {
    hide *;
    var d := ApplyGroup(EMPTY, g, cx);
    var log := Since(d.core.rows.tx, 0);
    EmptyInv();
    EmptyParts();
    EnteredOne(EMPTY, g, cx, map[]);
    ApplyFreshKeeps(EMPTY, g, cx, map[]);
    GroupMarked(EMPTY, g, cx);
    assert map[] + log == log;
    CountsOf(d, log, "");
    WholeBlock(log, g.txs, g.hash);
  }

  lemma EmptyParts()
    ensures EMPTY.nextTxNum == 0 && EMPTY.core.blocks.applied == map[]
  {
  }

  lemma WholeBlock(log: Log, txs: seq<RawTx>, h: string)
    requires Entered(log, 0, txs) && forall n :: n in log ==> log[n].block == h
    ensures |log| == |txs| && log - OfBlock(log, h) == map[]
  {
    RangeSize(log.Keys, 0, |txs|);
  }

  lemma FirstRun(g: Group, cx: Codec)
    ensures var d := ApplyGroup(EMPTY, g, cx);
      Run([Applied([g])], cx) == d && RunLog([Applied([g])], cx) == Since(d.core.rows.tx, 0)
  {
    RunOne(Applied([g]), cx);
    ApplyOne(EMPTY, g, cx);
    hide Run, RunLog, Apply, ApplyGroup, Since;
    var entries := Since(ApplyGroup(EMPTY, g, cx).core.rows.tx, 0);
    assert map[] + entries == entries;
  }

  lemma SweepStep(d: Database, log: Log, cutoff: nat, cx: Codec)
    ensures Step(d, Swept(cutoff), cx) == Expire(d, cutoff) && NextLog(log, d, Swept(cutoff), cx) == log
    ensures Expire(d, cutoff).core.rows.totalTxs == d.core.rows.totalTxs
  {
    hide Expired, DropBlocks, ExpireInference;
  }

  lemma RemoveStep(d: Database, log: Log, h: string, cx: Codec)
    ensures NextLog(log, d, Unwound(h), cx) == log - OfBlock(log, h)
  {
  }

  lemma FirstBlockOnly(g: Group, cx: Codec)
    ensures var d := ApplyGroup(EMPTY, g, cx);
      var log := Since(d.core.rows.tx, 0);
      forall n :: n in log ==> n < d.nextTxNum && log[n].block == g.hash
  {
    hide *;
    EmptyInv();
    EmptyParts();
    EnteredOne(EMPTY, g, cx, map[]);
    EnteredBelow(Since(ApplyGroup(EMPTY, g, cx).core.rows.tx, 0), 0, g.txs);
  }

  lemma EnteredBelow(entries: Log, num: nat, txs: seq<RawTx>)
    requires Entered(entries, num, txs)
    ensures forall n :: n in entries ==> num <= n < num + |txs|
  {
  }
}
