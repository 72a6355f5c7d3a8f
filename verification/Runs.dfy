/** Safety over whole runs: the coupling invariant holds after every sequence of
    committed applies, unwinds and sweeps of a fresh store, and what the reads
    return follows from it. */
module Runs {
  import opened Types
  import opened Attribution
  import opened Tables
  import opened Coupling

  /** The store's own books after one more event: apply adds the rows it numbered, unwind
      takes out the rows its table still lists for the block, a sweep changes nothing.
      Module Accounts relates them to the chain's events. */
  function NextBooks(log: Log, d: Database, e: Event, cx: Codec): Log {
    match e
    case Applied(gs) => log + Since(Step(d, e, cx).core.rows.tx, d.nextTxNum)
    case Unwound(h) => log - Undone(d.core, h)
    case Swept(c) => log
  }

  function RunBooks(es: seq<Event>, cx: Codec): Log {
    if es == [] then map[]
    else
      var k := |es| - 1;
      NextBooks(RunBooks(es[..k], cx), Run(es[..k], cx), es[k], cx)
  }

  lemma EmptyInv()
    ensures Inv(EMPTY, map[])
  {
    hide LedgerOf;
  }

  lemma StepKeeps(log: Log, d: Database, e: Event, cx: Codec)
    requires Inv(d, log)
    ensures Inv(Step(d, e, cx), NextBooks(log, d, e, cx))
  {
    hide Inv, Apply, Expire, UnwindBlock, Since, Undone;
    match e
    case Applied(gs) => ApplyKeeps(d, gs, cx, log);
    case Unwound(h) => UnwindKeeps(d, h, log);
    case Swept(c) => ExpireKeeps(d, c, log);
  }

  /** Every reachable state satisfies the coupling invariant against its books. */
  lemma {:induction false} RunInv(es: seq<Event>, cx: Codec)
    ensures Inv(Run(es, cx), RunBooks(es, cx))
    decreases |es|
  {
    hide Inv, Step, NextBooks;
    if es == [] {
      EmptyInv();
    } else {
      var pre := es[..|es| - 1];
      RunInv(pre, cx);
      StepKeeps(RunBooks(pre, cx), Run(pre, cx), es[|es| - 1], cx);
    }
  }

  // --- counters ---

  lemma CountsOf(d: Database, log: Log, a: string)
    requires Inv(d, log)
    ensures d.core.rows.totalTxs == |log|
    ensures TotalsAt(d.core.rows.totals, a).count == TallyOf(log, a, d.nextTxNum).count
    ensures TotalsAt(d.core.rows.totals, a).received <= TallyOf(log, a, d.nextTxNum).received
  {
    hide RowsCoupled, BlocksCoupled, TallyOf, Logged;
    assert CountedAt(d.core.rows.totals, a, TallyOf(log, a, d.nextTxNum));
  }

  /** `total_txs` counts the books, and an address's transaction count those entries that
      touch it; expired ones included. A received amount never exceeds what they paid, even
      when sums pass 2^64. */
  lemma CountsAreBooked(es: seq<Event>, cx: Codec, a: string)
    ensures var d, log := Run(es, cx), RunBooks(es, cx);
      && d.core.rows.totalTxs == |log|
      && TotalsAt(d.core.rows.totals, a).count == TallyOf(log, a, d.nextTxNum).count
      && TotalsAt(d.core.rows.totals, a).received <= TallyOf(log, a, d.nextTxNum).received
  {
    hide *;
    RunInv(es, cx);
    CountsOf(Run(es, cx), RunBooks(es, cx), a);
  }

  /** At no point of the run had `a` been credited 2^64 sompi or more. */
  ghost predicate SolventAt(es: seq<Event>, cx: Codec, a: string) {
    forall k :: 0 <= k <= |es| ==> FitsAt(RunBooks(es[..k], cx), a, Run(es[..k], cx).nextTxNum)
  }

  lemma SolventPrefix(es: seq<Event>, cx: Codec, a: string)
    requires SolventAt(es, cx, a) && es != []
    ensures SolventAt(es[..|es| - 1], cx, a)
  {
    hide FitsAt, RunBooks, Run;
    var pre := es[..|es| - 1];
    forall k | 0 <= k <= |pre| ensures FitsAt(RunBooks(pre[..k], cx), a, Run(pre[..k], cx).nextTxNum) {
      assert pre[..k] == es[..k];
    }
  }

  lemma SolventNow(es: seq<Event>, cx: Codec, a: string)
    requires SolventAt(es, cx, a)
    ensures FitsAt(RunBooks(es, cx), a, Run(es, cx).nextTxNum)
  {
    hide FitsAt, RunBooks, Run;
    assert es[..|es|] == es;
  }

  lemma StepKeepsExact(log: Log, d: Database, e: Event, cx: Codec, a: string)
    requires Inv(d, log) && Exact(d, log, a) && FitsAt(log, a, d.nextTxNum)
    ensures Exact(Step(d, e, cx), NextBooks(log, d, e, cx), a)
  {
    hide Inv, Exact, FitsAt, Apply, Expire, UnwindBlock, Since, Undone;
    match e
    case Applied(gs) => ApplyAccountsAt(d, gs, cx, log, a);
    case Unwound(h) => UnwindAccountsAt(d, h, log, a);
    case Swept(c) => ExpireAccountsAt(d, c, log, a);
  }

  lemma EmptyExact(a: string)
    ensures Exact(EMPTY, map[], a)
  {
  }

  lemma {:induction false} RunExact(es: seq<Event>, cx: Codec, a: string)
    requires SolventAt(es, cx, a)
    ensures Exact(Run(es, cx), RunBooks(es, cx), a)
    decreases |es|
  {
    hide Inv, Exact, FitsAt, SolventAt, Step, NextBooks;
    if es == [] {
      EmptyExact(a);
    } else {
      var pre := es[..|es| - 1];
      SolventPrefix(es, cx, a);
      SolventNow(pre, cx, a);
      RunInv(pre, cx);
      RunExact(pre, cx, a);
      StepKeepsExact(RunBooks(pre, cx), Run(pre, cx), es[|es| - 1], cx, a);
    }
  }

  lemma ReceivedOf(d: Database, log: Log, a: string)
    requires Exact(d, log, a) && FitsAt(log, a, d.nextTxNum)
    ensures TotalsAt(d.core.rows.totals, a).received == TallyOf(log, a, d.nextTxNum).received
  {
    hide TallyOf;
    TallyOfNone(log, a, d.nextTxNum);
  }

  /** What an address has received is the exact sum over the same transactions. */
  lemma ReceivedIsBooked(es: seq<Event>, cx: Codec, a: string)
    requires SolventAt(es, cx, a)
    ensures var d := Run(es, cx);
      TotalsAt(d.core.rows.totals, a).received == TallyOf(RunBooks(es, cx), a, d.nextTxNum).received
  {
    hide *;
    RunExact(es, cx, a);
    SolventNow(es, cx, a);
    ReceivedOf(Run(es, cx), RunBooks(es, cx), a);
  }

  // --- unwinding in a reachable state ---

  lemma UnwindOfFindsAll(d: Database, log: Log, h: string, j: nat)
    requires Inv(d, log)
    requires h in d.core.blocks.acceptedBy && j < |d.core.blocks.acceptedBy[h]|
    ensures var nums := d.core.blocks.acceptedBy[h];
      CountsSuffice(RemoveTxs(d.core.rows, nums[j + 1..]), nums[j])
  {
    assert BlocksCoupled(d.core) by { hide RowsInv; }
    ListedNow(d.core, h);
    hide RowsInv, BlocksCoupled, CountsSuffice, RemoveTxs;
    RemoveTxsFindsAll(d.core.rows, d.core.blocks.acceptedBy[h], log, d.nextTxNum, j);
  }

  /** Unwinding any block the store still lists, in any reachable state: when the loop
      reaches the block's j-th transaction it is present and every count it lowers is
      positive, so the "missing" branch and the counts' `saturating_sub`s never act. */
  lemma UnwindFindsAll(es: seq<Event>, cx: Codec, h: string, j: nat)
    requires h in Run(es, cx).core.blocks.acceptedBy && j < |Run(es, cx).core.blocks.acceptedBy[h]|
    ensures var d := Run(es, cx);
      var nums := d.core.blocks.acceptedBy[h];
      CountsSuffice(RemoveTxs(d.core.rows, nums[j + 1..]), nums[j])
  {
    hide *;
    RunInv(es, cx);
    UnwindOfFindsAll(Run(es, cx), RunBooks(es, cx), h, j);
  }

  lemma UnwindOfNeverSaturates(d: Database, log: Log, h: string, j: nat, a: string)
    requires Inv(d, log) && Exact(d, log, a) && FitsAt(log, a, d.nextTxNum)
    requires h in d.core.blocks.acceptedBy && j < |d.core.blocks.acceptedBy[h]|
    ensures var nums := d.core.blocks.acceptedBy[h];
      AmountSuffices(RemoveTxs(d.core.rows, nums[j + 1..]), nums[j], a)
  {
    assert BlocksCoupled(d.core) by { hide RowsInv; }
    ListedNow(d.core, h);
    hide RowsInv, BlocksCoupled, AmountSuffices, RemoveTxs, AccountedAt, TallyOf, FitsAt;
    RemoveTxsNeverSaturates(d.core.rows, d.core.blocks.acceptedBy[h], log, d.nextTxNum, j, a);
  }

  /** Nor does the subtraction from a received amount saturate, for any address whose sum
      stayed below 2^64; `RollBackRestoresIff` says what happens beyond. */
  lemma UnwindNeverSaturates(es: seq<Event>, cx: Codec, h: string, j: nat, a: string)
    requires SolventAt(es, cx, a)
    requires h in Run(es, cx).core.blocks.acceptedBy && j < |Run(es, cx).core.blocks.acceptedBy[h]|
    ensures var d := Run(es, cx);
      var nums := d.core.blocks.acceptedBy[h];
      AmountSuffices(RemoveTxs(d.core.rows, nums[j + 1..]), nums[j], a)
  {
    hide *;
    RunInv(es, cx);
    RunExact(es, cx, a);
    SolventNow(es, cx, a);
    UnwindOfNeverSaturates(Run(es, cx), RunBooks(es, cx), h, j, a);
  }

  // --- reads ---

  lemma ReadsOf(d: Database, log: Log, id: string, o: Outpoint)
    requires Inv(d, log)
    ensures var r, t := d.core.rows, TxById(d.core.rows, id);
      t.Some? ==> t.value.raw.txId == id && t.value.num in r.tx && r.tx[t.value.num] == t.value
    ensures var r, s := d.core.rows, SpendOf(d.core.rows, o);
      s.Some? ==> o in SpentBy(s.value.raw) && s.value.num in r.tx && r.tx[s.value.num] == s.value
    ensures id in d.core.rows.txById ==> TxById(d.core.rows, id).Some?
    ensures o in d.core.rows.spends ==> SpendOf(d.core.rows, o).Some?
  {
    hide BlocksCoupled, Counted, HistoryExact, SpentBy;
  }

  /** A lookup only ever answers with a stored transaction carrying that id, or spending
      that outpoint; and no index entry dangles. */
  lemma LookupsAreSound(es: seq<Event>, cx: Codec, id: string, o: Outpoint)
    ensures var r := Run(es, cx).core.rows;
      var t, s := TxById(r, id), SpendOf(r, o);
      && (t.Some? ==> t.value.raw.txId == id && t.value.num in r.tx && r.tx[t.value.num] == t.value)
      && (s.Some? ==> Consumes(s.value.raw, o) && s.value.num in r.tx && r.tx[s.value.num] == s.value)
      && (id in r.txById ==> t.Some?)
      && (o in r.spends ==> s.Some?)
  {
    hide *;
    RunInv(es, cx);
    ReadsOf(Run(es, cx), RunBooks(es, cx), id, o);
    var s := SpendOf(Run(es, cx).core.rows, o);
    if s.Some? {
      SpentByIff(s.value.raw, o);
    }
  }

  /** The history table holds exactly the rows derived from the stored ledgers, and the
      three chain tables describe the same blocks. */
  lemma TablesAreCoupled(es: seq<Event>, cx: Codec)
    ensures HistoryExact(Run(es, cx).core.rows) && BlocksCoupled(Run(es, cx).core)
  {
    RunInv(es, cx);
    hide Run, RunBooks, BlocksCoupled, HistoryExact, Counted, Logged;
  }
}
