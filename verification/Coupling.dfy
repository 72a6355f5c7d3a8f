/** What every reachable state satisfies: each derived table agrees with the
    transaction table, the chain metadata is coupled, and the counters count the
    log of transactions applied and not unwound, including those a retention
    sweep has since dropped. Received amounts are kept in 64 bits, so they are
    exact for an address as long as its sum has stayed below 2^64. */
module Coupling {
  import opened Types
  import opened Attribution
  import opened Tables
  import opened Scans

  /** Transactions by number: those a state accounts for, whether or not they are still stored. */
  type Log = map<nat, IndexedTx>

  // --- exact accounting ---

  /** Exact totals of one address; `Totals` holds the machine-width ones. */
  datatype Tally = Tally(received: nat, count: nat)

  function Share(log: Log, k: nat, a: string): Tally {
    if k in log && a in log[k].ledger then Tally(log[k].ledger[a].credit, 1) else Tally(0, 0)
  }

  /** Sum over the logged transactions numbered below `n`. */
  function TallyOf(log: Log, a: string, n: nat): Tally {
    if n == 0 then Tally(0, 0)
    else
      var t, s := TallyOf(log, a, n - 1), Share(log, n - 1, a);
      Tally(t.received + s.received, t.count + s.count)
  }

  lemma {:induction false} TallyFrame(log: Log, log': Log, a: string, n: nat)
    requires forall k :: 0 <= k < n ==> Share(log, k, a) == Share(log', k, a)
    ensures TallyOf(log, a, n) == TallyOf(log', a, n)
  {
    if n > 0 {
      TallyFrame(log, log', a, n - 1);
      assert Share(log, n - 1, a) == Share(log', n - 1, a);
    }
  }

  lemma {:induction false} TallyWithout(log: Log, k: nat, a: string, n: nat)
    requires k < n
    ensures var t, t', s := TallyOf(log, a, n), TallyOf(log - {k}, a, n), Share(log, k, a);
      t.received == t'.received + s.received && t.count == t'.count + s.count
  {
    if k == n - 1 {
      TallyFrame(log, log - {k}, a, k);
    } else {
      TallyWithout(log, k, a, n - 1);
    }
  }

  // --- invariants ---

  ghost predicate IdsSound(r: Rows) {
    forall id :: id in r.txById ==> r.txById[id] in r.tx && r.tx[r.txById[id]].raw.txId == id
  }

  ghost predicate SpendsSound(r: Rows) {
    forall o :: o in r.spends ==> r.spends[o] in r.tx && o in SpentBy(r.tx[r.spends[o]].raw)
  }

  ghost predicate HistoryExact(r: Rows) {
    && (forall a, n :: (a, n) in r.history <==> n in r.tx && a in r.tx[n].ledger)
    && (forall a, n :: (a, n) in r.history ==> r.history[(a, n)] == RowOf(r.tx[n], a))
  }

  ghost predicate Numbered(tx: map<nat, IndexedTx>) {
    forall n :: n in tx ==> tx[n].num == n
  }

  /** Each index table is sound with respect to `tx`, and the history table is exact. */
  ghost predicate RowsCoupled(r: Rows) {
    Numbered(r.tx) && IdsSound(r) && SpendsSound(r) && HistoryExact(r)
  }

  /** One address's row counts its transactions, exists only if there are some, and never
      holds more than they paid. */
  predicate CountedAt(totals: map<string, Totals>, a: string, t: Tally) {
    && (a in totals <==> t.count > 0)
    && (a in totals ==> totals[a].count == t.count && totals[a].received <= t.received)
  }

  /** The transaction counters are the sizes of the log. */
  ghost predicate Counted(r: Rows, log: Log, n: nat) {
    && r.totalTxs == |log|
    && forall a :: CountedAt(r.totals, a, TallyOf(log, a, n))
  }

  /** One address's row holds its tally (received modulo 2^64), and no zero row is kept. */
  predicate AccountedAt(totals: map<string, Totals>, a: string, t: Tally) {
    && (a in totals <==> t.count > 0)
    && (a in totals ==> totals[a] == Totals(Wrap(t.received), t.count))
  }

  ghost predicate Logged(r: Rows, log: Log, n: nat) {
    && (forall k :: k in log ==> k < n && log[k].num == k)
    && (forall k :: k in r.tx ==> k in log && log[k] == r.tx[k])
  }

  ghost predicate RowsInv(r: Rows, log: Log, n: nat) {
    RowsCoupled(r) && Counted(r, log, n) && Logged(r, log, n)
  }

  ghost predicate Listed(c: Core, h: string)
    requires h in c.blocks.acceptedBy && h in c.blocks.applied
  {
    && Increasing(c.blocks.acceptedBy[h])
    && forall n :: n in c.blocks.acceptedBy[h] ==>
         n in c.rows.tx && c.rows.tx[n].block == h && c.rows.tx[n].daa == c.blocks.applied[h]
  }

  /** `APPLIED`, `ACCEPTED_BY` and `CHAIN_BY_DAA` describe the same set of chain blocks,
      and every transaction listed for a block is stored under that block and DAA. */
  ghost predicate BlocksCoupled(c: Core) {
    var b := c.blocks;
    && b.applied.Keys == b.acceptedBy.Keys
    && (forall k :: k in b.chainByDaa <==> k.1 in b.applied && b.applied[k.1] == k.0)
    && (forall k :: k in b.chainByDaa ==> b.chainByDaa[k] == k.1)
    && (forall h :: h in b.acceptedBy ==> Listed(c, h))
  }

  ghost predicate Inv(d: Database, log: Log) {
    RowsInv(d.core.rows, log, d.nextTxNum) && BlocksCoupled(d.core)
  }

  /** `a` has received less than 2^64 sompi over the logged transactions. */
  predicate FitsAt(log: Log, a: string, n: nat) {
    TallyOf(log, a, n).received < TWO64
  }

  // --- one transaction ---

  lemma StoreKeepsHistory(r: Rows, itx: IndexedTx)
    requires HistoryExact(r) && itx.num !in r.tx
    ensures HistoryExact(StoreTx(r, itx))
  {
    var r' := StoreTx(r, itx);
    forall a, n ensures (a, n) in r'.history <==> n in r'.tx && a in r'.tx[n].ledger {
      HistoryRowAt(itx, a, n);
    }
    forall a, n | (a, n) in r'.history ensures r'.history[(a, n)] == RowOf(r'.tx[n], a) {
      HistoryRowAt(itx, a, n);
    }
  }

  lemma HistoryRowAt(itx: IndexedTx, a: string, n: nat)
    ensures (a, n) in HistoryRows(itx) <==> n == itx.num && a in itx.ledger
    ensures (a, n) in HistoryRows(itx) ==> HistoryRows(itx)[(a, n)] == RowOf(itx, a)
  {
  }

  lemma StoreKeepsRows(r: Rows, itx: IndexedTx)
    requires RowsCoupled(r) && itx.num !in r.tx
    ensures RowsCoupled(StoreTx(r, itx))
  {
    StoreKeepsHistory(r, itx);
  }

  lemma StoreKeepsCounts(r: Rows, itx: IndexedTx, log: Log)
    requires Counted(r, log, itx.num) && Logged(r, log, itx.num)
    ensures Counted(StoreTx(r, itx), log[itx.num := itx], itx.num + 1)
  {
    hide Credited, CountedAt, TallyOf, HistoryRows, SpendRows;
    var log', n := log[itx.num := itx], itx.num + 1;
    assert itx.num !in log;
    forall a ensures CountedAt(Credited(r.totals, itx.ledger), a, TallyOf(log', a, n)) {
      assert CountedAt(r.totals, a, TallyOf(log, a, itx.num));
      TallySnoc(log, itx, a);
      CreditedCounts(r.totals, itx.ledger, a, TallyOf(log, a, itx.num));
    }
  }

  lemma CreditedCounts(totals: map<string, Totals>, l: Ledger, a: string, t: Tally)
    requires CountedAt(totals, a, t)
    ensures CountedAt(Credited(totals, l), a, Plus(t, l, a))
  {
    if a in l {
      AddAtMost(TotalsAt(totals, a).received, l[a].credit);
    }
    hide Add64;
  }

  lemma StoreAccountsOne(totals: map<string, Totals>, itx: IndexedTx, log: Log, a: string)
    requires AccountedAt(totals, a, TallyOf(log, a, itx.num))
    ensures AccountedAt(Credited(totals, itx.ledger), a, TallyOf(log[itx.num := itx], a, itx.num + 1))
  {
    hide Credited, AccountedAt, TallyOf;
    TallySnoc(log, itx, a);
    TallyOfNone(log, a, itx.num);
    CreditedAt(totals, itx.ledger, a, TallyOf(log, a, itx.num));
  }

  lemma TallySnoc(log: Log, itx: IndexedTx, a: string)
    ensures TallyOf(log[itx.num := itx], a, itx.num + 1) == Plus(TallyOf(log, a, itx.num), itx.ledger, a)
  {
    TallyFrame(log, log[itx.num := itx], a, itx.num);
  }

  function Plus(t: Tally, l: Ledger, a: string): Tally {
    if a in l then Tally(t.received + l[a].credit, t.count + 1) else t
  }

  lemma {:induction false} TallyOfNone(log: Log, a: string, n: nat)
    ensures TallyOf(log, a, n).count == 0 ==> TallyOf(log, a, n).received == 0
  {
    if n > 0 { TallyOfNone(log, a, n - 1); }
  }

  lemma CreditedAt(totals: map<string, Totals>, l: Ledger, a: string, t: Tally)
    requires AccountedAt(totals, a, t)
    requires t.count == 0 ==> t.received == 0
    ensures AccountedAt(Credited(totals, l), a, Plus(t, l, a))
  {
    if a in l {
      AddWraps(t.received, l[a].credit);
    }
  }

  lemma RemoveKeepsHistory(r: Rows, num: nat)
    requires HistoryExact(r) && num in r.tx
    ensures HistoryExact(RemoveTx(r, num))
  {
    var r', keys := RemoveTx(r, num), HistoryKeys(r.tx[num], num);
    forall a, n ensures (a, n) in keys <==> n == num && a in r.tx[num].ledger {
    }
    forall a, n ensures (a, n) in r'.history <==> n in r'.tx && a in r'.tx[n].ledger {
      assert (a, n) in r'.history <==> (a, n) in r.history && (a, n) !in keys;
    }
  }

  lemma RemoveKeepsRows(r: Rows, num: nat)
    requires RowsCoupled(r) && num in r.tx
    ensures RowsCoupled(RemoveTx(r, num))
  {
    RemoveKeepsHistory(r, num);
  }

  /** Rolling one address back undoes one crediting exactly while its sum fits. */
  lemma UncreditedAt(totals: map<string, Totals>, l: Ledger, a: string, t: Tally)
    requires AccountedAt(totals, a, Plus(t, l, a)) && Plus(t, l, a).received < TWO64
    requires t.count == 0 ==> t.received == 0
    ensures AccountedAt(Uncredited(totals, l), a, t)
    ensures a in l ==> a in totals && l[a].credit <= totals[a].received && 1 <= totals[a].count
  {
    if a in l {
      assert totals[a].received == t.received + l[a].credit;
    }
  }

  /** Rolling back restores the row a crediting changed, for exactly the amounts whose sum
      did not pass 2^64; beyond that `saturating_sub` cuts off at zero. */
  lemma RollBackRestoresIff(totals: map<string, Totals>, l: Ledger, a: string)
    requires a in l && (a in totals ==> totals[a].count > 0)
    ensures var back := Uncredited(Credited(totals, l), l);
      (a in back <==> a in totals) && TotalsAt(back, a) == TotalsAt(totals, a)
      <==> TotalsAt(totals, a).received + l[a].credit < TWO64
  {
    var was, c := TotalsAt(totals, a), l[a].credit;
    RollBackNumbers(was.received, c);
    hide Add64, SatSub;
  }

  lemma RollBackNumbers(r: U64, c: U64)
    ensures SatSub(Add64(r, c), c) == r <==> r + c < TWO64
    ensures r == 0 ==> SatSub(Add64(r, c), c) == 0
  {
    if r + c >= TWO64 {
      assert Add64(r, c) == r + c - TWO64;
    }
  }

  lemma UncreditedCounts(totals: map<string, Totals>, l: Ledger, a: string, t: Tally)
    requires CountedAt(totals, a, Plus(t, l, a)) && (t.count == 0 ==> t.received == 0)
    ensures CountedAt(Uncredited(totals, l), a, t)
    ensures a in l ==> a in totals && 1 <= totals[a].count
  {
  }

  lemma TallyWithoutOne(log: Log, num: nat, a: string, n: nat)
    requires num in log && num < n
    ensures TallyOf(log, a, n) == Plus(TallyOf(log - {num}, a, n), log[num].ledger, a)
  {
    hide TallyOf;
    TallyWithout(log, num, a, n);
  }

  lemma RemoveCountsAt(r: Rows, num: nat, log: Log, n: nat, a: string)
    requires Logged(r, log, n) && num in r.tx && CountedAt(r.totals, a, TallyOf(log, a, n))
    ensures CountedAt(RemoveTx(r, num).totals, a, TallyOf(log - {num}, a, n))
    ensures a in r.tx[num].ledger ==> a in r.totals && 1 <= r.totals[a].count
  {
    hide TallyOf, CountedAt, Uncredited, HistoryKeys;
    TallyWithoutOne(log, num, a, n);
    TallyOfNone(log - {num}, a, n);
    UncreditedCounts(r.totals, log[num].ledger, a, TallyOf(log - {num}, a, n));
  }

  lemma LogShrinks(log: Log, num: nat)
    requires num in log
    ensures |log - {num}| == |log| - 1
  {
    assert log.Keys == (log - {num}).Keys + {num};
  }

  lemma RemoveKeepsCounts(r: Rows, num: nat, log: Log, n: nat)
    requires Counted(r, log, n) && Logged(r, log, n) && num in r.tx
    ensures Counted(RemoveTx(r, num), log - {num}, n)
    ensures CountsSuffice(r, num)
  {
    assert num in log;
    assert RemoveTx(r, num).totalTxs == SatSub(r.totalTxs, 1);
    hide TallyOf, CountedAt, RemoveTx, Logged;
    LogShrinks(log, num);
    forall a ensures CountedAt(RemoveTx(r, num).totals, a, TallyOf(log - {num}, a, n))
             ensures a in r.tx[num].ledger ==> a in r.totals && 1 <= r.totals[a].count {
      assert CountedAt(r.totals, a, TallyOf(log, a, n));
      RemoveCountsAt(r, num, log, n, a);
    }
  }

  /** Transaction `num` is there to be removed, and each count it lowers is positive. */
  ghost predicate CountsSuffice(r: Rows, num: nat) {
    && num in r.tx
    && 1 <= r.totalTxs
    && forall a :: a in r.tx[num].ledger ==> a in r.totals && 1 <= r.totals[a].count
  }

  /** The amount subtracted from `a` for transaction `num` is covered. */
  predicate AmountSuffices(r: Rows, num: nat, a: string) {
    num in r.tx && a in r.tx[num].ledger ==> a in r.totals && r.tx[num].ledger[a].credit <= r.totals[a].received
  }

  lemma RemoveAccountsAt(r: Rows, num: nat, log: Log, n: nat, a: string)
    requires Logged(r, log, n) && num in r.tx
    requires AccountedAt(r.totals, a, TallyOf(log, a, n)) && FitsAt(log, a, n)
    ensures AccountedAt(RemoveTx(r, num).totals, a, TallyOf(log - {num}, a, n))
    ensures FitsAt(log - {num}, a, n) && AmountSuffices(r, num, a)
  {
    hide TallyOf, AccountedAt, Uncredited, HistoryKeys;
    TallyWithoutOne(log, num, a, n);
    TallyOfNone(log - {num}, a, n);
    UncreditedAt(r.totals, log[num].ledger, a, TallyOf(log - {num}, a, n));
  }

  lemma StoreKeeps(r: Rows, itx: IndexedTx, log: Log)
    requires RowsInv(r, log, itx.num)
    ensures RowsInv(StoreTx(r, itx), log[itx.num := itx], itx.num + 1)
  {
    hide RowsCoupled, Counted, LedgerOf;
    StoreKeepsRows(r, itx);
    StoreKeepsCounts(r, itx, log);
  }

  lemma RemoveKeeps(r: Rows, num: nat, log: Log, n: nat)
    requires RowsInv(r, log, n) && num in r.tx
    ensures RowsInv(RemoveTx(r, num), log - {num}, n) && CountsSuffice(r, num)
  {
    hide RowsCoupled, Counted, CountsSuffice;
    RemoveKeepsRows(r, num);
    RemoveKeepsCounts(r, num, log, n);
  }

  // --- one block ---

  /** The rows of `tx` numbered `from` and up. */
  function Since(tx: map<nat, IndexedTx>, from: nat): Log {
    map n | n in tx && from <= n :: tx[n]
  }

  lemma InsertTxsNone(r: Rows, num: nat, hash: string, daa: nat, attr: Attribute)
    ensures InsertTxs(r, num, [], hash, daa, attr) == r
  {
    hide InsertTx;
  }

  /** The last insertion, seen through the transaction table. */
  lemma InsertTxsSnoc(r: Rows, num: nat, txs: seq<RawTx>, hash: string, daa: nat, attr: Attribute)
    requires txs != []
    ensures var k := |txs| - 1;
      var mid := InsertTxs(r, num, txs[..k], hash, daa, attr);
      var itx := Indexed(mid, num + k, txs[k], hash, daa, attr);
      && InsertTxs(r, num, txs, hash, daa, attr) == StoreTx(mid, itx)
      && itx.num == num + k && itx.block == hash && itx.daa == daa && itx.raw == txs[k]
  {
    hide StoreTx;
  }

  /** `tx'` extends `tx` with exactly the numbers `num .. num + n`, all under one block. */
  ghost predicate InsertedRange(
    tx: map<nat, IndexedTx>, tx': map<nat, IndexedTx>, num: nat, n: nat, hash: string, daa: nat)
  {
    && (forall k :: k in tx' <==> k in tx || num <= k < num + n)
    && (forall k :: k in tx && k < num ==> k in tx' && tx'[k] == tx[k])
    && (forall k :: num <= k < num + n ==> k in tx' && tx'[k].block == hash && tx'[k].daa == daa)
  }

  lemma RangeNone(tx: map<nat, IndexedTx>, num: nat, hash: string, daa: nat)
    ensures InsertedRange(tx, tx, num, 0, hash, daa)
  {
  }

  lemma RangeSnoc(tx: map<nat, IndexedTx>, r: Rows, num: nat, k: nat, itx: IndexedTx)
    requires num + k == itx.num && InsertedRange(tx, r.tx, num, k, itx.block, itx.daa)
    ensures InsertedRange(tx, StoreTx(r, itx).tx, num, k + 1, itx.block, itx.daa)
  {
    hide Credited, HistoryRows, SpendRows;
  }

  lemma {:induction false} InsertTxsRange(
    r: Rows, num: nat, txs: seq<RawTx>, hash: string, daa: nat, attr: Attribute)
    ensures InsertedRange(r.tx, InsertTxs(r, num, txs, hash, daa, attr).tx, num, |txs|, hash, daa)
    decreases |txs|
  {
    hide *;
    if txs == [] {
      InsertTxsNone(r, num, hash, daa, attr);
      RangeNone(r.tx, num, hash, daa);
    } else {
      var k := |txs| - 1;
      var mid := InsertTxs(r, num, txs[..k], hash, daa, attr);
      InsertTxsRange(r, num, txs[..k], hash, daa, attr);
      InsertTxsSnoc(r, num, txs, hash, daa, attr);
      RangeSnoc(r.tx, mid, num, k, Indexed(mid, num + k, txs[k], hash, daa, attr));
    }
  }

  lemma {:induction false} InsertTxsKeeps(
    r: Rows, num: nat, txs: seq<RawTx>, hash: string, daa: nat, attr: Attribute, log: Log)
    requires RowsInv(r, log, num)
    ensures var r' := InsertTxs(r, num, txs, hash, daa, attr);
      RowsInv(r', log + Since(r'.tx, num), num + |txs|)
    decreases |txs|
  {
    hide *;
    if txs == [] {
      InsertTxsNone(r, num, hash, daa, attr);
      SinceNone(r, log, num);
    } else {
      var k := |txs| - 1;
      var mid := InsertTxs(r, num, txs[..k], hash, daa, attr);
      var itx := Indexed(mid, num + k, txs[k], hash, daa, attr);
      InsertTxsKeeps(r, num, txs[..k], hash, daa, attr, log);
      InsertTxsSnoc(r, num, txs, hash, daa, attr);
      StoreKeeps(mid, itx, log + Since(mid.tx, num));
      SinceStore(mid, itx, num, log);
    }
  }

  lemma {:induction false} InsertTxsAccountsAt(
    r: Rows, num: nat, txs: seq<RawTx>, hash: string, daa: nat, attr: Attribute, log: Log, a: string)
    requires RowsInv(r, log, num) && AccountedAt(r.totals, a, TallyOf(log, a, num))
    ensures var r' := InsertTxs(r, num, txs, hash, daa, attr);
      AccountedAt(r'.totals, a, TallyOf(log + Since(r'.tx, num), a, num + |txs|))
    decreases |txs|
  {
    hide *;
    if txs == [] {
      InsertTxsNone(r, num, hash, daa, attr);
      SinceNone(r, log, num);
    } else {
      var k := |txs| - 1;
      var mid := InsertTxs(r, num, txs[..k], hash, daa, attr);
      var itx := Indexed(mid, num + k, txs[k], hash, daa, attr);
      InsertTxsAccountsAt(r, num, txs[..k], hash, daa, attr, log, a);
      InsertTxsSnoc(r, num, txs, hash, daa, attr);
      StoreAccountsOne(mid.totals, itx, log + Since(mid.tx, num), a);
      StoredTx(mid, itx);
      SinceStore(mid, itx, num, log);
    }
  }

  lemma StoredTx(r: Rows, itx: IndexedTx)
    ensures StoreTx(r, itx).tx == r.tx[itx.num := itx]
    ensures StoreTx(r, itx).totals == Credited(r.totals, itx.ledger)
    ensures StoreTx(r, itx).totalTxs == r.totalTxs + 1
  {
    hide HistoryRows, SpendRows, Credited;
  }

  lemma SinceNone(r: Rows, log: Log, num: nat)
    requires RowsInv(r, log, num)
    ensures log + Since(r.tx, num) == log
  {
    hide RowsCoupled, Counted;
  }

  lemma SinceStore(r: Rows, itx: IndexedTx, from: nat, log: Log)
    requires from <= itx.num
    ensures (log + Since(r.tx, from))[itx.num := itx] == log + Since(StoreTx(r, itx).tx, from)
  {
    hide Credited, HistoryRows, SpendRows;
  }

  lemma {:induction false} RemoveTxsKeeps(r: Rows, nums: seq<nat>, log: Log, n: nat)
    requires RowsInv(r, log, n)
    requires Increasing(nums) && forall k :: k in nums ==> k in r.tx
    ensures var r' := RemoveTxs(r, nums);
      RowsInv(r', log - Members(nums), n) && r'.tx == r.tx - Members(nums)
    decreases |nums|
  {
    hide RowsInv;
    if nums == [] {
      assert log - Members(nums) == log;
      assert r.tx - Members(nums) == r.tx;
    } else {
      var k := |nums| - 1;
      RemoveKeeps(r, nums[k], log, n);
      RemoveTxsKeeps(RemoveTx(r, nums[k]), nums[..k], log - {nums[k]}, n);
      MembersSnoc(log, nums);
      MembersSnoc(r.tx, nums);
    }
  }

  lemma MembersSnoc(log: Log, nums: seq<nat>)
    requires nums != []
    ensures log - {nums[|nums| - 1]} - Members(nums[..|nums| - 1]) == log - Members(nums)
  {
    SetSnoc(nums);
  }

  lemma RowsLogged(r: Rows, log: Log, n: nat)
    requires RowsInv(r, log, n)
    ensures Logged(r, log, n)
  {
    hide RowsCoupled, Counted, Logged;
  }

  lemma {:induction false} RemoveTxsAccountsAt(r: Rows, nums: seq<nat>, log: Log, n: nat, a: string)
    requires RowsInv(r, log, n) && AccountedAt(r.totals, a, TallyOf(log, a, n)) && FitsAt(log, a, n)
    requires Increasing(nums) && forall k :: k in nums ==> k in r.tx
    ensures AccountedAt(RemoveTxs(r, nums).totals, a, TallyOf(log - Members(nums), a, n))
    ensures FitsAt(log - Members(nums), a, n)
    decreases |nums|
  {
    hide RowsInv, AccountedAt, TallyOf, FitsAt;
    if nums == [] {
      assert log - Members(nums) == log;
    } else {
      var k := |nums| - 1;
      RemoveKeeps(r, nums[k], log, n);
      RowsLogged(r, log, n);
      RemoveAccountsAt(r, nums[k], log, n, a);
      RemoveTxsAccountsAt(RemoveTx(r, nums[k]), nums[..k], log - {nums[k]}, n, a);
      MembersSnoc(log, nums);
    }
  }

  lemma SetSnoc(nums: seq<nat>)
    requires nums != []
    ensures Members(nums) == Members(nums[..|nums| - 1]) + {nums[|nums| - 1]}
  {
    assert nums == nums[..|nums| - 1] + [nums[|nums| - 1]];
  }

  /** Recording a freshly inserted block keeps the metadata coupled. */
  lemma RecordKeepsBlocks(r: Rows, r': Rows, b: Blocks, num: nat, n: nat, h: string, daa: nat)
    requires BlocksCoupled(Core(r, b)) && h !in b.applied
    requires forall k :: k in r.tx ==> k < num
    requires InsertedRange(r.tx, r'.tx, num, n, h, daa)
    ensures BlocksCoupled(Core(r', RecordBlock(b, h, daa, Numbers(num, n))))
  {
    var c, c' := Core(r, b), Core(r', RecordBlock(b, h, daa, Numbers(num, n)));
    forall x | x in c'.blocks.acceptedBy ensures Listed(c', x) {
      if x != h {
        assert Listed(c, x);
      }
    }
  }

  lemma UnfoldInv(d: Database, log: Log)
    requires Inv(d, log)
    ensures RowsInv(d.core.rows, log, d.nextTxNum) && BlocksCoupled(d.core)
  {
    hide RowsInv, BlocksCoupled;
  }

  lemma LiveBelow(r: Rows, log: Log, n: nat)
    requires RowsInv(r, log, n)
    ensures forall k :: k in r.tx ==> k < n
  {
    hide RowsCoupled, Counted;
  }

  lemma ApplyFreshKeeps(d: Database, g: Group, cx: Codec, log: Log)
    requires Inv(d, log) && g.hash !in d.core.blocks.applied
    ensures var d' := ApplyGroup(d, g, cx);
      Inv(d', log + Since(d'.core.rows.tx, d.nextTxNum))
  {
    hide RowsInv, BlocksCoupled, InsertTxs, IndexTxs, RecordBlock, Numbers, Since, InsertedRange;
    var r, n := d.core.rows, d.nextTxNum;
    LiveBelow(r, log, n);
    InsertTxsKeeps(r, n, g.txs, g.hash, g.daa, cx.attr, log);
    InsertTxsRange(r, n, g.txs, g.hash, g.daa, cx.attr);
    RecordKeepsBlocks(r, InsertTxs(r, n, g.txs, g.hash, g.daa, cx.attr), d.core.blocks, n, |g.txs|, g.hash, g.daa);
  }

  lemma ApplyFreshExtends(d: Database, g: Group, cx: Codec, log: Log)
    requires Inv(d, log) && g.hash !in d.core.blocks.applied
    ensures Extends(d, ApplyGroup(d, g, cx))
  {
    hide RowsInv, BlocksCoupled, InsertTxs, IndexTxs, RecordBlock, Numbers;
    LiveBelow(d.core.rows, log, d.nextTxNum);
    InsertTxsRange(d.core.rows, d.nextTxNum, g.txs, g.hash, g.daa, cx.attr);
  }

  lemma ApplyStaleIsNoOp(d: Database, g: Group, cx: Codec, log: Log)
    requires Inv(d, log) && g.hash in d.core.blocks.applied
    ensures ApplyGroup(d, g, cx) == d && Extends(d, d) && log + Since(d.core.rows.tx, d.nextTxNum) == log
  {
    hide RowsInv, BlocksCoupled, InsertTxs, IndexTxs;
    LiveBelow(d.core.rows, log, d.nextTxNum);
    SinceNone(d.core.rows, log, d.nextTxNum);
  }

  lemma ApplyGroupKeeps(d: Database, g: Group, cx: Codec, log: Log)
    requires Inv(d, log)
    ensures var d' := ApplyGroup(d, g, cx);
      Inv(d', log + Since(d'.core.rows.tx, d.nextTxNum)) && Extends(d, d')
  {
    hide *;
    if g.hash in d.core.blocks.applied {
      ApplyStaleIsNoOp(d, g, cx, log);
    } else {
      ApplyFreshKeeps(d, g, cx, log);
      ApplyFreshExtends(d, g, cx, log);
    }
  }

  lemma SinceJoin(d: Database, d1: Database, d2: Database, log: Log)
    requires Extends(d, d1) && Extends(d1, d2)
    ensures Extends(d, d2)
    ensures (log + Since(d1.core.rows.tx, d.nextTxNum)) + Since(d2.core.rows.tx, d1.nextTxNum)
         == log + Since(d2.core.rows.tx, d.nextTxNum)
  {
  }

  lemma {:induction false} ApplyKeeps(d: Database, gs: seq<Group>, cx: Codec, log: Log)
    requires Inv(d, log)
    ensures var d' := Apply(d, gs, cx);
      Inv(d', log + Since(d'.core.rows.tx, d.nextTxNum)) && Extends(d, d')
    decreases |gs|
  {
    if gs == [] {
      assert Apply(d, gs, cx) == d;
      SinceNone(d.core.rows, log, d.nextTxNum);
      LiveBelow(d.core.rows, log, d.nextTxNum);
    } else {
      ApplySnocKeeps(d, gs, cx, log);
    }
  }

  lemma {:induction false} ApplySnocKeeps(d: Database, gs: seq<Group>, cx: Codec, log: Log)
    requires Inv(d, log) && gs != []
    ensures var d' := Apply(d, gs, cx);
      Inv(d', log + Since(d'.core.rows.tx, d.nextTxNum)) && Extends(d, d')
    decreases |gs|, 0
  {
    hide Inv, Extends, Since, ApplyGroup;
    var k := |gs| - 1;
    var mid := Apply(d, gs[..k], cx);
    ApplyKeeps(d, gs[..k], cx, log);
    var log1 := log + Since(mid.core.rows.tx, d.nextTxNum);
    ApplyGroupKeeps(mid, gs[k], cx, log1);
    SinceJoin(d, mid, Apply(d, gs, cx), log);
  }

  /** Apply only adds rows, all numbered from the old counter up. */
  ghost predicate Extends(d: Database, d': Database) {
    && d.nextTxNum <= d'.nextTxNum
    && (forall k :: k in d.core.rows.tx ==> k < d.nextTxNum)
    && (forall k :: k in d'.core.rows.tx ==> k < d'.nextTxNum)
    && (forall k :: k in d.core.rows.tx ==> k in d'.core.rows.tx && d'.core.rows.tx[k] == d.core.rows.tx[k])
    && (forall k :: k in d'.core.rows.tx && k < d.nextTxNum ==> k in d.core.rows.tx)
  }

  /** The row of `a` after `log`. */
  ghost predicate Exact(d: Database, log: Log, a: string) {
    AccountedAt(d.core.rows.totals, a, TallyOf(log, a, d.nextTxNum))
  }

  lemma ApplyGroupAccountsAt(d: Database, g: Group, cx: Codec, log: Log, a: string)
    requires Inv(d, log) && Exact(d, log, a)
    ensures var d' := ApplyGroup(d, g, cx); Exact(d', log + Since(d'.core.rows.tx, d.nextTxNum), a)
  {
    if g.hash in d.core.blocks.applied {
      hide *;
      ApplyStaleIsNoOp(d, g, cx, log);
    } else {
      hide RowsInv, BlocksCoupled, InsertTxs, IndexTxs, RecordBlock, Numbers, Since, AccountedAt, TallyOf;
      InsertTxsAccountsAt(d.core.rows, d.nextTxNum, g.txs, g.hash, g.daa, cx.attr, log, a);
    }
  }

  lemma {:induction false} ApplyAccountsAt(d: Database, gs: seq<Group>, cx: Codec, log: Log, a: string)
    requires Inv(d, log) && Exact(d, log, a)
    ensures var d' := Apply(d, gs, cx); Exact(d', log + Since(d'.core.rows.tx, d.nextTxNum), a)
    decreases |gs|
  {
    hide Inv, Extends, Since, ApplyGroup, Exact;
    if gs == [] {
      UnfoldInv(d, log);
      SinceNone(d.core.rows, log, d.nextTxNum);
    } else {
      var k := |gs| - 1;
      var mid := Apply(d, gs[..k], cx);
      ApplyKeeps(d, gs[..k], cx, log);
      ApplyAccountsAt(d, gs[..k], cx, log, a);
      var log1 := log + Since(mid.core.rows.tx, d.nextTxNum);
      ApplyGroupKeeps(mid, gs[k], cx, log1);
      ApplyGroupAccountsAt(mid, gs[k], cx, log1, a);
      SinceJoin(d, mid, Apply(d, gs, cx), log);
    }
  }

  // --- unwind ---

  /** The numbers unwinding `h` removes. */
  function Undone(c: Core, h: string): set<nat> {
    if h in c.blocks.acceptedBy then Members(c.blocks.acceptedBy[h]) else {}
  }

  lemma ForgetKeepsBlocks(c: Core, r': Rows, h: string)
    requires BlocksCoupled(c) && h in c.blocks.acceptedBy
    requires r'.tx == c.rows.tx - Members(c.blocks.acceptedBy[h])
    ensures BlocksCoupled(Core(r', ForgetBlock(c.blocks, h)))
  {
    var c' := Core(r', ForgetBlock(c.blocks, h));
    assert Listed(c, h);
    forall x | x in c'.blocks.acceptedBy ensures Listed(c', x) {
      assert Listed(c, x);
    }
  }

  lemma UnwindKeeps(d: Database, h: string, log: Log)
    requires Inv(d, log)
    ensures Inv(d.(core := UnwindBlock(d.core, h)), log - Undone(d.core, h))
  {
    hide RowsInv, BlocksCoupled;
    if h in d.core.blocks.acceptedBy {
      UnwindAppliedKeeps(d.core, d.nextTxNum, h, log);
    } else {
      assert log - {} == log;
    }
  }

  lemma UnwindAppliedKeeps(c: Core, n: nat, h: string, log: Log)
    requires RowsInv(c.rows, log, n) && BlocksCoupled(c) && h in c.blocks.acceptedBy
    ensures var c' := UnwindBlock(c, h);
      RowsInv(c'.rows, log - Members(c.blocks.acceptedBy[h]), n) && BlocksCoupled(c')
      && c'.rows.tx == c.rows.tx - Members(c.blocks.acceptedBy[h])
  {
    var nums := c.blocks.acceptedBy[h];
    ListedNow(c, h);
    hide RowsInv, BlocksCoupled, RemoveTxs, ForgetBlock;
    RemoveTxsKeeps(c.rows, nums, log, n);
    ForgetKeepsBlocks(c, RemoveTxs(c.rows, nums), h);
  }

  lemma ListedNow(c: Core, h: string)
    requires BlocksCoupled(c) && h in c.blocks.acceptedBy
    ensures Increasing(c.blocks.acceptedBy[h]) && forall n :: n in c.blocks.acceptedBy[h] ==> n in c.rows.tx
  {
    assert Listed(c, h);
  }

  lemma UnwindAccountsAt(d: Database, h: string, log: Log, a: string)
    requires Inv(d, log) && Exact(d, log, a) && FitsAt(log, a, d.nextTxNum)
    ensures Exact(d.(core := UnwindBlock(d.core, h)), log - Undone(d.core, h), a)
  {
    if h in d.core.blocks.acceptedBy {
      ListedNow(d.core, h);
      hide RowsInv, BlocksCoupled, RemoveTxs, ForgetBlock, AccountedAt, TallyOf, FitsAt;
      RemoveTxsAccountsAt(d.core.rows, d.core.blocks.acceptedBy[h], log, d.nextTxNum, a);
    } else {
      assert log - {} == log;
    }
  }

  /** At every point of the unwind loop the next transaction is present and no count
      it lowers is zero. */
  lemma RemoveTxsFindsAll(r: Rows, nums: seq<nat>, log: Log, n: nat, j: nat)
    requires RowsInv(r, log, n) && j < |nums|
    requires Increasing(nums) && forall k :: k in nums ==> k in r.tx
    ensures CountsSuffice(RemoveTxs(r, nums[j + 1..]), nums[j])
  {
    var done := nums[j + 1..];
    hide RowsInv, CountsSuffice, RemoveTx;
    RemoveTxsKeeps(r, done, log, n);
    RemoveKeeps(RemoveTxs(r, done), nums[j], log - Members(done), n);
  }

  /** And the amount it subtracts is covered, for an address whose sum fits. */
  lemma RemoveTxsNeverSaturates(r: Rows, nums: seq<nat>, log: Log, n: nat, j: nat, a: string)
    requires RowsInv(r, log, n) && j < |nums|
    requires AccountedAt(r.totals, a, TallyOf(log, a, n)) && FitsAt(log, a, n)
    requires Increasing(nums) && forall k :: k in nums ==> k in r.tx
    ensures AmountSuffices(RemoveTxs(r, nums[j + 1..]), nums[j], a)
  {
    var done := nums[j + 1..];
    hide RowsInv, RemoveTx, AccountedAt, TallyOf, FitsAt, AmountSuffices;
    RemoveTxsKeeps(r, done, log, n);
    RemoveTxsAccountsAt(r, done, log, n, a);
    RowsLogged(RemoveTxs(r, done), log - Members(done), n);
    RemoveAccountsAt(RemoveTxs(r, done), nums[j], log - Members(done), n, a);
  }

  // --- expiry ---

  lemma DropKeepsHistory(r: Rows, gone: set<nat>)
    requires HistoryExact(r) && gone <= r.tx.Keys
    ensures HistoryExact(DropTxs(r, gone))
  {
    var r' := DropTxs(r, gone);
    forall a, n ensures (a, n) in r'.history <==> n in r'.tx && a in r'.tx[n].ledger {
      assert (a, n) in r'.history <==> (a, n) in r.history && !(n in gone && a in r.tx[n].ledger);
    }
  }

  lemma DropKeepsIds(r: Rows, gone: set<nat>)
    requires IdsSound(r) && gone <= r.tx.Keys
    ensures IdsSound(DropTxs(r, gone))
  {
  }

  lemma DropKeepsSpends(r: Rows, gone: set<nat>)
    requires SpendsSound(r) && gone <= r.tx.Keys
    ensures SpendsSound(DropTxs(r, gone))
  {
  }

  lemma DropKeeps(r: Rows, gone: set<nat>, log: Log, n: nat)
    requires RowsInv(r, log, n) && gone <= r.tx.Keys
    ensures RowsInv(DropTxs(r, gone), log, n)
  {
    hide TallyOf, HistoryExact, IdsSound, SpendsSound, DropTxs;
    DropKeepsHistory(r, gone);
    DropKeepsIds(r, gone);
    DropKeepsSpends(r, gone);
    DropShrinks(r, gone);
  }

  lemma DropShrinks(r: Rows, gone: set<nat>)
    requires gone <= r.tx.Keys
    ensures var r' := DropTxs(r, gone);
      r'.tx == r.tx - gone && r'.totals == r.totals && r'.totalTxs == r.totalTxs
  {
  }

  lemma DropBlocksApplied(c: Core, cutoff: nat, h: string)
    requires BlocksCoupled(c)
    ensures h in DropBlocks(c.blocks, cutoff).applied <==> h in c.blocks.applied && c.blocks.applied[h] >= cutoff
    ensures h in DropBlocks(c.blocks, cutoff).acceptedBy <==> h in c.blocks.applied && c.blocks.applied[h] >= cutoff
  {
    var b := c.blocks;
    var keys := set k | k in b.chainByDaa && k.0 < cutoff;
    var hashes := set k | k in keys :: b.chainByDaa[k];
    if h in b.applied && b.applied[h] < cutoff {
      assert (b.applied[h], h) in keys;
      assert h in hashes;
    }
  }

  lemma DropBlocksKeeps(c: Core, cutoff: nat)
    requires BlocksCoupled(c)
    ensures BlocksCoupled(ExpireCore(c, cutoff))
  {
    var c' := ExpireCore(c, cutoff);
    forall h ensures h in c'.blocks.applied <==> h in c.blocks.applied && c.blocks.applied[h] >= cutoff {
      DropBlocksApplied(c, cutoff, h);
    }
    forall h ensures h in c'.blocks.acceptedBy <==> h in c'.blocks.applied {
      DropBlocksApplied(c, cutoff, h);
    }
    forall h | h in c'.blocks.acceptedBy ensures Listed(c', h) {
      assert Listed(c, h);
    }
  }

  lemma ExpireKeeps(d: Database, cutoff: nat, log: Log)
    requires Inv(d, log)
    ensures Inv(Expire(d, cutoff), log)
  {
    hide RowsInv, BlocksCoupled, DropTxs, DropBlocks, ExpireInference;
    DropKeeps(d.core.rows, Expired(d.core.rows.tx, cutoff), log, d.nextTxNum);
    DropBlocksKeeps(d.core, cutoff);
  }

  lemma ExpireAccountsAt(d: Database, cutoff: nat, log: Log, a: string)
    requires Exact(d, log, a)
    ensures Exact(Expire(d, cutoff), log, a)
  {
    hide DropBlocks, ExpireInference, AccountedAt, TallyOf;
    DropShrinks(d.core.rows, Expired(d.core.rows.tx, cutoff));
    hide DropTxs;
  }
}
