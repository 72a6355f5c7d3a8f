/** Reorg confluence: two stores that differ only in how far the transaction
    counter has advanced answer every read alike after applying the same branch. */
module Confluence {
  import opened Types
  import opened Attribution
  import opened Scans
  import opened Tables
  import opened Coupling
  import opened Lookups
  import opened Branches
  import opened Rollback
  import opened Reorg

  // --- renaming ---

  /** Numbers from `base` up are shifted by `k`: an order-preserving renaming. */
  function Shift(n: nat, base: nat, k: nat): nat {
    if n < base then n else n + k
  }

  function Unshift(m: nat, base: nat, k: nat): nat
    requires m < base || base + k <= m
  {
    if m < base then m else m - k
  }

  /** Equal but for the number. */
  predicate SameTx(x: IndexedTx, y: IndexedTx) {
    x.block == y.block && x.daa == y.daa && x.raw == y.raw && x.ledger == y.ledger
  }

  predicate SameLookup(x: Option<IndexedTx>, y: Option<IndexedTx>) {
    x.Some? == y.Some? && (x.Some? ==> SameTx(x.value, y.value))
  }

  ghost predicate TwinTx(tx: map<nat, IndexedTx>, tx': map<nat, IndexedTx>, base: nat, k: nat) {
    && (forall n :: n in tx ==> Shift(n, base, k) in tx' && SameTx(tx[n], tx'[Shift(n, base, k)]))
    && (forall m :: m in tx' ==> (m < base || base + k <= m) && Unshift(m, base, k) in tx)
  }

  ghost predicate Twins(r: Rows, r': Rows, base: nat, k: nat) {
    TwinTx(r.tx, r'.tx, base, k) && r.totals == r'.totals && r.totalTxs == r'.totalTxs
  }

  lemma TwinStoreAt(
    tx: map<nat, IndexedTx>, tx': map<nat, IndexedTx>, base: nat, k: nat, itx: IndexedTx, itx': IndexedTx, n: nat)
    requires TwinTx(tx, tx', base, k) && SameTx(itx, itx') && base <= itx.num && itx'.num == itx.num + k
    requires n in tx[itx.num := itx]
    ensures var t' := tx'[itx'.num := itx'];
      Shift(n, base, k) in t' && SameTx(tx[itx.num := itx][n], t'[Shift(n, base, k)])
  {
    hide TwinTx, SameTx;
    if n != itx.num {
      TwinOf(tx, tx', base, k, n);
    }
  }

  lemma TwinStoreBackAt(
    tx: map<nat, IndexedTx>, tx': map<nat, IndexedTx>, base: nat, k: nat, itx: IndexedTx, itx': IndexedTx, m: nat)
    requires TwinTx(tx, tx', base, k) && base <= itx.num && itx'.num == itx.num + k && m in tx'[itx'.num := itx']
    ensures (m < base || base + k <= m) && Unshift(m, base, k) in tx[itx.num := itx]
  {
    hide TwinTx;
    if m != itx'.num {
      TwinBackIn(tx, tx', base, k, m);
    }
  }

  lemma TwinBackIn(tx: map<nat, IndexedTx>, tx': map<nat, IndexedTx>, base: nat, k: nat, m: nat)
    requires TwinTx(tx, tx', base, k) && m in tx'
    ensures (m < base || base + k <= m) && Unshift(m, base, k) in tx
  {
    hide SameTx;
  }

  lemma TwinTxStore(
    tx: map<nat, IndexedTx>, tx': map<nat, IndexedTx>, base: nat, k: nat, itx: IndexedTx, itx': IndexedTx)
    requires TwinTx(tx, tx', base, k) && SameTx(itx, itx') && base <= itx.num && itx'.num == itx.num + k
    ensures TwinTx(tx[itx.num := itx], tx'[itx'.num := itx'], base, k)
  {
    hide *;
    var t, t' := tx[itx.num := itx], tx'[itx'.num := itx'];
    forall n | n in t ensures Shift(n, base, k) in t' && SameTx(t[n], t'[Shift(n, base, k)]) {
      TwinStoreAt(tx, tx', base, k, itx, itx', n);
    }
    forall m | m in t' ensures (m < base || base + k <= m) && Unshift(m, base, k) in t {
      TwinStoreBackAt(tx, tx', base, k, itx, itx', m);
    }
    TwinFold(t, t', base, k);
  }

  lemma TwinFold(t: map<nat, IndexedTx>, t': map<nat, IndexedTx>, base: nat, k: nat)
    requires forall n :: n in t ==> Shift(n, base, k) in t' && SameTx(t[n], t'[Shift(n, base, k)])
    requires forall m :: m in t' ==> (m < base || base + k <= m) && Unshift(m, base, k) in t
    ensures TwinTx(t, t', base, k)
  {
    hide SameTx;
  }

  lemma TwinsStore(r: Rows, r': Rows, base: nat, k: nat, itx: IndexedTx, itx': IndexedTx)
    requires Twins(r, r', base, k) && SameTx(itx, itx') && base <= itx.num && itx'.num == itx.num + k
    ensures Twins(StoreTx(r, itx), StoreTx(r', itx'), base, k)
  {
    hide StoreTx, TwinTx, Credited;
    StoredTx(r, itx);
    StoredTx(r', itx');
    TwinTxStore(r.tx, r'.tx, base, k, itx, itx');
  }

  lemma TwinsAtStart(r: Rows, base: nat, k: nat)
    requires forall n :: n in r.tx ==> n < base
    ensures Twins(r, r, base, k)
  {
  }

  // --- lookups ---

  lemma LookupAt(r: Rows, n: nat)
    requires Complete(r) && n in r.tx
    ensures TxById(r, r.tx[n].raw.txId) == Some(r.tx[n])
    ensures forall o :: o in SpentBy(r.tx[n].raw) ==> SpendOf(r, o) == Some(r.tx[n])
  {
    hide SpentBy;
  }

  lemma FoundById(r: Rows, id: string)
    requires RowsCoupled(r) && id in r.txById
    ensures r.txById[id] in r.tx && r.tx[r.txById[id]].raw.txId == id
  {
    hide HistoryExact, SpendsSound;
  }

  lemma FoundBySpend(r: Rows, o: Outpoint)
    requires RowsCoupled(r) && o in r.spends
    ensures r.spends[o] in r.tx && o in SpentBy(r.tx[r.spends[o]].raw)
  {
    hide HistoryExact, IdsSound, SpentBy;
  }

  lemma TwinOf(tx: map<nat, IndexedTx>, tx': map<nat, IndexedTx>, base: nat, k: nat, n: nat)
    requires TwinTx(tx, tx', base, k) && n in tx
    ensures Shift(n, base, k) in tx' && SameTx(tx[n], tx'[Shift(n, base, k)])
    ensures Shift(n, base, k) < base || base + k <= Shift(n, base, k)
  {
    hide SameTx;
  }

  lemma TwinBack(tx: map<nat, IndexedTx>, tx': map<nat, IndexedTx>, base: nat, k: nat, m: nat) returns (n: nat)
    requires TwinTx(tx, tx', base, k) && m in tx'
    ensures n in tx && Shift(n, base, k) == m && SameTx(tx[n], tx'[m])
  {
    hide SameTx;
    n := Unshift(m, base, k);
    assert Shift(n, base, k) == m;
  }

  lemma NotFound(r: Rows, id: string, o: Outpoint)
    ensures id !in r.txById ==> TxById(r, id) == None
    ensures o !in r.spends ==> SpendOf(r, o) == None
  {
  }

  /** Both lookups give the same transaction on either side. */
  lemma TwinById(r: Rows, r': Rows, base: nat, k: nat, id: string)
    requires RowsCoupled(r) && RowsCoupled(r') && Complete(r) && Complete(r') && TwinTx(r.tx, r'.tx, base, k)
    ensures SameLookup(TxById(r, id), TxById(r', id))
  {
    hide RowsCoupled, Complete, SpentBy, TwinTx, TxById, SpendOf, Shift;
    NotFound(r, id, Outpoint("", 0));
    NotFound(r', id, Outpoint("", 0));
    if id in r.txById {
      FoundById(r, id);
      TwinOf(r.tx, r'.tx, base, k, r.txById[id]);
      LookupAt(r, r.txById[id]);
      LookupAt(r', Shift(r.txById[id], base, k));
    } else if id in r'.txById {
      FoundById(r', id);
      var n := TwinBack(r.tx, r'.tx, base, k, r'.txById[id]);
      LookupAt(r, n);
    }
  }

  lemma TwinBySpend(r: Rows, r': Rows, base: nat, k: nat, o: Outpoint)
    requires RowsCoupled(r) && RowsCoupled(r') && Complete(r) && Complete(r') && TwinTx(r.tx, r'.tx, base, k)
    ensures SameLookup(SpendOf(r, o), SpendOf(r', o))
  {
    hide RowsCoupled, Complete, SpentBy, TwinTx, TxById, SpendOf, Shift;
    NotFound(r, "", o);
    NotFound(r', "", o);
    if o in r.spends {
      FoundBySpend(r, o);
      TwinOf(r.tx, r'.tx, base, k, r.spends[o]);
      LookupAt(r, r.spends[o]);
      LookupAt(r', Shift(r.spends[o], base, k));
    } else if o in r'.spends {
      FoundBySpend(r', o);
      var n := TwinBack(r.tx, r'.tx, base, k, r'.spends[o]);
      LookupAt(r, n);
    }
  }

  // --- applying the same transactions on both sides ---

  lemma FundingByLookup(i: TxIn, r: Rows)
    ensures var t := TxById(r, i.prevId);
      FundingOutput(i, r.txById, r.tx) ==
        if t.Some? && i.prevIndex < |t.value.raw.outputs| then Some(t.value.raw.outputs[i.prevIndex]) else None
  {
  }

  lemma {:induction false} TwinFunding(ins: seq<TxIn>, r: Rows, r': Rows, base: nat, k: nat)
    requires RowsCoupled(r) && RowsCoupled(r') && Complete(r) && Complete(r') && TwinTx(r.tx, r'.tx, base, k)
    ensures Funding(ins, r.txById, r.tx) == Funding(ins, r'.txById, r'.tx)
    decreases |ins|
  {
    hide RowsCoupled, Complete, TwinTx, TxById, FundingOutput;
    if ins != [] {
      var last := ins[|ins| - 1];
      TwinFunding(ins[..|ins| - 1], r, r', base, k);
      TwinById(r, r', base, k, last.prevId);
      FundingByLookup(last, r);
      FundingByLookup(last, r');
    }
  }

  lemma TwinIndexed(
    r: Rows, r': Rows, base: nat, k: nat, num: nat, raw: RawTx, hash: string, daa: nat, attr: Attribute)
    requires RowsCoupled(r) && RowsCoupled(r') && Complete(r) && Complete(r') && TwinTx(r.tx, r'.tx, base, k)
    ensures SameTx(Indexed(r, num, raw, hash, daa, attr), Indexed(r', num + k, raw, hash, daa, attr))
  {
    hide RowsCoupled, Complete, TwinTx, Funding, LedgerOf;
    TwinFunding(raw.inputs, r, r', base, k);
  }

  /** One side of the induction: a coupled, complete store about to receive legal transactions. */
  ghost predicate Ready(r: Rows, log: Log, num: nat, txs: seq<RawTx>) {
    RowsInv(r, log, num) && Complete(r) && Legal(r.tx, txs)
  }

  lemma ReadyPrefix(r: Rows, log: Log, num: nat, txs: seq<RawTx>, hash: string, daa: nat, attr: Attribute)
    requires Ready(r, log, num, txs) && txs != []
    ensures Ready(r, log, num, txs[..|txs| - 1])
    ensures var mid := InsertTxs(r, num, txs[..|txs| - 1], hash, daa, attr); RowsCoupled(mid) && Complete(mid)
  {
    hide RowsCoupled, Counted, Complete, Legal, Appended, InsertTxs, Since;
    var pre := txs[..|txs| - 1];
    LiveBelow(r, log, num);
    InsertTxsAppends(r, num, pre, hash, daa, attr);
    LegalNext(r.tx, InsertTxs(r, num, pre, hash, daa, attr).tx, num, txs);
    InsertTxsKeeps(r, num, pre, hash, daa, attr, log);
    InsertTxsComplete(r, num, pre, hash, daa, attr);
  }

  lemma {:induction false} TwinInsert(
    r: Rows, r': Rows, log: Log, log': Log, base: nat, k: nat, num: nat,
    txs: seq<RawTx>, hash: string, daa: nat, attr: Attribute)
    requires Ready(r, log, num, txs) && Ready(r', log', num + k, txs) && Twins(r, r', base, k) && base <= num
    ensures Twins(InsertTxs(r, num, txs, hash, daa, attr), InsertTxs(r', num + k, txs, hash, daa, attr), base, k)
    decreases |txs|
  {
    hide *;
    if txs == [] {
      InsertTxsNone(r, num, hash, daa, attr);
      InsertTxsNone(r', num + k, hash, daa, attr);
    } else {
      TwinInsertLast(r, r', log, log', base, k, num, txs, hash, daa, attr);
    }
  }

  lemma {:induction false} TwinInsertLast(
    r: Rows, r': Rows, log: Log, log': Log, base: nat, k: nat, num: nat,
    txs: seq<RawTx>, hash: string, daa: nat, attr: Attribute)
    requires Ready(r, log, num, txs) && Ready(r', log', num + k, txs) && Twins(r, r', base, k) && base <= num
    requires txs != []
    ensures Twins(InsertTxs(r, num, txs, hash, daa, attr), InsertTxs(r', num + k, txs, hash, daa, attr), base, k)
    decreases |txs|, 0
  {
    hide *;
    var j := |txs| - 1;
    var mid, mid' := InsertTxs(r, num, txs[..j], hash, daa, attr), InsertTxs(r', num + k, txs[..j], hash, daa, attr);
    ReadyPrefix(r, log, num, txs, hash, daa, attr);
    ReadyPrefix(r', log', num + k, txs, hash, daa, attr);
    TwinInsert(r, r', log, log', base, k, num, txs[..j], hash, daa, attr);
    InsertTxsSnoc(r, num, txs, hash, daa, attr);
    InsertTxsSnoc(r', num + k, txs, hash, daa, attr);
    TwinsTx(mid, mid', base, k);
    TwinIndexed(mid, mid', base, k, num + j, txs[j], hash, daa, attr);
    assert num + j + k == num + k + j;
    TwinsStore(mid, mid', base, k, Indexed(mid, num + j, txs[j], hash, daa, attr),
               Indexed(mid', num + k + j, txs[j], hash, daa, attr));
  }

  lemma TwinsTx(r: Rows, r': Rows, base: nat, k: nat)
    requires Twins(r, r', base, k)
    ensures TwinTx(r.tx, r'.tx, base, k)
  {
    hide TwinTx;
  }

  // --- applying the same branch on both sides ---

  ghost predicate TwinDb(d: Database, d': Database, base: nat, k: nat) {
    && Twins(d.core.rows, d'.core.rows, base, k)
    && base <= d.nextTxNum && d'.nextTxNum == d.nextTxNum + k
    && d.core.blocks.applied == d'.core.blocks.applied
    && d.core.blocks.chainByDaa == d'.core.blocks.chainByDaa
  }

  lemma TwinApplyGroup(d: Database, d': Database, log: Log, log': Log, base: nat, k: nat, g: Group, cx: Codec)
    requires TwinDb(d, d', base, k) && Sound(d, log) && Sound(d', log') && g.hash !in d.core.blocks.applied
    requires Legal(d.core.rows.tx, g.txs) && Legal(d'.core.rows.tx, g.txs)
    ensures TwinDb(ApplyGroup(d, g, cx), ApplyGroup(d', g, cx), base, k)
    ensures ApplyGroup(d, g, cx).checkpoint == ApplyGroup(d', g, cx).checkpoint
  {
    hide RowsInv, BlocksCoupled, Complete, Legal, Twins, InsertTxs, IndexTxs, Numbers;
    TwinInsert(d.core.rows, d'.core.rows, log, log', base, k, d.nextTxNum, g.txs, g.hash, g.daa, cx.attr);
  }

  lemma {:induction false} TwinApply(
    d: Database, d': Database, log: Log, log': Log, base: nat, k: nat, gs: seq<Group>, cx: Codec)
    requires TwinDb(d, d', base, k) && Sound(d, log) && Sound(d', log') && Branch(d, gs) && Branch(d', gs)
    ensures TwinDb(Apply(d, gs, cx), Apply(d', gs, cx), base, k)
    ensures gs != [] ==> Apply(d, gs, cx).checkpoint == Apply(d', gs, cx).checkpoint
    decreases |gs|
  {
    hide *;
    if gs == [] {
      ApplyNone(d, cx);
      ApplyNone(d', cx);
    } else {
      var j := |gs| - 1;
      var mid, mid' := Apply(d, gs[..j], cx), Apply(d', gs[..j], cx);
      BranchPrefix(d, gs);
      BranchPrefix(d', gs);
      TwinApply(d, d', log, log', base, k, gs[..j], cx);
      ApplyBranch(d, gs[..j], cx, log);
      ApplyBranch(d', gs[..j], cx, log');
      BranchNext(d, mid, gs);
      BranchNext(d', mid', gs);
      TwinApplyGroup(mid, mid', LogAfter(log, d, mid), LogAfter(log', d', mid'), base, k, gs[j], cx);
      ApplySnoc(d, gs, cx);
      ApplySnoc(d', gs, cx);
    }
  }

  // --- history pages ---

  lemma HistoryNumsExact(r: Rows, a: string, n: nat)
    requires HistoryExact(r)
    ensures n in HistoryNums(r, a) <==> n in r.tx && a in r.tx[n].ledger
  {
    hide RowOf;
    if n in r.tx && a in r.tx[n].ledger {
      assert (a, n) in r.history;
    }
  }

  function Shifted(nums: seq<nat>, base: nat, k: nat): seq<nat> {
    seq(|nums|, i requires 0 <= i < |nums| => Shift(nums[i], base, k))
  }

  lemma ShiftedIncreasing(nums: seq<nat>, base: nat, k: nat)
    requires Increasing(nums)
    ensures Increasing(Shifted(nums, base, k))
  {
  }

  lemma TwinNums(r: Rows, r': Rows, base: nat, k: nat, a: string, n: nat)
    requires HistoryExact(r) && HistoryExact(r') && TwinTx(r.tx, r'.tx, base, k) && n in HistoryNums(r, a)
    ensures Shift(n, base, k) in HistoryNums(r', a)
  {
    hide HistoryNums, HistoryExact, TwinTx, SameTx, Shift;
    HistoryNumsExact(r, a, n);
    TwinOf(r.tx, r'.tx, base, k, n);
    TwinLedger(r.tx[n], r'.tx[Shift(n, base, k)]);
    HistoryNumsExact(r', a, Shift(n, base, k));
  }

  lemma TwinNumsBack(r: Rows, r': Rows, base: nat, k: nat, a: string, m: nat) returns (n: nat)
    requires HistoryExact(r) && HistoryExact(r') && TwinTx(r.tx, r'.tx, base, k) && m in HistoryNums(r', a)
    ensures n in HistoryNums(r, a) && Shift(n, base, k) == m
  {
    hide HistoryNums, HistoryExact, TwinTx, SameTx, Shift;
    HistoryNumsExact(r', a, m);
    n := TwinBack(r.tx, r'.tx, base, k, m);
    TwinLedger(r.tx[n], r'.tx[m]);
    HistoryNumsExact(r, a, n);
  }

  lemma ShiftedMember(xs: seq<nat>, n: nat, base: nat, k: nat)
    requires n in Members(xs)
    ensures Shift(n, base, k) in Members(Shifted(xs, base, k))
  {
    hide Shift;
    var i :| 0 <= i < |xs| && xs[i] == n;
    assert Shifted(xs, base, k)[i] == Shift(n, base, k);
  }

  lemma MemberShifted(xs: seq<nat>, m: nat, base: nat, k: nat) returns (n: nat)
    requires m in Members(Shifted(xs, base, k))
    ensures n in Members(xs) && Shift(n, base, k) == m
  {
    hide Shift;
    var i :| 0 <= i < |xs| && Shifted(xs, base, k)[i] == m;
    n := xs[i];
  }

  /** Renaming keeps the scan order, so both sides list the same transactions in the same order. */
  lemma TwinScan(r: Rows, r': Rows, base: nat, k: nat, a: string)
    requires HistoryExact(r) && HistoryExact(r') && TwinTx(r.tx, r'.tx, base, k)
    ensures Ascending(HistoryNums(r', a)) == Shifted(Ascending(HistoryNums(r, a)), base, k)
  {
    hide *;
    var s, s' := HistoryNums(r, a), HistoryNums(r', a);
    var xs := Ascending(s);
    var ys := Shifted(xs, base, k);
    ShiftedIncreasing(xs, base, k);
    forall m ensures m in s' <==> m in Members(ys) {
      if m in s' {
        var n := TwinNumsBack(r, r', base, k, a, m);
        ShiftedMember(xs, n, base, k);
      }
      if m in Members(ys) {
        var n := MemberShifted(xs, m, base, k);
        TwinNums(r, r', base, k, a, n);
      }
    }
    IncreasingIsUnique(Ascending(s'), ys);
  }

  lemma TwinLedger(x: IndexedTx, y: IndexedTx)
    requires SameTx(x, y)
    ensures x.ledger == y.ledger
  {
  }

  lemma HistoryRowIs(r: Rows, a: string, n: nat)
    requires HistoryExact(r) && (a, n) in r.history
    ensures n in r.tx && a in r.tx[n].ledger && r.history[(a, n)] == RowOf(r.tx[n], a)
  {
    hide RowOf;
  }

  lemma TwinRow(r: Rows, r': Rows, base: nat, k: nat, a: string, n: nat)
    requires HistoryExact(r) && HistoryExact(r') && TwinTx(r.tx, r'.tx, base, k)
    requires (a, n) in r.history && (a, Shift(n, base, k)) in r'.history
    ensures r.history[(a, n)] == r'.history[(a, Shift(n, base, k))]
  {
    hide HistoryExact, TwinTx, Shift, Net;
    HistoryRowIs(r, a, n);
    HistoryRowIs(r', a, Shift(n, base, k));
    TwinOf(r.tx, r'.tx, base, k, n);
  }

  /** The same rows, in the same order, for every address. */
  lemma TwinHistory(r: Rows, r': Rows, base: nat, k: nat, a: string)
    requires HistoryExact(r) && HistoryExact(r') && TwinTx(r.tx, r'.tx, base, k)
    ensures HistoryOf(r, a) == HistoryOf(r', a)
  {
    hide HistoryExact, TwinTx, Shift, HistoryNums, Ascending, Members, Increasing;
    var xs, ys := Ascending(HistoryNums(r, a)), Ascending(HistoryNums(r', a));
    HistoryScan(r, a);
    HistoryScan(r', a);
    TwinScan(r, r', base, k, a);
    forall i | 0 <= i < |xs| ensures HistoryOf(r, a)[i] == HistoryOf(r', a)[i] {
      assert ys[i] == Shift(xs[i], base, k);
      TwinRow(r, r', base, k, a, xs[i]);
    }
  }

  // --- the theorem ---

  /** No read endpoint of the ledger but the received amounts tells the two states apart. */
  ghost predicate SameIndexReads(d: Database, d': Database) {
    && d.checkpoint == d'.checkpoint
    && d.core.rows.totalTxs == d'.core.rows.totalTxs
    && d.core.rows.totals.Keys == d'.core.rows.totals.Keys
    && (forall a :: a in d.core.rows.totals ==> d.core.rows.totals[a].count == d'.core.rows.totals[a].count)
    && d.core.blocks.applied == d'.core.blocks.applied
    && (forall id :: SameLookup(TxById(d.core.rows, id), TxById(d'.core.rows, id)))
    && (forall o :: SameLookup(SpendOf(d.core.rows, o), SpendOf(d'.core.rows, o)))
    && (forall a :: HistoryOf(d.core.rows, a) == HistoryOf(d'.core.rows, a))
  }

  /** No read endpoint of the ledger tells the two states apart. */
  ghost predicate SameReads(d: Database, d': Database) {
    SameIndexReads(d, d') && d.core.rows.totals == d'.core.rows.totals
  }

  lemma TwinReads(d: Database, d': Database, log: Log, log': Log, base: nat, k: nat)
    requires TwinDb(d, d', base, k) && Sound(d, log) && Sound(d', log') && d.checkpoint == d'.checkpoint
    ensures SameReads(d, d')
  {
    hide TwinTx, Complete, HistoryExact, IdsSound, SpendsSound, Counted, BlocksCoupled, TxById, SpendOf, HistoryOf,
      SameLookup;
    var r, r' := d.core.rows, d'.core.rows;
    forall id ensures SameLookup(TxById(r, id), TxById(r', id)) { TwinById(r, r', base, k, id); }
    forall o ensures SameLookup(SpendOf(r, o), SpendOf(r', o)) { TwinBySpend(r, r', base, k, o); }
    forall a ensures HistoryOf(r, a) == HistoryOf(r', a) { TwinHistory(r, r', base, k, a); }
  }

  lemma SoundLater(d: Database, d': Database, log: Log)
    requires Sound(d, log) && d'.core == d.core && d.nextTxNum <= d'.nextTxNum
    ensures Sound(d', log)
  {
    hide BlocksCoupled, Complete, RowsCoupled;
    forall a ensures CountedAt(d.core.rows.totals, a, TallyOf(log, a, d'.nextTxNum)) {
      TallyBeyond(log, a, d.nextTxNum, d'.nextTxNum);
      assert CountedAt(d.core.rows.totals, a, TallyOf(log, a, d.nextTxNum));
    }
  }

  lemma BranchSameCore(d: Database, d': Database, gs: seq<Group>)
    requires Branch(d, gs) && d'.core == d.core
    ensures Branch(d', gs)
  {
    hide Legal;
  }

  lemma TwinDbAtStart(d: Database, d': Database)
    requires d'.core == d.core && d.nextTxNum <= d'.nextTxNum
    requires forall n :: n in d.core.rows.tx ==> n < d.nextTxNum
    ensures TwinDb(d, d', d.nextTxNum, d'.nextTxNum - d.nextTxNum)
  {
    hide Twins;
    TwinsAtStart(d.core.rows, d.nextTxNum, d'.nextTxNum - d.nextTxNum);
  }

  /** A `VirtualChainChanged` that removes `gone` and adds `added`. */
  function Reorganise(d: Database, gone: seq<Group>, added: seq<Group>, cx: Codec): Database {
    Apply(d.(core := UnwindAll(d.core, HighToLow(gone))), added, cx)
  }

  /** The state a reorg applies the new branch to, but with the fork point's own totals. */
  function ForkAgain(d: Database, gone: seq<Group>, cx: Codec): Database {
    d.(nextTxNum := Apply(d, gone, cx).nextTxNum, checkpoint := Apply(d, gone, cx).checkpoint,
      ai := Apply(d, gone, cx).ai)
  }

  lemma ForkAgainIs(d: Database, gone: seq<Group>, cx: Codec)
    ensures var d1, fork := Apply(d, gone, cx), ForkAgain(d, gone, cx);
      && fork.core == d.core && fork.nextTxNum == d1.nextTxNum
      && forall t :: DbWith(fork, t) == d1.(core := CoreWith(d.core, t))
  {
    hide Apply;
  }

  /** The new branch on the fork point and on a copy whose counter has moved on. */
  lemma ForkTwins(d: Database, fork: Database, added: seq<Group>, cx: Codec, log: Log)
    requires Sound(d, log) && fork.core == d.core && d.nextTxNum <= fork.nextTxNum && Branch(d, added) && added != []
    ensures var x, y := Apply(d, added, cx), Apply(fork, added, cx);
      && TwinDb(x, y, d.nextTxNum, fork.nextTxNum - d.nextTxNum) && x.checkpoint == y.checkpoint
      && Sound(x, LogAfter(log, d, x)) && Sound(y, LogAfter(log, fork, y)) && Inv(fork, log)
  {
    hide *;
    SoundLater(d, fork, log);
    BranchSameCore(d, fork, added);
    UnfoldSoundInv(d, log);
    UnfoldSoundInv(fork, log);
    SoundBelow(d, log);
    TwinDbAtStart(d, fork);
    TwinApply(d, fork, log, log, d.nextTxNum, fork.nextTxNum - d.nextTxNum, added, cx);
    ApplyBranch(d, added, cx, log);
    ApplyBranch(fork, added, cx, log);
  }

  /** From the fork point's own totals, the new branch reads as if it were the only one. */
  lemma ForkReads(d: Database, gone: seq<Group>, added: seq<Group>, cx: Codec, log: Log)
    requires Sound(d, log) && Branch(d, gone) && Branch(d, added) && added != []
    ensures var fork := ForkAgain(d, gone, cx);
      SameReads(Apply(fork, added, cx), Apply(d, added, cx)) && Inv(fork, log) && Sound(d, log)
  {
    hide *;
    var d1, fork := Apply(d, gone, cx), ForkAgain(d, gone, cx);
    ForkAgainIs(d, gone, cx);
    ApplyBranch(d, gone, cx, log);
    ExtendsCounter(d, d1);
    ForkTwins(d, fork, added, cx, log);
    var x, y := Apply(d, added, cx), Apply(fork, added, cx);
    TwinReads(x, y, LogAfter(log, d, x), LogAfter(log, fork, y), d.nextTxNum, fork.nextTxNum - d.nextTxNum);
    SameReadsSymmetric(x, y);
  }

  /** Only the totals can differ from the fork's own. */
  lemma ReorganisedWith(d: Database, gone: seq<Group>, added: seq<Group>, cx: Codec, log: Log)
    requires Sound(d, log) && Branch(d, gone) && Inv(ForkAgain(d, gone, cx), log)
    ensures var fork := ForkAgain(d, gone, cx);
      var y := Apply(fork, added, cx);
      && fork.nextTxNum <= y.nextTxNum
      && Reorganise(Apply(d, gone, cx), gone, added, cx) ==
           DbWith(y, CreditAll(RolledBack(d, gone, cx), NewLedgers(fork, y)))
      && y.core.rows.totals == CreditAll(d.core.rows.totals, NewLedgers(fork, y))
  {
    hide *;
    var d1, fork := Apply(d, gone, cx), ForkAgain(d, gone, cx);
    ReorganiseIs(d1, gone, added, cx);
    ForkAgainIs(d, gone, cx);
    RolledBackIs(d, gone, cx, log);
    ApplyWith(fork, added, cx, log, RolledBack(d, gone, cx));
    ApplyCredits(fork, added, cx, log);
  }

  lemma ReadsWith(y: Database, x: Database, totals: map<string, Totals>)
    requires SameReads(y, x) && totals.Keys == y.core.rows.totals.Keys
    requires forall a :: a in totals ==> totals[a].count == y.core.rows.totals[a].count
    ensures SameIndexReads(DbWith(y, totals), x)
    ensures SameReads(DbWith(y, totals), x) <==> totals == y.core.rows.totals
  {
    hide SameLookup;
    var z := DbWith(y, totals);
    forall id ensures TxById(z.core.rows, id) == TxById(y.core.rows, id) {
    }
    forall o ensures SpendOf(z.core.rows, o) == SpendOf(y.core.rows, o) {
    }
    forall a ensures HistoryOf(z.core.rows, a) == HistoryOf(y.core.rows, a) {
      SameHistoryOf(y.core.rows, totals, a);
    }
    hide TxById, SpendOf, HistoryOf;
  }

  lemma SameHistoryOf(r: Rows, totals: map<string, Totals>, a: string)
    ensures HistoryOf(RowsWith(r, totals), a) == HistoryOf(r, a)
  {
    assert HistoryNums(RowsWith(r, totals), a) == HistoryNums(r, a);
  }

  lemma {:induction false} CreditAllCounts(x: map<string, Totals>, y: map<string, Totals>, ls: seq<Ledger>)
    requires x.Keys == y.Keys && forall a :: a in x ==> x[a].count == y[a].count
    ensures var x', y' := CreditAll(x, ls), CreditAll(y, ls);
      x'.Keys == y'.Keys && forall a :: a in x' ==> x'[a].count == y'[a].count
    decreases |ls|
  {
    if ls != [] {
      CreditedCountsAlike(x, y, ls[0]);
      hide Credited;
      CreditAllCounts(Credited(x, ls[0]), Credited(y, ls[0]), ls[1..]);
    }
  }

  lemma CreditedCountsAlike(x: map<string, Totals>, y: map<string, Totals>, l: Ledger)
    requires x.Keys == y.Keys && forall a :: a in x ==> x[a].count == y[a].count
    ensures var x', y' := Credited(x, l), Credited(y, l);
      x'.Keys == y'.Keys && forall a :: a in x' ==> x'[a].count == y'[a].count
  {
    hide Add64;
  }

  /** Following `gone` and then being reorganised to `added`, from any fork point, expired rows
      and all. Every read but the received amounts is as if `added` alone had been followed;
      the received amounts are too if and only if every address survives `gone`. */
  lemma ReorgConfluence(d: Database, gone: seq<Group>, added: seq<Group>, cx: Codec, log: Log)
    requires Sound(d, log) && Branch(d, gone) && Branch(d, added) && added != []
    ensures var z, x := Reorganise(Apply(d, gone, cx), gone, added, cx), Apply(d, added, cx);
      SameIndexReads(z, x) && (SameReads(z, x) <==> forall a :: Survives(d, gone, a, cx.attr))
  {
    hide *;
    var fork, x, back := ForkAgain(d, gone, cx), Apply(d, added, cx), RolledBack(d, gone, cx);
    var y := Apply(fork, added, cx);
    ForkReads(d, gone, added, cx, log);
    ReorganisedWith(d, gone, added, cx, log);
    UnwindBranch(d, gone, cx, log);
    SameCoreIff(d.core, back, d.core.rows.totals);
    EmptiedCounts(d.core.rows.totals, back);
    CreditAllCounts(back, d.core.rows.totals, NewLedgers(fork, y));
    CreditAllInjective(back, d.core.rows.totals, NewLedgers(fork, y));
    ReadsWith(y, x, CreditAll(back, NewLedgers(fork, y)));
  }

  lemma EmptiedCounts(totals: map<string, Totals>, back: map<string, Totals>)
    requires back.Keys == totals.Keys && forall a :: a in totals ==>
      back[a] == totals[a] || back[a] == Emptied(totals[a])
    ensures forall a :: a in back ==> back[a].count == totals[a].count
  {
  }

  lemma ReorganiseIs(d: Database, gone: seq<Group>, added: seq<Group>, cx: Codec)
    ensures Reorganise(d, gone, added, cx) == Apply(d.(core := UnwindAll(d.core, HighToLow(gone))), added, cx)
  {
    hide Apply, UnwindAll;
  }

  lemma ExtendsCounter(d: Database, d': Database)
    requires Extends(d, d')
    ensures d.nextTxNum <= d'.nextTxNum
  {
  }

  lemma SameReadsSymmetric(d: Database, d': Database)
    requires SameReads(d, d')
    ensures SameReads(d', d)
  {
    hide TxById, SpendOf, HistoryOf;
    forall id ensures SameLookup(TxById(d'.core.rows, id), TxById(d.core.rows, id)) {
      assert SameLookup(TxById(d.core.rows, id), TxById(d'.core.rows, id));
    }
    forall o ensures SameLookup(SpendOf(d'.core.rows, o), SpendOf(d.core.rows, o)) {
      assert SameLookup(SpendOf(d.core.rows, o), SpendOf(d'.core.rows, o));
    }
  }
}
