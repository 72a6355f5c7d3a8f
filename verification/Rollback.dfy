/** What unwinding does to the totals. Crediting wraps at 2^64 and rolling back
    saturates at zero, so a round trip gives every address its count back and its
    received amount exactly when the sum fitted on the way up, zero otherwise. */
module Rollback {
  import opened Types
  import opened Attribution
  import opened Tables
  import opened Coupling

  // --- ledgers in a row ---

  /** Credit `ls` in order. */
  function CreditAll(totals: map<string, Totals>, ls: seq<Ledger>): map<string, Totals>
    decreases |ls|
  {
    if ls == [] then totals else CreditAll(Credited(totals, ls[0]), ls[1..])
  }

  /** Roll `ls` back, last one first. */
  function UncreditAll(totals: map<string, Totals>, ls: seq<Ledger>): map<string, Totals> {
    if ls == [] then totals else Uncredited(UncreditAll(totals, ls[1..]), ls[0])
  }

  function CreditIn(l: Ledger, a: string): nat {
    if a in l then l[a].credit else 0
  }

  function CreditsTo(ls: seq<Ledger>, a: string): nat {
    if ls == [] then 0 else CreditIn(ls[0], a) + CreditsTo(ls[1..], a)
  }

  /** Every row counts at least one transaction. */
  ghost predicate Counting(totals: map<string, Totals>) {
    forall a :: a in totals ==> totals[a].count > 0
  }

  lemma {:induction false} CreditAllSnoc(totals: map<string, Totals>, ls: seq<Ledger>, l: Ledger)
    ensures CreditAll(totals, ls + [l]) == Credited(CreditAll(totals, ls), l)
    decreases |ls|
  {
    hide Credited;
    if ls == [] {
      assert ls + [l] == [l] && [l][1..] == [];
    } else {
      CreditAllSnoc(Credited(totals, ls[0]), ls[1..], l);
      assert (ls + [l])[1..] == ls[1..] + [l];
    }
  }

  lemma {:induction false} UncreditAllSnoc(totals: map<string, Totals>, ls: seq<Ledger>, l: Ledger)
    ensures UncreditAll(totals, ls + [l]) == UncreditAll(Uncredited(totals, l), ls)
    decreases |ls|
  {
    hide Uncredited;
    if ls == [] {
      assert ls + [l] == [l] && [l][1..] == [];
    } else {
      UncreditAllSnoc(totals, ls[1..], l);
      assert (ls + [l])[1..] == ls[1..] + [l];
    }
  }

  lemma {:induction false} UncreditAllConcat(totals: map<string, Totals>, xs: seq<Ledger>, ys: seq<Ledger>)
    ensures UncreditAll(totals, xs + ys) == UncreditAll(UncreditAll(totals, ys), xs)
    decreases |xs|
  {
    hide Uncredited;
    if xs == [] {
      assert xs + ys == ys;
    } else {
      UncreditAllConcat(totals, xs[1..], ys);
      assert (xs + ys)[1..] == xs[1..] + ys;
    }
  }

  // --- the round trip ---

  /** Nothing received, the transactions still counted. */
  function Emptied(t: Totals): Totals {
    Totals(0, t.count)
  }

  /** What an address holds after its credits went up and came down again. */
  function Recovered(t: Totals, credits: nat): Totals {
    if t.received + credits < TWO64 then t else Emptied(t)
  }

  lemma CreditedParts(totals: map<string, Totals>, l: Ledger, a: string)
    ensures a in Credited(totals, l) <==> a in totals || a in l
    ensures var t := TotalsAt(totals, a);
      TotalsAt(Credited(totals, l), a) ==
        if a in l then Totals(Add64(t.received, l[a].credit), t.count + 1) else t
  {
    hide Add64;
  }

  lemma UncreditedParts(totals: map<string, Totals>, l: Ledger, a: string)
    requires a in totals ==> totals[a].count > 0
    ensures var t, t' := TotalsAt(totals, a), TotalsAt(Uncredited(totals, l), a);
      && (a !in l ==> t' == t && (a in Uncredited(totals, l) <==> a in totals))
      && (a in l && a in totals ==>
        t' == Debited(t, l[a].credit) && (a in Uncredited(totals, l) <==> t' != Totals(0, 0)))
  {
    hide Debited;
    if a in l && a in totals {
      assert Debited(totals[a], l[a].credit) == Totals(0, 0) ==> TotalsAt(Uncredited(totals, l), a) == Totals(0, 0);
    }
  }

  /** One level of the round trip, in numbers. */
  lemma RecoverStep(t: Totals, c: U64, rest: nat)
    ensures var up := Totals(Add64(t.received, c), t.count + 1);
      Debited(Recovered(up, rest), c) == Recovered(t, c + rest)
  {
    if t.received + c >= TWO64 {
      assert Add64(t.received, c) == t.received + c - TWO64;
    }
  }

  /** Each address gets its count back, its row if it had one, and its received amount if and
      only if that was zero or the sum fitted. */
  lemma {:induction false} RoundTripAt(totals: map<string, Totals>, ls: seq<Ledger>, a: string)
    requires a in totals ==> totals[a].count > 0
    ensures var back := UncreditAll(CreditAll(totals, ls), ls);
      && (a in back <==> a in totals)
      && TotalsAt(back, a) == Recovered(TotalsAt(totals, a), CreditsTo(ls, a))
    decreases |ls|
  {
    if ls != [] {
      var l, rest := ls[0], ls[1..];
      var up := Credited(totals, l);
      var mid := UncreditAll(CreditAll(up, rest), rest);
      hide Credited, Uncredited, Debited, Add64, Recovered;
      CreditedParts(totals, l, a);
      UpCounts(totals, up, l, a);
      RoundTripAt(up, rest, a);
      RecoveredCount(TotalsAt(up, a), CreditsTo(rest, a));
      UncreditedParts(mid, l, a);
      if a in l {
        RecoverStep(TotalsAt(totals, a), l[a].credit, CreditsTo(rest, a));
      }
      RecoveredCount(TotalsAt(totals, a), CreditsTo(ls, a));
    } else {
      FitsAlone(TotalsAt(totals, a));
    }
  }

  lemma FitsAlone(t: Totals)
    ensures Recovered(t, 0) == t
  {
  }

  lemma UpCounts(totals: map<string, Totals>, up: map<string, Totals>, l: Ledger, a: string)
    requires (a in up <==> a in totals || a in l) && (a in totals ==> totals[a].count > 0)
    requires var t := TotalsAt(totals, a);
      TotalsAt(up, a) == if a in l then Totals(Add64(t.received, l[a].credit), t.count + 1) else t
    ensures a in up ==> up[a].count > 0
  {
    hide Add64;
  }

  lemma RecoveredCount(t: Totals, credits: nat)
    ensures Recovered(t, credits).count == t.count
    ensures t == Totals(0, 0) ==> Recovered(t, credits) == t
  {
  }

  // --- crediting on top of a different table ---

  lemma AddInjective(x: U64, y: U64, c: U64)
    requires Add64(x, c) == Add64(y, c)
    ensures x == y
  {
  }

  lemma CreditedInjective(x: map<string, Totals>, y: map<string, Totals>, l: Ledger)
    requires x.Keys == y.Keys && Credited(x, l) == Credited(y, l)
    ensures x == y
  {
    forall a | a in x ensures x[a] == y[a] {
      hide Credited, Add64;
      CreditedParts(x, l, a);
      CreditedParts(y, l, a);
      if a in l {
        AddInjective(x[a].received, y[a].received, l[a].credit);
      }
    }
  }

  lemma {:induction false} CreditAllInjective(x: map<string, Totals>, y: map<string, Totals>, ls: seq<Ledger>)
    requires x.Keys == y.Keys
    ensures CreditAll(x, ls) == CreditAll(y, ls) <==> x == y
    decreases |ls|
  {
    if ls != [] {
      assert Credited(x, ls[0]).Keys == Credited(y, ls[0]).Keys;
      hide Credited;
      CreditAllInjective(Credited(x, ls[0]), Credited(y, ls[0]), ls[1..]);
      if Credited(x, ls[0]) == Credited(y, ls[0]) {
        CreditedInjective(x, y, ls[0]);
      }
    }
  }

  // --- the tables apart from the totals ---

  function RowsWith(r: Rows, totals: map<string, Totals>): Rows {
    r.(totals := totals)
  }

  function CoreWith(c: Core, totals: map<string, Totals>): Core {
    c.(rows := RowsWith(c.rows, totals))
  }

  function DbWith(d: Database, totals: map<string, Totals>): Database {
    d.(core := CoreWith(d.core, totals))
  }

  function LedgerAt(tx: map<nat, IndexedTx>, n: nat): Ledger {
    if n in tx then tx[n].ledger else map[]
  }

  /** The ledgers of the transactions numbered `num` to `num + k`. */
  function Ledgers(tx: map<nat, IndexedTx>, num: nat, k: nat): seq<Ledger> {
    seq(k, i requires 0 <= i < k => LedgerAt(tx, num + i))
  }

  lemma LedgersSnoc(tx: map<nat, IndexedTx>, num: nat, k: nat)
    ensures Ledgers(tx, num, k + 1) == Ledgers(tx, num, k) + [LedgerAt(tx, num + k)]
  {
  }

  lemma LedgersConcat(tx: map<nat, IndexedTx>, num: nat, j: nat, k: nat)
    ensures Ledgers(tx, num, j + k) == Ledgers(tx, num, j) + Ledgers(tx, num + j, k)
  {
  }

  lemma LedgersFrame(tx: map<nat, IndexedTx>, tx': map<nat, IndexedTx>, num: nat, k: nat)
    requires forall n :: num <= n < num + k ==> LedgerAt(tx, n) == LedgerAt(tx', n)
    ensures Ledgers(tx, num, k) == Ledgers(tx', num, k)
  {
  }

  // --- removing ---

  lemma RemoveTxWith(r: Rows, totals: map<string, Totals>, num: nat)
    requires num in r.tx
    ensures RemoveTx(RowsWith(r, totals), num) ==
      RowsWith(RemoveTx(r, num), Uncredited(totals, r.tx[num].ledger))
    ensures RemoveTx(r, num).tx == r.tx - {num}
  {
    hide Uncredited, HistoryKeys;
  }

  /** Unwinding consecutive numbers touches the totals by rolling their ledgers back, and the
      rest of the rows without looking at the totals. */
  lemma {:induction false} RemoveTxsWith(r: Rows, totals: map<string, Totals>, num: nat, k: nat)
    requires forall n :: num <= n < num + k ==> n in r.tx
    ensures RemoveTxs(RowsWith(r, totals), Numbers(num, k)) ==
      RowsWith(RemoveTxs(r, Numbers(num, k)), UncreditAll(totals, Ledgers(r.tx, num, k)))
    decreases k, 0
  {
    if k == 0 {
      assert Numbers(num, k) == [] && Ledgers(r.tx, num, k) == [];
      hide RemoveTx;
    } else {
      RemoveTxsWithLast(r, totals, num, k - 1);
    }
  }

  lemma {:induction false} RemoveTxsWithLast(r: Rows, totals: map<string, Totals>, num: nat, k: nat)
    requires forall n :: num <= n <= num + k ==> n in r.tx
    ensures RemoveTxs(RowsWith(r, totals), Numbers(num, k + 1)) ==
      RowsWith(RemoveTxs(r, Numbers(num, k + 1)), UncreditAll(totals, Ledgers(r.tx, num, k + 1)))
    decreases k, 1
  {
    hide *;
    var last := num + k;
    var r1 := RemoveTx(r, last);
    NumbersSnoc(num, k);
    LedgersSnoc(r.tx, num, k);
    StoredLedger(r.tx, last);
    RemoveTxWith(r, totals, last);
    UncreditAllSnoc(totals, Ledgers(r.tx, num, k), r.tx[last].ledger);
    LedgersBefore(r.tx, num, k);
    RemoveTxsWith(r1, Uncredited(totals, r.tx[last].ledger), num, k);
    RemoveTxsLast(r, Numbers(num, k), last);
    RemoveTxsLast(RowsWith(r, totals), Numbers(num, k), last);
  }

  lemma StoredLedger(tx: map<nat, IndexedTx>, n: nat)
    requires n in tx
    ensures LedgerAt(tx, n) == tx[n].ledger
  {
  }

  lemma LedgersBefore(tx: map<nat, IndexedTx>, num: nat, k: nat)
    ensures Ledgers(tx - {num + k}, num, k) == Ledgers(tx, num, k)
  {
    LedgersFrame(tx - {num + k}, tx, num, k);
  }

  lemma NumbersSnoc(num: nat, k: nat)
    ensures Numbers(num, k + 1) == Numbers(num, k) + [num + k]
  {
  }

  lemma RemoveTxsLast(r: Rows, nums: seq<nat>, n: nat)
    ensures RemoveTxs(r, nums + [n]) == RemoveTxs(RemoveTx(r, n), nums)
  {
    hide RemoveTx;
    assert (nums + [n])[..|nums|] == nums;
  }

  lemma UnwindBlockWith(c: Core, totals: map<string, Totals>, h: string, num: nat, k: nat)
    requires h in c.blocks.acceptedBy && c.blocks.acceptedBy[h] == Numbers(num, k)
    requires forall n :: num <= n < num + k ==> n in c.rows.tx
    ensures UnwindBlock(CoreWith(c, totals), h) ==
      CoreWith(UnwindBlock(c, h), UncreditAll(totals, Ledgers(c.rows.tx, num, k)))
  {
    hide RemoveTxs, ForgetBlock, UncreditAll, Ledgers, Numbers;
    RemoveTxsWith(c.rows, totals, num, k);
  }

  // --- applying ---

  lemma StoreTxWith(r: Rows, totals: map<string, Totals>, num: nat, raw: RawTx, hash: string, daa: nat, attr: Attribute)
    ensures InsertTx(RowsWith(r, totals), num, raw, hash, daa, attr) ==
      RowsWith(InsertTx(r, num, raw, hash, daa, attr), Credited(totals, Indexed(r, num, raw, hash, daa, attr).ledger))
  {
    hide LedgerOf, HistoryRows, SpendRows, Credited, FundingOf;
  }

  /** Applying touches the totals by crediting the ledgers it stored, and stores the same rows
      whatever the totals are. */
  lemma {:induction false} InsertTxsWith(
    r: Rows, totals: map<string, Totals>, num: nat, txs: seq<RawTx>, hash: string, daa: nat, attr: Attribute)
    ensures var r' := InsertTxs(r, num, txs, hash, daa, attr);
      InsertTxs(RowsWith(r, totals), num, txs, hash, daa, attr) ==
        RowsWith(r', CreditAll(totals, Ledgers(r'.tx, num, |txs|)))
    decreases |txs|
  {
    if txs == [] {
      InsertTxsNone(r, num, hash, daa, attr);
      InsertTxsNone(RowsWith(r, totals), num, hash, daa, attr);
      assert Ledgers(r.tx, num, 0) == [];
    } else {
      InsertTxsWithLast(r, totals, num, txs, hash, daa, attr);
    }
  }

  lemma {:induction false} InsertTxsWithLast(
    r: Rows, totals: map<string, Totals>, num: nat, txs: seq<RawTx>, hash: string, daa: nat, attr: Attribute)
    requires txs != []
    ensures var r' := InsertTxs(r, num, txs, hash, daa, attr);
      InsertTxs(RowsWith(r, totals), num, txs, hash, daa, attr) ==
        RowsWith(r', CreditAll(totals, Ledgers(r'.tx, num, |txs|)))
    decreases |txs|, 0
  {
    hide *;
    var k := |txs| - 1;
    var mid := InsertTxs(r, num, txs[..k], hash, daa, attr);
    var itx := Indexed(mid, num + k, txs[k], hash, daa, attr);
    var r' := InsertTxs(r, num, txs, hash, daa, attr);
    var ls := Ledgers(mid.tx, num, k);
    InsertTxsWith(r, totals, num, txs[..k], hash, daa, attr);
    InsertTxsIs(r, num, txs, hash, daa, attr);
    InsertTxsIs(RowsWith(r, totals), num, txs, hash, daa, attr);
    StoreTxWith(mid, CreditAll(totals, ls), num + k, txs[k], hash, daa, attr);
    InsertTxsSnoc(r, num, txs, hash, daa, attr);
    StoredTx(mid, itx);
    StoredLedgers(mid.tx, r'.tx, num, k, itx);
    CreditAllSnoc(totals, ls, itx.ledger);
  }

  lemma InsertTxsIs(r: Rows, num: nat, txs: seq<RawTx>, hash: string, daa: nat, attr: Attribute)
    requires txs != []
    ensures var k := |txs| - 1;
      InsertTxs(r, num, txs, hash, daa, attr) ==
        InsertTx(InsertTxs(r, num, txs[..k], hash, daa, attr), num + k, txs[k], hash, daa, attr)
  {
    hide InsertTx;
  }

  lemma StoredLedgers(tx: map<nat, IndexedTx>, tx': map<nat, IndexedTx>, num: nat, k: nat, itx: IndexedTx)
    requires tx' == tx[itx.num := itx] && itx.num == num + k
    ensures Ledgers(tx', num, k + 1) == Ledgers(tx, num, k) + [itx.ledger]
  {
    LedgersSnoc(tx', num, k);
    LedgersFrame(tx', tx, num, k);
  }
}
