/** The in-memory mempool overlay: a second implementation of the ledger
    arithmetic, which must show for a pending transaction what apply would
    record for it on the same store. */
module Overlay {
  import opened Types
  import opened Attribution
  import opened Tables
  import opened Coupling
  import opened Confluence
  import opened Writers
  import opened Scans
  import opened Amounts

  datatype PendingRow = PendingRow(txId: string, amount: nat, isSpend: bool)

  datatype Snapshot = Snapshot(spends: map<Outpoint, RawTx>, history: map<string, seq<PendingRow>>, count: nat)

  // --- what the overlay should hold ---

  function PendingLedger(raw: RawTx, r: Rows, attr: Attribute): Ledger {
    LedgerOf(raw.outputs, FundingOf(raw, r.txById, r.tx), attr)
  }

  function PendingRowOf(raw: RawTx, e: Entry): PendingRow {
    PendingRow(raw.txId, Abs(Net(e)), Net(e) < 0)
  }

  /** The pending rows of an address, in mempool order. */
  function RowsFor(txs: seq<RawTx>, r: Rows, attr: Attribute, addr: string): seq<PendingRow> {
    if txs == [] then []
    else
      var last := txs[|txs| - 1];
      var l := PendingLedger(last, r, attr);
      RowsFor(txs[..|txs| - 1], r, attr, addr) + if addr in l then [PendingRowOf(last, l[addr])] else []
  }

  /** The last pending transaction spending an outpoint. */
  function Spender(txs: seq<RawTx>, o: Outpoint): Option<RawTx> {
    if txs == [] then None
    else if o in SpentBy(txs[|txs| - 1]) then Some(txs[|txs| - 1])
    else Spender(txs[..|txs| - 1], o)
  }

  /** Each pending row is the history row apply would write for that transaction on the same
      store, whatever number, block and DAA it is accepted under; and apply would write rows
      for exactly the same addresses. */
  lemma PendingRowIsApplied(raw: RawTx, r: Rows, attr: Attribute, num: nat, hash: string, daa: nat, a: string)
    requires num !in r.tx && HistoryExact(r)
    ensures var l, h := PendingLedger(raw, r, attr), InsertTx(r, num, raw, hash, daa, attr).history;
      && (a in l <==> (a, num) in h)
      && (a in l ==> var row := h[(a, num)]; PendingRow(row.txId, row.amount, row.isSpend) == PendingRowOf(raw, l[a]))
  {
    var itx := Indexed(r, num, raw, hash, daa, attr);
    assert itx.num == num && itx.raw == raw && itx.ledger == PendingLedger(raw, r, attr);
    HistoryRowAt(itx, a, num);
    assert (a, num) !in r.history;
    hide Indexed, LedgerOf, HistoryRows, Credited, SpendRows, Net, Abs;
  }

  /** A pending row names its transaction and, exactly when the difference fits 64 signed bits,
      tells what the address would receive less what it would spend. */
  ghost predicate PendingTells(row: PendingRow, raw: RawTx, r: Rows, a: string, attr: Attribute) {
    var credit, debit := PaidTo(raw.outputs, a, attr), DebitOf(raw, r, a, attr);
    row.txId == raw.txId && (TellsNet(row.amount, row.isSpend, credit, debit) <==> FitsI64(credit, debit))
  }

  lemma PendingRowTells(raw: RawTx, r: Rows, attr: Attribute, a: string)
    ensures var l := PendingLedger(raw, r, attr);
      (a in l <==> Touches(raw, r, a, attr)) && (a in l ==> PendingTells(PendingRowOf(raw, l[a]), raw, r, a, attr))
  {
    hide LedgerOf, Touches, DebitOf, PaidTo, FundingOf, Wrap, Net, Abs, TellsNet, FitsI64;
    LedgerIs(raw, r, a, attr);
    RowTellsNetIff(PaidTo(raw.outputs, a, attr), DebitOf(raw, r, a, attr));
  }

  /** An address's pending rows are one per pending transaction that touches it, in mempool order. */
  lemma {:induction false} PendingRowsAre(txs: seq<RawTx>, r: Rows, attr: Attribute, a: string)
    returns (at: seq<nat>)
    ensures Increasing(at) && forall i :: i in at <==> 0 <= i < |txs| && Touches(txs[i], r, a, attr)
    ensures var rows := RowsFor(txs, r, attr, a);
      |rows| == |at| && forall k :: 0 <= k < |at| ==>
        at[k] < |txs| && PendingTells(rows[k], txs[at[k]], r, a, attr)
    decreases |txs|
  {
    hide PendingLedger, PendingRowOf, PendingTells, Touches;
    at := [];
    if txs != [] {
      var pre, last := txs[..|txs| - 1], txs[|txs| - 1];
      at := PendingRowsAre(pre, r, attr, a);
      PendingRowTells(last, r, attr, a);
      if Touches(last, r, a, attr) {
        assert forall k :: 0 <= k < |at| ==> at[k] in at;
        assert forall i :: i in at + [|pre|] <==> i in at || i == |pre|;
        at := at + [|pre|];
      }
    }
  }

  /** Pending transaction `i` spends `o`. */
  predicate SpentAt(txs: seq<RawTx>, o: Outpoint, i: nat) {
    i < |txs| && Consumes(txs[i], o)
  }

  /** The spender shown for an outpoint is the last pending transaction with such an input. */
  lemma {:induction false} SpenderIsLast(txs: seq<RawTx>, o: Outpoint)
    ensures Spender(txs, o).None? ==> forall i: nat :: !SpentAt(txs, o, i)
    ensures Spender(txs, o).Some? ==> exists i: nat ::
      SpentAt(txs, o, i) && txs[i] == Spender(txs, o).value && forall k: nat :: i < k ==> !SpentAt(txs, o, k)
    decreases |txs|
  {
    if txs != [] {
      var k := |txs| - 1;
      SpentByIff(txs[k], o);
      hide Consumes;
      assert forall i: nat :: i < k ==> (SpentAt(txs, o, i) <==> SpentAt(txs[..k], o, i));
      hide SpentBy;
      SpenderIsLast(txs[..k], o);
      if o in SpentBy(txs[k]) {
        assert SpentAt(txs, o, k);
      } else if Spender(txs, o).Some? {
        var i: nat :| SpentAt(txs[..k], o, i) && txs[..k][i] == Spender(txs, o).value &&
          forall m: nat :: i < m ==> !SpentAt(txs[..k], o, m);
        assert SpentAt(txs, o, i);
      }
      hide SpentAt;
    }
  }

  // --- building it ---

  /** One input of the overlay's debit loop: through the store's lookup by id. */
  function DebitByLookup(acc: Ledger, i: TxIn, attr: Attribute, r: Rows): Ledger {
    var t := TxById(r, i.prevId);
    if t.Some? && i.prevIndex < |t.value.raw.outputs|
    then AddDebit(acc, t.value.raw.outputs[i.prevIndex], attr)
    else acc
  }

  lemma DebitByLookupIs(acc: Ledger, i: TxIn, attr: Attribute, r: Rows)
    ensures DebitByLookup(acc, i, attr, r) == DebitInput(acc, i, attr, r.txById, r.tx)
  {
    hide AddDebit, TxById, FundingOutput;
    FundingByLookup(i, r);
  }

  /** The overlay's own attribution loops compute the ledger apply would. */
  method ComputePending(raw: RawTx, r: Rows, attr: Attribute) returns (acc: Ledger)
    ensures acc == PendingLedger(raw, r, attr)
  {
    hide LedgerOf, DebitInput, DebitByLookup, Funding;
    acc := CreditOutputs(raw.outputs, attr);
    if !raw.isCoinbase {
      NoFunding(r);
      for i := 0 to |raw.inputs|
        invariant acc == LedgerOf(raw.outputs, Funding(raw.inputs[..i], r.txById, r.tx), attr)
      {
        DebitInputStep(raw.outputs, raw.inputs, i, attr, r.txById, r.tx);
        DebitByLookupIs(acc, raw.inputs[i], attr, r);
        acc := DebitByLookup(acc, raw.inputs[i], attr, r);
      }
      assert raw.inputs[..|raw.inputs|] == raw.inputs;
    }
  }

  lemma NoFunding(r: Rows)
    ensures Funding([], r.txById, r.tx) == []
  {
  }

  ghost predicate HistoryIs(h: map<string, seq<PendingRow>>, txs: seq<RawTx>, r: Rows, attr: Attribute) {
    forall a :: EntryIs(h, a, RowsFor(txs, r, attr, a))
  }

  /** No empty list is kept. */
  predicate EntryIs(h: map<string, seq<PendingRow>>, a: string, rows: seq<PendingRow>) {
    (a in h <==> rows != []) && (a in h ==> h[a] == rows)
  }

  function PendingAt(h: map<string, seq<PendingRow>>, a: string): seq<PendingRow> {
    if a in h then h[a] else []
  }

  /** Push one row per touched address, in whatever order the map yields them. */
  method PushRows(h: map<string, seq<PendingRow>>, raw: RawTx, l: Ledger) returns (h': map<string, seq<PendingRow>>)
    ensures forall a :: a in l ==> a in h' && h'[a] == PendingAt(h, a) + [PendingRowOf(raw, l[a])]
    ensures forall a :: a !in l ==> (a in h' <==> a in h) && (a in h ==> h'[a] == h[a])
  {
    hide PendingRowOf;
    h' := h;
    var left := l.Keys;
    while left != {}
      invariant left <= l.Keys
      invariant forall a :: a in l && a !in left ==> a in h' && h'[a] == PendingAt(h, a) + [PendingRowOf(raw, l[a])]
      invariant forall a :: a !in l || a in left ==> (a in h' <==> a in h) && (a in h ==> h'[a] == h[a])
      decreases left
    {
      var a :| a in left;
      h' := h'[a := PendingAt(h', a) + [PendingRowOf(raw, l[a])]];
      left := left - {a};
    }
  }

  lemma RowsForSnoc(txs: seq<RawTx>, raw: RawTx, r: Rows, attr: Attribute, a: string)
    ensures var l := PendingLedger(raw, r, attr);
      RowsFor(txs + [raw], r, attr, a) == RowsFor(txs, r, attr, a) + if a in l then [PendingRowOf(raw, l[a])] else []
  {
    hide PendingLedger, PendingRowOf;
    assert (txs + [raw])[..|txs|] == txs;
  }

  lemma PushedHistory(
    h: map<string, seq<PendingRow>>, h': map<string, seq<PendingRow>>, txs: seq<RawTx>, raw: RawTx, r: Rows,
      attr: Attribute)
    requires HistoryIs(h, txs, r, attr)
    requires var l := PendingLedger(raw, r, attr);
      && (forall a :: a in l ==> a in h' && h'[a] == PendingAt(h, a) + [PendingRowOf(raw, l[a])])
      && (forall a :: a !in l ==> (a in h' <==> a in h) && (a in h ==> h'[a] == h[a]))
    ensures HistoryIs(h', txs + [raw], r, attr)
  {
    var all := txs + [raw];
    hide PendingLedger, PendingRowOf, RowsFor;
    forall a ensures EntryIs(h', a, RowsFor(all, r, attr, a)) {
      RowsForSnoc(txs, raw, r, attr, a);
      assert EntryIs(h, a, RowsFor(txs, r, attr, a));
    }
  }

  ghost predicate SpendsAre(s: map<Outpoint, RawTx>, txs: seq<RawTx>) {
    forall o :: SpendIs(s, o, Spender(txs, o))
  }

  predicate SpendIs(s: map<Outpoint, RawTx>, o: Outpoint, t: Option<RawTx>) {
    (o in s <==> t.Some?) && (o in s ==> s[o] == t.value)
  }

  method PointSpends(s: map<Outpoint, RawTx>, raw: RawTx, ghost txs: seq<RawTx>) returns (s': map<Outpoint, RawTx>)
    requires SpendsAre(s, txs)
    ensures SpendsAre(s', txs + [raw])
  {
    s' := s;
    ghost var done: set<Outpoint> := {};
    if !raw.isCoinbase {
      var ins := raw.inputs;
      for i := 0 to |ins|
        invariant done == Outpoints(ins[..i])
        invariant forall o :: SpendIs(s', o, if o in done then Some(raw) else Spender(txs, o))
      {
        hide Spender;
        var o := Outpoint(ins[i].prevId, ins[i].prevIndex);
        OutpointsSnoc(ins, i);
        s' := s'[o := raw];
        done := done + {o};
      }
      assert ins[..|ins|] == ins;
    }
    assert done == SpentBy(raw);
    hide SpentBy;
    forall o ensures SpendIs(s', o, Spender(txs + [raw], o)) {
      SpenderSnoc(txs, raw, o);
      assert SpendIs(s', o, if o in done then Some(raw) else Spender(txs, o));
    }
  }

  lemma SpenderSnoc(txs: seq<RawTx>, raw: RawTx, o: Outpoint)
    ensures Spender(txs + [raw], o) == if o in SpentBy(raw) then Some(raw) else Spender(txs, o)
  {
    hide SpentBy;
    assert (txs + [raw])[..|txs|] == txs;
  }

  /** `build_snapshot`: count, last spender of each outpoint, and pending rows per address. */
  method BuildSnapshot(txs: seq<RawTx>, r: Rows, attr: Attribute) returns (s: Snapshot)
    ensures s.count == |txs| && SpendsAre(s.spends, txs) && HistoryIs(s.history, txs, r, attr)
  {
    hide PendingLedger, PendingRowOf;
    var spends: map<Outpoint, RawTx>, history: map<string, seq<PendingRow>>, count := map[], map[], 0;
    for i := 0 to |txs|
      invariant count == i && SpendsAre(spends, txs[..i]) && HistoryIs(history, txs[..i], r, attr)
    {
      hide SpendsAre, HistoryIs;
      var raw := txs[i];
      assert txs[..i + 1] == txs[..i] + [raw];
      count := count + 1;
      spends := PointSpends(spends, raw, txs[..i]);
      var acc := ComputePending(raw, r, attr);
      var pushed := PushRows(history, raw, acc);
      PushedHistory(history, pushed, txs[..i], raw, r, attr);
      history := pushed;
    }
    assert txs[..|txs|] == txs;
    s := Snapshot(spends, history, count);
  }
}
