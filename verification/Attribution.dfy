/** Per-address attribution of one transaction (`compute_ledger`): what each
    standard address receives from the outputs and loses through the inputs
    whose funding transaction is still indexed. */
module Attribution {
  import opened Types

  /** Maps an output script to its address, `None` for a non-standard script. */
  type Attribute = string -> Option<string>

  /** Sum of the outputs paying `addr`. */
  function PaidTo(outs: seq<TxOut>, addr: string, attr: Attribute): nat {
    if outs == [] then 0
    else
      var last := outs[|outs| - 1];
      PaidTo(outs[..|outs| - 1], addr, attr) + (if attr(last.script) == Some(addr) then last.amount else 0)
  }

  /** Every address some output pays. */
  function Payees(outs: seq<TxOut>, attr: Attribute): set<string> {
    set o | o in outs && attr(o.script).Some? :: attr(o.script).value
  }

  /** The output an input spends, when its funding transaction is indexed. */
  function FundingOutput(i: TxIn, byId: map<string, nat>, tx: map<nat, IndexedTx>): Option<TxOut> {
    if i.prevId in byId && byId[i.prevId] in tx && i.prevIndex < |tx[byId[i.prevId]].raw.outputs|
    then Some(tx[byId[i.prevId]].raw.outputs[i.prevIndex])
    else None
  }

  /** The resolvable funding outputs of `ins`, in input order. */
  function Funding(ins: seq<TxIn>, byId: map<string, nat>, tx: map<nat, IndexedTx>): seq<TxOut> {
    if ins == [] then []
    else
      var o := FundingOutput(ins[|ins| - 1], byId, tx);
      Funding(ins[..|ins| - 1], byId, tx) + (if o.Some? then [o.value] else [])
  }

  /** A coinbase debits nobody. */
  function FundingOf(raw: RawTx, byId: map<string, nat>, tx: map<nat, IndexedTx>): seq<TxOut> {
    if raw.isCoinbase then [] else Funding(raw.inputs, byId, tx)
  }

  /** The ledger a transaction must get: one entry per touched address, its sums modulo 2^64. */
  function LedgerOf(outs: seq<TxOut>, spent: seq<TxOut>, attr: Attribute): Ledger {
    map a | a in Payees(outs, attr) + Payees(spent, attr) ::
      Entry(Wrap(PaidTo(outs, a, attr)), Wrap(PaidTo(spent, a, attr)))
  }

  /** One `acc.entry(addr).or_default()` read. */
  function EntryAt(acc: Ledger, addr: string): Entry {
    if addr in acc then acc[addr] else Entry(0, 0)
  }

  /** The history row apply writes for one address of a transaction. */
  function RowOf(itx: IndexedTx, addr: string): HistRow
    requires addr in itx.ledger
  {
    var net := Net(itx.ledger[addr]);
    HistRow(itx.raw.txId, Abs(net), net < 0, itx.daa, itx.block)
  }

  lemma PayeesSnoc(outs: seq<TxOut>, o: TxOut, attr: Attribute)
    ensures Payees(outs + [o], attr) ==
      Payees(outs, attr) + (if attr(o.script).Some? then {attr(o.script).value} else {})
  {
    assert forall x :: x in outs + [o] <==> x in outs || x == o;
  }

  lemma PaidToSnoc(outs: seq<TxOut>, o: TxOut, addr: string, attr: Attribute)
    ensures PaidTo(outs + [o], addr, attr) ==
      PaidTo(outs, addr, attr) + (if attr(o.script) == Some(addr) then o.amount else 0)
  {
    assert (outs + [o])[..|outs|] == outs;
  }

  lemma {:induction false} PaidToStranger(outs: seq<TxOut>, addr: string, attr: Attribute)
    requires addr !in Payees(outs, attr)
    ensures PaidTo(outs, addr, attr) == 0
  {
    if outs != [] {
      var pre, last := outs[..|outs| - 1], outs[|outs| - 1];
      assert outs == pre + [last];
      PayeesSnoc(pre, last, attr);
      PaidToStranger(pre, addr, attr);
    }
  }

  /** Adding one output to a ledger's credit side is one hash-map update. */
  function AddCredit(acc: Ledger, o: TxOut, attr: Attribute): Ledger {
    match attr(o.script)
    case None => acc
    case Some(a) => acc[a := EntryAt(acc, a).(credit := Add64(EntryAt(acc, a).credit, o.amount))]
  }

  function AddDebit(acc: Ledger, o: TxOut, attr: Attribute): Ledger {
    match attr(o.script)
    case None => acc
    case Some(a) => acc[a := EntryAt(acc, a).(debit := Add64(EntryAt(acc, a).debit, o.amount))]
  }

  /** Every entry, present or not, holds the wrapped sums. */
  lemma EntryAtLedger(outs: seq<TxOut>, spent: seq<TxOut>, a: string, attr: Attribute)
    ensures EntryAt(LedgerOf(outs, spent, attr), a) ==
      Entry(Wrap(PaidTo(outs, a, attr)), Wrap(PaidTo(spent, a, attr)))
  {
    if a !in LedgerOf(outs, spent, attr) {
      PaidToStranger(outs, a, attr);
      PaidToStranger(spent, a, attr);
    }
  }

  /** Two ledgers that agree through `EntryAt` on the same keys are equal. */
  lemma LedgerExtensional(l: Ledger, m: Ledger)
    requires l.Keys == m.Keys
    requires forall a :: a in l ==> EntryAt(l, a) == EntryAt(m, a)
    ensures l == m
  {
    forall a | a in l ensures l[a] == m[a] {
      assert EntryAt(l, a) == EntryAt(m, a);
    }
  }

  lemma LedgerKeys(outs: seq<TxOut>, spent: seq<TxOut>, attr: Attribute)
    ensures LedgerOf(outs, spent, attr).Keys == Payees(outs, attr) + Payees(spent, attr)
  {
  }

  lemma CreditStepAt(outs: seq<TxOut>, o: TxOut, a: string, attr: Attribute)
    ensures EntryAt(LedgerOf(outs + [o], [], attr), a) == EntryAt(AddCredit(LedgerOf(outs, [], attr), o, attr), a)
  {
    hide LedgerOf, PaidTo, Add64, Wrap;
    EntryAtLedger(outs + [o], [], a, attr);
    EntryAtLedger(outs, [], a, attr);
    PaidToSnoc(outs, o, a, attr);
    AddWraps(PaidTo(outs, a, attr), o.amount);
  }

  lemma CreditStep(outs: seq<TxOut>, o: TxOut, attr: Attribute)
    ensures LedgerOf(outs + [o], [], attr) == AddCredit(LedgerOf(outs, [], attr), o, attr)
  {
    hide LedgerOf, EntryAt, Payees;
    PayeesSnoc(outs, o, attr);
    LedgerKeys(outs + [o], [], attr);
    LedgerKeys(outs, [], attr);
    forall a ensures EntryAt(LedgerOf(outs + [o], [], attr), a) ==
      EntryAt(AddCredit(LedgerOf(outs, [], attr), o, attr), a) {
      CreditStepAt(outs, o, a, attr);
    }
    LedgerExtensional(LedgerOf(outs + [o], [], attr), AddCredit(LedgerOf(outs, [], attr), o, attr));
  }

  lemma DebitStepAt(outs: seq<TxOut>, spent: seq<TxOut>, o: TxOut, a: string, attr: Attribute)
    ensures EntryAt(LedgerOf(outs, spent + [o], attr), a) == EntryAt(AddDebit(LedgerOf(outs, spent, attr), o, attr), a)
  {
    hide LedgerOf, PaidTo, Add64, Wrap;
    EntryAtLedger(outs, spent + [o], a, attr);
    EntryAtLedger(outs, spent, a, attr);
    PaidToSnoc(spent, o, a, attr);
    AddWraps(PaidTo(spent, a, attr), o.amount);
  }

  lemma DebitStep(outs: seq<TxOut>, spent: seq<TxOut>, o: TxOut, attr: Attribute)
    ensures LedgerOf(outs, spent + [o], attr) == AddDebit(LedgerOf(outs, spent, attr), o, attr)
  {
    hide LedgerOf, EntryAt, Payees;
    PayeesSnoc(spent, o, attr);
    LedgerKeys(outs, spent + [o], attr);
    LedgerKeys(outs, spent, attr);
    forall a ensures EntryAt(LedgerOf(outs, spent + [o], attr), a) ==
      EntryAt(AddDebit(LedgerOf(outs, spent, attr), o, attr), a) {
      DebitStepAt(outs, spent, o, a, attr);
    }
    LedgerExtensional(LedgerOf(outs, spent + [o], attr), AddDebit(LedgerOf(outs, spent, attr), o, attr));
  }

  lemma FundingSnoc(ins: seq<TxIn>, i: nat, byId: map<string, nat>, tx: map<nat, IndexedTx>)
    requires i < |ins|
    ensures Funding(ins[..i + 1], byId, tx) ==
      Funding(ins[..i], byId, tx) +
      (if FundingOutput(ins[i], byId, tx).Some? then [FundingOutput(ins[i], byId, tx).value] else [])
  {
    assert ins[..i + 1][..i] == ins[..i];
  }

  /** One pass of the debit loop. */
  function DebitInput(acc: Ledger, i: TxIn, attr: Attribute, byId: map<string, nat>, tx: map<nat, IndexedTx>): Ledger {
    match FundingOutput(i, byId, tx)
    case None => acc
    case Some(o) => AddDebit(acc, o, attr)
  }

  lemma DebitInputStep(
    outs: seq<TxOut>, ins: seq<TxIn>, i: nat, attr: Attribute, byId: map<string, nat>, tx: map<nat, IndexedTx>)
    requires i < |ins|
    ensures LedgerOf(outs, Funding(ins[..i + 1], byId, tx), attr) ==
      DebitInput(LedgerOf(outs, Funding(ins[..i], byId, tx), attr), ins[i], attr, byId, tx)
  {
    FundingSnoc(ins, i, byId, tx);
    var before := Funding(ins[..i], byId, tx);
    match FundingOutput(ins[i], byId, tx)
    case None => assert before + [] == before;
    case Some(o) => DebitStep(outs, before, o, attr);
  }

  method CreditOutputs(outs: seq<TxOut>, attr: Attribute) returns (acc: Ledger)
    ensures acc == LedgerOf(outs, [], attr)
  {
    acc := map[];
    for i := 0 to |outs|
      invariant acc == LedgerOf(outs[..i], [], attr)
    {
      CreditStep(outs[..i], outs[i], attr);
      assert outs[..i + 1] == outs[..i] + [outs[i]];
      acc := AddCredit(acc, outs[i], attr);
    }
    assert outs[..|outs|] == outs;
  }

  method DebitInputs(
    ghost outs: seq<TxOut>, start: Ledger, ins: seq<TxIn>, attr: Attribute,
    byId: map<string, nat>, tx: map<nat, IndexedTx>)
    returns (acc: Ledger)
    requires start == LedgerOf(outs, [], attr)
    ensures acc == LedgerOf(outs, Funding(ins, byId, tx), attr)
  {
    acc := start;
    for i := 0 to |ins|
      invariant acc == LedgerOf(outs, Funding(ins[..i], byId, tx), attr)
    {
      DebitInputStep(outs, ins, i, attr, byId, tx);
      acc := DebitInput(acc, ins[i], attr, byId, tx);
    }
    assert ins[..|ins|] == ins;
  }

  /** `compute_ledger`: two accumulation passes over a hash map give exactly the ledger above. */
  method ComputeLedger(raw: RawTx, attr: Attribute, byId: map<string, nat>, tx: map<nat, IndexedTx>)
    returns (acc: Ledger)
    ensures acc == LedgerOf(raw.outputs, FundingOf(raw, byId, tx), attr)
  {
    acc := CreditOutputs(raw.outputs, attr);
    if !raw.isCoinbase {
      acc := DebitInputs(raw.outputs, acc, raw.inputs, attr, byId, tx);
    }
  }

  // --- conservation ---

  /** Sum of `f` over a finite set of addresses. */
  ghost function Sum(s: set<string>, f: string -> nat): nat {
    if s == {} then 0 else var a :| a in s; f(a) + Sum(s - {a}, f)
  }

  lemma {:induction false} SumPick(s: set<string>, f: string -> nat, a: string)
    requires a in s
    ensures Sum(s, f) == f(a) + Sum(s - {a}, f)
    decreases s
  {
    var b :| b in s && Sum(s, f) == f(b) + Sum(s - {b}, f);
    if a != b {
      SumPick(s - {b}, f, a);
      SumPick(s - {a}, f, b);
      assert s - {b} - {a} == s - {a} - {b};
    }
  }

  lemma {:induction false} SumCongruent(s: set<string>, f: string -> nat, g: string -> nat)
    requires forall a :: a in s ==> f(a) == g(a)
    ensures Sum(s, f) == Sum(s, g)
    decreases s
  {
    if s != {} {
      var a :| a in s;
      SumPick(s, f, a);
      SumPick(s, g, a);
      SumCongruent(s - {a}, f, g);
    }
  }

  /** Total of the outputs whose script has an address. */
  function Attributed(outs: seq<TxOut>, attr: Attribute): nat {
    if outs == [] then 0
    else
      var last := outs[|outs| - 1];
      Attributed(outs[..|outs| - 1], attr) + (if attr(last.script).Some? then last.amount else 0)
  }

  lemma {:induction false} SumOfPaidTo(outs: seq<TxOut>, s: set<string>, attr: Attribute)
    requires Payees(outs, attr) <= s
    ensures Sum(s, a => PaidTo(outs, a, attr)) == Attributed(outs, attr)
  {
    if outs == [] {
      SumOfZero(s, attr);
    } else {
      var pre, last := outs[..|outs| - 1], outs[|outs| - 1];
      assert outs == pre + [last];
      PayeesSnoc(pre, last, attr);
      SumOfPaidTo(pre, s, attr);
      var f, g := a => PaidTo(outs, a, attr), a => PaidTo(pre, a, attr);
      match attr(last.script)
      case None => SumCongruent(s, f, g);
      case Some(a) =>
        SumPick(s, f, a);
        SumPick(s, g, a);
        SumCongruent(s - {a}, f, g);
    }
  }

  lemma {:induction false} SumOfZero(s: set<string>, attr: Attribute)
    ensures Sum(s, a => PaidTo([], a, attr)) == 0
    decreases s
  {
    if s != {} {
      var a :| a in s;
      SumPick(s, a => PaidTo([], a, attr), a);
      SumOfZero(s - {a}, attr);
    }
  }

  /** Credit the ledger gives `a`, zero when the address is untouched. */
  function CreditAt(l: Ledger): string -> nat { a => EntryAt(l, a).credit }

  function DebitAt(l: Ledger): string -> nat { a => EntryAt(l, a).debit }

  lemma EntriesAreWrapped(outs: seq<TxOut>, spent: seq<TxOut>, a: string, attr: Attribute)
    ensures var l := LedgerOf(outs, spent, attr);
      CreditAt(l)(a) == Wrap(PaidTo(outs, a, attr)) && DebitAt(l)(a) == Wrap(PaidTo(spent, a, attr))
  {
    hide LedgerOf, EntryAt, PaidTo, Wrap;
    EntryAtLedger(outs, spent, a, attr);
  }

  /** Sums of smaller terms are smaller, and equal only term by term. */
  lemma {:induction false} SumAtMost(s: set<string>, f: string -> nat, g: string -> nat)
    requires forall a :: a in s ==> f(a) <= g(a)
    ensures Sum(s, f) <= Sum(s, g)
    ensures Sum(s, f) == Sum(s, g) <==> forall a :: a in s ==> f(a) == g(a)
    decreases s
  {
    if s != {} {
      var a :| a in s;
      SumPick(s, f, a);
      SumPick(s, g, a);
      SumAtMost(s - {a}, f, g);
      assert forall b :: b in s <==> b == a || b in s - {a};
    }
  }

  /** One side of the ledger adds up to the outputs it stands for exactly when no address's own
      sum reaches 2^64. */
  lemma SideConserves(keys: set<string>, entry: string -> nat, outs: seq<TxOut>, attr: Attribute)
    requires Payees(outs, attr) <= keys && forall a :: entry(a) == Wrap(PaidTo(outs, a, attr))
    ensures Sum(keys, entry) == Attributed(outs, attr) <==> forall a :: a in keys ==> PaidTo(outs, a, attr) < TWO64
  {
    hide Sum, PaidTo, Attributed, Payees;
    SumOfPaidTo(outs, keys, attr);
    SumAtMost(keys, entry, a => PaidTo(outs, a, attr));
    assert forall x: nat :: Wrap(x) <= x && (Wrap(x) == x <==> x < TWO64);
    hide Wrap;
  }

  /** Conservation: no sompi of a standard output, and none of an indexed funding output, is lost
      or counted twice, if and only if no single address's sum on that side reaches 2^64. */
  lemma LedgerConserves(outs: seq<TxOut>, spent: seq<TxOut>, attr: Attribute)
    ensures var l := LedgerOf(outs, spent, attr);
      && (Sum(l.Keys, CreditAt(l)) == Attributed(outs, attr) <==>
            forall a :: a in l ==> PaidTo(outs, a, attr) < TWO64)
      && (Sum(l.Keys, DebitAt(l)) == Attributed(spent, attr) <==>
            forall a :: a in l ==> PaidTo(spent, a, attr) < TWO64)
  {
    hide LedgerOf, EntryAt, PaidTo, Attributed, Payees, Sum, CreditAt, DebitAt, Wrap;
    var l := LedgerOf(outs, spent, attr);
    forall a ensures CreditAt(l)(a) == Wrap(PaidTo(outs, a, attr)) && DebitAt(l)(a) == Wrap(PaidTo(spent, a, attr)) {
      EntriesAreWrapped(outs, spent, a, attr);
    }
    LedgerKeys(outs, spent, attr);
    SideConserves(l.Keys, CreditAt(l), outs, attr);
    SideConserves(l.Keys, DebitAt(l), spent, attr);
  }
}
