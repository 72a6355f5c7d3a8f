/** What every history row says, against the transaction as it was accepted: the sums
    are taken from its own outputs and from the outputs its inputs name, as the store
    could look them up at that moment. */
module Amounts {
  import opened Types
  import opened Attribution
  import opened Tables
  import opened Coupling
  import opened Branches
  import opened InferenceIndex
  import opened Confluence
  import opened Runs

  // --- what an address gains and loses ---

  /** The output an input names, when its transaction can be looked up. */
  function Source(i: TxIn, r: Rows): Option<TxOut> {
    var t := TxById(r, i.prevId);
    if t.Some? && i.prevIndex < |t.value.raw.outputs| then Some(t.value.raw.outputs[i.prevIndex]) else None
  }

  predicate Pays(o: TxOut, a: string, attr: Attribute) {
    attr(o.script) == Some(a)
  }

  /** What `ins` take from `a`. */
  function SpentFrom(ins: seq<TxIn>, r: Rows, a: string, attr: Attribute): nat {
    if ins == [] then 0
    else
      var o := Source(ins[|ins| - 1], r);
      SpentFrom(ins[..|ins| - 1], r, a, attr) +
      if o.Some? && Pays(o.value, a, attr) then o.value.amount else 0
  }

  /** A coinbase takes from nobody. */
  function DebitOf(raw: RawTx, r: Rows, a: string, attr: Attribute): nat {
    if raw.isCoinbase then 0 else SpentFrom(raw.inputs, r, a, attr)
  }

  /** Some input spends an output that paid `a`. */
  ghost predicate Drains(ins: seq<TxIn>, r: Rows, a: string, attr: Attribute) {
    exists k :: 0 <= k < |ins| && SpendsFrom(ins[k], r, a, attr)
  }

  /** Some output pays `a`, or some input spends an output that did. */
  ghost predicate Touches(raw: RawTx, r: Rows, a: string, attr: Attribute) {
    || (exists k :: 0 <= k < |raw.outputs| && Pays(raw.outputs[k], a, attr))
    || (!raw.isCoinbase && Drains(raw.inputs, r, a, attr))
  }

  predicate SpendsFrom(i: TxIn, r: Rows, a: string, attr: Attribute) {
    Source(i, r).Some? && Pays(Source(i, r).value, a, attr)
  }

  lemma SourceIs(i: TxIn, r: Rows)
    ensures Source(i, r) == FundingOutput(i, r.txById, r.tx)
  {
    hide TxById, FundingOutput;
    FundingByLookup(i, r);
  }

  /** The outputs one more input adds. */
  lemma FundingLast(ins: seq<TxIn>, r: Rows)
    requires ins != []
    ensures var pre, o := ins[..|ins| - 1], Source(ins[|ins| - 1], r);
      Funding(ins, r.txById, r.tx) == Funding(pre, r.txById, r.tx) + if o.Some? then [o.value] else []
  {
    hide Source, FundingOutput;
    SourceIs(ins[|ins| - 1], r);
  }

  lemma {:induction false} FundingPays(ins: seq<TxIn>, r: Rows, a: string, attr: Attribute)
    ensures PaidTo(Funding(ins, r.txById, r.tx), a, attr) == SpentFrom(ins, r, a, attr)
    decreases |ins|
  {
    if ins == [] {
      NothingFunds(a, attr);
    } else {
      hide Source, Funding, PaidTo;
      FundingLast(ins, r);
      FundingPays(ins[..|ins| - 1], r, a, attr);
      var found, o := Funding(ins[..|ins| - 1], r.txById, r.tx), Source(ins[|ins| - 1], r);
      if o.Some? {
        PaidToSnoc(found, o.value, a, attr);
      } else {
        assert found + [] == found;
      }
    }
  }

  lemma DrainsLast(ins: seq<TxIn>, r: Rows, a: string, attr: Attribute)
    requires ins != []
    ensures Drains(ins, r, a, attr) <==>
      Drains(ins[..|ins| - 1], r, a, attr) || SpendsFrom(ins[|ins| - 1], r, a, attr)
  {
    hide SpendsFrom;
    var pre := ins[..|ins| - 1];
    if k :| 0 <= k < |pre| && SpendsFrom(pre[k], r, a, attr) {
      assert SpendsFrom(ins[k], r, a, attr);
    }
    if k :| 0 <= k < |ins| && SpendsFrom(ins[k], r, a, attr) {
      assert k < |pre| ==> SpendsFrom(pre[k], r, a, attr);
    }
  }

  lemma {:induction false} FundingPayees(ins: seq<TxIn>, r: Rows, a: string, attr: Attribute)
    ensures a in Payees(Funding(ins, r.txById, r.tx), attr) <==> Drains(ins, r, a, attr)
    decreases |ins|
  {
    if ins == [] {
      NothingFunds(a, attr);
    } else {
      hide Source, Funding, Payees, Drains;
      FundingLast(ins, r);
      DrainsLast(ins, r, a, attr);
      FundingPayees(ins[..|ins| - 1], r, a, attr);
      var found, o := Funding(ins[..|ins| - 1], r.txById, r.tx), Source(ins[|ins| - 1], r);
      if o.Some? {
        PayeesSnoc(found, o.value, attr);
      } else {
        assert found + [] == found;
      }
    }
  }

  lemma PayeesIff(outs: seq<TxOut>, a: string, attr: Attribute)
    ensures a in Payees(outs, attr) <==> exists k :: 0 <= k < |outs| && Pays(outs[k], a, attr)
  {
    if k :| 0 <= k < |outs| && Pays(outs[k], a, attr) {
      assert outs[k] in outs;
    }
    if a in Payees(outs, attr) {
      var o :| o in outs && attr(o.script).Some? && attr(o.script).value == a;
      var k :| 0 <= k < |outs| && outs[k] == o;
      assert Pays(outs[k], a, attr);
    }
  }

  /** The ledger of a transaction met by the store `r`, in those terms. */
  lemma LedgerIs(raw: RawTx, r: Rows, a: string, attr: Attribute)
    ensures var l := LedgerOf(raw.outputs, FundingOf(raw, r.txById, r.tx), attr);
      && (a in l <==> Touches(raw, r, a, attr))
      && (a in l ==> l[a] == Entry(Wrap(PaidTo(raw.outputs, a, attr)), Wrap(DebitOf(raw, r, a, attr))))
  {
    hide PaidTo, Payees, Funding, SpentFrom, Pays, Drains, Wrap;
    FundingPays(raw.inputs, r, a, attr);
    FundingPayees(raw.inputs, r, a, attr);
    PayeesIff(raw.outputs, a, attr);
    NothingFunds(a, attr);
  }

  lemma NothingFunds(a: string, attr: Attribute)
    ensures PaidTo([], a, attr) == 0 && Payees([], attr) == {}
  {
  }

  // --- where a stored transaction came from ---

  /** Position of a transaction in a run: event, group of that apply, place in the group. */
  datatype Spot = Spot(event: nat, group: nat, index: nat)

  ghost predicate InRun(es: seq<Event>, s: Spot) {
    && s.event < |es| && es[s.event].Applied?
    && s.group < |es[s.event].groups| && s.index < |es[s.event].groups[s.group].txs|
  }

  function GroupAt(es: seq<Event>, s: Spot): Group
    requires InRun(es, s)
  {
    es[s.event].groups[s.group]
  }

  /** The store as that group meets it. */
  function StoreBefore(es: seq<Event>, s: Spot, cx: Codec): Database
    requires InRun(es, s)
  {
    Apply(Run(es[..s.event], cx), es[s.event].groups[..s.group], cx)
  }

  /** The row tables as that transaction meets them. */
  function MetBy(es: seq<Event>, s: Spot, cx: Codec): Rows
    requires InRun(es, s)
  {
    var d, g := StoreBefore(es, s, cx), GroupAt(es, s);
    InsertTxs(d.core.rows, d.nextTxNum, g.txs[..s.index], g.hash, g.daa, cx.attr)
  }

  /** The transaction at `s` was not skipped, and was numbered `n`. */
  ghost predicate AcceptedAs(es: seq<Event>, s: Spot, n: nat, cx: Codec) {
    InRun(es, s) &&
    var d := StoreBefore(es, s, cx);
    GroupAt(es, s).hash !in d.core.blocks.applied && n == d.nextTxNum + s.index
  }

  lemma {:induction false} InsertTxsAt(
    r: Rows, num: nat, txs: seq<RawTx>, hash: string, daa: nat, attr: Attribute, i: nat)
    requires i < |txs|
    ensures var r' := InsertTxs(r, num, txs, hash, daa, attr);
      num + i in r'.tx &&
      r'.tx[num + i] == Indexed(InsertTxs(r, num, txs[..i], hash, daa, attr), num + i, txs[i], hash, daa, attr)
    decreases |txs|
  {
    hide Indexed, HistoryRows, SpendRows, Credited;
    var k := |txs| - 1;
    InsertTxsSnoc(r, num, txs, hash, daa, attr);
    IndexedNum(InsertTxs(r, num, txs[..k], hash, daa, attr), num + k, txs[k], hash, daa, attr);
    if i < k {
      InsertTxsAt(r, num, txs[..k], hash, daa, attr, i);
      assert txs[..k][..i] == txs[..i];
    }
    hide InsertTxs;
  }

  lemma IndexedNum(r: Rows, num: nat, raw: RawTx, hash: string, daa: nat, attr: Attribute)
    ensures Indexed(r, num, raw, hash, daa, attr).num == num
  {
  }

  /** A number an apply adds belongs to one transaction of one of its groups. */
  lemma {:induction false} AppliedAt(d: Database, gs: seq<Group>, cx: Codec, log: Log, n: nat) returns (j: nat, i: nat)
    requires Inv(d, log) && n in Apply(d, gs, cx).core.rows.tx && n !in d.core.rows.tx
    ensures j < |gs| && i < |gs[j].txs|
    ensures var mid, g := Apply(d, gs[..j], cx), gs[j];
      && g.hash !in mid.core.blocks.applied && n == mid.nextTxNum + i
      && Apply(d, gs, cx).core.rows.tx[n] ==
           Indexed(InsertTxs(mid.core.rows, mid.nextTxNum, g.txs[..i], g.hash, g.daa, cx.attr), n, g.txs[i], g.hash,
                   g.daa, cx.attr)
    decreases |gs|
  {
    hide *;
    if gs == [] {
      ApplyNone(d, cx);
    } else {
      var k := |gs| - 1;
      var mid, g := Apply(d, gs[..k], cx), gs[k];
      ApplySnoc(d, gs, cx);
      ApplyKeeps(d, gs[..k], cx, log);
      var log' := log + Since(mid.core.rows.tx, d.nextTxNum);
      ApplyGroupKeeps(mid, g, cx, log');
      if n in mid.core.rows.tx {
        j, i := AppliedAt(d, gs[..k], cx, log, n);
        assert gs[..k][..j] == gs[..j];
        ExtendsAt(mid, Apply(d, gs, cx), n);
      } else {
        if g.hash in mid.core.blocks.applied {
          ApplyMarked(mid, g, cx);
        } else {
          ApplyGroupRows(mid, g, cx);
          ExtendsAt(mid, Apply(d, gs, cx), n);
          j, i := k, n - mid.nextTxNum;
          InsertTxsAt(mid.core.rows, mid.nextTxNum, g.txs, g.hash, g.daa, cx.attr, i);
        }
      }
    }
  }

  lemma ExtendsAt(d: Database, d': Database, n: nat)
    requires Extends(d, d') && n in d'.core.rows.tx
    ensures n in d.core.rows.tx ==> d'.core.rows.tx[n] == d.core.rows.tx[n]
    ensures n !in d.core.rows.tx ==> d.nextTxNum <= n < d'.nextTxNum
  {
  }

  /** The stored transaction is what indexing it at that moment gave. */
  ghost predicate IndexedAs(es: seq<Event>, s: Spot, n: nat, itx: IndexedTx, cx: Codec) {
    AcceptedAs(es, s, n, cx) &&
    var g := GroupAt(es, s);
    itx == Indexed(MetBy(es, s, cx), n, g.txs[s.index], g.hash, g.daa, cx.attr)
  }

  lemma IndexedPrefix(es: seq<Event>, s: Spot, n: nat, itx: IndexedTx, cx: Codec)
    requires es != [] && IndexedAs(es[..|es| - 1], s, n, itx, cx)
    ensures IndexedAs(es, s, n, itx, cx)
  {
    hide Run, Apply, InsertTxs, Indexed;
    assert es[..|es| - 1][..s.event] == es[..s.event];
  }

  lemma OnlyApplyAdds(d: Database, e: Event, cx: Codec, n: nat)
    requires n in Step(d, e, cx).core.rows.tx
    ensures e.Applied? || (n in d.core.rows.tx && Step(d, e, cx).core.rows.tx[n] == d.core.rows.tx[n])
  {
    hide Apply, UnwindBlock, Expire;
    match e
    case Applied(gs) =>
    case Unwound(h) => UnwindShrinks(d.core, h);
    case Swept(c) => ExpireParts(d, c);
  }

  lemma {:induction false} StoredWasIndexed(es: seq<Event>, cx: Codec, n: nat) returns (s: Spot)
    requires n in Run(es, cx).core.rows.tx
    ensures IndexedAs(es, s, n, Run(es, cx).core.rows.tx[n], cx)
    decreases |es|
  {
    hide IndexedAs, Step;
    NothingStored(n);
    var pre, e := es[..|es| - 1], es[|es| - 1];
    var d := Run(pre, cx);
    OnlyApplyAdds(d, e, cx, n);
    if n in d.core.rows.tx && Run(es, cx).core.rows.tx[n] == d.core.rows.tx[n] {
      s := StoredWasIndexed(pre, cx, n);
      IndexedPrefix(es, s, n, d.core.rows.tx[n], cx);
    } else {
      s := NewlyIndexed(es, cx, n);
    }
  }

  lemma NothingStored(n: nat)
    ensures n !in EMPTY.core.rows.tx
  {
  }

  lemma NewlyIndexed(es: seq<Event>, cx: Codec, n: nat) returns (s: Spot)
    requires es != [] && es[|es| - 1].Applied? && n in Run(es, cx).core.rows.tx
    requires var tx := Run(es[..|es| - 1], cx).core.rows.tx; n !in tx || Run(es, cx).core.rows.tx[n] != tx[n]
    ensures IndexedAs(es, s, n, Run(es, cx).core.rows.tx[n], cx)
  {
    hide *;
    var pre, gs := es[..|es| - 1], es[|es| - 1].groups;
    var d, log := Run(pre, cx), RunBooks(pre, cx);
    LastApplied(es, cx);
    RunInv(pre, cx);
    ApplyKeeps(d, gs, cx, log);
    ExtendsAt(d, Apply(d, gs, cx), n);
    var j, i := AppliedAt(d, gs, cx, log, n);
    s := Spot(|es| - 1, j, i);
    SpotIs(es, j, i, n, Run(es, cx).core.rows.tx[n], cx);
  }

  lemma LastApplied(es: seq<Event>, cx: Codec)
    requires es != [] && es[|es| - 1].Applied?
    ensures Run(es, cx) == Apply(Run(es[..|es| - 1], cx), es[|es| - 1].groups, cx)
  {
    hide Apply;
  }

  lemma SpotIs(es: seq<Event>, j: nat, i: nat, n: nat, itx: IndexedTx, cx: Codec)
    requires es != [] && es[|es| - 1].Applied? && j < |es[|es| - 1].groups| && i < |es[|es| - 1].groups[j].txs|
    requires var gs := es[|es| - 1].groups;
      var mid, g := Apply(Run(es[..|es| - 1], cx), gs[..j], cx), gs[j];
      && g.hash !in mid.core.blocks.applied && n == mid.nextTxNum + i
      && itx == Indexed(InsertTxs(mid.core.rows, mid.nextTxNum, g.txs[..i], g.hash, g.daa, cx.attr), n, g.txs[i],
                        g.hash, g.daa, cx.attr)
    ensures IndexedAs(es, Spot(|es| - 1, j, i), n, itx, cx)
  {
    hide Run, Apply, InsertTxs, Indexed;
  }

  // --- every row of every run ---

  lemma RowSays(r: Rows, met: Rows, n: nat, raw: RawTx, hash: string, daa: nat, attr: Attribute, a: string)
    requires HistoryExact(r) && n in r.tx && r.tx[n] == Indexed(met, n, raw, hash, daa, attr)
    ensures (a, n) in r.history <==> Touches(raw, met, a, attr)
    ensures (a, n) in r.history ==>
      var row, credit, debit := r.history[(a, n)], PaidTo(raw.outputs, a, attr), DebitOf(raw, met, a, attr);
      && row.txId == raw.txId && row.block == hash && row.daa == daa
      && (TellsNet(row.amount, row.isSpend, credit, debit) <==> FitsI64(credit, debit))
  {
    hide LedgerOf, Touches, DebitOf, PaidTo, FundingOf, Wrap, Net, Abs, TellsNet, FitsI64;
    LedgerIs(raw, met, a, attr);
    RowTellsNetIff(PaidTo(raw.outputs, a, attr), DebitOf(raw, met, a, attr));
  }

  /** In every run, for every stored transaction and every address: there is a history row if and
      only if the transaction touched the address when it was accepted; it names that transaction,
      block and DAA; and its amount and direction are those of what the address received less what
      it spent, if and only if that difference fits 64 signed bits. */
  lemma RunRowsTell(es: seq<Event>, cx: Codec, n: nat, a: string) returns (s: Spot)
    requires n in Run(es, cx).core.rows.tx
    ensures AcceptedAs(es, s, n, cx)
    ensures var g, met, h := GroupAt(es, s), MetBy(es, s, cx), Run(es, cx).core.rows.history;
      var raw := g.txs[s.index];
      var credit, debit := PaidTo(raw.outputs, a, cx.attr), DebitOf(raw, met, a, cx.attr);
      && ((a, n) in h <==> Touches(raw, met, a, cx.attr))
      && ((a, n) in h ==>
            var row := h[(a, n)];
            && row.txId == raw.txId && row.block == g.hash && row.daa == g.daa
            && (TellsNet(row.amount, row.isSpend, credit, debit) <==> FitsI64(credit, debit)))
  {
    hide Run, MetBy, StoreBefore, Indexed, Touches, DebitOf, PaidTo, TellsNet, FitsI64, HistoryExact, BlocksCoupled;
    s := StoredWasIndexed(es, cx, n);
    TablesAreCoupled(es, cx);
    var g := GroupAt(es, s);
    RowSays(Run(es, cx).core.rows, MetBy(es, s, cx), n, g.txs[s.index], g.hash, g.daa, cx.attr, a);
  }
}
