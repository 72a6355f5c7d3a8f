/** A run whose sums pass 2^64: the abandoned block costs its payee everything
    received before it. */
module Overflow {
  import opened Types
  import opened Attribution
  import opened Tables
  import opened Coupling
  import opened Lookups
  import opened Branches
  import opened Rollback
  import opened Reorg
  import opened Runs
  import opened Reachable
  import opened Accounts

  /** Two blocks of one coinbase each. */
  ghost predicate TwoCoinbases(g: Group, g': Group) {
    && |g.txs| == 1 && |g'.txs| == 1 && g.txs[0].isCoinbase && g'.txs[0].isCoinbase
    && g.hash != g'.hash && g.txs[0].txId != g'.txs[0].txId
  }

  lemma OneTx(g: Group)
    requires |g.txs| == 1
    ensures AllTxs([g]) == g.txs
  {
    assert [g][..0] == [];
    assert AllTxs([]) + g.txs == g.txs;
  }

  lemma OneIsLegal(tx: map<nat, IndexedTx>, g: Group)
    requires |g.txs| == 1 && g.txs[0].isCoinbase && forall n :: n in tx ==> tx[n].raw.txId != g.txs[0].txId
    ensures Legal(tx, g.txs)
  {
  }

  lemma OneIsBranch(d: Database, g: Group)
    requires g.hash !in d.core.blocks.applied && Legal(d.core.rows.tx, g.txs) && |g.txs| == 1
    ensures Branch(d, [g])
  {
    hide Legal;
    OneTx(g);
  }

  lemma SecondIsBranch(g: Group, g': Group, cx: Codec)
    requires TwoCoinbases(g, g')
    ensures var d := ApplyGroup(EMPTY, g, cx);
      Sound(EMPTY, map[]) && Branch(EMPTY, [g]) && Branch(d, [g']) && exists log :: Sound(d, log)
  {
    var d := ApplyGroup(EMPTY, g, cx);
    EmptySound();
    EmptyStore(g.hash);
    OneIsLegal(EMPTY.core.rows.tx, g);
    OneIsBranch(EMPTY, g);
    ApplyLegalGroup(EMPTY, g, cx, map[]);
    ApplyGroupRows(EMPTY, g, cx);
    OnlyOne(d.core.rows.tx, g);
    OnlyMark(d, g);
    hide ApplyGroup, Sound, Legal, Branch, InsertTxs, IndexTxs, Extends, EMPTY;
    OneIsLegal(d.core.rows.tx, g');
    OneIsBranch(d, g');
  }

  lemma EmptyStore(h: string)
    ensures EMPTY.nextTxNum == 0 && h !in EMPTY.core.blocks.applied && EMPTY.core.rows.tx == map[]
    ensures EMPTY.core.rows.totals == map[]
  {
  }

  lemma OnlyOne(tx: map<nat, IndexedTx>, g: Group)
    requires |g.txs| == 1 && Appended(map[], tx, 0, g.txs)
    ensures forall n :: n in tx ==> tx[n].raw == g.txs[0]
  {
  }

  lemma OnlyMark(d: Database, g: Group)
    requires d.core.blocks == RecordBlock(EMPTY.core.blocks, g.hash, g.daa, Numbers(0, |g.txs|))
    ensures forall h :: h in d.core.blocks.applied <==> h == g.hash
  {
  }

  lemma OneLedger(g: Group, cx: Codec, a: string)
    requires |g.txs| == 1
    ensures Pays(g.txs, a, cx.attr) == Wrap(PaidTo(g.txs[0].outputs, a, cx.attr))
  {
    hide Wrap, PaidTo;
    assert g.txs[..0] == [];
  }

  lemma {:induction false} CreditedAlone(ls: seq<Ledger>, a: string)
    requires |ls| == 1 && CreditsTo(ls, a) > 0
    ensures TotalsAt(CreditAll(map[], ls), a) == Totals(Wrap(CreditsTo(ls, a)), 1)
  {
    assert ls[1..] == [];
    CreditedParts(map[], ls[0], a);
    hide Credited;
  }

  /** The first block's payment is what its payee has received. */
  lemma FirstPayment(g: Group, cx: Codec, a: string)
    requires |g.txs| == 1 && Sound(EMPTY, map[]) && Branch(EMPTY, [g])
    requires Wrap(PaidTo(g.txs[0].outputs, a, cx.attr)) > 0
    ensures TotalsAt(ApplyGroup(EMPTY, g, cx).core.rows.totals, a) ==
      Totals(Wrap(PaidTo(g.txs[0].outputs, a, cx.attr)), 1)
  {
    hide *;
    var d := Apply(EMPTY, [g], cx);
    EmptyStore(g.hash);
    ApplyOne(EMPTY, g, cx);
    ApplyMarksFirst(g, cx);
    UnfoldSoundInv(EMPTY, map[]);
    ApplyCredits(EMPTY, [g], cx, map[]);
    BranchCredits(EMPTY, [g], cx, map[], a);
    OneTx(g);
    OneLedger(g, cx, a);
    LedgerCount(EMPTY, d, 1);
    CreditedAlone(NewLedgers(EMPTY, d), a);
    WrapTwice(PaidTo(g.txs[0].outputs, a, cx.attr));
  }

  lemma ApplyMarksFirst(g: Group, cx: Codec)
    ensures ApplyGroup(EMPTY, g, cx).nextTxNum == |g.txs|
  {
    hide InsertTxs, IndexTxs, Numbers;
  }

  lemma LedgerCount(d: Database, d': Database, k: nat)
    requires d'.nextTxNum == d.nextTxNum + k
    ensures |NewLedgers(d, d')| == k
  {
  }

  lemma WrapTwice(x: nat)
    ensures Wrap(Wrap(x)) == Wrap(x)
  {
  }

  /** Unwinding the second block leaves the payee with nothing. */
  lemma SecondUnwound(d: Database, log: Log, g: Group, cx: Codec, a: string)
    requires Sound(d, log) && Branch(d, [g]) && |g.txs| == 1
    requires var r := TotalsAt(d.core.rows.totals, a).received;
      0 < r && r + Wrap(PaidTo(g.txs[0].outputs, a, cx.attr)) >= TWO64
    ensures TotalsAt(UnwindBlock(ApplyGroup(d, g, cx).core, g.hash).rows.totals, a) ==
      Emptied(TotalsAt(d.core.rows.totals, a))
  {
    hide Sound, Branch, Apply, ApplyGroup, UnwindBlock, PaidTo, Wrap, Pays, AllTxs;
    UnwindBranch(d, [g], cx, log);
    ApplyOne(d, g, cx);
    OneTx(g);
    OneLedger(g, cx, a);
    UnwindOnly(ApplyGroup(d, g, cx).core, g);
    assert !Survives(d, [g], a, cx.attr);
  }

  lemma UnwindOnly(c: Core, g: Group)
    ensures UnwindAll(c, HighToLow([g])) == UnwindBlock(c, g.hash)
  {
    hide UnwindBlock;
    assert [g][..0] == [] && HighToLow([]) == [];
    assert HighToLow([g]) == [g.hash] && [g.hash][..0] == [];
    assert UnwindAll(c, []) == c;
  }

  /** The log of the three events is the log of the first. */
  lemma SecondForgotten(g: Group, g': Group, cx: Codec)
    requires g.hash != g'.hash
    ensures var es := [Applied([g]), Applied([g']), Unwound(g'.hash)];
      && RunLog(es, cx) == RunLog([Applied([g])], cx)
      && Run(es, cx).core == UnwindBlock(ApplyGroup(ApplyGroup(EMPTY, g, cx), g', cx).core, g'.hash)
  {
    hide *;
    var e1, e2, e3 := Applied([g]), Applied([g']), Unwound(g'.hash);
    var d := ApplyGroup(EMPTY, g, cx);
    var log, entries := RunLog([e1], cx), Since(ApplyGroup(d, g', cx).core.rows.tx, d.nextTxNum);
    FirstRun(g, cx);
    FirstMark(g, g', cx);
    RunNext([e1], e2, cx);
    RunNext([e1, e2], e3, cx);
    assert [e1] + [e2] == [e1, e2] && [e1, e2] + [e3] == [e1, e2, e3];
    SecondStep(d, log, g', cx);
    RemoveStep(ApplyGroup(d, g', cx), log + entries, g'.hash, cx);
    UnwoundStep(ApplyGroup(d, g', cx), g'.hash, cx);
    RunInv([e1], cx);
    EnteredOne(d, g', cx, RunBooks([e1], cx));
    EnteredBelow(entries, d.nextTxNum, g'.txs);
    FirstBlockOnly(g, cx);
    WithoutBlock(log, entries, g.hash, g'.hash, d.nextTxNum);
  }

  lemma FirstMark(g: Group, g': Group, cx: Codec)
    requires g.hash != g'.hash
    ensures g'.hash !in ApplyGroup(EMPTY, g, cx).core.blocks.applied
  {
    hide InsertTxs, IndexTxs, Numbers;
  }

  lemma SecondStep(d: Database, log: Log, g: Group, cx: Codec)
    ensures Step(d, Applied([g]), cx) == ApplyGroup(d, g, cx)
    ensures NextLog(log, d, Applied([g]), cx) == log + Since(ApplyGroup(d, g, cx).core.rows.tx, d.nextTxNum)
  {
    hide Apply, ApplyGroup, Since;
    ApplyOne(d, g, cx);
  }

  lemma UnwoundStep(d: Database, h: string, cx: Codec)
    ensures Step(d, Unwound(h), cx).core == UnwindBlock(d.core, h)
  {
    hide UnwindBlock;
  }

  lemma WithoutBlock(log: Log, entries: Log, h: string, h': string, num: nat)
    requires h != h' && (forall n :: n in log ==> n < num && log[n].block == h)
    requires forall n :: n in entries ==> num <= n && entries[n].block == h'
    ensures (log + entries) - OfBlock(log + entries, h') == log
  {
  }

  /** A fresh store applies two coinbase blocks that together pay `a` 2^64 sompi or more, and the
      second is removed again. The log is back to the first block alone, yet nothing is left of
      what that block paid `a`. */
  lemma OverflowLosesReceived(g: Group, g': Group, cx: Codec, a: string)
    requires TwoCoinbases(g, g')
    requires var r := Wrap(PaidTo(g.txs[0].outputs, a, cx.attr));
      0 < r && r + Wrap(PaidTo(g'.txs[0].outputs, a, cx.attr)) >= TWO64
    ensures var once, es := [Applied([g])], [Applied([g]), Applied([g']), Unwound(g'.hash)];
      && RunLog(es, cx) == RunLog(once, cx)
      && TotalsAt(Run(once, cx).core.rows.totals, a) == Totals(Wrap(PaidTo(g.txs[0].outputs, a, cx.attr)), 1)
      && TotalsAt(Run(es, cx).core.rows.totals, a) == Totals(0, 1)
  {
    hide Run, RunLog, ApplyGroup, UnwindBlock, Sound, Branch, PaidTo, Wrap, EMPTY;
    var d := ApplyGroup(EMPTY, g, cx);
    FirstRun(g, cx);
    SecondForgotten(g, g', cx);
    SecondIsBranch(g, g', cx);
    var log :| Sound(d, log);
    FirstPayment(g, cx, a);
    SecondUnwound(d, log, g', cx, a);
  }

  lemma OnePaid(o: TxOut, a: string, attr: Attribute)
    requires attr(o.script) == Some(a)
    ensures Wrap(PaidTo([o], a, attr)) == o.amount
  {
    assert [o][..0] == [];
  }

  /** In particular with outputs of 2^64 - 1 and 2. */
  lemma LastSompiLosesAll(g: Group, g': Group, cx: Codec, a: string, script: string)
    requires TwoCoinbases(g, g') && cx.attr(script) == Some(a)
    requires g.txs[0].outputs == [TxOut(TWO64 - 1, 0, script)] && g'.txs[0].outputs == [TxOut(2, 0, script)]
    ensures var once, es := [Applied([g])], [Applied([g]), Applied([g']), Unwound(g'.hash)];
      && RunLog(es, cx) == RunLog(once, cx)
      && TotalsAt(Run(once, cx).core.rows.totals, a) == Totals(TWO64 - 1, 1)
      && TotalsAt(Run(es, cx).core.rows.totals, a) == Totals(0, 1)
  {
    hide Run, RunLog, PaidTo, Wrap;
    OnePaid(g.txs[0].outputs[0], a, cx.attr);
    OnePaid(g'.txs[0].outputs[0], a, cx.attr);
    OverflowLosesReceived(g, g', cx, a);
  }
}
