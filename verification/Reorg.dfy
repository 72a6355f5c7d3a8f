/** Reorganisations. Apart from received amounts, the row tables are a function of
    the stored transactions and the log, so unwinding a branch from the top restores
    them exactly. The amounts come back exactly when no sum passed 2^64 on the way. */
module Reorg {
  import opened Types
  import opened Attribution
  import opened Tables
  import opened Coupling
  import opened Lookups
  import opened Branches
  import opened Rollback
  import opened Scans

  // --- determinacy ---

  lemma {:induction false} TallyBeyond(log: Log, a: string, n: nat, n': nat)
    requires n <= n' && forall k :: k in log ==> k < n
    ensures TallyOf(log, a, n') == TallyOf(log, a, n)
    decreases n'
  {
    if n < n' { TallyBeyond(log, a, n, n' - 1); }
  }

  lemma SameIndexes(r: Rows, r': Rows)
    requires RowsCoupled(r) && RowsCoupled(r') && Complete(r) && Complete(r') && r.tx == r'.tx
    ensures r.txById == r'.txById && r.spends == r'.spends
  {
    hide HistoryExact, SpentBy;
  }

  lemma SameHistory(r: Rows, r': Rows)
    requires HistoryExact(r) && HistoryExact(r') && r.tx == r'.tx
    ensures r.history == r'.history
  {
    forall k ensures k in r.history <==> k in r'.history {
      assert k == (k.0, k.1);
    }
    forall k | k in r.history ensures r.history[k] == r'.history[k] {
      assert k == (k.0, k.1);
    }
  }

  /** Two coupled, complete row sets over the same transactions and log agree on everything
      but the totals. */
  lemma RowsAreDetermined(r: Rows, r': Rows, log: Log, n: nat, n': nat)
    requires RowsInv(r, log, n) && RowsInv(r', log, n') && Complete(r) && Complete(r') && r.tx == r'.tx
    ensures RowsWith(r', r.totals) == r
  {
    hide HistoryExact, Complete, IdsSound, SpendsSound, CountedAt, TallyOf;
    SameIndexes(r, r');
    SameHistory(r, r');
  }

  // --- round trip ---

  lemma ForgetRecorded(b: Blocks, c: Core, h: string, daa: nat, nums: seq<nat>)
    requires BlocksCoupled(c) && c.blocks == b && h !in b.applied
    ensures ForgetBlock(RecordBlock(b, h, daa, nums), h) == b
  {
    hide Listed;
  }

  lemma UnwoundParts(c: Core, h: string, daa: nat, nums: seq<nat>, b: Blocks)
    requires c.blocks == RecordBlock(b, h, daa, nums)
    ensures h in c.blocks.acceptedBy && c.blocks.acceptedBy[h] == nums
    ensures UnwindBlock(c, h) == Core(RemoveTxs(c.rows, nums), ForgetBlock(c.blocks, h))
  {
    hide RemoveTxs, ForgetBlock;
  }

  /** The rows a block leaves behind when unwound are the rows it was applied to, whatever
      the totals. */
  lemma UnwindLastRows(r: Rows, c': Core, n: nat, g: Group, log: Log, nums: seq<nat>, attr: Attribute)
    requires RowsInv(r, log, n) && Complete(r)
    requires c'.rows == InsertTxs(r, n, g.txs, g.hash, g.daa, attr) && Complete(c'.rows) && BlocksCoupled(c')
    requires RowsInv(c'.rows, log + Since(c'.rows.tx, n), n + |g.txs|)
    requires nums == Numbers(n, |g.txs|) && g.hash in c'.blocks.acceptedBy && c'.blocks.acceptedBy[g.hash] == nums
    requires UnwindBlock(c', g.hash).rows == RemoveTxs(c'.rows, nums)
    ensures RowsWith(RemoveTxs(c'.rows, nums), r.totals) == r
  {
    hide *;
    var log', n' := log + Since(c'.rows.tx, n), n + |g.txs|;
    UnwindAppliedKeeps(c', n', g.hash, log');
    RemoveTxsKeepsComplete(c'.rows, nums);
    InsertTxsRange(r, n, g.txs, g.hash, g.daa, attr);
    BackToStart(r, c'.rows, n, |g.txs|, g.hash, g.daa, log);
    RowsAreDetermined(r, RemoveTxs(c'.rows, nums), log, n, n');
  }

  lemma UnfoldSound(d: Database, log: Log)
    requires Sound(d, log)
    ensures RowsInv(d.core.rows, log, d.nextTxNum) && BlocksCoupled(d.core) && Complete(d.core.rows)
  {
    hide RowsInv, BlocksCoupled, Complete;
  }

  lemma UnfoldLog(log: Log, d: Database, d': Database)
    ensures LogAfter(log, d, d') == log + Since(d'.core.rows.tx, d.nextTxNum)
  {
    hide Since;
  }

  lemma WithTwice(c: Core, c0: Core, t: map<string, Totals>)
    requires RowsWith(c.rows, c0.rows.totals) == c0.rows && c.blocks == c0.blocks
    ensures CoreWith(c, t) == CoreWith(c0, t)
  {
  }

  /** Unwinding the block just applied restores every core table but the totals, and rolls the
      block's ledgers back there, whatever the totals were. */
  lemma UnwindLastBlock(d: Database, g: Group, cx: Codec, log: Log, totals: map<string, Totals>)
    requires Sound(d, log) && g.hash !in d.core.blocks.applied && Legal(d.core.rows.tx, g.txs)
    ensures var d' := ApplyGroup(d, g, cx);
      UnwindBlock(CoreWith(d'.core, totals), g.hash) ==
        CoreWith(d.core, UncreditAll(totals, Ledgers(d'.core.rows.tx, d.nextTxNum, |g.txs|)))
  {
    hide *;
    var d', nums := ApplyGroup(d, g, cx), Numbers(d.nextTxNum, |g.txs|);
    ApplyLegalGroup(d, g, cx, log);
    ApplyGroupRows(d, g, cx);
    UnfoldSound(d, log);
    UnfoldLog(log, d, d');
    UnfoldSound(d', LogAfter(log, d, d'));
    UnwoundParts(d'.core, g.hash, g.daa, nums, d.core.blocks);
    UnwindLastRows(d.core.rows, d'.core, d.nextTxNum, g, log, nums, cx.attr);
    ForgetRecorded(d.core.blocks, d.core, g.hash, g.daa, nums);
    InsertTxsRange(d.core.rows, d.nextTxNum, g.txs, g.hash, g.daa, cx.attr);
    RangeIsStored(d.core.rows.tx, d'.core.rows.tx, d.nextTxNum, |g.txs|, g.hash, g.daa);
    UnwindBlockWith(d'.core, totals, g.hash, d.nextTxNum, |g.txs|);
    WithTwice(UnwindBlock(d'.core, g.hash), d.core,
      UncreditAll(totals, Ledgers(d'.core.rows.tx, d.nextTxNum, |g.txs|)));
  }

  lemma RangeIsStored(tx: map<nat, IndexedTx>, tx': map<nat, IndexedTx>, num: nat, k: nat, h: string, daa: nat)
    requires InsertedRange(tx, tx', num, k, h, daa)
    ensures forall n :: num <= n < num + k ==> n in tx'
  {
  }

  lemma BackToStart(r: Rows, r': Rows, n: nat, k: nat, h: string, daa: nat, log: Log)
    requires RowsInv(r, log, n) && InsertedRange(r.tx, r'.tx, n, k, h, daa)
    ensures r'.tx - Members(Numbers(n, k)) == r.tx
    ensures log + Since(r'.tx, n) - Members(Numbers(n, k)) == log
  {
    hide RowsCoupled, Counted;
    var nums := Numbers(n, k);
    forall i ensures i in Members(nums) <==> n <= i < n + k {
      if n <= i < n + k { assert nums[i - n] == i; }
    }
    assert forall i :: i in Since(r'.tx, n) <==> n <= i < n + k;
  }

  // --- unwinding a branch ---

  /** The removal list of a reorg: the branch's hashes, highest first. */
  function HighToLow(gs: seq<Group>): seq<string> {
    if gs == [] then [] else [gs[|gs| - 1].hash] + HighToLow(gs[..|gs| - 1])
  }

  lemma {:induction false} UnwindFirst(c: Core, h: string, hs: seq<string>)
    ensures UnwindAll(c, [h] + hs) == UnwindAll(UnwindBlock(c, h), hs)
    decreases |hs|
  {
    hide UnwindBlock;
    if hs == [] {
      assert [h] + hs == [h];
      assert UnwindAll(c, []) == c;
    } else {
      var k := |hs| - 1;
      UnwindFirst(c, h, hs[..k]);
      assert ([h] + hs)[..k + 1] == [h] + hs[..k];
    }
  }

  lemma UnwindNone(c: Core)
    ensures UnwindAll(c, HighToLow([])) == c
  {
  }

  /** The ledgers of the transactions applying `gs` stored. */
  function NewLedgers(d: Database, d': Database): seq<Ledger>
    requires d.nextTxNum <= d'.nextTxNum
  {
    Ledgers(d'.core.rows.tx, d.nextTxNum, d'.nextTxNum - d.nextTxNum)
  }

  lemma NewLedgersNone(d: Database)
    ensures NewLedgers(d, d) == []
  {
  }

  lemma NewLedgersJoin(d: Database, mid: Database, d': Database)
    requires Extends(d, mid) && Extends(mid, d')
    ensures d.nextTxNum <= mid.nextTxNum <= d'.nextTxNum &&
      NewLedgers(d, d') == NewLedgers(d, mid) + NewLedgers(mid, d')
  {
    hide Ledgers;
    var num, j, k := d.nextTxNum, mid.nextTxNum - d.nextTxNum, d'.nextTxNum - mid.nextTxNum;
    LedgersConcat(d'.core.rows.tx, num, j, k);
    LedgersFrame(mid.core.rows.tx, d'.core.rows.tx, num, j);
  }

  /** Unwinding a whole branch from the top restores every core table but the totals, and rolls
      the branch's ledgers back there, whatever the totals were. */
  lemma {:induction false} UnwindBranchWith(d: Database, gs: seq<Group>, cx: Codec, log: Log,
    totals: map<string, Totals>)
    requires Sound(d, log) && Branch(d, gs)
    ensures var d' := Apply(d, gs, cx);
      && d.nextTxNum <= d'.nextTxNum
      && UnwindAll(CoreWith(d'.core, totals), HighToLow(gs)) == CoreWith(d.core, UncreditAll(totals, NewLedgers(d, d')))
    decreases |gs|
  {
    if gs == [] {
      ApplyNone(d, cx);
      UnwindNone(CoreWith(d.core, totals));
      NewLedgersNone(d);
    } else {
      UnwindBranchStep(d, gs, cx, log, totals);
    }
    hide *;
  }

  lemma {:induction false} UnwindBranchStep(d: Database, gs: seq<Group>, cx: Codec, log: Log,
    totals: map<string, Totals>)
    requires Sound(d, log) && Branch(d, gs) && gs != []
    ensures var d' := Apply(d, gs, cx);
      && d.nextTxNum <= d'.nextTxNum
      && UnwindAll(CoreWith(d'.core, totals), HighToLow(gs)) == CoreWith(d.core, UncreditAll(totals, NewLedgers(d, d')))
    decreases |gs|, 0
  {
    hide *;
    var k := |gs| - 1;
    var mid, d' := Apply(d, gs[..k], cx), Apply(d, gs, cx);
    var log1 := LogAfter(log, d, mid);
    HighToLowIs(gs);
    BranchPrefix(d, gs);
    ApplyBranch(d, gs[..k], cx, log);
    BranchNext(d, mid, gs);
    ApplyLegalGroup(mid, gs[k], cx, log1);
    ApplySnoc(d, gs, cx);
    ApplyGroupRows(mid, gs[k], cx);
    UnwindLastBlock(mid, gs[k], cx, log1, totals);
    NewLedgersJoin(d, mid, d');
    NewLedgersOf(mid, d', |gs[k].txs|);
    var rolled := UncreditAll(totals, NewLedgers(mid, d'));
    UncreditAllConcat(totals, NewLedgers(d, mid), NewLedgers(mid, d'));
    UnwindFirst(CoreWith(d'.core, totals), gs[k].hash, HighToLow(gs[..k]));
    UnwindBranchWith(d, gs[..k], cx, log, rolled);
  }

  lemma NewLedgersOf(d: Database, d': Database, k: nat)
    requires d'.nextTxNum == d.nextTxNum + k
    ensures NewLedgers(d, d') == Ledgers(d'.core.rows.tx, d.nextTxNum, k)
  {
  }

  lemma HighToLowIs(gs: seq<Group>)
    requires gs != []
    ensures HighToLow(gs) == [gs[|gs| - 1].hash] + HighToLow(gs[..|gs| - 1])
  {
  }

  // --- applying, whatever the totals ---

  lemma ApplyGroupWith(d: Database, g: Group, cx: Codec, totals: map<string, Totals>)
    ensures var d' := ApplyGroup(d, g, cx);
      && d.nextTxNum <= d'.nextTxNum
      && ApplyGroup(DbWith(d, totals), g, cx) == DbWith(d', CreditAll(totals, NewLedgers(d, d')))
  {
    if g.hash in d.core.blocks.applied {
      ApplyMarked(d, g, cx);
      ApplyMarked(DbWith(d, totals), g, cx);
      NewLedgersNone(d);
      hide ApplyGroup;
    } else {
      hide InsertTxs, IndexTxs, RecordBlock, Numbers, CreditAll, Ledgers;
      InsertTxsWith(d.core.rows, totals, d.nextTxNum, g.txs, g.hash, g.daa, cx.attr);
    }
  }

  lemma {:induction false} CreditAllConcat(totals: map<string, Totals>, xs: seq<Ledger>, ys: seq<Ledger>)
    ensures CreditAll(totals, xs + ys) == CreditAll(CreditAll(totals, xs), ys)
    decreases |xs|
  {
    hide Credited;
    if xs == [] {
      assert xs + ys == ys;
    } else {
      CreditAllConcat(Credited(totals, xs[0]), xs[1..], ys);
      assert (xs + ys)[1..] == xs[1..] + ys;
    }
  }

  /** Applying stores the same rows whatever the totals, and credits the stored ledgers. */
  lemma {:induction false} ApplyWith(d: Database, gs: seq<Group>, cx: Codec, log: Log, totals: map<string, Totals>)
    requires Inv(d, log)
    ensures var d' := Apply(d, gs, cx);
      && d.nextTxNum <= d'.nextTxNum
      && Apply(DbWith(d, totals), gs, cx) == DbWith(d', CreditAll(totals, NewLedgers(d, d')))
    decreases |gs|
  {
    if gs == [] {
      ApplyNone(d, cx);
      ApplyNone(DbWith(d, totals), cx);
      NewLedgersNone(d);
      hide Apply;
    } else {
      ApplyWithLast(d, gs, cx, log, totals);
    }
  }

  lemma {:induction false} ApplyWithLast(d: Database, gs: seq<Group>, cx: Codec, log: Log, totals: map<string, Totals>)
    requires Inv(d, log) && gs != []
    ensures var d' := Apply(d, gs, cx);
      && d.nextTxNum <= d'.nextTxNum
      && Apply(DbWith(d, totals), gs, cx) == DbWith(d', CreditAll(totals, NewLedgers(d, d')))
    decreases |gs|, 0
  {
    hide *;
    var k := |gs| - 1;
    var mid, d' := Apply(d, gs[..k], cx), Apply(d, gs, cx);
    ApplyKeeps(d, gs[..k], cx, log);
    ApplyGroupKeeps(mid, gs[k], cx, log + Since(mid.core.rows.tx, d.nextTxNum));
    ApplySnoc(d, gs, cx);
    ApplySnoc(DbWith(d, totals), gs, cx);
    ApplyWith(d, gs[..k], cx, log, totals);
    ApplyGroupWith(mid, gs[k], cx, CreditAll(totals, NewLedgers(d, mid)));
    NewLedgersJoin(d, mid, d');
    CreditAllConcat(totals, NewLedgers(d, mid), NewLedgers(mid, d'));
  }

  lemma OwnTotals(d: Database)
    ensures DbWith(d, d.core.rows.totals) == d && CoreWith(d.core, d.core.rows.totals) == d.core
  {
  }

  lemma ApplyCredits(d: Database, gs: seq<Group>, cx: Codec, log: Log)
    requires Inv(d, log)
    ensures var d' := Apply(d, gs, cx);
      d.nextTxNum <= d'.nextTxNum && d'.core.rows.totals == CreditAll(d.core.rows.totals, NewLedgers(d, d'))
  {
    hide Inv, Apply, CreditAll, NewLedgers;
    ApplyWith(d, gs, cx, log, d.core.rows.totals);
    OwnTotals(d);
  }

  // --- credits of a branch, from its outputs alone ---

  /** What a list of transactions pays `a`, each sum as the ledger keeps it. */
  function Pays(txs: seq<RawTx>, a: string, attr: Attribute): nat {
    if txs == [] then 0
    else Pays(txs[..|txs| - 1], a, attr) + Wrap(PaidTo(txs[|txs| - 1].outputs, a, attr))
  }

  lemma {:induction false} CreditsToSnoc(ls: seq<Ledger>, l: Ledger, a: string)
    ensures CreditsTo(ls + [l], a) == CreditsTo(ls, a) + CreditIn(l, a)
    decreases |ls|
  {
    if ls == [] {
      assert ls + [l] == [l] && [l][1..] == [];
    } else {
      CreditsToSnoc(ls[1..], l, a);
      assert (ls + [l])[1..] == ls[1..] + [l];
    }
  }

  lemma {:induction false} CreditsToConcat(xs: seq<Ledger>, ys: seq<Ledger>, a: string)
    ensures CreditsTo(xs + ys, a) == CreditsTo(xs, a) + CreditsTo(ys, a)
    decreases |xs|
  {
    if xs == [] {
      assert xs + ys == ys;
    } else {
      CreditsToConcat(xs[1..], ys, a);
      assert (xs + ys)[1..] == xs[1..] + ys;
    }
  }

  lemma {:induction false} PaysConcat(xs: seq<RawTx>, ys: seq<RawTx>, a: string, attr: Attribute)
    ensures Pays(xs + ys, a, attr) == Pays(xs, a, attr) + Pays(ys, a, attr)
    decreases |ys|
  {
    if ys == [] {
      assert xs + ys == xs;
    } else {
      PaysConcat(xs, ys[..|ys| - 1], a, attr);
      assert (xs + ys)[..|xs + ys| - 1] == xs + ys[..|ys| - 1];
    }
  }

  lemma IndexedCredit(r: Rows, num: nat, raw: RawTx, hash: string, daa: nat, attr: Attribute, a: string)
    ensures CreditIn(Indexed(r, num, raw, hash, daa, attr).ledger, a) == Wrap(PaidTo(raw.outputs, a, attr))
  {
    EntryAtLedger(raw.outputs, FundingOf(raw, r.txById, r.tx), a, attr);
    hide LedgerOf, PaidTo, FundingOf, Wrap;
  }

  lemma {:induction false} InsertedCredits(r: Rows, num: nat, txs: seq<RawTx>, hash: string, daa: nat,
    attr: Attribute, a: string)
    ensures CreditsTo(Ledgers(InsertTxs(r, num, txs, hash, daa, attr).tx, num, |txs|), a) == Pays(txs, a, attr)
    decreases |txs|
  {
    if txs == [] {
      assert Ledgers(InsertTxs(r, num, txs, hash, daa, attr).tx, num, 0) == [];
    } else {
      InsertedCreditsLast(r, num, txs, hash, daa, attr, a);
    }
  }

  lemma PaysIs(txs: seq<RawTx>, a: string, attr: Attribute)
    requires txs != []
    ensures Pays(txs, a, attr) == Pays(txs[..|txs| - 1], a, attr) + Wrap(PaidTo(txs[|txs| - 1].outputs, a, attr))
  {
    hide PaidTo, Wrap;
  }

  lemma {:induction false} InsertedCreditsLast(
    r: Rows, num: nat, txs: seq<RawTx>, hash: string, daa: nat, attr: Attribute, a: string)
    requires txs != []
    ensures CreditsTo(Ledgers(InsertTxs(r, num, txs, hash, daa, attr).tx, num, |txs|), a) == Pays(txs, a, attr)
    decreases |txs|, 0
  {
    hide *;
    var k := |txs| - 1;
    var mid := InsertTxs(r, num, txs[..k], hash, daa, attr);
    var itx := Indexed(mid, num + k, txs[k], hash, daa, attr);
    InsertedCredits(r, num, txs[..k], hash, daa, attr, a);
    InsertTxsSnoc(r, num, txs, hash, daa, attr);
    StoredTx(mid, itx);
    StoredLedgers(mid.tx, InsertTxs(r, num, txs, hash, daa, attr).tx, num, k, itx);
    CreditsToSnoc(Ledgers(mid.tx, num, k), itx.ledger, a);
    IndexedCredit(mid, num + k, txs[k], hash, daa, attr, a);
    PaysIs(txs, a, attr);
  }

  /** The credits a branch brings can be added up from its outputs before it is applied. */
  lemma {:induction false} BranchCredits(d: Database, gs: seq<Group>, cx: Codec, log: Log, a: string)
    requires Sound(d, log) && Branch(d, gs)
    ensures var d' := Apply(d, gs, cx);
      d.nextTxNum <= d'.nextTxNum && CreditsTo(NewLedgers(d, d'), a) == Pays(AllTxs(gs), a, cx.attr)
    decreases |gs|
  {
    if gs == [] {
      ApplyNone(d, cx);
      NewLedgersNone(d);
      hide Apply, NewLedgers;
    } else {
      BranchCreditsLast(d, gs, cx, log, a);
    }
  }

  lemma {:induction false} BranchCreditsLast(d: Database, gs: seq<Group>, cx: Codec, log: Log, a: string)
    requires Sound(d, log) && Branch(d, gs) && gs != []
    ensures var d' := Apply(d, gs, cx);
      d.nextTxNum <= d'.nextTxNum && CreditsTo(NewLedgers(d, d'), a) == Pays(AllTxs(gs), a, cx.attr)
    decreases |gs|, 0
  {
    hide *;
    var k := |gs| - 1;
    var mid, d' := Apply(d, gs[..k], cx), Apply(d, gs, cx);
    BranchPrefix(d, gs);
    ApplyBranch(d, gs[..k], cx, log);
    BranchNext(d, mid, gs);
    ApplyLegalGroup(mid, gs[k], cx, LogAfter(log, d, mid));
    ApplySnoc(d, gs, cx);
    ApplyGroupRows(mid, gs[k], cx);
    BranchCredits(d, gs[..k], cx, log, a);
    NewLedgersJoin(d, mid, d');
    NewLedgersOf(mid, d', |gs[k].txs|);
    InsertedCredits(mid.core.rows, mid.nextTxNum, gs[k].txs, gs[k].hash, gs[k].daa, cx.attr, a);
    CreditsToConcat(NewLedgers(d, mid), NewLedgers(mid, d'), a);
    AllTxsIs(gs);
    PaysConcat(AllTxs(gs[..k]), gs[k].txs, a, cx.attr);
  }

  lemma AllTxsIs(gs: seq<Group>)
    requires gs != []
    ensures AllTxs(gs) == AllTxs(gs[..|gs| - 1]) + gs[|gs| - 1].txs
  {
  }

  /** `a` keeps its received amount through an abandoned branch: it had none, or the branch's
      payments do not carry it past 2^64. Both sides can be read before the branch is applied. */
  predicate Survives(d: Database, gs: seq<Group>, a: string, attr: Attribute) {
    var r := TotalsAt(d.core.rows.totals, a).received;
    r == 0 || r + Pays(AllTxs(gs), a, attr) < TWO64
  }

  lemma CountingNow(d: Database, log: Log)
    requires Inv(d, log)
    ensures Counting(d.core.rows.totals)
  {
    hide RowsCoupled, BlocksCoupled, Logged, TallyOf;
    forall a | a in d.core.rows.totals ensures d.core.rows.totals[a].count > 0 {
      assert CountedAt(d.core.rows.totals, a, TallyOf(log, a, d.nextTxNum));
    }
  }

  /** What unwinding a branch leaves of the totals. */
  function RolledBack(d: Database, gs: seq<Group>, cx: Codec): map<string, Totals> {
    UnwindAll(Apply(d, gs, cx).core, HighToLow(gs)).rows.totals
  }

  lemma RolledBackIs(d: Database, gs: seq<Group>, cx: Codec, log: Log)
    requires Sound(d, log) && Branch(d, gs)
    ensures var d' := Apply(d, gs, cx);
      && d.nextTxNum <= d'.nextTxNum
      && UnwindAll(d'.core, HighToLow(gs)) == CoreWith(d.core, RolledBack(d, gs, cx))
      && RolledBack(d, gs, cx) == UncreditAll(CreditAll(d.core.rows.totals, NewLedgers(d, d')), NewLedgers(d, d'))
  {
    var d' := Apply(d, gs, cx);
    hide Sound, Branch, Apply, UnwindAll, UncreditAll, CreditAll, NewLedgers, HighToLow;
    UnfoldSoundInv(d, log);
    UnwindBranchWith(d, gs, cx, log, d'.core.rows.totals);
    ApplyCredits(d, gs, cx, log);
    OwnTotals(d');
  }

  /** Unwinding a whole branch from the top restores every core table, counts included, and the
      received amounts if and only if every address survives; an address that does not is left
      with zero. */
  lemma UnwindBranch(d: Database, gs: seq<Group>, cx: Codec, log: Log)
    requires Sound(d, log) && Branch(d, gs)
    ensures var back, totals := RolledBack(d, gs, cx), d.core.rows.totals;
      && UnwindAll(Apply(d, gs, cx).core, HighToLow(gs)) == CoreWith(d.core, back)
      && back.Keys == totals.Keys
      && (forall a :: a in totals ==>
            back[a] == if Survives(d, gs, a, cx.attr) then totals[a] else Emptied(totals[a]))
      && (UnwindAll(Apply(d, gs, cx).core, HighToLow(gs)) == d.core <==> forall a :: Survives(d, gs, a, cx.attr))
  {
    hide *;
    var back, totals := RolledBack(d, gs, cx), d.core.rows.totals;
    RolledBackIs(d, gs, cx, log);
    forall a ensures a in back <==> a in totals
             ensures a in totals ==> back[a] == if Survives(d, gs, a, cx.attr) then totals[a] else Emptied(totals[a])
             ensures a !in totals ==> Survives(d, gs, a, cx.attr)
             ensures a in totals && !Survives(d, gs, a, cx.attr) ==> back[a] != totals[a] {
      UnwindBranchAt(d, gs, cx, log, a);
    }
    SameCoreIff(d.core, back, totals);
    assert back.Keys == totals.Keys;
  }

  lemma SameCoreIff(c: Core, back: map<string, Totals>, totals: map<string, Totals>)
    requires c.rows.totals == totals
    ensures CoreWith(c, back) == c <==> back == totals
  {
  }

  lemma UnwindBranchAt(d: Database, gs: seq<Group>, cx: Codec, log: Log, a: string)
    requires Sound(d, log) && Branch(d, gs)
    ensures var back, totals := RolledBack(d, gs, cx), d.core.rows.totals;
      && (a in back <==> a in totals)
      && (a in totals ==> back[a] == if Survives(d, gs, a, cx.attr) then totals[a] else Emptied(totals[a]))
      && (a !in totals ==> Survives(d, gs, a, cx.attr))
      && (a in totals && !Survives(d, gs, a, cx.attr) ==> back[a] != totals[a])
  {
    var d' := Apply(d, gs, cx);
    hide Sound, Branch, Apply, UncreditAll, CreditAll, NewLedgers, HighToLow, RolledBack, CreditsTo, Pays, AllTxs;
    RolledBackIs(d, gs, cx, log);
    UnfoldSoundInv(d, log);
    CountingNow(d, log);
    hide Inv;
    RoundTripAt(d.core.rows.totals, NewLedgers(d, d'), a);
    BranchCredits(d, gs, cx, log, a);
  }

  lemma UnfoldSoundInv(d: Database, log: Log)
    requires Sound(d, log)
    ensures Inv(d, log)
  {
    hide Inv, Complete;
  }
}
