/** Reorgs as the follower performs them, sweeps included. An abandoned branch
    leaves exactly one trace behind: the sweep it triggered. */
module FollowReorg {
  import opened Types
  import opened Scans
  import opened Tables
  import opened Coupling
  import opened Lookups
  import opened Branches
  import opened Rollback
  import opened Reorg
  import opened Confluence
  import opened Reachable
  import opened Replay
  import opened Retention
  import opened StoreModel
  import opened FollowerModel
  import opened WindowModel
  import opened BackfillModel
  import opened Accounts

  // --- sweeping twins ---

  lemma TwinOrder(n: nat, m: nat, base: nat, k: nat)
    ensures Shift(n, base, k) <= Shift(m, base, k) <==> n <= m
  {
  }

  lemma TwinExpired(tx: map<nat, IndexedTx>, tx': map<nat, IndexedTx>, base: nat, k: nat, cutoff: nat, n: nat)
    requires TwinTx(tx, tx', base, k) && n in tx
    ensures n in Expired(tx, cutoff) <==> Shift(n, base, k) in Expired(tx', cutoff)
  {
    hide TwinTx, Shift;
    TwinOf(tx, tx', base, k, n);
    var n' := Shift(n, base, k);
    if n in Expired(tx, cutoff) {
      forall m | m in tx' && m <= n' ensures tx'[m].daa < cutoff {
        var p := TwinBack(tx, tx', base, k, m);
        TwinOrder(p, n, base, k);
      }
    }
    if n' in Expired(tx', cutoff) {
      forall m | m in tx && m <= n ensures tx[m].daa < cutoff {
        TwinOf(tx, tx', base, k, m);
        TwinOrder(m, n, base, k);
      }
    }
  }

  lemma TwinSweepTx(tx: map<nat, IndexedTx>, tx': map<nat, IndexedTx>, base: nat, k: nat, cutoff: nat)
    requires TwinTx(tx, tx', base, k)
    ensures TwinTx(tx - Expired(tx, cutoff), tx' - Expired(tx', cutoff), base, k)
  {
    hide Expired, SameTx, TwinTx;
    var t, t' := tx - Expired(tx, cutoff), tx' - Expired(tx', cutoff);
    forall n | n in t ensures Shift(n, base, k) in t' && SameTx(t[n], t'[Shift(n, base, k)]) {
      TwinOf(tx, tx', base, k, n);
      TwinExpired(tx, tx', base, k, cutoff, n);
    }
    forall m | m in t' ensures (m < base || base + k <= m) && Unshift(m, base, k) in t {
      TwinBackIn(tx, tx', base, k, m);
      TwinExpired(tx, tx', base, k, cutoff, Unshift(m, base, k));
      assert Shift(Unshift(m, base, k), base, k) == m;
    }
    TwinFold(t, t', base, k);
  }

  lemma TwinSweep(x: Database, y: Database, base: nat, k: nat, cutoff: nat)
    requires TwinDb(x, y, base, k)
    ensures TwinDb(Expire(x, cutoff), Expire(y, cutoff), base, k)
  {
    hide TwinTx, Expired, ExpireInference, SpentBy;
    TwinSweepTx(x.core.rows.tx, y.core.rows.tx, base, k, cutoff);
  }

  lemma SweepSound(d: Database, log: Log, cutoff: nat)
    requires Sound(d, log)
    ensures Sound(Expire(d, cutoff), log)
  {
    hide Inv, Complete, Expire;
    ExpireKeeps(d, cutoff, log);
    ExpireComplete(d, cutoff);
  }

  lemma SweepSameCheckpoint(d: Database, cutoff: nat)
    ensures Expire(d, cutoff).checkpoint == d.checkpoint && Expire(d, cutoff).nextTxNum == d.nextTxNum
    ensures Expire(d, cutoff).core == ExpireCore(d.core, cutoff)
    ensures Expire(d, cutoff).core.rows.totals == d.core.rows.totals
    ensures Expire(d, cutoff).core.rows.totalTxs == d.core.rows.totalTxs
  {
    hide Expired, DropBlocks, ExpireInference;
  }

  lemma SweepWith(d: Database, totals: map<string, Totals>, cutoff: nat)
    ensures Expire(DbWith(d, totals), cutoff) == DbWith(Expire(d, cutoff), totals)
  {
    hide Expired, DropBlocks, ExpireInference;
  }

  // --- following the new branch from the fork, with other totals ---

  lemma BranchIsFresh(d: Database, gs: seq<Group>, cx: Codec)
    requires Branch(d, gs)
    ensures Fresh(d, gs, cx) == gs
  {
    hide Legal;
    FreshOfNew(d, gs, cx);
  }

  lemma {:induction false} FreshOfNew(d: Database, gs: seq<Group>, cx: Codec)
    requires forall i :: 0 <= i < |gs| ==> gs[i].hash !in d.core.blocks.applied
    requires forall i, j :: 0 <= i < j < |gs| ==> gs[i].hash != gs[j].hash
    ensures Fresh(d, gs, cx) == gs
    decreases |gs|
  {
    hide Apply;
    if gs != [] {
      var k := |gs| - 1;
      FreshOfNew(d, gs[..k], cx);
      ApplyMarks(d, gs[..k], cx);
      assert gs == gs[..k] + [gs[k]];
    }
  }

  lemma ReachedOfBranch(d: Database, gs: seq<Group>, cx: Codec)
    requires Fresh(d, gs, cx) == gs
    ensures StatsFor(d, gs, cx).checkpointDaa == if gs == [] then 0 else gs[|gs| - 1].daa
  {
    hide Apply, Fresh, AllTxs;
  }

  /** What the follower reads after `added`, from a copy of the fork point whose counter has moved
      on and whose totals are `back`. */
  lemma ForkFollow(
    d: Database, fork: Database, added: seq<Group>, window: nat, last: nat, cx: Codec, log: Log,
      back: map<string, Totals>)
    requires Sound(d, log) && fork.core == d.core && d.nextTxNum <= fork.nextTxNum && Branch(d, added) && added != []
    requires back.Keys == d.core.rows.totals.Keys
    requires forall a :: a in back ==> back[a].count == d.core.rows.totals[a].count
    ensures var z, x := FollowApply(State(DbWith(fork, back), last), added, window, cx).d,
                        FollowApply(State(d, last), added, window, cx).d;
      SameIndexReads(z, x) && (SameReads(z, x) <==> back == d.core.rows.totals)
  {
    hide *;
    var x, y, daa := Apply(d, added, cx), Apply(fork, added, cx), added[|added| - 1].daa;
    ForkTwins(d, fork, added, cx, log);
    ApplyWith(fork, added, cx, log, back);
    ApplyCredits(fork, added, cx, log);
    var base, k, ls := d.nextTxNum, fork.nextTxNum - d.nextTxNum, NewLedgers(fork, y);
    var credited := CreditAll(back, ls);
    CreditAllCounts(back, d.core.rows.totals, ls);
    CreditAllInjective(back, d.core.rows.totals, ls);
    BranchSameMarks(d, fork, back, added);
    FreshOfNew(d, added, cx);
    FreshOfNew(DbWith(fork, back), added, cx);
    ReachedOfBranch(d, added, cx);
    ReachedOfBranch(DbWith(fork, back), added, cx);
    if Due(window, last, daa) {
      FollowSweeps(State(d, last), added, window, cx);
      FollowSweeps(State(DbWith(fork, back), last), added, window, cx);
      SweepWith(y, credited, daa - window);
      TwinSweep(x, y, base, k, daa - window);
      SweepSound(x, LogAfter(log, d, x), daa - window);
      SweepSound(y, LogAfter(log, fork, y), daa - window);
      SweepSameCheckpoint(x, daa - window);
      SweepSameCheckpoint(y, daa - window);
      TwinReads(Expire(x, daa - window), Expire(y, daa - window), LogAfter(log, d, x), LogAfter(log, fork, y), base, k);
      SameReadsSymmetric(Expire(x, daa - window), Expire(y, daa - window));
      ReadsWith(Expire(y, daa - window), Expire(x, daa - window), credited);
    } else {
      FollowSkips(State(d, last), added, window, cx);
      FollowSkips(State(DbWith(fork, back), last), added, window, cx);
      TwinReads(x, y, LogAfter(log, d, x), LogAfter(log, fork, y), base, k);
      SameReadsSymmetric(x, y);
      ReadsWith(y, x, credited);
    }
  }

  lemma BranchSameMarks(d: Database, fork: Database, back: map<string, Totals>, gs: seq<Group>)
    requires Branch(d, gs) && fork.core == d.core
    ensures forall i :: 0 <= i < |gs| ==> gs[i].hash !in d.core.blocks.applied
    ensures forall i :: 0 <= i < |gs| ==> gs[i].hash !in DbWith(fork, back).core.blocks.applied
    ensures forall i, j :: 0 <= i < j < |gs| ==> gs[i].hash != gs[j].hash
  {
    hide Legal;
  }

  // --- unwinding after a sweep that spared the branch ---

  /** Every block of the branch that holds transactions is at or above the cutoff. */
  ghost predicate Spared(gs: seq<Group>, cutoff: nat) {
    forall i :: 0 <= i < |gs| && gs[i].txs != [] ==> gs[i].daa >= cutoff
  }

  lemma SameExpired(tx: map<nat, IndexedTx>, tx': map<nat, IndexedTx>, num: nat, k: nat, h: string, daa: nat,
    cutoff: nat)
    requires InsertedRange(tx, tx', num, k, h, daa) && (k > 0 ==> daa >= cutoff) && forall n :: n in tx ==> n < num
    ensures Expired(tx', cutoff) == Expired(tx, cutoff)
  {
    forall n ensures n in Expired(tx', cutoff) <==> n in Expired(tx, cutoff) {
      if n in Expired(tx', cutoff) {
        assert tx'[n].daa < cutoff;
      }
    }
  }

  lemma RangeSplits(tx: map<nat, IndexedTx>, tx': map<nat, IndexedTx>, num: nat, k: nat, h: string, daa: nat)
    requires InsertedRange(tx, tx', num, k, h, daa) && forall n :: n in tx ==> n < num
    ensures tx' - Members(Numbers(num, k)) == tx
  {
    forall n ensures n in Members(Numbers(num, k)) <==> num <= n < num + k {
      if num <= n < num + k { assert Numbers(num, k)[n - num] == n; }
    }
  }

  lemma RemovesCommute(tx: map<nat, IndexedTx>, x: set<nat>, y: set<nat>)
    ensures (tx - x) - y == (tx - y) - x
  {
  }

  function OldKeys(b: Blocks, cutoff: nat): set<(nat, string)> {
    set k | k in b.chainByDaa && k.0 < cutoff
  }

  function OldHashes(b: Blocks, cutoff: nat): set<string> {
    set k | k in OldKeys(b, cutoff) :: b.chainByDaa[k]
  }

  lemma DropBlocksIs(b: Blocks, cutoff: nat)
    ensures var keys, hs := OldKeys(b, cutoff), OldHashes(b, cutoff);
      DropBlocks(b, cutoff) == Blocks(b.applied - hs, b.chainByDaa - keys, b.acceptedBy - hs)
  {
  }

  lemma NewHash(r: Rows, b: Blocks, h: string, daa: nat, cutoff: nat)
    requires BlocksCoupled(Core(r, b)) && h !in b.applied
    ensures (daa, h) !in b.chainByDaa && h !in b.acceptedBy && h !in OldHashes(b, cutoff)
  {
    hide Listed;
  }

  lemma RecordedKeys(b: Blocks, h: string, daa: nat, nums: seq<nat>, cutoff: nat)
    requires (daa, h) !in b.chainByDaa
    ensures var b' := RecordBlock(b, h, daa, nums);
      && (daa >= cutoff ==> OldKeys(b', cutoff) == OldKeys(b, cutoff) && OldHashes(b', cutoff) == OldHashes(b, cutoff))
      && (daa < cutoff ==> OldKeys(b', cutoff) == OldKeys(b, cutoff) + {(daa, h)} &&
                           OldHashes(b', cutoff) == OldHashes(b, cutoff) + {h})
  {
    var b' := RecordBlock(b, h, daa, nums);
    var before, after := OldKeys(b, cutoff), OldKeys(b', cutoff);
    assert after == if daa >= cutoff then before else before + {(daa, h)};
    assert forall k :: k in before ==> b'.chainByDaa[k] == b.chainByDaa[k];
    if daa < cutoff {
      assert b'.chainByDaa[(daa, h)] == h;
    }
  }

  lemma UpdateErased<K, V>(m: map<K, V>, k: K, v: V, gone: set<K>)
    requires k !in m
    ensures m[k := v] - (gone + {k}) == m - gone
    ensures k !in gone ==> (m[k := v] - gone) - {k} == m - gone && k in m[k := v] - gone && (m[k := v] - gone)[k] == v
  {
    assert (m[k := v] - (gone + {k})).Keys == (m - gone).Keys;
    if k !in gone {
      assert ((m[k := v] - gone) - {k}).Keys == (m - gone).Keys;
    }
  }

  /** The chain tables: recording, sweeping and forgetting a block again. */
  lemma ForgetSwept(r: Rows, b: Blocks, h: string, daa: nat, nums: seq<nat>, cutoff: nat)
    requires BlocksCoupled(Core(r, b)) && h !in b.applied
    ensures daa >= cutoff ==> ForgetBlock(DropBlocks(RecordBlock(b, h, daa, nums), cutoff), h) == DropBlocks(b, cutoff)
    ensures daa < cutoff ==> DropBlocks(RecordBlock(b, h, daa, nums), cutoff) == DropBlocks(b, cutoff)
  {
    hide BlocksCoupled, DropBlocks, OldKeys, OldHashes;
    NewHash(r, b, h, daa, cutoff);
    RecordedKeys(b, h, daa, nums, cutoff);
    DropBlocksIs(b, cutoff);
    DropBlocksIs(RecordBlock(b, h, daa, nums), cutoff);
    OldKeyIs(b, cutoff, (daa, h));
    UpdateErased(b.applied, h, daa, OldHashes(b, cutoff));
    UpdateErased(b.chainByDaa, (daa, h), h, OldKeys(b, cutoff));
    UpdateErased(b.acceptedBy, h, nums, OldHashes(b, cutoff));
  }

  lemma OldKeyIs(b: Blocks, cutoff: nat, k: (nat, string))
    ensures k in OldKeys(b, cutoff) <==> k in b.chainByDaa && k.0 < cutoff
  {
  }

  lemma SweptParts2(d: Database, cutoff: nat)
    ensures var c := Expire(d, cutoff).core;
      && c == ExpireCore(d.core, cutoff) && c.rows.tx == d.core.rows.tx - Expired(d.core.rows.tx, cutoff)
      && c.blocks == DropBlocks(d.core.blocks, cutoff)
  {
    hide Expired, DropBlocks, ExpireInference;
  }

  /** What the state before `g` and the state after it look like once swept. */
  lemma SweptTx(mid: Database, g: Group, cx: Codec, log: Log, cutoff: nat)
    requires Inv(mid, log) && g.hash !in mid.core.blocks.applied && (g.txs != [] ==> g.daa >= cutoff)
    ensures var c, c' := ExpireCore(mid.core, cutoff), ExpireCore(ApplyGroup(mid, g, cx).core, cutoff);
      && c'.rows.tx - Members(Numbers(mid.nextTxNum, |g.txs|)) == c.rows.tx
      && (forall n :: mid.nextTxNum <= n < mid.nextTxNum + |g.txs| ==> n in c'.rows.tx)
      && Ledgers(c'.rows.tx, mid.nextTxNum, |g.txs|) ==
           Ledgers(ApplyGroup(mid, g, cx).core.rows.tx, mid.nextTxNum, |g.txs|)
  {
    hide *;
    var d', num, k := ApplyGroup(mid, g, cx), mid.nextTxNum, |g.txs|;
    GroupRange(mid, g, cx, log);
    SameExpired(mid.core.rows.tx, d'.core.rows.tx, num, k, g.hash, g.daa, cutoff);
    SweptParts2(mid, cutoff);
    SweptParts2(d', cutoff);
    RangeSplits(mid.core.rows.tx, d'.core.rows.tx, num, k, g.hash, g.daa);
    RemovesCommute(d'.core.rows.tx, Expired(mid.core.rows.tx, cutoff), Members(Numbers(num, k)));
    ExpiredBelow(mid.core.rows.tx, cutoff, num);
    RangeIsStored(mid.core.rows.tx, d'.core.rows.tx, num, k, g.hash, g.daa);
    KeptLedgers(d'.core.rows.tx, Expired(mid.core.rows.tx, cutoff), num, k);
  }

  lemma ExpiredBelow(tx: map<nat, IndexedTx>, cutoff: nat, num: nat)
    requires forall n :: n in tx ==> n < num
    ensures forall n :: n in Expired(tx, cutoff) ==> n < num
  {
  }

  lemma KeptLedgers(tx: map<nat, IndexedTx>, gone: set<nat>, num: nat, k: nat)
    requires (forall n :: n in gone ==> n < num) && forall n :: num <= n < num + k ==> n in tx
    ensures forall n :: num <= n < num + k ==> n in tx - gone
    ensures Ledgers(tx - gone, num, k) == Ledgers(tx, num, k)
  {
    LedgersFrame(tx - gone, tx, num, k);
  }

  lemma LogSplits(mid: Database, g: Group, cx: Codec, log: Log)
    requires Inv(mid, log) && g.hash !in mid.core.blocks.applied
    ensures var d' := ApplyGroup(mid, g, cx);
      (log + Since(d'.core.rows.tx, mid.nextTxNum)) - Members(Numbers(mid.nextTxNum, |g.txs|)) == log
  {
    hide *;
    UnfoldInv(mid, log);
    GroupRange(mid, g, cx, log);
    BackToStart(mid.core.rows, ApplyGroup(mid, g, cx).core.rows, mid.nextTxNum, |g.txs|, g.hash, g.daa, log);
  }

  /** A block the sweep spared comes off exactly, apart from the totals. */
  lemma UnwindSpared(mid: Database, g: Group, cx: Codec, log: Log, cutoff: nat, totals: map<string, Totals>)
    requires Sound(mid, log) && g.hash !in mid.core.blocks.applied && Legal(mid.core.rows.tx, g.txs) && g.daa >= cutoff
    ensures var d' := ApplyGroup(mid, g, cx);
      UnwindBlock(CoreWith(ExpireCore(d'.core, cutoff), totals), g.hash) ==
        CoreWith(ExpireCore(mid.core, cutoff), UncreditAll(totals, Ledgers(d'.core.rows.tx, mid.nextTxNum, |g.txs|)))
  {
    hide *;
    var d', num, k := ApplyGroup(mid, g, cx), mid.nextTxNum, |g.txs|;
    var log' := LogAfter(log, mid, d');
    var e, e' := Expire(mid, cutoff), Expire(d', cutoff);
    UnfoldLog(log, mid, d');
    UnfoldSoundInv(mid, log);
    ApplyLegalGroup(mid, g, cx, log);
    ApplyGroupRows(mid, g, cx);
    SweepSound(mid, log, cutoff);
    SweepSound(d', log', cutoff);
    SweepSameCheckpoint(mid, cutoff);
    SweepSameCheckpoint(d', cutoff);
    UnfoldSound(e, log);
    UnfoldSound(e', log');
    UnfoldSound(mid, log);
    UnfoldSoundInv(d', log');
    SparedList(mid, g, cx, cutoff, log');
    SweptTx(mid, g, cx, log, cutoff);
    LogSplits(mid, g, cx, log);
    UnwindAppliedKeeps(e'.core, d'.nextTxNum, g.hash, log');
    UnwoundRows(e'.core, g.hash);
    RemoveTxsKeepsComplete(e'.core.rows, Numbers(num, k));
    RowsAreDetermined(e.core.rows, UnwindBlock(e'.core, g.hash).rows, log, mid.nextTxNum, d'.nextTxNum);
    SweptParts2(mid, cutoff);
    SweptParts2(d', cutoff);
    ForgetSwept(mid.core.rows, mid.core.blocks, g.hash, g.daa, Numbers(num, k), cutoff);
    CoreParts(mid.core);
    UnwindBlockWith(e'.core, totals, g.hash, num, k);
    WithTwice(UnwindBlock(e'.core, g.hash), e.core, UncreditAll(totals, Ledgers(d'.core.rows.tx, num, k)));
  }

  lemma CoreParts(c: Core)
    ensures Core(c.rows, c.blocks) == c
  {
  }

  lemma UnwoundRows(c: Core, h: string)
    requires h in c.blocks.acceptedBy
    ensures UnwindBlock(c, h).rows == RemoveTxs(c.rows, c.blocks.acceptedBy[h])
    ensures UnwindBlock(c, h).blocks == ForgetBlock(c.blocks, h)
  {
    hide RemoveTxs, ForgetBlock;
  }

  lemma SparedList(mid: Database, g: Group, cx: Codec, cutoff: nat, log: Log)
    requires g.hash !in mid.core.blocks.applied && g.daa >= cutoff && Inv(ApplyGroup(mid, g, cx), log)
    ensures var b := Expire(ApplyGroup(mid, g, cx), cutoff).core.blocks;
      g.hash in b.acceptedBy && b.acceptedBy[g.hash] == Numbers(mid.nextTxNum, |g.txs|)
  {
    hide *;
    var d' := ApplyGroup(mid, g, cx);
    UnfoldInv(d', log);
    ApplyGroupRows(mid, g, cx);
    RecordedBlock(mid.core.blocks, g.hash, g.daa, Numbers(mid.nextTxNum, |g.txs|));
    DropBlocksApplied(d'.core, cutoff, g.hash);
    DroppedLists(d'.core, cutoff, g.hash);
    SweptParts2(d', cutoff);
  }

  lemma RecordedBlock(b: Blocks, h: string, daa: nat, nums: seq<nat>)
    ensures var b' := RecordBlock(b, h, daa, nums);
      h in b'.acceptedBy && b'.acceptedBy[h] == nums && h in b'.applied && b'.applied[h] == daa
  {
  }

  /** A block without transactions below the cutoff is gone already. */
  lemma UnwindBareSwept(mid: Database, g: Group, cx: Codec, log: Log, cutoff: nat, totals: map<string, Totals>)
    requires Inv(mid, log) && g.hash !in mid.core.blocks.applied && g.txs == [] && g.daa < cutoff
    ensures var d' := ApplyGroup(mid, g, cx);
      UnwindBlock(CoreWith(ExpireCore(d'.core, cutoff), totals), g.hash) ==
        CoreWith(ExpireCore(mid.core, cutoff), UncreditAll(totals, Ledgers(d'.core.rows.tx, mid.nextTxNum, |g.txs|)))
  {
    hide *;
    var d' := ApplyGroup(mid, g, cx);
    UnfoldInv(mid, log);
    ApplyGroupRows(mid, g, cx);
    InsertTxsNone(mid.core.rows, mid.nextTxNum, g.hash, g.daa, cx.attr);
    ForgetSwept(mid.core.rows, mid.core.blocks, g.hash, g.daa, Numbers(mid.nextTxNum, 0), cutoff);
    CoreParts(mid.core);
    SameSweep(mid.core, d'.core, cutoff);
    ApplyFreshKeeps(mid, g, cx, log);
    UnfoldInv(d', log + Since(d'.core.rows.tx, mid.nextTxNum));
    GroupMarked(mid, g, cx);
    DropBlocksApplied(d'.core, cutoff, g.hash);
    SweptParts2(d', cutoff);
    WithBlocks(ExpireCore(d'.core, cutoff), totals);
    UnlistedNoOp(CoreWith(ExpireCore(d'.core, cutoff), totals), g.hash);
    NoLedgers(d'.core.rows.tx, mid.nextTxNum, totals);
  }

  lemma SameSweep(c: Core, c': Core, cutoff: nat)
    requires c'.rows == c.rows && DropBlocks(c'.blocks, cutoff) == DropBlocks(c.blocks, cutoff)
    ensures ExpireCore(c', cutoff) == ExpireCore(c, cutoff)
  {
    hide DropTxs, DropBlocks, Expired;
  }

  lemma UnlistedNoOp(c: Core, h: string)
    ensures h !in c.blocks.acceptedBy ==> UnwindBlock(c, h) == c
  {
    hide RemoveTxs, ForgetBlock;
  }

  lemma WithBlocks(c: Core, totals: map<string, Totals>)
    ensures CoreWith(c, totals).blocks == c.blocks
  {
  }

  lemma NoLedgers(tx: map<nat, IndexedTx>, num: nat, totals: map<string, Totals>)
    ensures Ledgers(tx, num, 0) == [] && UncreditAll(totals, Ledgers(tx, num, 0)) == totals
  {
  }

  lemma SparedPrefix(gs: seq<Group>, cutoff: nat)
    requires Spared(gs, cutoff) && gs != []
    ensures Spared(gs[..|gs| - 1], cutoff) && (gs[|gs| - 1].txs != [] ==> gs[|gs| - 1].daa >= cutoff)
  {
  }

  /** Unwinding a spared branch after the sweep, whatever the totals. */
  lemma {:induction false} UnwindSweptWith(
    d: Database, gs: seq<Group>, cutoff: nat, cx: Codec, log: Log, totals: map<string, Totals>)
    requires Sound(d, log) && Branch(d, gs) && Spared(gs, cutoff)
    ensures var d' := Apply(d, gs, cx);
      && d.nextTxNum <= d'.nextTxNum
      && UnwindAll(CoreWith(ExpireCore(d'.core, cutoff), totals), HighToLow(gs)) ==
           CoreWith(ExpireCore(d.core, cutoff), UncreditAll(totals, NewLedgers(d, d')))
    decreases |gs|
  {
    if gs == [] {
      ApplyNone(d, cx);
      UnwindNone(CoreWith(ExpireCore(d.core, cutoff), totals));
      NewLedgersNone(d);
    } else {
      UnwindSweptStep(d, gs, cutoff, cx, log, totals);
    }
    hide *;
  }

  lemma {:induction false} UnwindSweptStep(
    d: Database, gs: seq<Group>, cutoff: nat, cx: Codec, log: Log, totals: map<string, Totals>)
    requires Sound(d, log) && Branch(d, gs) && Spared(gs, cutoff) && gs != []
    ensures var d' := Apply(d, gs, cx);
      && d.nextTxNum <= d'.nextTxNum
      && UnwindAll(CoreWith(ExpireCore(d'.core, cutoff), totals), HighToLow(gs)) ==
           CoreWith(ExpireCore(d.core, cutoff), UncreditAll(totals, NewLedgers(d, d')))
    decreases |gs|, 0
  {
    hide *;
    var k := |gs| - 1;
    var mid, d', g := Apply(d, gs[..k], cx), Apply(d, gs, cx), gs[k];
    var log1 := LogAfter(log, d, mid);
    HighToLowIs(gs);
    BranchPrefix(d, gs);
    SparedPrefix(gs, cutoff);
    ApplyBranch(d, gs[..k], cx, log);
    BranchNext(d, mid, gs);
    ApplyLegalGroup(mid, g, cx, log1);
    ApplySnoc(d, gs, cx);
    ApplyGroupRows(mid, g, cx);
    if g.daa >= cutoff {
      UnwindSpared(mid, g, cx, log1, cutoff, totals);
    } else {
      UnfoldSoundInv(mid, log1);
      UnwindBareSwept(mid, g, cx, log1, cutoff, totals);
    }
    NewLedgersJoin(d, mid, d');
    NewLedgersOf(mid, d', |g.txs|);
    UncreditAllConcat(totals, NewLedgers(d, mid), NewLedgers(mid, d'));
    UnwindFirst(CoreWith(ExpireCore(d'.core, cutoff), totals), g.hash, HighToLow(gs[..k]));
    UnwindSweptWith(d, gs[..k], cutoff, cx, log, UncreditAll(totals, NewLedgers(mid, d')));
  }

  // --- the follower's reorg ---

  /** A follower that never saw `gone`, but ran the sweep `gone` triggers, if any. */
  function SweptFork(f: State, gone: seq<Group>, window: nat, cx: Codec): State {
    var daa := StatsFor(f.d, gone, cx).checkpointDaa;
    if Due(window, f.last, daa) && window <= daa then State(Expire(f.d, daa - window), daa) else f
  }

  /** The sweep `gone` triggers spares every block of it that holds transactions. */
  ghost predicate SparedBySweep(f: State, gone: seq<Group>, window: nat, cx: Codec) {
    var daa := StatsFor(f.d, gone, cx).checkpointDaa;
    Due(window, f.last, daa) ==> forall i :: 0 <= i < |gone| && gone[i].txs != [] ==> gone[i].daa + window >= daa
  }

  lemma SparedIs(gone: seq<Group>, window: nat, daa: nat)
    requires daa >= window
    ensures Spared(gone, daa - window) <==> forall i :: 0 <= i < |gone| && gone[i].txs != [] ==>
      gone[i].daa + window >= daa
  {
  }

  lemma BranchAfterSweep(d: Database, gs: seq<Group>, cutoff: nat)
    requires Branch(d, gs)
    ensures Branch(Expire(d, cutoff), gs)
  {
    SweptParts2(d, cutoff);
    hide Expire, ExpireCore, Expired;
    var e := Expire(d, cutoff);
    assert forall h :: h in e.core.blocks.applied ==> h in d.core.blocks.applied;
    LegalLess(d.core.rows.tx, Expired(d.core.rows.tx, cutoff), AllTxs(gs));
  }

  lemma LegalLess(tx: map<nat, IndexedTx>, gone: set<nat>, txs: seq<RawTx>)
    requires Legal(tx, txs)
    ensures Legal(tx - gone, txs)
  {
    hide SpentBy;
    forall i | 0 <= i < |txs| ensures CleanTx(tx - gone, txs[i]) {
      assert CleanTx(tx, txs[i]);
    }
  }

  /** What the rolled-back totals look like beside the fork's. */
  lemma RolledBackCounts(d: Database, gone: seq<Group>, cx: Codec, log: Log)
    requires Sound(d, log) && Branch(d, gone)
    ensures var back, totals := RolledBack(d, gone, cx), d.core.rows.totals;
      && back.Keys == totals.Keys && (forall a :: a in back ==> back[a].count == totals[a].count)
      && (back == totals <==> forall a :: Survives(d, gone, a, cx.attr))
  {
    hide *;
    UnwindBranch(d, gone, cx, log);
    SameCoreIff(d.core, RolledBack(d, gone, cx), d.core.rows.totals);
    EmptiedCounts(d.core.rows.totals, RolledBack(d, gone, cx));
  }

  /** With a sweep on the abandoned branch. */
  lemma SweptReorg(f: State, gone: seq<Group>, added: seq<Group>, window: nat, cx: Codec, log: Log)
    requires Sound(f.d, log) && Branch(f.d, gone) && Branch(f.d, added) && added != []
    requires var daa := StatsFor(f.d, gone, cx).checkpointDaa;
      Due(window, f.last, daa) && window <= daa && Spared(gone, daa - window)
    ensures var z, x := FollowNotice(FollowApply(f, gone, window, cx), HighToLow(gone), added, window, cx).d,
                        FollowApply(SweptFork(f, gone, window, cx), added, window, cx).d;
      SameIndexReads(z, x) && (SameReads(z, x) <==> forall a :: Survives(f.d, gone, a, cx.attr))
  {
    hide *;
    var d, daa := f.d, StatsFor(f.d, gone, cx).checkpointDaa;
    var c, d' := daa - window, Apply(f.d, gone, cx);
    var e, e', back := Expire(d, c), Expire(d', c), RolledBack(d, gone, cx);
    var fork := e'.(core := e.core);
    FollowSweeps(f, gone, window, cx);
    SweptForkIs(f, gone, window, cx);
    RolledBackIs(d, gone, cx, log);
    RolledBackCounts(d, gone, cx, log);
    UnfoldSoundInv(d, log);
    ApplyCredits(d, gone, cx, log);
    SweepSameCheckpoint(d, c);
    SweepSameCheckpoint(d', c);
    UnwindSweptWith(d, gone, c, cx, log, d'.core.rows.totals);
    OwnTotals(e');
    DbWithIs(fork, back);
    NoticeIs(State(e', daa), HighToLow(gone), added, window, cx);
    RemovedParts(State(e', daa), HighToLow(gone));
    SweepSound(d, log, c);
    BranchAfterSweep(d, added, c);
    ForkFollow(e, fork, added, window, daa, cx, log, back);
  }

  lemma DbWithIs(d: Database, totals: map<string, Totals>)
    ensures DbWith(d, totals) == d.(core := CoreWith(d.core, totals))
  {
  }

  lemma SweptForkIs(f: State, gone: seq<Group>, window: nat, cx: Codec)
    ensures var daa := StatsFor(f.d, gone, cx).checkpointDaa;
      && (Due(window, f.last, daa) ==>
            window <= daa && SweptFork(f, gone, window, cx) == State(Expire(f.d, daa - window), daa))
      && (!Due(window, f.last, daa) ==> SweptFork(f, gone, window, cx) == f)
  {
    hide StatsFor, Expire;
  }

  /** Without one. */
  lemma UnsweptReorg(f: State, gone: seq<Group>, added: seq<Group>, window: nat, cx: Codec, log: Log)
    requires Sound(f.d, log) && Branch(f.d, gone) && Branch(f.d, added) && added != []
    requires !Due(window, f.last, StatsFor(f.d, gone, cx).checkpointDaa)
    ensures var z, x := FollowNotice(FollowApply(f, gone, window, cx), HighToLow(gone), added, window, cx).d,
                        FollowApply(SweptFork(f, gone, window, cx), added, window, cx).d;
      SameIndexReads(z, x) && (SameReads(z, x) <==> forall a :: Survives(f.d, gone, a, cx.attr))
  {
    hide *;
    var d, d', back := f.d, Apply(f.d, gone, cx), RolledBack(f.d, gone, cx);
    var fork := d'.(core := d.core);
    FollowSkips(f, gone, window, cx);
    SweptForkIs(f, gone, window, cx);
    RolledBackIs(d, gone, cx, log);
    RolledBackCounts(d, gone, cx, log);
    DbWithIs(fork, back);
    NoticeIs(State(d', f.last), HighToLow(gone), added, window, cx);
    RemovedParts(State(d', f.last), HighToLow(gone));
    ForkFollow(d, fork, added, window, f.last, cx, log, back);
    StateIs(f);
  }

  lemma StateIs(f: State)
    ensures State(f.d, f.last) == f
  {
  }

  // --- a sweep that took part of the branch ---

  lemma {:induction false} BranchListed(d: Database, gs: seq<Group>, cx: Codec, i: nat) returns (num: nat)
    requires i < |gs|
    requires forall j :: 0 <= j < |gs| ==> gs[j].hash !in d.core.blocks.applied
    requires forall j, k :: 0 <= j < k < |gs| ==> gs[j].hash != gs[k].hash
    ensures var b := Apply(d, gs, cx).core.blocks;
      && d.nextTxNum <= num
      && gs[i].hash in b.acceptedBy && b.acceptedBy[gs[i].hash] == Numbers(num, |gs[i].txs|)
      && gs[i].hash in b.applied && b.applied[gs[i].hash] == gs[i].daa
    decreases |gs|
  {
    hide *;
    var k := |gs| - 1;
    var mid := Apply(d, gs[..k], cx);
    ApplySnoc(d, gs, cx);
    ApplyMarks(d, gs[..k], cx);
    ApplyCounts(d, gs[..k], cx);
    assert gs[k].hash !in mid.core.blocks.applied;
    ApplyGroupRows(mid, gs[k], cx);
    if i == k {
      num := mid.nextTxNum;
      RecordedBlock(mid.core.blocks, gs[k].hash, gs[k].daa, Numbers(mid.nextTxNum, |gs[k].txs|));
    } else {
      num := BranchListed(d, gs[..k], cx, i);
      RecordedOther(mid.core.blocks, gs[k].hash, gs[k].daa, Numbers(mid.nextTxNum, |gs[k].txs|), gs[i].hash);
    }
  }

  lemma RecordedOther(b: Blocks, h: string, daa: nat, nums: seq<nat>, x: string)
    requires x != h
    ensures var b' := RecordBlock(b, h, daa, nums);
      && (x in b'.acceptedBy <==> x in b.acceptedBy) && (x in b.acceptedBy ==> b'.acceptedBy[x] == b.acceptedBy[x])
      && (x in b'.applied <==> x in b.applied) && (x in b.applied ==> b'.applied[x] == b.applied[x])
  {
  }

  lemma {:induction false} ApplyCounts(d: Database, gs: seq<Group>, cx: Codec)
    ensures d.nextTxNum <= Apply(d, gs, cx).nextTxNum
    decreases |gs|
  {
    hide InsertTxs, IndexTxs, Numbers, RecordBlock;
    if gs != [] {
      ApplyCounts(d, gs[..|gs| - 1], cx);
    }
  }

  /** A block not listed before is listed under new numbers only. */
  lemma {:induction false} NewLists(d: Database, gs: seq<Group>, cx: Codec, h: string, n: nat)
    requires h !in d.core.blocks.acceptedBy
    requires var b := Apply(d, gs, cx).core.blocks; h in b.acceptedBy && n in b.acceptedBy[h]
    ensures d.nextTxNum <= n
    decreases |gs|
  {
    hide *;
    if gs == [] {
      ApplyNone(d, cx);
    } else {
      var k := |gs| - 1;
      var mid := Apply(d, gs[..k], cx);
      ApplySnoc(d, gs, cx);
      ApplyCounts(d, gs[..k], cx);
      if gs[k].hash in mid.core.blocks.applied {
        ApplyMarked(mid, gs[k], cx);
        NewLists(d, gs[..k], cx, h, n);
      } else {
        ApplyGroupRows(mid, gs[k], cx);
        var nums := Numbers(mid.nextTxNum, |gs[k].txs|);
        if h == gs[k].hash {
          RecordedBlock(mid.core.blocks, h, gs[k].daa, nums);
          NumbersFrom(mid.nextTxNum, |gs[k].txs|, n);
        } else {
          RecordedOther(mid.core.blocks, gs[k].hash, gs[k].daa, nums, h);
          NewLists(d, gs[..k], cx, h, n);
        }
      }
    }
  }

  lemma NumbersFrom(num: nat, k: nat, n: nat)
    requires n in Numbers(num, k)
    ensures num <= n
  {
  }

  lemma {:induction false} UnwindSublists(c: Core, hs: seq<string>, h: string)
    ensures h in UnwindAll(c, hs).blocks.acceptedBy ==>
      h in c.blocks.acceptedBy && UnwindAll(c, hs).blocks.acceptedBy[h] == c.blocks.acceptedBy[h]
    ensures h in UnwindAll(c, hs).blocks.applied ==> h in c.blocks.applied
    decreases |hs|
  {
    hide UnwindBlock;
    if hs != [] {
      UnwindSublists(c, hs[..|hs| - 1], h);
      UnwindSublist(UnwindAll(c, hs[..|hs| - 1]), hs[|hs| - 1], h);
    }
  }

  lemma {:induction false} UndoneWasListed(c: Core, hs: seq<string>, n: nat) returns (h: string)
    requires n in UndoneAll(c, hs)
    ensures h in hs && h in c.blocks.acceptedBy && n in c.blocks.acceptedBy[h]
    decreases |hs|
  {
    hide UnwindBlock, UnwindAll;
    var k := |hs| - 1;
    if n in UndoneAll(c, hs[..k]) {
      h := UndoneWasListed(c, hs[..k], n);
    } else {
      h := hs[k];
      UnwindSublists(c, hs[..k], h);
    }
  }

  lemma {:induction false} HighToLowMembers(gs: seq<Group>, h: string)
    ensures h in HighToLow(gs) <==> HasHash(gs, h)
    decreases |gs|
  {
    hide HasHash;
    if gs == [] {
      NoHash(h);
    } else {
      var k := |gs| - 1;
      HighToLowMembers(gs[..k], h);
      FreshHashSnoc(gs[..k], gs[k], h);
      assert gs == gs[..k] + [gs[k]];
    }
  }

  lemma HasHashIs(gs: seq<Group>, h: string)
    ensures HasHash(gs, h) <==> h in set i | 0 <= i < |gs| :: gs[i].hash
  {
  }

  /** The store after the reorg's removals, when the sweep had taken block `i` of the branch:
      it counts more than the fork did. */
  lemma LostStaysCounted(d: Database, gone: seq<Group>, cutoff: nat, cx: Codec, log: Log, i: nat)
    requires Sound(d, log) && Branch(d, gone) && i < |gone| && gone[i].txs != [] && gone[i].daa < cutoff
    ensures UnwindAll(Expire(Apply(d, gone, cx), cutoff).core, HighToLow(gone)).rows.totalTxs > d.core.rows.totalTxs
  {
    hide *;
    var d', hs := Apply(d, gone, cx), HighToLow(gone);
    var e', log' := Expire(d', cutoff), log + Since(d'.core.rows.tx, d.nextTxNum);
    UnfoldSoundInv(d, log);
    ApplyKeeps(d, gone, cx, log);
    ExpireKeeps(d', cutoff, log');
    UnwindAllInv(e', hs, log');
    var undone := UndoneAll(e'.core, hs);
    TotalOf(d, log);
    TotalOf(e'.(core := UnwindAll(e'.core, hs)), log' - undone);
    var num := LostNumber(d, gone, cutoff, cx, log, i);
    BooksBelow(d, log);
    forall n | n in log ensures n !in undone {
      if n in undone {
        OldIsNotUndone(d, gone, cutoff, cx, log, n);
      }
    }
    GrownLog(log, log', undone, num);
  }

  lemma GrownLog(log: Log, log': Log, undone: set<nat>, num: nat)
    requires (forall n :: n in log ==> n in log' && n !in undone) && num in log' && num !in undone && num !in log
    ensures |log' - undone| > |log|
  {
    var big := (log' - undone).Keys;
    assert log.Keys + {num} <= big;
    SubsetSize(log.Keys + {num}, big);
  }

  lemma {:induction false} SubsetSize(s: set<nat>, t: set<nat>)
    requires s <= t
    ensures |s| <= |t|
  {
    assert t == s + (t - s);
  }

  lemma OldIsNotUndone(d: Database, gone: seq<Group>, cutoff: nat, cx: Codec, log: Log, n: nat)
    requires Sound(d, log) && Branch(d, gone) &&
      n in UndoneAll(Expire(Apply(d, gone, cx), cutoff).core, HighToLow(gone))
    ensures d.nextTxNum <= n
  {
    hide *;
    var d' := Apply(d, gone, cx);
    var h := UndoneWasListed(Expire(d', cutoff).core, HighToLow(gone), n);
    HighToLowMembers(gone, h);
    BranchUnlisted(d, gone, log, h);
    UnfoldSoundInv(d, log);
    ApplyKeeps(d, gone, cx, log);
    UnfoldInv(d', log + Since(d'.core.rows.tx, d.nextTxNum));
    SweptParts2(d', cutoff);
    DroppedLists(d'.core, cutoff, h);
    NewLists(d, gone, cx, h, n);
  }

  lemma BranchUnlisted(d: Database, gone: seq<Group>, log: Log, h: string)
    requires Sound(d, log) && Branch(d, gone) && HasHash(gone, h)
    ensures h !in d.core.blocks.acceptedBy
  {
    hide RowsInv, Complete, Listed, Legal;
  }

  /** A transaction of the lost block: still in the books, and nowhere listed. */
  lemma LostNumber(d: Database, gone: seq<Group>, cutoff: nat, cx: Codec, log: Log, i: nat) returns (num: nat)
    requires Sound(d, log) && Branch(d, gone) && i < |gone| && gone[i].txs != [] && gone[i].daa < cutoff
    ensures var d' := Apply(d, gone, cx);
      && num in log + Since(d'.core.rows.tx, d.nextTxNum) && num !in log
      && num !in UndoneAll(Expire(d', cutoff).core, HighToLow(gone))
  {
    hide *;
    var d', g := Apply(d, gone, cx), gone[i];
    var log' := log + Since(d'.core.rows.tx, d.nextTxNum);
    BranchSameMarks(d, d, d.core.rows.totals, gone);
    num := BranchListed(d, gone, cx, i);
    FirstNumber(num, |g.txs|);
    UnfoldSoundInv(d, log);
    BooksBelow(d, log);
    ApplyKeeps(d, gone, cx, log);
    UndoneIsOfBlock(d', log', g.hash, num);
    ExpireKeeps(d', cutoff, log');
    UnfoldInv(d', log');
    DropBlocksApplied(d'.core, cutoff, g.hash);
    SweptParts2(d', cutoff);
    if num in UndoneAll(Expire(d', cutoff).core, HighToLow(gone)) {
      var h := UndoneWasListed(Expire(d', cutoff).core, HighToLow(gone), num);
      UndoneIsOfBlock(Expire(d', cutoff), log', h, num);
    }
  }

  lemma FirstNumber(num: nat, k: nat)
    requires k > 0
    ensures num in Numbers(num, k)
  {
    assert Numbers(num, k)[0] == num;
  }

  /** So the reads differ in `total_txs`. */
  lemma LostReorg(f: State, gone: seq<Group>, added: seq<Group>, window: nat, cx: Codec, log: Log, i: nat)
    requires Sound(f.d, log) && Branch(f.d, gone) && Branch(f.d, added)
    requires var daa := StatsFor(f.d, gone, cx).checkpointDaa;
      Due(window, f.last, daa) && window <= daa && i < |gone| && gone[i].txs != [] && gone[i].daa < daa - window
    ensures var z, x := FollowNotice(FollowApply(f, gone, window, cx), HighToLow(gone), added, window, cx).d,
                        FollowApply(SweptFork(f, gone, window, cx), added, window, cx).d;
      z.core.rows.totalTxs > x.core.rows.totalTxs
  {
    hide *;
    var d, daa := f.d, StatsFor(f.d, gone, cx).checkpointDaa;
    var c, d' := daa - window, Apply(f.d, gone, cx);
    var e, e' := Expire(d, c), Expire(d', c);
    var u := e'.(core := UnwindAll(e'.core, HighToLow(gone)));
    FollowSweeps(f, gone, window, cx);
    SweptForkIs(f, gone, window, cx);
    LostStaysCounted(d, gone, c, cx, log, i);
    SweepSameCheckpoint(d, c);
    NoticeIs(State(e', daa), HighToLow(gone), added, window, cx);
    RemovedParts(State(e', daa), HighToLow(gone));
    FollowTotal(AfterRemoval(State(e', daa), HighToLow(gone)), added, window, cx);
    FollowTotal(State(e, daa), added, window, cx);
    ApplyTotal(u, added, cx);
    ApplyTotal(e, added, cx);
    BranchAfterSweep(d, added, c);
    BranchIsFresh(e, added, cx);
    FreshAfterRemoval(d, gone, added, c, cx, log);
  }

  lemma FreshAfterRemoval(d: Database, gone: seq<Group>, added: seq<Group>, cutoff: nat, cx: Codec, log: Log)
    requires Sound(d, log) && Branch(d, gone) && Branch(d, added)
    ensures var e' := Expire(Apply(d, gone, cx), cutoff);
      Fresh(e'.(core := UnwindAll(e'.core, HighToLow(gone))), added, cx) == added
  {
    hide *;
    var d' := Apply(d, gone, cx);
    var e' := Expire(d', cutoff);
    var u := e'.(core := UnwindAll(e'.core, HighToLow(gone)));
    BranchSameMarks(d, d, d.core.rows.totals, added);
    UnfoldSoundInv(d, log);
    ApplyKeeps(d, gone, cx, log);
    ExpireKeeps(d', cutoff, log + Since(d'.core.rows.tx, d.nextTxNum));
    SameKeys(e', log + Since(d'.core.rows.tx, d.nextTxNum));
    UnwindAllUnmarks(e'.core, HighToLow(gone));
    ApplyMarks(d, gone, cx);
    SweptParts2(d', cutoff);
    DropUnmarks(d'.core.blocks, cutoff);
    forall j | 0 <= j < |added| ensures added[j].hash !in u.core.blocks.applied {
      UnwindSublists(e'.core, HighToLow(gone), added[j].hash);
      HighToLowMembers(gone, added[j].hash);
      HasHashIs(gone, added[j].hash);
    }
    FreshOfNew(u, added, cx);
  }

  lemma DropUnmarks(b: Blocks, cutoff: nat)
    ensures forall h :: h in DropBlocks(b, cutoff).applied ==> h in b.applied
  {
  }

  /** A follower that applies `gone` and is then reorganised to `added`, sweeps and all. Every read
      but the received amounts is as if it had never seen `gone` and only run the sweep `gone`
      triggered, if and only if that sweep spared the blocks of `gone` that hold transactions; and
      then the received amounts agree too if and only if every address survives `gone`. */
  lemma FollowReorgIff(f: State, gone: seq<Group>, added: seq<Group>, window: nat, cx: Codec, log: Log)
    requires Sound(f.d, log) && Branch(f.d, gone) && Branch(f.d, added) && added != []
    ensures var z, x := FollowNotice(FollowApply(f, gone, window, cx), HighToLow(gone), added, window, cx).d,
                        FollowApply(SweptFork(f, gone, window, cx), added, window, cx).d;
      && (SameIndexReads(z, x) <==> SparedBySweep(f, gone, window, cx))
      && (SameReads(z, x) <==> SparedBySweep(f, gone, window, cx) && forall a :: Survives(f.d, gone, a, cx.attr))
  {
    hide *;
    var daa := StatsFor(f.d, gone, cx).checkpointDaa;
    var z, x := FollowNotice(FollowApply(f, gone, window, cx), HighToLow(gone), added, window, cx).d,
                FollowApply(SweptFork(f, gone, window, cx), added, window, cx).d;
    SweptForkIs(f, gone, window, cx);
    SparedBySweepIs(f, gone, window, cx);
    ReadsHaveTotals(z, x);
    if !Due(window, f.last, daa) {
      UnsweptReorg(f, gone, added, window, cx, log);
    } else if Spared(gone, daa - window) {
      SweptReorg(f, gone, added, window, cx, log);
    } else {
      var i := NotSpared(gone, daa - window);
      LostReorg(f, gone, added, window, cx, log, i);
    }
  }

  lemma SparedBySweepIs(f: State, gone: seq<Group>, window: nat, cx: Codec)
    requires var daa := StatsFor(f.d, gone, cx).checkpointDaa; Due(window, f.last, daa) ==> window <= daa
    ensures var daa := StatsFor(f.d, gone, cx).checkpointDaa;
      SparedBySweep(f, gone, window, cx) <==> (Due(window, f.last, daa) ==> Spared(gone, daa - window))
  {
    hide StatsFor, Due, Spared;
    var daa := StatsFor(f.d, gone, cx).checkpointDaa;
    if Due(window, f.last, daa) {
      SparedIs(gone, window, daa);
    }
  }

  lemma NotSpared(gone: seq<Group>, cutoff: nat) returns (i: nat)
    requires !Spared(gone, cutoff)
    ensures i < |gone| && gone[i].txs != [] && gone[i].daa < cutoff
  {
    i :| 0 <= i < |gone| && gone[i].txs != [] && gone[i].daa < cutoff;
  }

  lemma ReadsHaveTotals(z: Database, x: Database)
    ensures SameReads(z, x) ==> SameIndexReads(z, x)
    ensures SameIndexReads(z, x) ==> z.core.rows.totalTxs == x.core.rows.totalTxs
  {
    hide TxById, SpendOf, HistoryOf, SameLookup;
  }
}
