/** The loops of the write transactions, over the tables they update: each is
    proved to do what module Tables says the transaction does. */
module Writers {
  import opened Types
  import opened Attribution
  import opened Scans
  import opened Tables

  // --- apply ---

  lemma OutpointsSnoc(ins: seq<TxIn>, i: nat)
    requires i < |ins|
    ensures (set x | x in ins[..i + 1] :: Outpoint(x.prevId, x.prevIndex)) ==
      (set x | x in ins[..i] :: Outpoint(x.prevId, x.prevIndex)) + {Outpoint(ins[i].prevId, ins[i].prevIndex)}
  {
    assert ins[..i + 1] == ins[..i] + [ins[i]];
  }

  function Outpoints(ins: seq<TxIn>): set<Outpoint> {
    set x | x in ins :: Outpoint(x.prevId, x.prevIndex)
  }

  ghost function PointedAt(done: set<Outpoint>, num: nat): map<Outpoint, nat> {
    map o | o in done :: num
  }

  lemma PointOne(spends: map<Outpoint, nat>, ins: seq<TxIn>, i: nat, num: nat)
    requires i < |ins|
    ensures (spends + PointedAt(Outpoints(ins[..i]), num))[Outpoint(ins[i].prevId, ins[i].prevIndex) := num] ==
      spends + PointedAt(Outpoints(ins[..i + 1]), num)
  {
    OutpointsSnoc(ins, i);
    hide Outpoints;
    assert Outpoints(ins[..i + 1]) == Outpoints(ins[..i]) + {Outpoint(ins[i].prevId, ins[i].prevIndex)};
  }

  /** Point every outpoint a transaction spends at it. */
  method WriteSpends(spends: map<Outpoint, nat>, itx: IndexedTx) returns (s: map<Outpoint, nat>)
    ensures s == spends + SpendRows(itx)
  {
    s := spends;
    var ins := itx.raw.inputs;
    if !itx.raw.isCoinbase {
      assert PointedAt(Outpoints([]), itx.num) == map[];
      assert PointedAt(Outpoints(ins), itx.num) == SpendRows(itx);
      hide PointedAt, Outpoints, SpendRows;
      for i := 0 to |ins|
        invariant s == spends + PointedAt(Outpoints(ins[..i]), itx.num)
      {
        s := s[Outpoint(ins[i].prevId, ins[i].prevIndex) := itx.num];
        PointOne(spends, ins, i, itx.num);
      }
      assert ins[..|ins|] == ins;
    }
  }

  /** The history rows of the addresses in `done`. */
  ghost function SomeRows(itx: IndexedTx, done: set<string>): map<(string, nat), HistRow>
    requires done <= itx.ledger.Keys
  {
    map a | a in done :: (a, itx.num) := RowOf(itx, a)
  }

  /** The credited totals of the addresses in `done`. */
  ghost function SomeTotals(totals: map<string, Totals>, l: Ledger, done: set<string>): map<string, Totals>
    requires done <= l.Keys
  {
    map a | a in done :: Totals(Add64(TotalsAt(totals, a).received, l[a].credit), TotalsAt(totals, a).count + 1)
  }

  lemma RowsOne(history: map<(string, nat), HistRow>, itx: IndexedTx, done: set<string>, a: string)
    requires done <= itx.ledger.Keys && a in itx.ledger && a !in done
    ensures (history + SomeRows(itx, done))[(a, itx.num) := RowOf(itx, a)] == history + SomeRows(itx, done + {a})
  {
    hide RowOf;
    assert SomeRows(itx, done + {a}) == SomeRows(itx, done)[(a, itx.num) := RowOf(itx, a)];
  }

  lemma TotalsOne(totals: map<string, Totals>, l: Ledger, done: set<string>, a: string)
    requires done <= l.Keys && a in l && a !in done
    ensures var t := totals + SomeTotals(totals, l, done);
      && TotalsAt(t, a) == TotalsAt(totals, a)
      && t[a := Totals(Add64(TotalsAt(totals, a).received, l[a].credit), TotalsAt(totals, a).count + 1)]
         == totals + SomeTotals(totals, l, done + {a})
  {
    hide Add64;
  }

  lemma LedgerEnds(history: map<(string, nat), HistRow>, totals: map<string, Totals>, itx: IndexedTx)
    ensures SomeRows(itx, {}) == map[] && SomeTotals(totals, itx.ledger, {}) == map[]
    ensures SomeRows(itx, itx.ledger.Keys) == HistoryRows(itx)
    ensures totals + SomeTotals(totals, itx.ledger, itx.ledger.Keys) == Credited(totals, itx.ledger)
  {
    hide RowOf, Add64;
  }

  /** Visit the ledger in whatever order the hash map yields it. */
  method WriteLedger(history: map<(string, nat), HistRow>, totals: map<string, Totals>, itx: IndexedTx)
    returns (h: map<(string, nat), HistRow>, t: map<string, Totals>)
    ensures h == history + HistoryRows(itx)
    ensures t == Credited(totals, itx.ledger)
  {
    hide SomeRows, SomeTotals, RowOf, Add64, HistoryRows, Credited;
    h, t := history, totals;
    LedgerEnds(history, totals, itx);
    var left := itx.ledger.Keys;
    ghost var done: set<string> := {};
    while left != {}
      invariant done <= itx.ledger.Keys && left == itx.ledger.Keys - done
      invariant h == history + SomeRows(itx, done)
      invariant t == totals + SomeTotals(totals, itx.ledger, done)
      decreases left
    {
      var a :| a in left;
      RowsOne(history, itx, done, a);
      TotalsOne(totals, itx.ledger, done, a);
      h := h[(a, itx.num) := RowOf(itx, a)];
      var was := TotalsAt(t, a);
      t := t[a := Totals(Add64(was.received, itx.ledger[a].credit), was.count + 1)];
      left := left - {a};
      done := done + {a};
    }
    assert done == itx.ledger.Keys;
  }

  /** One pass of apply's transaction loop over the row tables. */
  method WriteTx(r: Rows, num: nat, raw: RawTx, hash: string, daa: nat, attr: Attribute) returns (r': Rows)
    ensures r' == InsertTx(r, num, raw, hash, daa, attr)
  {
    hide LedgerOf, FundingOf, HistoryRows, SpendRows, Credited;
    var ledger := ComputeLedger(raw, attr, r.txById, r.tx);
    var itx := IndexedTx(num, hash, daa, raw, ledger);
    var spends := WriteSpends(r.spends, itx);
    var history, totals := WriteLedger(r.history, r.totals, itx);
    r' := Rows(r.tx[num := itx], r.txById[raw.txId := num], history, spends, totals, r.totalTxs + 1);
  }

  // --- unwind and expiry ---

  method EraseSpends(spends: map<Outpoint, nat>, raw: RawTx) returns (s: map<Outpoint, nat>)
    ensures s == spends - SpentBy(raw)
  {
    s := spends;
    var ins := raw.inputs;
    if !raw.isCoinbase {
      ghost var done: set<Outpoint> := {};
      for i := 0 to |ins|
        invariant done == set x | x in ins[..i] :: Outpoint(x.prevId, x.prevIndex)
        invariant s == spends - done
      {
        s := s - {Outpoint(ins[i].prevId, ins[i].prevIndex)};
        OutpointsSnoc(ins, i);
        done := done + {Outpoint(ins[i].prevId, ins[i].prevIndex)};
      }
      assert ins[..|ins|] == ins;
    }
  }

  method EraseHistory(history: map<(string, nat), HistRow>, itx: IndexedTx, num: nat)
    returns (h: map<(string, nat), HistRow>)
    ensures h == history - HistoryKeys(itx, num)
  {
    h := history;
    var left := itx.ledger.Keys;
    ghost var done: set<string> := {};
    while left != {}
      invariant done <= itx.ledger.Keys && left == itx.ledger.Keys - done
      invariant h == history - set a | a in done :: (a, num)
      decreases left
    {
      var a :| a in left;
      h := h - {(a, num)};
      assert (set x | x in done + {a} :: (x, num)) == (set x | x in done :: (x, num)) + {(a, num)};
      left := left - {a};
      done := done + {a};
    }
    assert done == itx.ledger.Keys;
  }

  /** `totals` with the addresses in `done` rolled back. */
  ghost function PartlyRolledBack(totals: map<string, Totals>, l: Ledger, done: set<string>): map<string, Totals>
    requires done <= l.Keys
  {
    map a | a in totals && (a in done ==> Debited(totals[a], l[a].credit) != Totals(0, 0)) ::
      if a in done then Debited(totals[a], l[a].credit) else totals[a]
  }

  lemma RollBackOne(totals: map<string, Totals>, l: Ledger, done: set<string>, a: string)
    requires done <= l.Keys && a in l && a !in done
    ensures var t := PartlyRolledBack(totals, l, done);
      && TotalsAt(t, a) == TotalsAt(totals, a)
      && var now := Debited(TotalsAt(totals, a), l[a].credit);
         PartlyRolledBack(totals, l, done + {a}) == if now == Totals(0, 0) then t - {a} else t[a := now]
  {
    hide Debited;
    if a !in totals { UntouchedStaysZero(l[a].credit); }
  }

  lemma UntouchedStaysZero(credit: U64)
    ensures Debited(Totals(0, 0), credit) == Totals(0, 0)
  {
  }

  lemma RollBackAll(totals: map<string, Totals>, l: Ledger)
    ensures PartlyRolledBack(totals, l, l.Keys) == Uncredited(totals, l)
    ensures PartlyRolledBack(totals, l, {}) == totals
  {
    hide Debited;
  }

  method RollBackTotals(totals: map<string, Totals>, l: Ledger) returns (t: map<string, Totals>)
    ensures t == Uncredited(totals, l)
  {
    hide PartlyRolledBack, Uncredited, Debited;
    t := totals;
    RollBackAll(totals, l);
    var left := l.Keys;
    ghost var done: set<string> := {};
    while left != {}
      invariant done <= l.Keys && left == l.Keys - done
      invariant t == PartlyRolledBack(totals, l, done)
      decreases left
    {
      var a :| a in left;
      RollBackOne(totals, l, done, a);
      var now := Debited(TotalsAt(t, a), l[a].credit);
      t := if now == Totals(0, 0) then t - {a} else t[a := now];
      left := left - {a};
      done := done + {a};
    }
    assert done == l.Keys;
  }

  /** One pass of the unwind loop; a number that is not stored is skipped. */
  method EraseTx(r: Rows, num: nat) returns (r': Rows)
    ensures r' == RemoveTx(r, num)
    ensures num in r.tx ==> |r'.tx| == |r.tx| - 1
  {
    if num !in r.tx {
      return r;
    }
    hide HistoryKeys, Uncredited, SpentBy;
    var itx := r.tx[num];
    var history := EraseHistory(r.history, itx, num);
    var totals := RollBackTotals(r.totals, itx.ledger);
    var spends := EraseSpends(r.spends, itx.raw);
    r' := Rows(r.tx - {num}, r.txById - {itx.raw.txId}, history, spends, totals, SatSub(r.totalTxs, 1));
    assert r.tx.Keys == r'.tx.Keys + {num};
  }

  lemma RemoveTxsFrom(r: Rows, nums: seq<nat>, i: nat)
    requires i < |nums|
    ensures RemoveTxs(r, nums[..i + 1]) == RemoveTxs(RemoveTx(r, nums[i]), nums[..i])
  {
    hide RemoveTx;
    assert nums[..i + 1][..i] == nums[..i];
  }

  /** The unwind loop: last transaction first. */
  method EraseTxs(r: Rows, nums: seq<nat>) returns (r': Rows, removed: nat)
    ensures r' == RemoveTxs(r, nums)
    ensures removed == |r.tx| - |r'.tx|
  {
    hide RemoveTx;
    r', removed := r, 0;
    assert nums[..|nums|] == nums;
    for i := |nums| downto 0
      invariant RemoveTxs(r', nums[..i]) == RemoveTxs(r, nums)
      invariant removed == |r.tx| - |r'.tx|
    {
      RemoveTxsFrom(r', nums, i);
      if nums[i] in r'.tx {
        r' := EraseTx(r', nums[i]);
        removed := removed + 1;
      } else {
        AbsentIsSkipped(r', nums[i]);
      }
    }
  }

  lemma AbsentIsSkipped(r: Rows, num: nat)
    requires num !in r.tx
    ensures RemoveTx(r, num) == r
  {
  }

  /** Scan in key order and stop at the first transaction at or above the cutoff. */
  method CollectExpired(tx: map<nat, IndexedTx>, cutoff: nat) returns (gone: seq<nat>)
    ensures Members(gone) == Expired(tx, cutoff) && Members(gone) <= tx.Keys && Increasing(gone)
  {
    hide Ascending;
    var nums := Ascending(tx.Keys);
    gone := [];
    for i := 0 to |nums|
      invariant gone == nums[..i]
      invariant forall k :: 0 <= k < i ==> nums[k] in tx && tx[nums[k]].daa < cutoff
    {
      assert nums[i] in Members(nums);
      if tx[nums[i]].daa >= cutoff {
        ScanStops(tx, cutoff, nums, i);
        return;
      }
      gone := gone + [nums[i]];
    }
    ScanStops(tx, cutoff, nums, |nums|);
  }

  lemma ScanStops(tx: map<nat, IndexedTx>, cutoff: nat, nums: seq<nat>, i: nat)
    requires Increasing(nums) && Members(nums) == tx.Keys && i <= |nums|
    requires forall k :: 0 <= k < i ==> nums[k] in tx && tx[nums[k]].daa < cutoff
    requires i < |nums| ==> nums[i] in tx && tx[nums[i]].daa >= cutoff
    ensures Members(nums[..i]) == Expired(tx, cutoff)
  {
    forall n ensures n in Members(nums[..i]) <==> n in Expired(tx, cutoff) {
      if n in Members(nums[..i]) {
        var k :| 0 <= k < i && nums[k] == n;
        forall m | m in tx && m <= n ensures tx[m].daa < cutoff {
          assert m in Members(nums);
          var j :| 0 <= j < |nums| && nums[j] == m;
          assert j <= k;
        }
      }
    }
  }

  lemma DropOneTables(r: Rows, gone: set<nat>, n: nat)
    requires gone <= r.tx.Keys && n in r.tx
    ensures var d, itx := DropTxs(r, gone), r.tx[n];
      && DropTxs(r, gone + {n}).tx == d.tx - {n}
      && DropTxs(r, gone + {n}).txById == d.txById - {itx.raw.txId}
  {
    assert (set m | m in gone + {n} :: r.tx[m].raw.txId) ==
      (set m | m in gone :: r.tx[m].raw.txId) + {r.tx[n].raw.txId};
    hide SpentBy;
  }

  lemma DropOneHistory(r: Rows, gone: set<nat>, n: nat)
    requires gone <= r.tx.Keys && n in r.tx
    ensures DropTxs(r, gone + {n}).history == DropTxs(r, gone).history - HistoryKeys(r.tx[n], n)
  {
    hide SpentBy;
    assert (set m, a | m in gone + {n} && a in r.tx[m].ledger :: (a, m)) ==
      (set m, a | m in gone && a in r.tx[m].ledger :: (a, m)) + HistoryKeys(r.tx[n], n);
  }

  lemma DropOneSpends(r: Rows, gone: set<nat>, n: nat)
    requires gone <= r.tx.Keys && n in r.tx
    ensures DropTxs(r, gone + {n}).spends == DropTxs(r, gone).spends - SpentBy(r.tx[n].raw)
  {
    hide SpentBy;
    assert (set m, o | m in gone + {n} && o in SpentBy(r.tx[m].raw) :: o) ==
      (set m, o | m in gone && o in SpentBy(r.tx[m].raw) :: o) + SpentBy(r.tx[n].raw);
  }

  lemma DropOneCounters(r: Rows, gone: set<nat>, n: nat)
    requires gone <= r.tx.Keys && n in r.tx
    ensures DropTxs(r, gone).totals == r.totals && DropTxs(r, gone).totalTxs == r.totalTxs
    ensures DropTxs(r, gone + {n}).totals == r.totals && DropTxs(r, gone + {n}).totalTxs == r.totalTxs
  {
    hide SpentBy;
  }

  lemma DropNone(r: Rows)
    ensures DropTxs(r, {}) == r
  {
    hide SpentBy;
  }

  /** Drop one expired transaction's rows; counters stay. */
  method DropTx(r: Rows, ghost all: Rows, ghost gone: set<nat>, num: nat, itx: IndexedTx) returns (r': Rows)
    requires gone <= all.tx.Keys && num in all.tx && all.tx[num] == itx && r == DropTxs(all, gone)
    ensures r' == DropTxs(all, gone + {num})
  {
    hide DropTxs, HistoryKeys, SpentBy;
    var history := EraseHistory(r.history, itx, num);
    var spends := EraseSpends(r.spends, itx.raw);
    r' := Rows(r.tx - {num}, r.txById - {itx.raw.txId}, history, spends, r.totals, r.totalTxs);
    DropOneTables(all, gone, num);
    DropOneHistory(all, gone, num);
    DropOneSpends(all, gone, num);
    DropOneCounters(all, gone, num);
  }

  method DropAll(r: Rows, nums: seq<nat>) returns (r': Rows)
    requires Members(nums) <= r.tx.Keys
    ensures r' == DropTxs(r, Members(nums))
  {
    hide DropTxs;
    r' := r;
    DropNone(r);
    assert Members([]) == {};
    for i := 0 to |nums|
      invariant Members(nums[..i]) <= r.tx.Keys && r' == DropTxs(r, Members(nums[..i]))
    {
      assert nums[..i + 1] == nums[..i] + [nums[i]];
      assert Members(nums[..i + 1]) == Members(nums[..i]) + {nums[i]};
      assert nums[i] in Members(nums);
      r' := DropTx(r', r, Members(nums[..i]), nums[i], r.tx[nums[i]]);
    }
    assert nums[..|nums|] == nums;
  }

  /** A key with the lowest DAA: key order is DAA first. */
  lemma LowestKeyExists(s: set<(nat, string)>)
    requires s != {}
    ensures exists k :: k in s && forall j :: j in s ==> k.0 <= j.0
  {
    var daas := set k | k in s :: k.0;
    var x :| x in s;
    assert x.0 in daas;
    var m := Least(daas);
    var k :| k in s && k.0 == m;
    forall j | j in s ensures k.0 <= j.0 {
      assert j.0 in daas;
    }
  }

  /** Chain metadata below the cutoff, found by a scan that stops at the first key above it. */
  method CollectChain(chain: map<(nat, string), string>, cutoff: nat) returns (keys: set<(nat, string)>)
    ensures keys == set k | k in chain && k.0 < cutoff
  {
    keys := {};
    var left := chain.Keys;
    while left != {}
      invariant left <= chain.Keys && keys == chain.Keys - left
      invariant forall k :: k in keys ==> k.0 < cutoff
      decreases left
    {
      LowestKeyExists(left);
      var k :| k in left && forall j :: j in left ==> k.0 <= j.0;
      if k.0 >= cutoff {
        return;
      }
      keys := keys + {k};
      left := left - {k};
    }
  }

  method DropChain(b: Blocks, cutoff: nat) returns (b': Blocks)
    ensures b' == DropBlocks(b, cutoff)
  {
    var keys := CollectChain(b.chainByDaa, cutoff);
    b' := b;
    var left := keys;
    ghost var done: set<(nat, string)> := {};
    while left != {}
      invariant done <= keys && left == keys - done
      invariant b'.chainByDaa == b.chainByDaa - done
      invariant b'.applied == b.applied - set k | k in done :: b.chainByDaa[k]
      invariant b'.acceptedBy == b.acceptedBy - set k | k in done :: b.chainByDaa[k]
      decreases left
    {
      var k :| k in left;
      var hash := b.chainByDaa[k];
      b' := Blocks(b'.applied - {hash}, b'.chainByDaa - {k}, b'.acceptedBy - {hash});
      assert (set x | x in done + {k} :: b.chainByDaa[x]) == (set x | x in done :: b.chainByDaa[x]) + {hash};
      left := left - {k};
      done := done + {k};
    }
    assert done == keys;
  }

  /** Collect the rows `drop` selects, then remove them. */
  method Prune<K, V>(t: map<K, V>, drop: V -> bool) returns (t': map<K, V>)
    ensures t' == Kept(t, drop)
  {
    var left, selected := t.Keys, {};
    while left != {}
      invariant left <= t.Keys
      invariant selected == set k | k in t && k !in left && drop(t[k])
      decreases left
    {
      var k :| k in left;
      if drop(t[k]) { selected := selected + {k}; }
      left := left - {k};
    }
    t' := t - selected;
  }
}
