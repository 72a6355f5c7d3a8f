/** When the point lookups are also complete: on a chain whose transactions have
    distinct ids and never spend the same outpoint twice. */
module Lookups {
  import opened Types
  import opened Attribution
  import opened Tables
  import opened Coupling

  /** `raw` repeats no stored id and spends no outpoint a stored transaction spends. */
  ghost predicate CleanTx(tx: map<nat, IndexedTx>, raw: RawTx) {
    forall n :: n in tx ==> tx[n].raw.txId != raw.txId && SpentBy(tx[n].raw) !! SpentBy(raw)
  }

  /** A list of transactions that is clean against the table and within itself. */
  ghost predicate Legal(tx: map<nat, IndexedTx>, txs: seq<RawTx>) {
    && (forall i :: 0 <= i < |txs| ==> CleanTx(tx, txs[i]))
    && (forall i, j :: 0 <= i < j < |txs| ==>
          txs[i].txId != txs[j].txId && SpentBy(txs[i]) !! SpentBy(txs[j]))
  }

  /** Every stored transaction is found under its id and under each outpoint it spends. */
  ghost predicate Complete(r: Rows) {
    && (forall n :: n in r.tx ==> r.tx[n].raw.txId in r.txById && r.txById[r.tx[n].raw.txId] == n)
    && (forall n, o :: n in r.tx && o in SpentBy(r.tx[n].raw) ==> o in r.spends && r.spends[o] == n)
  }

  /** Storing one more transaction keeps the lookups complete exactly when it is clean. */
  lemma StoreKeepsComplete(r: Rows, itx: IndexedTx)
    requires Complete(r) && itx.num !in r.tx
    ensures Complete(StoreTx(r, itx)) <==> CleanTx(r.tx, itx.raw)
  {
    hide SpentBy, HistoryRows, Credited;
    var r' := StoreTx(r, itx);
    if Complete(r') {
      forall n | n in r.tx ensures r.tx[n].raw.txId != itx.raw.txId && SpentBy(r.tx[n].raw) !! SpentBy(itx.raw) {
        assert r'.tx[n] == r.tx[n];
        forall o | o in SpentBy(r.tx[n].raw) ensures o !in SpentBy(itx.raw) {
          assert r'.spends[o] == n;
        }
      }
    }
    if CleanTx(r.tx, itx.raw) {
      StoreCleanComplete(r, itx);
    }
  }

  lemma StoreCleanComplete(r: Rows, itx: IndexedTx)
    requires Complete(r) && CleanTx(r.tx, itx.raw)
    ensures Complete(StoreTx(r, itx))
  {
    hide SpentBy, HistoryRows, Credited;
    var r' := StoreTx(r, itx);
    forall n, o | n in r'.tx && o in SpentBy(r'.tx[n].raw) ensures o in r'.spends && r'.spends[o] == n {
      assert o in SpendRows(itx) <==> o in SpentBy(itx.raw);
    }
  }

  lemma RemoveKeepsComplete(r: Rows, num: nat)
    requires Complete(r)
    ensures Complete(RemoveTx(r, num))
  {
    hide SpentBy, HistoryKeys, Uncredited;
    var r' := RemoveTx(r, num);
    forall n | n in r'.tx ensures r'.tx[n].raw.txId in r'.txById && r'.txById[r'.tx[n].raw.txId] == n {
      assert r.txById[r.tx[n].raw.txId] == n;
    }
    forall n, o | n in r'.tx && o in SpentBy(r'.tx[n].raw) ensures o in r'.spends && r'.spends[o] == n {
      assert r.spends[o] == n;
    }
  }

  lemma {:induction false} RemoveTxsKeepsComplete(r: Rows, nums: seq<nat>)
    requires Complete(r)
    ensures Complete(RemoveTxs(r, nums))
    decreases |nums|
  {
    hide Complete, RemoveTx;
    if nums != [] {
      RemoveKeepsComplete(r, nums[|nums| - 1]);
      RemoveTxsKeepsComplete(RemoveTx(r, nums[|nums| - 1]), nums[..|nums| - 1]);
    }
  }

  lemma DropKeepsComplete(r: Rows, gone: set<nat>)
    requires Complete(r) && gone <= r.tx.Keys
    ensures Complete(DropTxs(r, gone))
  {
    hide SpentBy;
    var r' := DropTxs(r, gone);
    forall n | n in r'.tx ensures r'.tx[n].raw.txId in r'.txById && r'.txById[r'.tx[n].raw.txId] == n {
      assert r.txById[r.tx[n].raw.txId] == n;
    }
    forall n, o | n in r'.tx && o in SpentBy(r'.tx[n].raw) ensures o in r'.spends && r'.spends[o] == n {
      assert r.spends[o] == n;
    }
  }

  // --- inserting a list ---

  /** `tx'` is `tx` plus the transactions `txs`, numbered from `num`. */
  ghost predicate Appended(tx: map<nat, IndexedTx>, tx': map<nat, IndexedTx>, num: nat, txs: seq<RawTx>) {
    && (forall k :: k in tx ==> k in tx' && tx'[k] == tx[k])
    && (forall k :: k in tx' ==> k in tx || (num <= k < num + |txs| && tx'[k].raw == txs[k - num]))
  }

  lemma AppendNone(tx: map<nat, IndexedTx>, num: nat)
    ensures Appended(tx, tx, num, [])
  {
  }

  lemma AppendOne(tx: map<nat, IndexedTx>, r: Rows, num: nat, txs: seq<RawTx>, itx: IndexedTx)
    requires Appended(tx, r.tx, num, txs) && itx.num == num + |txs|
    requires forall k :: k in tx ==> k < num
    ensures Appended(tx, StoreTx(r, itx).tx, num, txs + [itx.raw])
  {
    hide Credited, HistoryRows, SpendRows;
  }

  lemma {:induction false} InsertTxsAppends(
    r: Rows, num: nat, txs: seq<RawTx>, hash: string, daa: nat, attr: Attribute)
    requires forall k :: k in r.tx ==> k < num
    ensures Appended(r.tx, InsertTxs(r, num, txs, hash, daa, attr).tx, num, txs)
    decreases |txs|
  {
    hide *;
    if txs == [] {
      InsertTxsNone(r, num, hash, daa, attr);
      AppendNone(r.tx, num);
    } else {
      var k := |txs| - 1;
      var mid := InsertTxs(r, num, txs[..k], hash, daa, attr);
      InsertTxsAppends(r, num, txs[..k], hash, daa, attr);
      InsertTxsSnoc(r, num, txs, hash, daa, attr);
      AppendOne(r.tx, mid, num, txs[..k], Indexed(mid, num + k, txs[k], hash, daa, attr));
      assert txs[..k] + [txs[k]] == txs;
    }
  }

  lemma LegalNext(tx: map<nat, IndexedTx>, tx': map<nat, IndexedTx>, num: nat, txs: seq<RawTx>)
    requires txs != [] && Legal(tx, txs) && Appended(tx, tx', num, txs[..|txs| - 1])
    ensures Legal(tx, txs[..|txs| - 1]) && CleanTx(tx', txs[|txs| - 1])
  {
    hide SpentBy;
    var last := txs[|txs| - 1];
    assert CleanTx(tx, last);
    forall n | n in tx' ensures tx'[n].raw.txId != last.txId && SpentBy(tx'[n].raw) !! SpentBy(last) {
      if n !in tx {
        assert tx'[n].raw == txs[n - num];
      }
    }
  }

  lemma {:induction false} InsertTxsComplete(
    r: Rows, num: nat, txs: seq<RawTx>, hash: string, daa: nat, attr: Attribute)
    requires Complete(r) && Legal(r.tx, txs)
    requires forall k :: k in r.tx ==> k < num
    ensures Complete(InsertTxs(r, num, txs, hash, daa, attr))
    decreases |txs|
  {
    hide *;
    if txs == [] {
      InsertTxsNone(r, num, hash, daa, attr);
    } else {
      var k := |txs| - 1;
      var mid := InsertTxs(r, num, txs[..k], hash, daa, attr);
      InsertTxsAppends(r, num, txs[..k], hash, daa, attr);
      LegalNext(r.tx, mid.tx, num, txs);
      InsertTxsComplete(r, num, txs[..k], hash, daa, attr);
      InsertTxsSnoc(r, num, txs, hash, daa, attr);
      StoreCleanComplete(mid, Indexed(mid, num + k, txs[k], hash, daa, attr));
    }
  }
}
