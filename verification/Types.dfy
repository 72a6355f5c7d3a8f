/** The plain data the indexer handles: wire transactions, stored rows and the
    fixed-width arithmetic the release build performs on them. */
module Types {

  datatype Option<+T> = None | Some(value: T)

  type byte = n: nat | n < 256

  /** Hex and bech32 text. */
  predicate IsAscii(s: string) {
    forall i :: 0 <= i < |s| ==> s[i] as int < 128
  }

  const TWO63: nat := 0x8000_0000_0000_0000
  const TWO64: nat := 0x1_0000_0000_0000_0000

  /** An unsigned 64-bit amount (sompi). */
  type U64 = n: nat | n < TWO64

  /** `+=` on `u64` in a release build: wraps. */
  function Add64(x: nat, y: nat): U64 {
    (x + y) % TWO64
  }

  /** A running sum kept modulo 2^64. */
  function Wrap(x: nat): U64 {
    x % TWO64
  }

  lemma AddWraps(x: nat, y: nat)
    ensures Add64(Wrap(x), y) == Wrap(x + y)
  {
    var q := x / TWO64;
    assert x == q * TWO64 + Wrap(x);
    ModShift(Wrap(x) + y, q);
  }

  lemma AddAtMost(x: nat, y: nat)
    ensures Add64(x, y) <= x + y
  {
  }

  lemma {:induction false} ModShift(x: nat, q: nat)
    ensures (x + q * TWO64) % TWO64 == x % TWO64
  {
    if q > 0 {
      ModShift(x, q - 1);
      assert x + q * TWO64 == x + (q - 1) * TWO64 + TWO64;
    }
  }

  /** `saturating_sub`. */
  function SatSub(x: nat, y: nat): nat {
    if y <= x then x - y else 0
  }

  datatype TxIn = TxIn(prevId: string, prevIndex: nat, signatureScript: string, sequence: nat, sigOpCount: nat)

  datatype TxOut = TxOut(amount: U64, scriptVersion: nat, script: string)

  /** The wire fields of one accepted transaction. */
  datatype RawTx = RawTx(
    txId: string, isCoinbase: bool, version: nat, lockTime: nat, subnetworkId: string,
    gas: nat, payload: string, inputs: seq<TxIn>, outputs: seq<TxOut>)

  /** All transactions accepted by one chain block. */
  datatype Group = Group(hash: string, daa: nat, txs: seq<RawTx>)

  /** One address's net effect from a transaction. */
  datatype Entry = Entry(credit: U64, debit: U64)

  /** Keyed by address: the source fills a hash map, so the order carries no meaning. */
  type Ledger = map<string, Entry>

  datatype IndexedTx = IndexedTx(num: nat, block: string, daa: nat, raw: RawTx, ledger: Ledger)

  datatype HistRow = HistRow(txId: string, amount: nat, isSpend: bool, daa: nat, block: string)

  datatype Outpoint = Outpoint(txId: string, index: nat)

  /** Running totals of one address: received sompi and number of transactions. */
  datatype Totals = Totals(received: U64, count: nat)

  datatype Checkpoint = Checkpoint(hash: string, daa: nat)

  /** `x as i64` for a `u64`. */
  function AsI64(x: U64): int {
    if x < TWO63 then x else x - TWO64
  }

  /** `-` on `i64` in a release build: wraps. */
  function SubI64(x: int, y: int): int {
    (x - y + TWO63) % TWO64 - TWO63
  }

  /** The signed net effect a history row is built from. */
  function Net(e: Entry): int {
    SubI64(AsI64(e.credit), AsI64(e.debit))
  }

  /** `unsigned_abs`. */
  function Abs(x: int): nat {
    if x < 0 then -x else x
  }

  /** Wrapping keeps the difference modulo 2^64. */
  lemma NetWraps(credit: nat, debit: nat) returns (k: int)
    ensures Net(Entry(Wrap(credit), Wrap(debit))) == credit - debit + k * TWO64
  {
    var c, d := AsI64(Wrap(credit)), AsI64(Wrap(debit));
    var kc := (if Wrap(credit) < TWO63 then 0 else -1) - credit / TWO64;
    var kd := (if Wrap(debit) < TWO63 then 0 else -1) - debit / TWO64;
    assert c == credit + kc * TWO64 && d == debit + kd * TWO64;
    k := kc - kd - (c - d + TWO63) / TWO64;
  }

  /** `credit - debit` is a 64-bit signed number. */
  predicate FitsI64(credit: nat, debit: nat) {
    debit <= credit + TWO63 && credit < debit + TWO63
  }

  /** The signed net is the exact difference if and only if that difference fits 64 signed bits. */
  lemma NetIsExactIff(credit: nat, debit: nat)
    ensures Net(Entry(Wrap(credit), Wrap(debit))) == credit - debit <==> FitsI64(credit, debit)
  {
    var k := NetWraps(credit, debit);
  }

  /** A row's amount and direction tell what an address received less what it spent. */
  predicate TellsNet(amount: nat, isSpend: bool, credit: nat, debit: nat) {
    (isSpend <==> debit > credit) && (if isSpend then debit - credit == amount else credit - debit == amount)
  }

  /** They do if and only if the difference fits 64 signed bits. */
  lemma RowTellsNetIff(credit: nat, debit: nat)
    ensures var net := Net(Entry(Wrap(credit), Wrap(debit)));
      TellsNet(Abs(net), net < 0, credit, debit) <==> FitsI64(credit, debit)
  {
    hide Net;
    NetIsExactIff(credit, debit);
  }

  /** Beyond that a row misleads: 2^63 sompi received show as 2^63 spent. */
  lemma HugeCreditLooksSpent()
    ensures var net := Net(Entry(Wrap(TWO63), Wrap(0))); Abs(net) == TWO63 && net < 0
    ensures !TellsNet(TWO63, true, TWO63, 0)
  {
  }

  /** The outpoints a transaction consumes; a coinbase consumes none. */
  function SpentBy(raw: RawTx): set<Outpoint> {
    if raw.isCoinbase then {} else set i | i in raw.inputs :: Outpoint(i.prevId, i.prevIndex)
  }

  /** `raw` is no coinbase and has an input naming `o`. */
  predicate Consumes(raw: RawTx, o: Outpoint) {
    !raw.isCoinbase &&
    exists k :: 0 <= k < |raw.inputs| && Outpoint(raw.inputs[k].prevId, raw.inputs[k].prevIndex) == o
  }

  lemma SpentByIff(raw: RawTx, o: Outpoint)
    ensures o in SpentBy(raw) <==> Consumes(raw, o)
  {
    if Consumes(raw, o) {
      var k :| 0 <= k < |raw.inputs| && Outpoint(raw.inputs[k].prevId, raw.inputs[k].prevIndex) == o;
      assert raw.inputs[k] in raw.inputs;
    }
    if o in SpentBy(raw) {
      var i :| i in raw.inputs && Outpoint(i.prevId, i.prevIndex) == o;
      var k :| 0 <= k < |raw.inputs| && raw.inputs[k] == i;
    }
  }
}
