/** The pieces put together as the program does: the store reads scripts with the
    address codec of its network and response payloads with the response decoder. */
module Wiring {
  import opened Types
  import opened Attribution
  import opened Scans
  import opened Tables
  import opened Coupling
  import opened Branches
  import opened Runs
  import opened InferenceIndex
  import opened Hex
  import opened Address
  import opened Amounts
  import Checksum
  import Keys
  import Payload

  /** What is left open: hashing, base58, and the other payload decoders. */
  datatype Outside = Outside(
    digest: seq<byte> -> string,
    base58: seq<byte> -> string,
    request: RawTx -> Option<Request>,
    challenge: string -> Option<Challenge>,
    capabilities: RawTx -> seq<(string, string)>)

  function AddressOn(network: string, script: string): Option<string> {
    PrefixIsPlain(PrefixForNetwork(network));
    ScriptToAddress(script, PrefixForNetwork(network))
  }

  function LittleEndian(bytes: seq<byte>): nat {
    if bytes == [] then 0 else bytes[0] as int + 256 * LittleEndian(bytes[1..])
  }

  function ReadResponse(payload: string, out: Outside): Option<Response> {
    var bytes := FromHex(payload);
    if bytes.None? then None
    else
      var p := Payload.DecodeResponse(bytes.value);
      if p.None? then None
      else
        var f := p.value.fields;
        var responder := if p.value.responder.Some? then Some(HexText(p.value.responder.value)) else None;
        Some(Response(HexText(f.requestHash), LittleEndian(f.windowEnd), out.digest(bytes.value),
                      out.base58(f.multihash), f.length, responder, p.value.body))
  }

  function ShimCodec(network: string, out: Outside): Codec {
    Codec(script => AddressOn(network, script), out.request, payload => ReadResponse(payload, out), out.challenge,
          out.capabilities)
  }

  // --- addresses in the tables ---

  ghost predicate AsciiAddresses(attr: Attribute) {
    forall s :: attr(s).Some? ==> IsAscii(attr(s).value)
  }

  ghost predicate AsciiLedgers(tx: map<nat, IndexedTx>) {
    forall n, a :: n in tx && a in tx[n].ledger ==> IsAscii(a)
  }

  lemma NetworkIsAscii(network: string, out: Outside)
    ensures AsciiAddresses(ShimCodec(network, out).attr)
  {
    hide IsAscii, ValidateAddress, ScriptToAddress, PrefixForNetwork;
    forall s ensures AddressOn(network, s).Some? ==> IsAscii(AddressOn(network, s).value) {
      IndexedAddressIsValid(network, s);
      if AddressOn(network, s).Some? {
        ValidIsAscii(AddressOn(network, s).value);
      }
    }
  }

  lemma IndexedIsAscii(r: Rows, num: nat, raw: RawTx, hash: string, daa: nat, attr: Attribute, a: string)
    requires AsciiAddresses(attr) && a in Indexed(r, num, raw, hash, daa, attr).ledger
    ensures IsAscii(a)
  {
    LedgerKeys(raw.outputs, FundingOf(raw, r.txById, r.tx), attr);
    hide LedgerOf, FundingOf, IsAscii;
  }

  lemma StoreAscii(tx: map<nat, IndexedTx>, itx: IndexedTx)
    requires AsciiLedgers(tx) && forall a :: a in itx.ledger ==> IsAscii(a)
    ensures AsciiLedgers(tx[itx.num := itx])
  {
    hide IsAscii;
  }

  lemma {:induction false} InsertTxsAscii(r: Rows, num: nat, txs: seq<RawTx>, hash: string, daa: nat, attr: Attribute)
    requires AsciiAddresses(attr) && AsciiLedgers(r.tx)
    ensures AsciiLedgers(InsertTxs(r, num, txs, hash, daa, attr).tx)
    decreases |txs|
  {
    hide *;
    if txs == [] {
      InsertTxsNone(r, num, hash, daa, attr);
    } else {
      var k := |txs| - 1;
      var mid := InsertTxs(r, num, txs[..k], hash, daa, attr);
      var itx := Indexed(mid, num + k, txs[k], hash, daa, attr);
      InsertTxsAscii(r, num, txs[..k], hash, daa, attr);
      InsertTxsSnoc(r, num, txs, hash, daa, attr);
      StoredTx(mid, itx);
      forall a | a in itx.ledger ensures IsAscii(a) {
        IndexedIsAscii(mid, num + k, txs[k], hash, daa, attr, a);
      }
      StoreAscii(mid.tx, itx);
    }
  }

  lemma {:induction false} ApplyAscii(d: Database, gs: seq<Group>, cx: Codec)
    requires AsciiAddresses(cx.attr) && AsciiLedgers(d.core.rows.tx)
    ensures AsciiLedgers(Apply(d, gs, cx).core.rows.tx)
    decreases |gs|
  {
    hide *;
    if gs == [] {
      ApplyNone(d, cx);
    } else {
      var k := |gs| - 1;
      var mid := Apply(d, gs[..k], cx);
      ApplyAscii(d, gs[..k], cx);
      ApplySnoc(d, gs, cx);
      if gs[k].hash in mid.core.blocks.applied {
        ApplyMarked(mid, gs[k], cx);
      } else {
        ApplyGroupRows(mid, gs[k], cx);
        InsertTxsAscii(mid.core.rows, mid.nextTxNum, gs[k].txs, gs[k].hash, gs[k].daa, cx.attr);
      }
    }
  }

  lemma SubmapAscii(small: map<nat, IndexedTx>, big: map<nat, IndexedTx>)
    requires Submap(small, big) && AsciiLedgers(big)
    ensures AsciiLedgers(small)
  {
    hide IsAscii;
  }

  lemma StepAscii(d: Database, e: Event, cx: Codec)
    requires AsciiAddresses(cx.attr) && AsciiLedgers(d.core.rows.tx)
    ensures AsciiLedgers(Step(d, e, cx).core.rows.tx)
  {
    hide AsciiAddresses, AsciiLedgers, Apply, UnwindBlock, Expire, Submap;
    match e
    case Applied(gs) => ApplyAscii(d, gs, cx);
    case Unwound(h) =>
      UnwindShrinks(d.core, h);
      SubmapAscii(UnwindBlock(d.core, h).rows.tx, d.core.rows.tx);
    case Swept(c) =>
      ExpireParts(d, c);
      SubmapAscii(Expire(d, c).core.rows.tx, d.core.rows.tx);
  }

  lemma {:induction false} RunAscii(es: seq<Event>, cx: Codec)
    requires AsciiAddresses(cx.attr)
    ensures AsciiLedgers(Run(es, cx).core.rows.tx)
    decreases |es|
  {
    if es != [] {
      hide Step, AsciiAddresses, AsciiLedgers;
      RunAscii(es[..|es| - 1], cx);
      StepAscii(Run(es[..|es| - 1], cx), es[|es| - 1], cx);
    }
  }

  /** In every run on any network the history keys can be encoded, as long as transaction numbers
      fit their eight bytes. */
  lemma RunEncodable(es: seq<Event>, network: string, out: Outside)
    requires Run(es, ShimCodec(network, out)).nextTxNum <= Keys.Pow256(8)
    ensures Keys.Encodable(Run(es, ShimCodec(network, out)).core.rows)
  {
    hide *;
    var cx := ShimCodec(network, out);
    var d := Run(es, cx);
    NetworkIsAscii(network, out);
    RunAscii(es, cx);
    RunInv(es, cx);
    SoundBelow(d, RunBooks(es, cx));
    TablesAreCoupled(es, cx);
    KeysFit(d.core.rows, d.nextTxNum);
  }

  lemma KeysFit(r: Rows, num: nat)
    requires HistoryExact(r) && AsciiLedgers(r.tx) && (forall n :: n in r.tx ==> n < num) && num <= Keys.Pow256(8)
    ensures Keys.Encodable(r)
  {
    hide IsAscii, Keys.Pow256;
  }

  /** The keys a byte-ordered scan of `addr`'s range over the history table yields. */
  ghost predicate ScansRange(scan: seq<seq<byte>>, r: Rows, addr: string)
    requires Keys.Encodable(r) && IsAscii(addr)
  {
    && Keys.SortedKeys(scan)
    && forall k :: k in scan <==>
         Keys.InRange(k, Keys.Bytes(addr)) &&
         exists b, n :: (b, n) in Keys.EncodedRows(r) && k == Keys.TextKey(b, n, 8)
  }

  /** For every address the API lets through, in every run: the byte range scan is the address's
      rows by transaction number. */
  lemma RunHistoryScan(es: seq<Event>, network: string, out: Outside, addr: string, scan: seq<seq<byte>>)
    requires Run(es, ShimCodec(network, out)).nextTxNum <= Keys.Pow256(8) && ValidateAddress(addr) == Valid
    ensures var r := Run(es, ShimCodec(network, out)).core.rows;
      && Keys.Encodable(r) && IsAscii(addr)
      && (ScansRange(scan, r, addr) ==> scan == Keys.KeysFor(Keys.Bytes(addr), Ascending(HistoryNums(r, addr))))
  {
    var r := Run(es, ShimCodec(network, out)).core.rows;
    RunEncodable(es, network, out);
    ValidIsAscii(addr);
    hide Run, ShimCodec, ValidateAddress, IsAscii, Keys.Encodable, Keys.Pow256, Keys.EncodedRows, Keys.Bytes,
         Keys.TextKey, Keys.InRange, Keys.SortedKeys, Keys.KeysFor, HistoryNums, Ascending;
    if ScansRange(scan, r, addr) {
      Keys.HistoryScanInBytes(r, addr, scan);
    }
  }

  /** In every run on a network, a stored transaction with an output in one of the standard forms
      is in the history of the address that the form's version and payload have there. */
  lemma PaidAddressIsListed(
    es: seq<Event>, n: nat, network: string, out: Outside, k: nat, script: seq<byte>, version: Checksum.u8,
    p: seq<byte>)
    requires var tx := Run(es, ShimCodec(network, out)).core.rows.tx;
      && n in tx && k < |tx[n].raw.outputs| && FromHex(tx[n].raw.outputs[k].script) == Some(script)
      && FormOf(script, version, p)
    ensures IsAscii(PrefixForNetwork(network))
    ensures (AddressOf(version, Octets(p), PrefixForNetwork(network)), n) in
      Run(es, ShimCodec(network, out)).core.rows.history
  {
    var cx := ShimCodec(network, out);
    var hex := Run(es, cx).core.rows.tx[n].raw.outputs[k].script;
    PrefixIsPlain(PrefixForNetwork(network));
    var a := AddressOf(version, Octets(p), PrefixForNetwork(network));
    ScriptToAddressIff(hex, PrefixForNetwork(network), a);
    assert cx.attr(hex) == AddressOn(network, hex) == Some(a);
    hide *;
    var s := StoredWasIndexed(es, cx, n);
    ListedIfPaid(es, s, n, cx, k, a);
  }

  lemma ListedIfPaid(es: seq<Event>, s: Spot, n: nat, cx: Codec, k: nat, a: string)
    requires n in Run(es, cx).core.rows.tx && IndexedAs(es, s, n, Run(es, cx).core.rows.tx[n], cx)
    requires var outs := Run(es, cx).core.rows.tx[n].raw.outputs; k < |outs| && cx.attr(outs[k].script) == Some(a)
    ensures (a, n) in Run(es, cx).core.rows.history
  {
    hide Run, MetBy, StoreBefore, LedgerOf, FundingOf, BlocksCoupled, Drains;
    TablesAreCoupled(es, cx);
    var raw := Run(es, cx).core.rows.tx[n].raw;
    assert Pays(raw.outputs[k], a, cx.attr);
    LedgerIs(raw, MetBy(es, s, cx), a, cx.attr);
  }

  // --- responses in the tables ---

  /** The `k` bytes of `n`, lowest first. */
  function LittleBytes(n: nat, k: nat): (bytes: seq<byte>)
    ensures |bytes| == k
    decreases k
  {
    if k == 0 then [] else [n % 256] + LittleBytes(n / 256, k - 1)
  }

  lemma {:induction false} LittleReadsBack(n: nat, k: nat)
    requires n < Keys.Pow256(k)
    ensures LittleEndian(LittleBytes(n, k)) == n
    decreases k
  {
    if k > 0 {
      assert n / 256 < Keys.Pow256(k - 1);
      LittleReadsBack(n / 256, k - 1);
      assert LittleBytes(n, k)[1..] == LittleBytes(n / 256, k - 1);
    }
  }

  /** A response as it is sent: the fixed fields, with `windowEnd` as a 64-bit number, the
      responder's key and signature, the answer, and perhaps a trace. */
  datatype Sent = Sent(
    requestHash: seq<byte>, windowEnd: nat, multihash: seq<byte>, length: nat, key: seq<byte>, sig: seq<byte>,
    body: seq<byte>, trace: Option<seq<byte>>)

  function FieldsOf(m: Sent): Payload.Fields {
    Payload.Fields(m.requestHash, LittleBytes(m.windowEnd, 8), m.multihash, m.length)
  }

  predicate Sendable(m: Sent) {
    && Payload.FieldsFit(FieldsOf(m)) && m.windowEnd < Keys.Pow256(8) && |m.key| == 32 && |m.sig| == 64
    && Payload.WellFormed(Payload.Head(FieldsOf(m), m.key, m.sig), m.body, m.trace)
  }

  function SentBytes(m: Sent): seq<byte> {
    Payload.Encode(Payload.Head(FieldsOf(m), m.key, m.sig), m.body, m.trace)
  }

  /** What a reader should learn from it. */
  function Received(m: Sent, out: Outside): Response {
    Response(HexText(m.requestHash), m.windowEnd, out.digest(SentBytes(m)), out.base58(m.multihash), m.length,
             Some(HexText(m.key)), Some(m.body))
  }

  /** A response payload is read back field by field. */
  lemma SentIsReceived(m: Sent, network: string, out: Outside)
    requires Sendable(m)
    ensures ShimCodec(network, out).response(HexText(SentBytes(m))) == Some(Received(m, out))
  {
    hide Payload.DecodeResponse, Payload.Encode, Payload.Head, Payload.WellFormed, Payload.FieldsFit, HexText,
      FromHex, AddressOn, LittleEndian, LittleBytes, Keys.Pow256;
    Payload.ResponseRoundTrip(FieldsOf(m), m.key, m.sig, m.body, m.trace);
    HexRoundTrip(SentBytes(m));
    LittleReadsBack(m.windowEnd, 8);
  }

  /** What is read from any payload: nothing unless it is hex of at least 78 bytes; then every field
      from its own bytes, and a body if and only if the bytes are well-formed with it. */
  lemma ResponseReadIff(payload: string, bytes: seq<byte>, network: string, out: Outside)
    requires FromHex(payload) == Some(bytes)
    ensures var r := ShimCodec(network, out).response(payload);
      && (r.Some? <==> |bytes| >= 78)
      && (r.Some? ==>
            && r.value.requestHash == HexText(bytes[..32]) && r.value.windowEnd == LittleEndian(bytes[32..40])
            && r.value.cid == out.base58(bytes[40..74]) && r.value.length == LittleEndian(bytes[74..78])
            && r.value.ownHash == out.digest(bytes)
            && r.value.responder == (if |bytes| >= 174 then Some(HexText(bytes[78..110])) else None)
            && forall b :: r.value.body == Some(b) <==> Payload.Carries(bytes, b))
  {
    forall b ensures Payload.PrivateBody(bytes) == Some(b) <==> Payload.Carries(bytes, b) {
      Payload.BodyIffWellFormed(bytes, b);
    }
    if |bytes| >= 78 {
      FourBytes(bytes[74..78]);
    }
    hide Payload.PrivateBody, Payload.Carries, Payload.FromLE, LittleEndian, FromHex, HexText, AddressOn;
  }

  lemma FourBytes(b: seq<byte>)
    requires |b| == 4
    ensures Payload.FromLE(b) == LittleEndian(b)
  {
    assert b[1..][1..] == b[2..] && b[2..][1..] == b[3..] && b[3..][1..] == [];
    assert LittleEndian(b[3..]) == b[3];
    assert LittleEndian(b[2..]) == b[2] as int + 256 * LittleEndian(b[3..]);
    assert LittleEndian(b[1..]) == b[1] as int + 256 * LittleEndian(b[2..]);
  }

  /** So in every run, a stored transaction carrying it is among the responses listed for the
      request it names, with all of that read from it. */
  lemma StoredResponseIsRead(
    es: seq<Event>, n: nat, network: string, out: Outside, m: Sent, replies: seq<Reply>)
    requires Sendable(m)
    requires var tx := Run(es, ShimCodec(network, out)).core.rows.tx;
      && n in tx && tx[n].raw.subnetworkId == SUBNET_AI_RESPONSE && tx[n].raw.payload == HexText(SentBytes(m))
      && Lists(replies, tx, HexText(m.requestHash), ShimCodec(network, out))
    ensures Reply(Run(es, ShimCodec(network, out)).core.rows.tx[n], Received(m, out)) in replies
  {
    SentIsReceived(m, network, out);
    hide ShimCodec, SentBytes, Run, Sendable, HexText;
    var cx := ShimCodec(network, out);
    var tx := Run(es, cx).core.rows.tx;
    var nums :| ListsAt(replies, nums, tx, HexText(m.requestHash), cx);
    assert NamesRequest(tx[n].raw, HexText(m.requestHash), cx);
    var i :| 0 <= i < |nums| && nums[i] == n;
    assert replies[i] == Reply(tx[n], Received(m, out));
  }
}
