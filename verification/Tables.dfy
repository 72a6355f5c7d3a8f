/** The index tables as values, and what one committed write transaction does to
    them: `apply`, `unwind_chain_block` and `expire_below`. Composite byte keys
    appear here as tuples; module Keys shows that the byte encodings are
    injective and order-preserving, so nothing is lost. */
module Tables {
  import opened Types
  import opened Attribution
  import opened Scans

  const SUBNET_AI_REQUEST := "0300000000000000000000000000000000000000"
  const SUBNET_AI_RESPONSE := "0400000000000000000000000000000000000000"
  const SUBNET_AI_CHALLENGE := "0500000000000000000000000000000000000000"

  // --- tables ---

  /** Everything derived from single transactions. */
  datatype Rows = Rows(
    tx: map<nat, IndexedTx>,
    txById: map<string, nat>,
    history: map<(string, nat), HistRow>,
    spends: map<Outpoint, nat>,
    totals: map<string, Totals>,
    totalTxs: nat)

  /** Per-chain-block metadata. */
  datatype Blocks = Blocks(
    applied: map<string, nat>,
    chainByDaa: map<(nat, string), string>,
    acceptedBy: map<string, seq<nat>>)

  datatype Core = Core(rows: Rows, blocks: Blocks)

  datatype Request = Request(
    identity: string, modelId: string, maxTokens: nat, reward: nat, fee: nat, prompt: string,
    miner: Option<string>, sealed: bool, recipients: Option<nat>)
  datatype Response = Response(
    requestHash: string, windowEnd: nat, ownHash: string, cid: string, length: nat, responder: Option<string>,
    body: Option<seq<byte>>)
  datatype Challenge = Challenge(responseHash: string, requestHash: Option<string>)

  datatype RequestRec = RequestRec(txId: string, request: Request, daa: nat, block: string)
  datatype ResponseRec = ResponseRec(
    cid: string, block: string, length: nat, daa: nat, txId: string, responder: Option<string>, inlineBody: bool)
  datatype ChallengeRec = ChallengeRec(txId: string, requestHash: string, daa: nat)

  datatype Inference = Inference(
    requests: map<nat, RequestRec>,
    requestByKey: map<string, nat>,
    firstResponse: map<string, ResponseRec>,
    responseList: set<(string, nat)>,
    responseHash: map<string, string>,
    challenges: map<nat, ChallengeRec>,
    capabilities: map<(string, string), nat>,
    requestSeq: nat,
    challengeSeq: nat)

  datatype Database = Database(core: Core, nextTxNum: nat, checkpoint: Option<Checkpoint>, ai: Inference)

  /** What the store reads out of a transaction's bytes: address attribution and the
      inference payload decoders. Every result below holds for any such reading. */
  datatype Codec = Codec(
    attr: Attribute,
    request: RawTx -> Option<Request>,
    response: string -> Option<Response>,
    challenge: string -> Option<Challenge>,
    capabilities: RawTx -> seq<(string, string)>)

  const EMPTY: Database := Database(
    Core(Rows(map[], map[], map[], map[], map[], 0), Blocks(map[], map[], map[])), 0, None,
    Inference(map[], map[], map[], {}, map[], map[], map[], 0, 0))

  // --- apply ---

  function Indexed(r: Rows, num: nat, raw: RawTx, hash: string, daa: nat, attr: Attribute): IndexedTx {
    IndexedTx(num, hash, daa, raw, LedgerOf(raw.outputs, FundingOf(raw, r.txById, r.tx), attr))
  }

  function HistoryRows(itx: IndexedTx): map<(string, nat), HistRow> {
    map a | a in itx.ledger :: (a, itx.num) := RowOf(itx, a)
  }

  function SpendRows(itx: IndexedTx): map<Outpoint, nat> {
    map o | o in SpentBy(itx.raw) :: itx.num
  }

  function TotalsAt(totals: map<string, Totals>, addr: string): Totals {
    if addr in totals then totals[addr] else Totals(0, 0)
  }

  function Credited(totals: map<string, Totals>, l: Ledger): map<string, Totals> {
    totals + map a | a in l ::
      Totals(Add64(TotalsAt(totals, a).received, l[a].credit), TotalsAt(totals, a).count + 1)
  }

  /** Write every row derived from one indexed transaction. */
  function StoreTx(r: Rows, itx: IndexedTx): Rows {
    Rows(
      r.tx[itx.num := itx],
      r.txById[itx.raw.txId := itx.num],
      r.history + HistoryRows(itx),
      r.spends + SpendRows(itx),
      Credited(r.totals, itx.ledger),
      r.totalTxs + 1)
  }

  /** Fold one transaction into the row tables under number `num`. */
  function InsertTx(r: Rows, num: nat, raw: RawTx, hash: string, daa: nat, attr: Attribute): Rows {
    StoreTx(r, Indexed(r, num, raw, hash, daa, attr))
  }

  function InsertTxs(r: Rows, num: nat, txs: seq<RawTx>, hash: string, daa: nat, attr: Attribute): Rows
    decreases |txs|
  {
    if txs == [] then r
    else
      var k := |txs| - 1;
      InsertTx(InsertTxs(r, num, txs[..k], hash, daa, attr), num + k, txs[k], hash, daa, attr)
  }

  function Numbers(start: nat, n: nat): seq<nat> {
    seq(n, i => start + i)
  }

  function RecordBlock(b: Blocks, hash: string, daa: nat, nums: seq<nat>): Blocks {
    Blocks(b.applied[hash := daa], b.chainByDaa[(daa, hash) := hash], b.acceptedBy[hash := nums])
  }

  function ApplyGroup(d: Database, g: Group, cx: Codec): Database {
    if g.hash in d.core.blocks.applied then d
    else Database(
      Core(InsertTxs(d.core.rows, d.nextTxNum, g.txs, g.hash, g.daa, cx.attr),
           RecordBlock(d.core.blocks, g.hash, g.daa, Numbers(d.nextTxNum, |g.txs|))),
      d.nextTxNum + |g.txs|,
      Some(Checkpoint(g.hash, g.daa)),
      IndexTxs(d.ai, d.nextTxNum, g.txs, g.hash, g.daa, cx))
  }

  function Apply(d: Database, gs: seq<Group>, cx: Codec): Database
    decreases |gs|
  {
    if gs == [] then d else ApplyGroup(Apply(d, gs[..|gs| - 1], cx), gs[|gs| - 1], cx)
  }

  // --- apply, inference part ---

  function IndexRequest(ai: Inference, raw: RawTx, hash: string, daa: nat, q: Request): Inference {
    if q.identity in ai.requestByKey then ai
    else ai.(requests := ai.requests[ai.requestSeq := RequestRec(raw.txId, q, daa, hash)],
             requestByKey := ai.requestByKey[q.identity := ai.requestSeq][raw.txId := ai.requestSeq],
             requestSeq := ai.requestSeq + 1)
  }

  function IndexResponse(ai: Inference, num: nat, raw: RawTx, hash: string, daa: nat, p: Response): Inference {
    var rec := ResponseRec(p.cid, hash, p.length, daa, raw.txId, p.responder, p.body.Some?);
    ai.(responseList := ai.responseList + {(p.requestHash, num)},
        firstResponse := if p.requestHash in ai.firstResponse then ai.firstResponse
                         else ai.firstResponse[p.requestHash := rec],
        responseHash := ai.responseHash[p.ownHash := p.requestHash])
  }

  function IndexChallenge(ai: Inference, raw: RawTx, daa: nat, c: Challenge): Inference {
    var rh := if c.requestHash.Some? then c.requestHash.value
              else if c.responseHash in ai.responseHash then ai.responseHash[c.responseHash] else "";
    ai.(challenges := ai.challenges[ai.challengeSeq := ChallengeRec(raw.txId, rh, daa)],
        challengeSeq := ai.challengeSeq + 1)
  }

  datatype Subnet = AiRequest | AiResponse | AiChallenge | OtherSubnet

  function SubnetOf(raw: RawTx): Subnet {
    if raw.subnetworkId == SUBNET_AI_REQUEST then AiRequest
    else if raw.subnetworkId == SUBNET_AI_RESPONSE then AiResponse
    else if raw.subnetworkId == SUBNET_AI_CHALLENGE then AiChallenge
    else OtherSubnet
  }

  function IndexPayload(ai: Inference, num: nat, raw: RawTx, hash: string, daa: nat, cx: Codec): Inference {
    match SubnetOf(raw)
    case AiRequest =>
      var q := cx.request(raw);
      if q.Some? then IndexRequest(ai, raw, hash, daa, q.value) else ai
    case AiResponse =>
      var p := cx.response(raw.payload);
      if p.Some? then IndexResponse(ai, num, raw, hash, daa, p.value) else ai
    case AiChallenge =>
      var c := cx.challenge(raw.payload);
      if c.Some? then IndexChallenge(ai, raw, daa, c.value) else ai
    case OtherSubnet => ai
  }

  function IndexCapabilities(ai: Inference, raw: RawTx, daa: nat, cx: Codec): Inference {
    if raw.isCoinbase
    then ai.(capabilities := ai.capabilities + map k | k in cx.capabilities(raw) :: daa)
    else ai
  }

  /** The inference effect of one transaction accepted as number `num`. */
  function IndexTx(ai: Inference, num: nat, raw: RawTx, hash: string, daa: nat, cx: Codec): Inference {
    IndexCapabilities(IndexPayload(ai, num, raw, hash, daa, cx), raw, daa, cx)
  }

  function IndexTxs(ai: Inference, num: nat, txs: seq<RawTx>, hash: string, daa: nat, cx: Codec): Inference
    decreases |txs|
  {
    if txs == [] then ai
    else
      var k := |txs| - 1;
      IndexTx(IndexTxs(ai, num, txs[..k], hash, daa, cx), num + k, txs[k], hash, daa, cx)
  }

  // --- unwind ---

  function Debited(t: Totals, credit: U64): Totals {
    Totals(SatSub(t.received, credit), SatSub(t.count, 1))
  }

  /** Roll `l` back; an address whose totals reach zero loses its row. */
  function Uncredited(totals: map<string, Totals>, l: Ledger): map<string, Totals> {
    map a | a in totals && (a in l ==> Debited(totals[a], l[a].credit) != Totals(0, 0)) ::
      if a in l then Debited(totals[a], l[a].credit) else totals[a]
  }

  function HistoryKeys(itx: IndexedTx, num: nat): set<(string, nat)> {
    set a | a in itx.ledger :: (a, num)
  }

  function RemoveTx(r: Rows, num: nat): Rows {
    if num !in r.tx then r
    else
      var itx := r.tx[num];
      Rows(
        r.tx - {num},
        r.txById - {itx.raw.txId},
        r.history - HistoryKeys(itx, num),
        r.spends - SpentBy(itx.raw),
        Uncredited(r.totals, itx.ledger),
        SatSub(r.totalTxs, 1))
  }

  /** Removes from the last number to the first. */
  function RemoveTxs(r: Rows, nums: seq<nat>): Rows
    decreases |nums|
  {
    if nums == [] then r
    else RemoveTxs(RemoveTx(r, nums[|nums| - 1]), nums[..|nums| - 1])
  }

  function ForgetBlock(b: Blocks, hash: string): Blocks {
    Blocks(
      b.applied - {hash},
      if hash in b.applied then b.chainByDaa - {(b.applied[hash], hash)} else b.chainByDaa,
      b.acceptedBy - {hash})
  }

  function UnwindBlock(c: Core, hash: string): Core {
    if hash !in c.blocks.acceptedBy then c
    else Core(RemoveTxs(c.rows, c.blocks.acceptedBy[hash]), ForgetBlock(c.blocks, hash))
  }

  function UnwindAll(c: Core, hashes: seq<string>): Core
    decreases |hashes|
  {
    if hashes == [] then c
    else UnwindBlock(UnwindAll(c, hashes[..|hashes| - 1]), hashes[|hashes| - 1])
  }

  // --- expiry ---

  /** What the ascending scan collects before its first transaction at or above the cutoff. */
  function Expired(tx: map<nat, IndexedTx>, cutoff: nat): set<nat> {
    set n | n in tx && forall m :: m in tx && m <= n ==> tx[m].daa < cutoff
  }

  /** Drop the rows of `gone`, leaving every counter alone. */
  function DropTxs(r: Rows, gone: set<nat>): Rows
    requires gone <= r.tx.Keys
  {
    Rows(
      r.tx - gone,
      r.txById - set n | n in gone :: r.tx[n].raw.txId,
      r.history - set n, a | n in gone && a in r.tx[n].ledger :: (a, n),
      r.spends - set n, o | n in gone && o in SpentBy(r.tx[n].raw) :: o,
      r.totals,
      r.totalTxs)
  }

  /** Chain keys sort by DAA first, so the metadata scan is exact. */
  function DropBlocks(b: Blocks, cutoff: nat): Blocks {
    var keys := set k | k in b.chainByDaa && k.0 < cutoff;
    var hashes := set k | k in keys :: b.chainByDaa[k];
    Blocks(b.applied - hashes, b.chainByDaa - keys, b.acceptedBy - hashes)
  }

  function ExpireCore(c: Core, cutoff: nat): Core {
    Core(DropTxs(c.rows, Expired(c.rows.tx, cutoff)), DropBlocks(c.blocks, cutoff))
  }

  /** The rows `drop` does not select. */
  function Kept<K, V>(t: map<K, V>, drop: V -> bool): map<K, V> {
    map k | k in t && !drop(t[k]) :: t[k]
  }

  function OldRequest(cutoff: nat): RequestRec -> bool { (q: RequestRec) => q.daa < cutoff }
  function OldResponse(cutoff: nat): ResponseRec -> bool { (p: ResponseRec) => p.daa < cutoff }
  function OldChallenge(cutoff: nat): ChallengeRec -> bool { (c: ChallengeRec) => c.daa < cutoff }
  function OldSighting(cutoff: nat): nat -> bool { seen => seen < cutoff }
  function Unfiled(byKey: map<string, nat>): string -> bool { rh => rh !in byKey }

  /** The keys the requests `s` are filed under: identity and transaction id. */
  function KeysOf(ai: Inference, s: set<nat>): set<string>
    requires s <= ai.requests.Keys
  {
    (set x | x in s :: ai.requests[x].request.identity) + (set x | x in s :: ai.requests[x].txId)
  }

  /** The inference sweep, against the transactions that stay live. */
  function ExpireInference(ai: Inference, live: set<nat>, cutoff: nat): Inference {
    var requests := Kept(ai.requests, OldRequest(cutoff));
    var keys := KeysOf(ai, ai.requests.Keys - requests.Keys);
    var byKey := ai.requestByKey - keys;
    ai.(requests := requests,
        requestByKey := byKey,
        firstResponse := Kept(ai.firstResponse - keys, OldResponse(cutoff)),
        responseList := (set e | e in ai.responseList && e.1 in live),
        responseHash := Kept(ai.responseHash, Unfiled(byKey)),
        challenges := Kept(ai.challenges, OldChallenge(cutoff)),
        capabilities := Kept(ai.capabilities, OldSighting(cutoff)))
  }

  function Expire(d: Database, cutoff: nat): Database {
    var core := ExpireCore(d.core, cutoff);
    d.(core := core, ai := ExpireInference(d.ai, core.rows.tx.Keys, cutoff))
  }

  // --- point reads ---

  function TxAt(r: Rows, num: Option<nat>): Option<IndexedTx> {
    if num.Some? && num.value in r.tx then Some(r.tx[num.value]) else None
  }

  function TxById(r: Rows, id: string): Option<IndexedTx> {
    TxAt(r, if id in r.txById then Some(r.txById[id]) else None)
  }

  function SpendOf(r: Rows, o: Outpoint): Option<IndexedTx> {
    TxAt(r, if o in r.spends then Some(r.spends[o]) else None)
  }

  /** The numbers an address's history range holds. */
  function HistoryNums(r: Rows, addr: string): set<nat> {
    set k | k in r.history && k.0 == addr :: k.1
  }

  function RowsAt(r: Rows, addr: string, nums: seq<nat>): seq<HistRow>
    requires forall n :: n in nums ==> (addr, n) in r.history
  {
    seq(|nums|, i requires 0 <= i < |nums| => r.history[(addr, nums[i])])
  }

  lemma HistoryScan(r: Rows, addr: string)
    ensures forall n :: n in Ascending(HistoryNums(r, addr)) ==> (addr, n) in r.history
  {
    forall n | n in Ascending(HistoryNums(r, addr)) ensures (addr, n) in r.history {
      assert n in Members(Ascending(HistoryNums(r, addr)));
      var k :| k in r.history && k.0 == addr && k.1 == n;
      assert k == (addr, n);
    }
  }

  lemma HistoryListed(r: Rows, addr: string)
    ensures forall n :: n in Ascending(HistoryNums(r, addr)) <==> (addr, n) in r.history
  {
    HistoryScan(r, addr);
    hide Ascending;
    forall n | (addr, n) in r.history ensures n in Ascending(HistoryNums(r, addr)) {
      assert (addr, n).1 in HistoryNums(r, addr);
      assert n in Members(Ascending(HistoryNums(r, addr)));
    }
  }

  /** An address's rows, oldest first. */
  function HistoryOf(r: Rows, addr: string): seq<HistRow> {
    HistoryScan(r, addr);
    RowsAt(r, addr, Ascending(HistoryNums(r, addr)))
  }

  // --- runs ---

  /** One committed write transaction. */
  datatype Event = Applied(groups: seq<Group>) | Unwound(hash: string) | Swept(cutoff: nat)

  function Step(d: Database, e: Event, cx: Codec): Database {
    match e
    case Applied(gs) => Apply(d, gs, cx)
    case Unwound(h) => d.(core := UnwindBlock(d.core, h))
    case Swept(c) => Expire(d, c)
  }

  function Run(es: seq<Event>, cx: Codec): Database {
    if es == [] then EMPTY else Step(Run(es[..|es| - 1], cx), es[|es| - 1], cx)
  }
}
