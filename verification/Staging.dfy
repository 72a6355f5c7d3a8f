/** Transaction bodies seen ahead of their acceptance: a bounded first-in
    first-out map, and the join of the node's acceptance lists with it. */
module StagingModel {
  import opened Types
  import opened Scans
  import opened Listings

  const STAGE_BLOCK_CAP: nat := 20_000
  const STAGE_TX_CAP: nat := 50_000
  const COINBASE_SUBNETWORK := "0100000000000000000000000000000000000000"

  // --- what a bounded map holds, as a function of everything ever inserted ---

  datatype Insertion<V> = Insertion(key: string, value: V)

  /** The last `cap` elements, or all of them. */
  function Last<T>(s: seq<T>, cap: nat): seq<T> {
    if |s| <= cap then s else s[|s| - cap..]
  }

  /** The keys whose insertion was fresh: not resident at the time. */
  ghost function FreshKeys<V>(ops: seq<Insertion<V>>, cap: nat): seq<string> {
    if ops == [] then []
    else
      var before := FreshKeys(ops[..|ops| - 1], cap);
      var key := ops[|ops| - 1].key;
      if key in Last(before, cap) then before else before + [key]
  }

  ghost function Resident<V>(ops: seq<Insertion<V>>, cap: nat): seq<string> {
    Last(FreshKeys(ops, cap), cap)
  }

  /** The value most recently inserted under `key`. */
  ghost function Latest<V>(ops: seq<Insertion<V>>, key: string): Option<V> {
    if ops == [] then None
    else if ops[|ops| - 1].key == key then Some(ops[|ops| - 1].value)
    else Latest(ops[..|ops| - 1], key)
  }

  ghost predicate Distinct<T>(s: seq<T>) {
    forall i, j :: 0 <= i < j < |s| ==> s[i] != s[j]
  }

  lemma FreshKeysSnoc<V>(ops: seq<Insertion<V>>, op: Insertion<V>, cap: nat)
    ensures FreshKeys(ops + [op], cap)
         == if op.key in Resident(ops, cap) then FreshKeys(ops, cap) else FreshKeys(ops, cap) + [op.key]
  {
    assert (ops + [op])[..|ops|] == ops;
  }

  lemma LatestSnoc<V>(ops: seq<Insertion<V>>, op: Insertion<V>, key: string)
    ensures Latest(ops + [op], key) == if op.key == key then Some(op.value) else Latest(ops, key)
  {
    assert (ops + [op])[..|ops|] == ops;
  }

  /** Trimming before or after appending makes no difference. */
  lemma LastSnoc<T>(s: seq<T>, x: T, cap: nat)
    ensures Last(Last(s, cap) + [x], cap) == Last(s + [x], cap)
  {
  }

  lemma ResidentSnoc<V>(ops: seq<Insertion<V>>, op: Insertion<V>, cap: nat)
    ensures Resident(ops + [op], cap)
         == if op.key in Resident(ops, cap) then Resident(ops, cap) else Last(Resident(ops, cap) + [op.key], cap)
  {
    FreshKeysSnoc(ops, op, cap);
    LastSnoc(FreshKeys(ops, cap), op.key, cap);
  }

  /** No key is resident twice, whatever was inserted. */
  lemma {:induction false} ResidentIsDistinct<V>(ops: seq<Insertion<V>>, cap: nat)
    ensures Distinct(Resident(ops, cap)) && |Resident(ops, cap)| <= cap
    decreases |ops|
  {
    if ops != [] {
      hide FreshKeys, Last, Resident, Distinct;
      var pre, op := ops[..|ops| - 1], ops[|ops| - 1];
      ResidentIsDistinct(pre, cap);
      assert ops == pre + [op];
      ResidentSnoc(pre, op, cap);
      if op.key !in Resident(pre, cap) {
        LastDistinct(Resident(pre, cap), op.key, cap);
      }
    }
  }

  lemma LastDistinct(s: seq<string>, x: string, cap: nat)
    requires Distinct(s) && x !in s
    ensures Distinct(Last(s + [x], cap)) && |Last(s + [x], cap)| <= cap
  {
    assert Distinct(s + [x]);
  }

  /** Fresh insertions only ever accumulate. */
  lemma {:induction false} FreshKeysGrow<V>(ops: seq<Insertion<V>>, more: seq<Insertion<V>>, cap: nat)
    ensures FreshKeys(ops, cap) <= FreshKeys(ops + more, cap)
    decreases |more|
  {
    hide FreshKeys, Resident;
    if more == [] {
      assert ops + more == ops;
    } else {
      var pre, op := more[..|more| - 1], more[|more| - 1];
      FreshKeysGrow(ops, pre, cap);
      assert ops + more == ops + pre + [op];
      FreshKeysSnoc(ops + pre, op, cap);
    }
  }

  /** A freshly inserted key stays resident for exactly as long as fewer than `cap` fresh
      insertions have followed it, or it has been inserted afresh since. */
  lemma FreshKeyResidence<V>(ops: seq<Insertion<V>>, op: Insertion<V>, more: seq<Insertion<V>>, cap: nat)
    requires op.key !in Resident(ops, cap)
    ensures var at := |FreshKeys(ops, cap)|;
      var all := FreshKeys(ops + [op] + more, cap);
      && at < |all| && all[at] == op.key
      && (op.key in Resident(ops + [op] + more, cap)
          <==> |all| - at <= cap || exists i :: at < i < |all| && |all| - cap <= i && all[i] == op.key)
  {
    FreshKeysSnoc(ops, op, cap);
    FreshKeysGrow(ops + [op], more, cap);
    var at := |FreshKeys(ops, cap)|;
    var all := FreshKeys(ops + [op] + more, cap);
    assert FreshKeys(ops + [op], cap)[at] == op.key;
    hide FreshKeys;
    InLast(all, at, cap);
  }

  lemma InLast(s: seq<string>, at: nat, cap: nat)
    requires at < |s|
    ensures s[at] in Last(s, cap) <==> |s| - at <= cap || exists i :: at < i < |s| && |s| - cap <= i && s[i] == s[at]
  {
    var r := Last(s, cap);
    var skip := |s| - |r|;
    assert forall k :: 0 <= k < |r| ==> r[k] == s[skip + k];
    if s[at] in r {
      var k :| 0 <= k < |r| && r[k] == s[at];
      assert s[skip + k] == s[at];
      if |s| - at > cap {
        assert at < skip + k;
      }
    }
  }

  // --- the bounded map ---

  class Bounded<V> {
    var map_: map<string, V>
    var order: seq<string>
    const cap: nat
    ghost var ops: seq<Insertion<V>>

    /** The map holds exactly the resident keys, each with its latest value. */
    ghost predicate Valid()
      reads this
    {
      && order == Resident(ops, cap)
      && Holds(map_, order, ops)
    }

    constructor (cap: nat)
      ensures Valid() && this.cap == cap && ops == []
    {
      map_, order, this.cap, ops := map[], [], cap, [];
    }

    /** Insert or overwrite; a fresh key goes to the back and pushes the oldest out. */
    method Insert(key: string, value: V)
      requires Valid()
      modifies this
      ensures Valid() && ops == old(ops) + [Insertion(key, value)]
    {
      hide Resident, Last, Latest;
      ghost var op := Insertion(key, value);
      var seen := key in map_;
      HoldsInsert(map_, order, ops, op);
      ResidentSnoc(ops, op, cap);
      ResidentIsDistinct(ops, cap);
      map_ := map_[key := value];
      ops := ops + [op];
      if !seen {
        order := order + [key];
        order, map_ := Evict(order, map_, cap, ops);
      }
    }

    method Get(key: string) returns (r: Option<V>)
      requires Valid()
      ensures r == if key in Resident(ops, cap) then Latest(ops, key) else None
    {
      r := if key in map_ then Some(map_[key]) else None;
    }

    method Len() returns (n: nat)
      requires Valid()
      ensures n == |Resident(ops, cap)|
    {
      ResidentIsDistinct(ops, cap);
      DistinctCount(order);
      assert map_.Keys == set k | k in order;
      n := |map_|;
    }
  }

  ghost predicate Holds<V>(m: map<string, V>, order: seq<string>, ops: seq<Insertion<V>>) {
    && (forall k :: k in m <==> k in order)
    && (forall k :: k in m ==> Latest(ops, k) == Some(m[k]))
  }

  lemma HoldsInsert<V>(m: map<string, V>, order: seq<string>, ops: seq<Insertion<V>>, op: Insertion<V>)
    requires Holds(m, order, ops)
    ensures Holds(m[op.key := op.value], if op.key in m then order else order + [op.key], ops + [op])
  {
    var m' := m[op.key := op.value];
    forall k | k in m' ensures Latest(ops + [op], k) == Some(m'[k]) {
      LatestSnoc(ops, op, k);
    }
  }

  /** Pop from the front until at most `cap` keys are left. */
  method Evict<V>(order: seq<string>, m: map<string, V>, cap: nat, ghost ops: seq<Insertion<V>>)
    returns (order': seq<string>, m': map<string, V>)
    requires Distinct(order) && Holds(m, order, ops)
    ensures order' == Last(order, cap) && Holds(m', order', ops)
  {
    hide Latest;
    order', m' := order, m;
    ghost var popped: nat := 0;
    while |order'| > cap
      invariant popped <= |order| && order' == order[popped..] && (popped == 0 || |order'| >= cap)
      invariant Holds(m', order', ops)
    {
      var oldest := order'[0];
      HoldsPop(m', order', ops);
      order', m' := order'[1..], m' - {oldest};
      popped := popped + 1;
    }
  }

  lemma HoldsPop<V>(m: map<string, V>, order: seq<string>, ops: seq<Insertion<V>>)
    requires Distinct(order) && order != [] && Holds(m, order, ops)
    ensures Holds(m - {order[0]}, order[1..], ops)
  {
    hide Latest;
    var m' := m - {order[0]};
    forall k ensures k in m' <==> k in order[1..] {
      assert k in order <==> k == order[0] || k in order[1..];
    }
  }

  lemma {:induction false} DistinctCount(s: seq<string>)
    requires Distinct(s)
    ensures |set k | k in s| == |s|
  {
    if s != [] {
      DistinctCount(s[1..]);
      assert (set k | k in s) == {s[0]} + set k | k in s[1..];
    }
  }

  // --- staging blocks ---

  /** An input and an output as announced; outpoint and script are optional messages. */
  datatype WireIn = WireIn(
    outpoint: Option<(string, nat)>, signatureScript: string, sequence: nat, sigOpCount: nat)

  datatype WireOut = WireOut(amount: U64, script: Option<(nat, string)>)

  /** A transaction as announced; the id is in the optional verbose part. */
  datatype WireTx = WireTx(
    txId: Option<string>, version: nat, lockTime: nat, subnetworkId: string,
    gas: nat, payload: string, inputs: seq<WireIn>, outputs: seq<WireOut>)

  /** A block as announced: hash from the verbose part, DAA score from the header. */
  datatype WireBlock = WireBlock(hash: Option<string>, daa: Option<nat>, txs: seq<WireTx>)

  /** A missing outpoint or script is read as an empty one. */
  function RawIn(i: WireIn): TxIn {
    var o := if i.outpoint.Some? then i.outpoint.value else ("", 0);
    TxIn(o.0, o.1, i.signatureScript, i.sequence, i.sigOpCount)
  }

  function RawOut(o: WireOut): TxOut {
    var s := if o.script.Some? then o.script.value else (0, "");
    TxOut(o.amount, s.0, s.1)
  }

  function RawIns(ws: seq<WireIn>): seq<TxIn> {
    seq(|ws|, i requires 0 <= i < |ws| => RawIn(ws[i]))
  }

  function RawOuts(ws: seq<WireOut>): seq<TxOut> {
    seq(|ws|, i requires 0 <= i < |ws| => RawOut(ws[i]))
  }

  function RawFromWire(tx: WireTx): Option<RawTx> {
    if tx.txId.None? || tx.txId.value == "" then None
    else Some(RawTx(tx.txId.value, tx.subnetworkId == COINBASE_SUBNETWORK, tx.version, tx.lockTime,
                    tx.subnetworkId, tx.gas, tx.payload,
                    RawIns(tx.inputs), RawOuts(tx.outputs)))
  }

  /** `x` is input `w`: the same fields, an absent outpoint standing for the empty one. */
  predicate IsInput(w: WireIn, x: TxIn) {
    && x.signatureScript == w.signatureScript && x.sequence == w.sequence && x.sigOpCount == w.sigOpCount
    && (w.outpoint == Some((x.prevId, x.prevIndex)) || (w.outpoint.None? && x.prevId == "" && x.prevIndex == 0))
  }

  predicate IsOutput(w: WireOut, x: TxOut) {
    && x.amount == w.amount
    && (w.script == Some((x.scriptVersion, x.script)) || (w.script.None? && x.scriptVersion == 0 && x.script == ""))
  }

  /** `tx` announces `raw`: the same id, fields, inputs and outputs, in order. */
  ghost predicate Announces(tx: WireTx, raw: RawTx) {
    && tx.txId == Some(raw.txId) && tx.version == raw.version && tx.lockTime == raw.lockTime
    && tx.subnetworkId == raw.subnetworkId && tx.gas == raw.gas && tx.payload == raw.payload
    && |tx.inputs| == |raw.inputs| && (forall i :: 0 <= i < |tx.inputs| ==> IsInput(tx.inputs[i], raw.inputs[i]))
    && |tx.outputs| == |raw.outputs| && (forall i :: 0 <= i < |tx.outputs| ==> IsOutput(tx.outputs[i], raw.outputs[i]))
  }

  lemma InputIff(w: WireIn, x: TxIn)
    ensures RawIn(w) == x <==> IsInput(w, x)
  {
    if w.outpoint.Some? {
      assert w.outpoint.value == (w.outpoint.value.0, w.outpoint.value.1);
    }
  }

  lemma OutputIff(w: WireOut, x: TxOut)
    ensures RawOut(w) == x <==> IsOutput(w, x)
  {
    if w.script.Some? {
      assert w.script.value == (w.script.value.0, w.script.value.1);
    }
  }

  lemma InputsIff(ws: seq<WireIn>, xs: seq<TxIn>)
    ensures RawIns(ws) == xs <==> |ws| == |xs| && forall i :: 0 <= i < |ws| ==> IsInput(ws[i], xs[i])
  {
    hide IsInput, RawIn;
    forall i | 0 <= i < |ws| && |ws| == |xs| ensures RawIns(ws)[i] == xs[i] <==> IsInput(ws[i], xs[i]) {
      InputIff(ws[i], xs[i]);
    }
  }

  lemma OutputsIff(ws: seq<WireOut>, xs: seq<TxOut>)
    ensures RawOuts(ws) == xs <==> |ws| == |xs| && forall i :: 0 <= i < |ws| ==> IsOutput(ws[i], xs[i])
  {
    hide IsOutput, RawOut;
    forall i | 0 <= i < |ws| && |ws| == |xs| ensures RawOuts(ws)[i] == xs[i] <==> IsOutput(ws[i], xs[i]) {
      OutputIff(ws[i], xs[i]);
    }
  }

  /** Nothing of an announced transaction is lost or made up: a body is read from exactly the
      transactions that announce it, its id non-empty and its coinbase flag the subnetwork's. */
  lemma WireIff(tx: WireTx, raw: RawTx)
    ensures RawFromWire(tx) == Some(raw) <==>
      Announces(tx, raw) && raw.txId != "" && (raw.isCoinbase <==> raw.subnetworkId == COINBASE_SUBNETWORK)
  {
    hide IsInput, IsOutput, RawIns, RawOuts;
    InputsIff(tx.inputs, raw.inputs);
    OutputsIff(tx.outputs, raw.outputs);
  }

  function BodyInsertions(txs: seq<WireTx>): seq<Insertion<RawTx>> {
    if txs == [] then []
    else
      var rest, raw := BodyInsertions(txs[..|txs| - 1]), RawFromWire(txs[|txs| - 1]);
      if raw.None? then rest else rest + [Insertion(raw.value.txId, raw.value)]
  }

  function DaaInsertions(b: WireBlock): seq<Insertion<nat>> {
    if b.hash.Some? && b.daa.Some? && b.hash.value != "" then [Insertion(b.hash.value, b.daa.value)] else []
  }

  function AllDaaInsertions(bs: seq<WireBlock>): seq<Insertion<nat>> {
    if bs == [] then [] else AllDaaInsertions(bs[..|bs| - 1]) + DaaInsertions(bs[|bs| - 1])
  }

  function AllBodyInsertions(bs: seq<WireBlock>): seq<Insertion<RawTx>> {
    if bs == [] then [] else AllBodyInsertions(bs[..|bs| - 1]) + BodyInsertions(bs[|bs| - 1].txs)
  }

  /** `op` stages a body that `tx` announces, under its id. */
  ghost predicate Stages(op: Insertion<RawTx>, tx: WireTx) {
    && op.key == op.value.txId && op.key != "" && Announces(tx, op.value)
    && (op.value.isCoinbase <==> op.value.subnetworkId == COINBASE_SUBNETWORK)
  }

  /** A block's bodies are staged in order, one for each transaction that has an id. */
  lemma {:induction false} BodyInsertionsAre(txs: seq<WireTx>) returns (at: seq<nat>)
    ensures Increasing(at) && forall i :: i in at <==>
      0 <= i < |txs| && txs[i].txId.Some? && txs[i].txId.value != ""
    ensures var ops := BodyInsertions(txs);
      |ops| == |at| && forall k :: 0 <= k < |at| ==> at[k] < |txs| && Stages(ops[k], txs[at[k]])
    decreases |txs|
  {
    hide Increasing, Announces;
    at := [];
    NoneIncrease();
    if txs != [] {
      var k := |txs| - 1;
      at := BodyInsertionsAre(txs[..k]);
      var raw := RawFromWire(txs[k]);
      if raw.Some? {
        WireIff(txs[k], raw.value);
        IncreasingSnoc(at, k);
        at := at + [k];
      }
    }
  }

  lemma NoneIncrease()
    ensures Increasing([])
  {
  }

  /** Every body was inserted under its own id. */
  ghost predicate Keyed(ops: seq<Insertion<RawTx>>) {
    forall i :: 0 <= i < |ops| ==> ops[i].key == ops[i].value.txId
  }

  lemma {:induction false} LatestIsKeyed(ops: seq<Insertion<RawTx>>, key: string)
    requires Keyed(ops)
    ensures Latest(ops, key).Some? ==> Latest(ops, key).value.txId == key
    decreases |ops|
  {
    if ops != [] && ops[|ops| - 1].key != key {
      LatestIsKeyed(ops[..|ops| - 1], key);
    }
  }

  class Staging {
    const blockDaa: Bounded<nat>
    const txBodies: Bounded<RawTx>

    ghost predicate Valid()
      reads this, blockDaa, txBodies
    {
      && blockDaa.Valid() && blockDaa.cap == STAGE_BLOCK_CAP
      && txBodies.Valid() && txBodies.cap == STAGE_TX_CAP
      && Keyed(txBodies.ops)
    }

    constructor ()
      ensures Valid() && fresh(blockDaa) && fresh(txBodies) && blockDaa.ops == [] && txBodies.ops == []
    {
      blockDaa := new Bounded(STAGE_BLOCK_CAP);
      txBodies := new Bounded(STAGE_TX_CAP);
    }

    method StageBlock(b: WireBlock)
      requires Valid()
      modifies blockDaa, txBodies
      ensures Valid()
      ensures blockDaa.ops == old(blockDaa.ops) + DaaInsertions(b)
      ensures txBodies.ops == old(txBodies.ops) + BodyInsertions(b.txs)
      ensures blockDaa.ops == old(blockDaa.ops) <==> b.hash.None? || b.hash.value == "" || b.daa.None?
      ensures blockDaa.ops != old(blockDaa.ops) ==>
        blockDaa.ops == old(blockDaa.ops) + [Insertion(b.hash.value, b.daa.value)]
    {
      hide Resident, Latest, Holds, RawFromWire;
      if b.hash.Some? && b.daa.Some? && b.hash.value != "" {
        blockDaa.Insert(b.hash.value, b.daa.value);
      }
      for i := 0 to |b.txs|
        invariant Valid()
        invariant blockDaa.ops == old(blockDaa.ops) + DaaInsertions(b)
        invariant txBodies.ops == old(txBodies.ops) + BodyInsertions(b.txs[..i])
      {
        assert b.txs[..i + 1][..i] == b.txs[..i];
        var raw := RawFromWire(b.txs[i]);
        if raw.Some? {
          txBodies.Insert(raw.value.txId, raw.value);
        }
      }
      assert b.txs[..|b.txs|] == b.txs;
    }

    /** Stage a list of fetched blocks. */
    method StageBlocks(bs: seq<WireBlock>)
      requires Valid()
      modifies blockDaa, txBodies
      ensures Valid()
      ensures blockDaa.ops == old(blockDaa.ops) + AllDaaInsertions(bs)
      ensures txBodies.ops == old(txBodies.ops) + AllBodyInsertions(bs)
    {
      hide Resident, Latest, Holds, DaaInsertions, BodyInsertions, Keyed;
      for i := 0 to |bs|
        invariant Valid()
        invariant blockDaa.ops == old(blockDaa.ops) + AllDaaInsertions(bs[..i])
        invariant txBodies.ops == old(txBodies.ops) + AllBodyInsertions(bs[..i])
      {
        assert bs[..i + 1][..i] == bs[..i];
        StageBlock(bs[i]);
      }
      assert bs[..|bs|] == bs;
    }
  }

  // --- joining acceptance lists with staged bodies ---

  /** One chain block's list of accepted transaction ids. */
  datatype Acceptance = Acceptance(hash: string, ids: seq<string>)

  /** The bodies found, in the order their ids were listed. */
  function Found(ids: seq<string>, bodies: map<string, RawTx>): seq<RawTx> {
    if ids == [] then []
    else
      var rest, id := Found(ids[..|ids| - 1], bodies), ids[|ids| - 1];
      if id in bodies then rest + [bodies[id]] else rest
  }

  function CountIds(accepted: seq<Acceptance>): nat {
    if accepted == [] then 0 else CountIds(accepted[..|accepted| - 1]) + |accepted[|accepted| - 1].ids|
  }

  function CountTxs(groups: seq<Group>): nat {
    if groups == [] then 0 else CountTxs(groups[..|groups| - 1]) + |groups[|groups| - 1].txs|
  }

  /** Group `g` answers list `a`: same block, the staged ids in list order, and each body
      carrying the id asked for. */
  ghost predicate Joins(
    g: Group, a: Acceptance, bodies: map<string, RawTx>, daas: map<string, nat>, resolve: string -> nat)
  {
    && g.hash == a.hash
    && g.daa == (if a.hash in daas then daas[a.hash] else resolve(a.hash))
    && g.txs == Found(a.ids, bodies)
    && IdsOf(g.txs) == Staged(a.ids, bodies)
  }

  /** Turn acceptance lists into groups; `resolve` stands for asking the node for a DAA score. */
  method BuildGroups(staging: Staging, accepted: seq<Acceptance>, resolve: string -> nat)
    returns (groups: seq<Group>, misses: nat)
    requires staging.Valid()
    ensures |groups| == |accepted|
    ensures forall i :: 0 <= i < |groups| ==>
      Joins(groups[i], accepted[i], staging.txBodies.map_, staging.blockDaa.map_, resolve)
    ensures CountTxs(groups) + misses == CountIds(accepted)
  {
    hide *;
    groups, misses := [], 0;
    CountsOfNothing(accepted);
    for i := 0 to |accepted|
      invariant |groups| == i
      invariant forall k :: 0 <= k < i ==>
        Joins(groups[k], accepted[k], staging.txBodies.map_, staging.blockDaa.map_, resolve)
      invariant CountTxs(groups) + misses == CountIds(accepted[..i])
    {
      var g, missed := BuildGroup(staging, accepted[i], resolve);
      CountsSnoc(groups, g, accepted, i);
      groups, misses := groups + [g], misses + missed;
    }
    assert accepted[..|accepted|] == accepted;
  }

  method BuildGroup(staging: Staging, a: Acceptance, resolve: string -> nat) returns (g: Group, misses: nat)
    requires staging.Valid()
    ensures Joins(g, a, staging.txBodies.map_, staging.blockDaa.map_, resolve)
    ensures |g.txs| + misses == |a.ids|
  {
    StagedBodiesAreKeyed(staging.txBodies.map_, staging.txBodies.order, staging.txBodies.ops);
    FoundIds(a.ids, staging.txBodies.map_);
    hide Found, Staged, IdsOf;
    var daa := if a.hash in staging.blockDaa.map_ then staging.blockDaa.map_[a.hash] else resolve(a.hash);
    var txs;
    txs, misses := FindBodies(staging, a.ids);
    g := Group(a.hash, daa, txs);
  }

  lemma CountsOfNothing(accepted: seq<Acceptance>)
    ensures CountTxs([]) == CountIds(accepted[..0]) == 0
  {
  }

  lemma CountsSnoc(groups: seq<Group>, g: Group, accepted: seq<Acceptance>, i: nat)
    requires i < |accepted|
    ensures CountTxs(groups + [g]) == CountTxs(groups) + |g.txs|
    ensures CountIds(accepted[..i + 1]) == CountIds(accepted[..i]) + |accepted[i].ids|
  {
    assert (groups + [g])[..|groups|] == groups;
    assert accepted[..i + 1][..i] == accepted[..i];
  }

  method FindBodies(staging: Staging, ids: seq<string>) returns (txs: seq<RawTx>, misses: nat)
    ensures txs == Found(ids, staging.txBodies.map_) && |txs| + misses == |ids|
  {
    txs, misses := [], 0;
    for i := 0 to |ids|
      invariant txs == Found(ids[..i], staging.txBodies.map_) && |txs| + misses == i
    {
      assert ids[..i + 1][..i] == ids[..i];
      if ids[i] in staging.txBodies.map_ {
        txs := txs + [staging.txBodies.map_[ids[i]]];
      } else {
        misses := misses + 1;
      }
    }
    assert ids[..|ids|] == ids;
  }

  function IdsOf(txs: seq<RawTx>): seq<string> {
    seq(|txs|, i requires 0 <= i < |txs| => txs[i].txId)
  }

  /** The listed ids that have a staged body, in list order. */
  function Staged(ids: seq<string>, bodies: map<string, RawTx>): seq<string> {
    if ids == [] then []
    else Staged(ids[..|ids| - 1], bodies) + if ids[|ids| - 1] in bodies then [ids[|ids| - 1]] else []
  }

  ghost predicate BodiesKeyed(bodies: map<string, RawTx>) {
    forall k :: k in bodies ==> bodies[k].txId == k
  }

  /** Each body carries the id asked for: the ids of what was found are the staged ids. */
  lemma {:induction false} FoundIds(ids: seq<string>, bodies: map<string, RawTx>)
    requires BodiesKeyed(bodies)
    ensures IdsOf(Found(ids, bodies)) == Staged(ids, bodies)
    decreases |ids|
  {
    if ids != [] {
      var pre := ids[..|ids| - 1];
      FoundIds(pre, bodies);
      assert IdsOf(Found(ids, bodies)) == Staged(ids, bodies) by {
        assert ids[|ids| - 1] in bodies ==>
          IdsOf(Found(ids, bodies)) == IdsOf(Found(pre, bodies)) + [ids[|ids| - 1]];
      }
    }
  }

  /** The bodies found are those staged under the listed ids that have one, in list order. */
  lemma {:induction false} FoundAre(ids: seq<string>, bodies: map<string, RawTx>) returns (at: seq<nat>)
    ensures Increasing(at) && forall i :: i in at <==> 0 <= i < |ids| && ids[i] in bodies
    ensures var txs := Found(ids, bodies);
      |txs| == |at| && forall k :: 0 <= k < |at| ==>
        at[k] < |ids| && ids[at[k]] in bodies && txs[k] == bodies[ids[at[k]]]
    decreases |ids|
  {
    hide Increasing;
    at := [];
    NoneIncrease();
    if ids != [] {
      var k := |ids| - 1;
      at := FoundAre(ids[..k], bodies);
      if ids[k] in bodies {
        IncreasingSnoc(at, k);
        at := at + [k];
      }
    }
  }

  /** Nothing is missed exactly when every listed id is staged, and then the group carries
      the block's whole acceptance list. */
  lemma {:induction false} NothingMissedIff(ids: seq<string>, bodies: map<string, RawTx>)
    ensures |Staged(ids, bodies)| <= |ids|
    ensures |Staged(ids, bodies)| == |ids| <==> forall i :: 0 <= i < |ids| ==> ids[i] in bodies
    ensures |Staged(ids, bodies)| == |ids| ==> Staged(ids, bodies) == ids
    decreases |ids|
  {
    if ids != [] {
      var pre := ids[..|ids| - 1];
      NothingMissedIff(pre, bodies);
      assert ids == pre + [ids[|ids| - 1]];
    }
  }

  /** What a valid staging area hands out is keyed by id. */
  lemma StagedBodiesAreKeyed(m: map<string, RawTx>, order: seq<string>, ops: seq<Insertion<RawTx>>)
    requires Holds(m, order, ops) && Keyed(ops)
    ensures BodiesKeyed(m)
  {
    forall k | k in m ensures m[k].txId == k {
      LatestIsKeyed(ops, k);
    }
  }
}
