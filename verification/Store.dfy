/** The durable store: one object holding the committed database. Each writer
    works on local copies of the tables and commits them at the end, as one redb
    write transaction does, so a caller sees all of it or none of it. */
module StoreModel {
  import opened Types
  import opened Scans
  import opened Tables
  import opened Branches
  import opened Writers
  import opened InferenceIndex
  import opened FeedModel

  datatype ApplyStats = ApplyStats(blocks: nat, txs: nat, totalTxs: nat, checkpointDaa: nat)

  /** The groups of a batch that are not skipped. */
  function Fresh(d: Database, gs: seq<Group>, cx: Codec): seq<Group>
    decreases |gs|
  {
    if gs == [] then []
    else
      var k := |gs| - 1;
      var pre := Fresh(d, gs[..k], cx);
      if gs[k].hash in Apply(d, gs[..k], cx).core.blocks.applied then pre else pre + [gs[k]]
  }

  function StatsFor(d: Database, gs: seq<Group>, cx: Codec): ApplyStats {
    var added := Fresh(d, gs, cx);
    ApplyStats(|added|, |AllTxs(added)|, Apply(d, gs, cx).core.rows.totalTxs,
               if added == [] then 0 else added[|added| - 1].daa)
  }

  lemma FreshSnoc(d: Database, gs: seq<Group>, i: nat, cx: Codec)
    requires i < |gs|
    ensures var mid := Apply(d, gs[..i], cx);
      && Apply(d, gs[..i + 1], cx) == ApplyGroup(mid, gs[i], cx)
      && Fresh(d, gs[..i + 1], cx) ==
           if gs[i].hash in mid.core.blocks.applied then Fresh(d, gs[..i], cx) else Fresh(d, gs[..i], cx) + [gs[i]]
  {
    hide ApplyGroup;
    assert gs[..i + 1][..i] == gs[..i];
  }

  lemma AllTxsSnoc(gs: seq<Group>, g: Group)
    ensures AllTxs(gs + [g]) == AllTxs(gs) + g.txs
  {
    assert (gs + [g])[..|gs|] == gs;
  }

  /** The checkpoint a batch leaves: the last fresh group's, or the old one. */
  function CheckpointAfter(d: Database, added: seq<Group>): Option<Checkpoint> {
    if added == [] then d.checkpoint
    else Some(Checkpoint(added[|added| - 1].hash, added[|added| - 1].daa))
  }

  /** Apply's inner loop: one group's transactions, in order. */
  method WriteGroupTxs(rows: Rows, ai: Inference, next: nat, g: Group, cx: Codec)
    returns (r: Rows, a: Inference, nums: seq<nat>)
    ensures r == InsertTxs(rows, next, g.txs, g.hash, g.daa, cx.attr)
    ensures a == IndexTxs(ai, next, g.txs, g.hash, g.daa, cx)
    ensures nums == Numbers(next, |g.txs|)
  {
    hide InsertTx, IndexTx;
    r, a, nums := rows, ai, [];
    for i := 0 to |g.txs|
      invariant r == InsertTxs(rows, next, g.txs[..i], g.hash, g.daa, cx.attr)
      invariant a == IndexTxs(ai, next, g.txs[..i], g.hash, g.daa, cx)
      invariant nums == Numbers(next, i)
    {
      assert g.txs[..i + 1][..i] == g.txs[..i];
      r := WriteTx(r, next + i, g.txs[i], g.hash, g.daa, cx.attr);
      a := IndexTx(a, next + i, g.txs[i], g.hash, g.daa, cx);
      nums := nums + [next + i];
    }
    assert g.txs[..|g.txs|] == g.txs;
  }

  /** Cut one page out of a scan, as the paging reads do. */
  method TakePage<T>(rows: seq<T>, limit: nat, offset: nat) returns (out: seq<T>)
    ensures out == Page(rows, limit, offset)
    ensures |out| == PageSize(|rows|, limit, offset) && forall i :: 0 <= i < |out| ==> out[i] == rows[offset + i]
  {
    out := [];
    var skipped := 0;
    for i := 0 to |rows|
      invariant skipped == if i < offset then i else offset
      invariant out == rows[skipped..i] && |out| <= limit
    {
      if skipped < offset {
        skipped := skipped + 1;
        continue;
      }
      if |out| >= limit {
        return;
      }
      out := out + [rows[i]];
    }
  }

  // --- the inference reads ---

  /** The feed loop: sealed requests are passed over before paging counts anything. */
  method CollectFeed(ai: Inference, limit: nat, offset: nat) returns (out: seq<FeedRow>)
    ensures out == Page(Feed(ai), limit, offset)
  {
    hide FirstResponse, Ascending;
    var nums := Reverse(Ascending(ai.requests.Keys));
    out := [];
    var skipped := 0;
    for i := 0 to |nums|
      invariant var seen := PublicRows(ai, nums[..i]);
        && skipped == (if |seen| < offset then |seen| else offset)
        && out == Page(seen, limit, offset)
    {
      PublicRowsSnoc(ai, nums, i);
      if |out| >= limit {
        PublicRowsPrefix(ai, nums, i);
        PageOfPrefix(PublicRows(ai, nums[..i]), PublicRows(ai, nums), limit, offset);
        return;
      }
      if nums[i] in ai.requests {
        var req := ai.requests[nums[i]];
        if req.request.sealed {
          continue;
        }
        if skipped < offset {
          skipped := skipped + 1;
          continue;
        }
        out := out + [(req, FirstResponse(ai, req))];
      }
    }
    assert nums[..|nums|] == nums;
  }

  lemma ReadableSnoc(tx: map<nat, IndexedTx>, nums: seq<nat>, i: nat, cx: Codec)
    requires i < |nums|
    ensures Readable(tx, nums[..i + 1], cx) == Readable(tx, nums[..i], cx) +
      if nums[i] in tx && cx.response(tx[nums[i]].raw.payload).Some? then [nums[i]] else []
  {
    assert nums[..i + 1][..i] == nums[..i];
  }

  /** The response loop of `inference_by_tx`, over the list entries of one identity. */
  method CollectResponses(tx: map<nat, IndexedTx>, nums: seq<nat>, cx: Codec) returns (found: seq<nat>)
    ensures found == Readable(tx, nums, cx)
  {
    found := [];
    for i := 0 to |nums|
      invariant found == Readable(tx, nums[..i], cx)
    {
      ReadableSnoc(tx, nums, i, cx);
      if nums[i] in tx && cx.response(tx[nums[i]].raw.payload).Some? {
        found := found + [nums[i]];
      }
    }
    assert nums[..|nums|] == nums;
  }

  // --- the store ---

  class Store {
    /** The committed tables. */
    var db: Database
    /** How transaction bytes are read; fixed when the store is opened. */
    const cx: Codec

    /** Kept by every method: the response list is exact on stored transactions. */
    ghost predicate Valid()
      reads this
    {
      ListInv(db, cx)
    }

    constructor (cx: Codec)
      ensures Valid() && db == EMPTY && this.cx == cx
    {
      this.cx := cx;
      db := EMPTY;
      EmptyList(cx);
    }

    /** Fold accepted groups in, low to high, in one transaction; marked blocks are skipped. */
    method Apply(groups: seq<Group>) returns (stats: ApplyStats)
      requires Valid()
      modifies this
      ensures Valid()
      ensures db == Tables.Apply(old(db), groups, cx)
      ensures stats == StatsFor(old(db), groups, cx)
      ensures |db.core.blocks.applied| == |old(db).core.blocks.applied| + stats.blocks
      ensures db.nextTxNum == old(db).nextTxNum + stats.txs && stats.totalTxs == db.core.rows.totalTxs
      ensures if stats.blocks == 0 then stats.checkpointDaa == 0 && db.checkpoint == old(db).checkpoint
              else db.checkpoint.Some? && stats.checkpointDaa == db.checkpoint.value.daa
    {
      hide ApplyGroup, InsertTxs, IndexTxs, Numbers, AllTxs, ListInv;
      ApplyList(db, groups, cx);
      var core, ai := db.core, db.ai;
      var next: nat := db.nextTxNum;
      var checkpoint: Option<Checkpoint> := None;
      var blocks, txs := 0, 0;
      ghost var start := db;
      assert AllTxs([]) == [] by { AllTxsNone(); }
      for i := 0 to |groups|
        invariant db == start
        invariant Database(core, next, if checkpoint.Some? then checkpoint else start.checkpoint, ai)
               == Tables.Apply(start, groups[..i], cx)
        invariant var added := Fresh(start, groups[..i], cx);
          && blocks == |added| && txs == |AllTxs(added)|
          && |core.blocks.applied| == |start.core.blocks.applied| + blocks && next == start.nextTxNum + txs
          && checkpoint == if added == [] then None else CheckpointAfter(start, added)
      {
        var g := groups[i];
        ghost var mid := Tables.Apply(start, groups[..i], cx);
        FreshSnoc(start, groups, i, cx);
        if g.hash in core.blocks.applied {
          ApplyMarked(mid, g, cx);
          continue;
        }
        var rows, ai', nums := WriteGroupTxs(core.rows, ai, next, g, cx);
        core := Core(rows, RecordBlock(core.blocks, g.hash, g.daa, nums));
        ai := ai';
        next := next + |g.txs|;
        checkpoint := Some(Checkpoint(g.hash, g.daa));
        blocks, txs := blocks + 1, txs + |g.txs|;
        AllTxsSnoc(Fresh(start, groups[..i], cx), g);
        ApplyGroupRows(mid, g, cx);
      }
      assert groups[..|groups|] == groups;
      db := Database(core, next, if checkpoint.Some? then checkpoint else db.checkpoint, ai);
      stats := ApplyStats(blocks, txs, core.rows.totalTxs, if checkpoint.Some? then checkpoint.value.daa else 0);
    }

    /** Reverse one chain block: its rows go and its counters come back down. */
    method UnwindChainBlock(hash: string) returns (removed: nat)
      requires Valid()
      modifies this
      ensures Valid()
      ensures db == old(db).(core := UnwindBlock(old(db).core, hash))
      ensures removed == |old(db).core.rows.tx| - |db.core.rows.tx|
    {
      hide RemoveTxs, ListInv;
      UnwindList(db, hash, cx);
      if hash !in db.core.blocks.acceptedBy {
        return 0;
      }
      var rows;
      rows, removed := EraseTxs(db.core.rows, db.core.blocks.acceptedBy[hash]);
      db := db.(core := Core(rows, ForgetBlock(db.core.blocks, hash)));
    }

    /** Drop everything below the cutoff; the counters stay. */
    method ExpireBelow(cutoff: nat) returns (removed: nat)
      requires Valid()
      modifies this
      ensures Valid()
      ensures db == Expire(old(db), cutoff)
      ensures removed == |old(db).core.rows.tx| - |db.core.rows.tx|
    {
      hide Expired, DropBlocks, ExpireInference, ListInv;
      ExpireList(db, cutoff, cx);
      var gone := CollectExpired(db.core.rows.tx, cutoff);
      var rows := DropAll(db.core.rows, gone);
      var blocks := DropChain(db.core.blocks, cutoff);
      var ai := PruneInference(db.ai, rows.tx.Keys, cutoff);
      assert rows.tx.Keys == db.core.rows.tx.Keys - Members(gone);
      removed := |db.core.rows.tx| - |rows.tx|;
      db := db.(core := Core(rows, blocks), ai := ai);
    }

    /** One page of an address's history: its rows by descending number, `offset` of them passed
        over and at most `limit` kept. */
    method AddressHistory(addr: string, limit: nat, offset: nat) returns (out: seq<HistRow>)
      ensures out == Page(Reverse(HistoryOf(db.core.rows, addr)), limit, offset)
      ensures var h, nums := db.core.rows.history, Ascending(HistoryNums(db.core.rows, addr));
        && (forall n :: n in nums <==> (addr, n) in h)
        && |out| == PageSize(|nums|, limit, offset)
        && forall i :: 0 <= i < |out| ==> out[i] == h[(addr, nums[|nums| - 1 - offset - i])]
    {
      hide Ascending;
      HistoryScan(db.core.rows, addr);
      HistoryListed(db.core.rows, addr);
      out := TakePage(Reverse(HistoryOf(db.core.rows, addr)), limit, offset);
    }

    /** One page of the public feed: the unsealed requests by descending sequence number, each with
        the response first filed under its identity, else under its transaction id. */
    method InferenceFeed(limit: nat, offset: nat) returns (out: seq<FeedRow>)
      ensures out == Page(Feed(db.ai), limit, offset)
      ensures var reqs, seqs := db.ai.requests, Ascending(Public(db.ai));
        && (forall s :: s in seqs <==> s in reqs && !reqs[s].request.sealed)
        && |out| == PageSize(|seqs|, limit, offset)
        && forall i :: 0 <= i < |out| ==>
             && out[i].0 == reqs[seqs[|seqs| - 1 - offset - i]]
             && ShowsFirst(db.ai, out[i].0, out[i].1)
    {
      hide Ascending, Feed, ShowsFirst;
      FeedIsPublic(db.ai);
      out := CollectFeed(db.ai, limit, offset);
      PageIs(Feed(db.ai), limit, offset);
      hide Page;
    }

    /** One request by transaction id, with every stored response to it, oldest first. */
    method InferenceByTx(txId: string) returns (detail: Option<Detail>)
      requires Valid()
      ensures detail == DetailOf(db, txId, cx)
      ensures detail.Some? <==> txId in db.ai.requestByKey && db.ai.requestByKey[txId] in db.ai.requests
      ensures detail.Some? ==>
        var q := db.ai.requests[db.ai.requestByKey[txId]];
        && detail.value.request == q && ShowsFirst(db.ai, q, detail.value.first)
        && Lists(detail.value.responses, db.core.rows.tx, q.request.identity, cx)
    {
      if txId !in db.ai.requestByKey || db.ai.requestByKey[txId] !in db.ai.requests {
        return None;
      }
      hide ListInv, Ascending, Readable, AnswerNums, ListNums, FirstResponse, ShowsFirst, Lists;
      var q := db.ai.requests[db.ai.requestByKey[txId]];
      var tx, rh := db.core.rows.tx, q.request.identity;
      var nums := CollectResponses(tx, Ascending(ListNums(db.ai, rh)), cx);
      ResponsesAreExact(db, rh, cx);
      AnswerScan(tx, rh, cx);
      detail := Some(Detail(q, FirstResponse(db.ai, q), RepliesAt(tx, nums, cx)));
      FirstIsShown(db.ai, q);
      RepliesAreListed(tx, rh, cx);
    }

    /** The newest fraud challenges, at most `limit` of them. */
    method Challenges(limit: nat) returns (out: seq<ChallengeRec>)
      ensures var seqs := Ascending(db.ai.challenges.Keys);
        && |out| == PageSize(|seqs|, limit, 0)
        && forall i :: 0 <= i < |out| ==>
             seqs[|seqs| - 1 - i] in db.ai.challenges && out[i] == db.ai.challenges[seqs[|seqs| - 1 - i]]
    {
      hide Ascending;
      var seqs := Ascending(db.ai.challenges.Keys);
      assert forall s :: s in seqs ==> s in Members(seqs);
      out := [];
      for i := 0 to |seqs|
        invariant |out| == i <= limit
        invariant forall j :: 0 <= j < i ==> out[j] == db.ai.challenges[seqs[|seqs| - 1 - j]]
      {
        if |out| >= limit {
          return;
        }
        out := out + [db.ai.challenges[seqs[|seqs| - 1 - i]]];
      }
    }
  }

  lemma AllTxsNone()
    ensures AllTxs([]) == []
  {
  }

  lemma KeysOfOne(ai: Inference, s: set<nat>, x: nat)
    requires s <= ai.requests.Keys && x in ai.requests
    ensures KeysOf(ai, s + {x}) == KeysOf(ai, s) + {ai.requests[x].request.identity} + {ai.requests[x].txId}
  {
  }

  /** Unfile expired requests, and the first responses filed under the same keys. */
  method UnfileRequests(ai: Inference, stale: set<nat>)
    returns (byKey: map<string, nat>, first: map<string, ResponseRec>)
    requires stale <= ai.requests.Keys
    ensures byKey == ai.requestByKey - KeysOf(ai, stale) && first == ai.firstResponse - KeysOf(ai, stale)
  {
    byKey, first := ai.requestByKey, ai.firstResponse;
    var left := stale;
    ghost var done: set<nat> := {};
    while left != {}
      invariant done <= stale && left == stale - done
      invariant byKey == ai.requestByKey - KeysOf(ai, done)
      invariant first == ai.firstResponse - KeysOf(ai, done)
      decreases left
    {
      hide KeysOf;
      var s :| s in left;
      var q := ai.requests[s];
      byKey := byKey - {q.request.identity} - {q.txId};
      first := first - {q.request.identity} - {q.txId};
      KeysOfOne(ai, done, s);
      left := left - {s};
      done := done + {s};
    }
    assert done == stale;
  }

  /** The inference part of the sweep. */
  method PruneInference(ai: Inference, live: set<nat>, cutoff: nat) returns (ai': Inference)
    ensures ai' == ExpireInference(ai, live, cutoff)
  {
    var requests := Prune(ai.requests, OldRequest(cutoff));
    var byKey, first := UnfileRequests(ai, ai.requests.Keys - requests.Keys);
    hide Kept, KeysOf, OldRequest, OldResponse, OldChallenge, OldSighting, Unfiled;
    var responses := Prune(first, OldResponse(cutoff));
    var list := set e | e in ai.responseList && e.1 in live;
    var hashes := Prune(ai.responseHash, Unfiled(byKey));
    var challenges := Prune(ai.challenges, OldChallenge(cutoff));
    var capabilities := Prune(ai.capabilities, OldSighting(cutoff));
    ai' := Inference(requests, byKey, responses, list, hashes, challenges, capabilities, ai.requestSeq,
      ai.challengeSeq);
  }
}
