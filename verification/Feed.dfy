/** The public inference feed as a reader understands it: the unsealed requests by
    descending sequence number, each with its first response. */
module FeedModel {
  import opened Types
  import opened Scans
  import opened Tables
  import opened InferenceIndex

  type FeedRow = (RequestRec, Option<ResponseRec>)

  /** The unsealed requests among `nums`, each with its first response. */
  function PublicRows(ai: Inference, nums: seq<nat>): seq<FeedRow> {
    if nums == [] then []
    else
      var n := nums[|nums| - 1];
      PublicRows(ai, nums[..|nums| - 1]) +
      if n in ai.requests && !ai.requests[n].request.sealed
      then [(ai.requests[n], FirstResponse(ai, ai.requests[n]))] else []
  }

  /** The public feed, newest first. */
  function Feed(ai: Inference): seq<FeedRow> {
    PublicRows(ai, Reverse(Ascending(ai.requests.Keys)))
  }

  lemma PublicRowsSnoc(ai: Inference, nums: seq<nat>, i: nat)
    requires i < |nums|
    ensures PublicRows(ai, nums[..i + 1]) == PublicRows(ai, nums[..i]) +
      if nums[i] in ai.requests && !ai.requests[nums[i]].request.sealed
      then [(ai.requests[nums[i]], FirstResponse(ai, ai.requests[nums[i]]))] else []
  {
    assert nums[..i + 1][..i] == nums[..i];
  }

  lemma {:induction false} PublicRowsPrefix(ai: Inference, nums: seq<nat>, i: nat)
    requires i <= |nums|
    ensures PublicRows(ai, nums[..i]) <= PublicRows(ai, nums)
    decreases |nums| - i
  {
    if i == |nums| {
      assert nums[..i] == nums;
    } else {
      PublicRowsSnoc(ai, nums, i);
      PublicRowsPrefix(ai, nums, i + 1);
    }
  }

  function Public(ai: Inference): set<nat> {
    set s | s in ai.requests && !ai.requests[s].request.sealed
  }

  /** The unsealed requests among `nums`, in the same order. */
  function Unsealed(ai: Inference, nums: seq<nat>): seq<nat> {
    if nums == [] then []
    else
      var n := nums[|nums| - 1];
      Unsealed(ai, nums[..|nums| - 1]) + if n in Public(ai) then [n] else []
  }

  predicate Decreasing(xs: seq<nat>) {
    forall i, j :: 0 <= i < j < |xs| ==> xs[j] < xs[i]
  }

  lemma {:induction false} UnsealedKeepsOrder(ai: Inference, nums: seq<nat>)
    requires Decreasing(nums)
    ensures Decreasing(Unsealed(ai, nums))
    ensures forall n :: n in Unsealed(ai, nums) <==> n in nums && n in Public(ai)
    decreases |nums|
  {
    hide Public;
    if nums != [] {
      var pre, last := nums[..|nums| - 1], nums[|nums| - 1];
      UnsealedKeepsOrder(ai, pre);
      assert nums == pre + [last];
      var xs := Unsealed(ai, pre);
      forall i | 0 <= i < |xs| ensures last < xs[i] {
        assert xs[i] in pre;
      }
    }
  }

  lemma {:induction false} PublicRowsOf(ai: Inference, nums: seq<nat>)
    ensures var xs := Unsealed(ai, nums);
      && |PublicRows(ai, nums)| == |xs|
      && forall i :: 0 <= i < |xs| ==>
           xs[i] in ai.requests &&
           PublicRows(ai, nums)[i] == (ai.requests[xs[i]], FirstResponse(ai, ai.requests[xs[i]]))
    decreases |nums|
  {
    hide FirstResponse;
    if nums != [] {
      PublicRowsOf(ai, nums[..|nums| - 1]);
    }
  }

  lemma ReverseOrder(xs: seq<nat>)
    ensures Increasing(xs) ==> Decreasing(Reverse(xs))
    ensures Decreasing(xs) ==> Increasing(Reverse(xs))
    ensures Reverse(Reverse(xs)) == xs && forall n :: n in Reverse(xs) <==> n in xs
  {
    forall n ensures n in Reverse(xs) <==> n in xs {
      if n in xs {
        var i :| 0 <= i < |xs| && xs[i] == n;
        assert Reverse(xs)[|xs| - 1 - i] == n;
      }
    }
  }

  /** Filtering the newest-first scan lists the public requests newest first. */
  lemma UnsealedScan(ai: Inference)
    ensures Unsealed(ai, Reverse(Ascending(ai.requests.Keys))) == Reverse(Ascending(Public(ai)))
  {
    hide Unsealed, Ascending, Reverse, Increasing, Decreasing;
    var nums := Ascending(ai.requests.Keys);
    ReverseOrder(nums);
    UnsealedKeepsOrder(ai, Reverse(nums));
    var xs := Unsealed(ai, Reverse(nums));
    ReverseOrder(xs);
    forall n ensures n in Members(Reverse(xs)) <==> n in Members(Ascending(Public(ai))) {
      assert n in nums <==> n in Members(nums);
    }
    IncreasingIsUnique(Reverse(xs), Ascending(Public(ai)));
  }

  /** The feed has one row per unsealed request and none for a sealed one, by descending
      sequence number, each with the response first filed under its identity, else under its
      transaction id. */
  lemma FeedIsPublic(ai: Inference)
    ensures var seqs := Ascending(Public(ai));
      && (forall s :: s in seqs <==> s in ai.requests && !ai.requests[s].request.sealed)
      && |Feed(ai)| == |seqs|
      && forall i :: 0 <= i < |seqs| ==>
           && Feed(ai)[i].0 == ai.requests[seqs[|seqs| - 1 - i]]
           && ShowsFirst(ai, Feed(ai)[i].0, Feed(ai)[i].1)
  {
    PublicIs(ai);
    hide *;
    var seqs := Ascending(Public(ai));
    UnsealedScan(ai);
    FeedRows(ai, Reverse(seqs));
    forall i | 0 <= i < |seqs|
      ensures Feed(ai)[i].0 == ai.requests[seqs[|seqs| - 1 - i]] && ShowsFirst(ai, Feed(ai)[i].0, Feed(ai)[i].1)
    {
      ReverseAt(seqs, i);
      FirstIsShown(ai, ai.requests[Reverse(seqs)[i]]);
    }
  }

  lemma PublicIs(ai: Inference)
    ensures forall s :: s in Ascending(Public(ai)) <==> s in ai.requests && !ai.requests[s].request.sealed
  {
    hide Ascending;
    assert forall s :: s in Ascending(Public(ai)) <==> s in Members(Ascending(Public(ai)));
  }

  lemma ReverseAt(xs: seq<nat>, i: nat)
    requires i < |xs|
    ensures Reverse(xs)[i] == xs[|xs| - 1 - i]
  {
  }

  lemma FeedRows(ai: Inference, xs: seq<nat>)
    requires Unsealed(ai, Reverse(Ascending(ai.requests.Keys))) == xs
    ensures |Feed(ai)| == |xs|
    ensures forall i :: 0 <= i < |xs| ==>
      xs[i] in ai.requests && Feed(ai)[i] == (ai.requests[xs[i]], FirstResponse(ai, ai.requests[xs[i]]))
  {
    hide Unsealed, Ascending, Reverse, PublicRows, FirstResponse;
    PublicRowsOf(ai, Reverse(Ascending(ai.requests.Keys)));
  }
}
