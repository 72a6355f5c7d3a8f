/** Tables keyed by sequence numbers, as the lists they stand for: rows are added at
    the end, and a sweep keeps the order of what it leaves. */
module Listings {
  import opened Scans

  /** The rows of `m`, by ascending number. */
  ghost predicate Listing<V(!new)>(m: map<nat, V>, list: seq<V>) {
    exists nums: seq<nat> :: ListedBy(m, nums, list)
  }

  ghost predicate ListedBy<V>(m: map<nat, V>, nums: seq<nat>, list: seq<V>) {
    && Increasing(nums) && |nums| == |list| && (forall n :: n in nums <==> n in m)
    && forall i :: 0 <= i < |nums| ==> nums[i] in m && m[nums[i]] == list[i]
  }

  /** The rows worth keeping, in order. */
  function Filter<V>(list: seq<V>, keep: V -> bool): seq<V> {
    if list == [] then []
    else
      var v := list[|list| - 1];
      Filter(list[..|list| - 1], keep) + if keep(v) then [v] else []
  }

  lemma ListingNone<V(!new)>(m: map<nat, V>)
    requires m == map[]
    ensures Listing(m, [])
  {
    assert ListedBy(m, [], []);
  }

  lemma ListingMembers<V(!new)>(m: map<nat, V>, list: seq<V>, v: V)
    requires Listing(m, list)
    ensures v in list <==> exists n :: n in m && m[n] == v
  {
    var nums :| ListedBy(m, nums, list);
    if n :| n in m && m[n] == v {
      var i :| 0 <= i < |nums| && nums[i] == n;
      assert list[i] == v;
    }
    if v in list {
      var i :| 0 <= i < |list| && list[i] == v;
      assert nums[i] in m && m[nums[i]] == v;
    }
  }

  lemma IncreasingSnoc(xs: seq<nat>, n: nat)
    requires Increasing(xs) && forall k :: k in xs ==> k < n
    ensures Increasing(xs + [n]) && forall k :: k in xs + [n] <==> k in xs || k == n
  {
    assert forall i :: 0 <= i < |xs| ==> xs[i] in xs;
  }

  lemma IncreasingPrefix(xs: seq<nat>)
    requires Increasing(xs) && xs != []
    ensures var pre, last := xs[..|xs| - 1], xs[|xs| - 1];
      && Increasing(pre) && (forall k :: k in pre ==> k < last)
      && forall k :: k in xs <==> k in pre || k == last
  {
    assert xs == xs[..|xs| - 1] + [xs[|xs| - 1]];
  }

  lemma ListingSnoc<V(!new)>(m: map<nat, V>, list: seq<V>, n: nat, v: V)
    requires Listing(m, list) && forall k :: k in m ==> k < n
    ensures Listing(m[n := v], list + [v])
  {
    var nums :| ListedBy(m, nums, list);
    hide Increasing;
    IncreasingSnoc(nums, n);
    ListedSnoc(m, nums, list, n, v);
  }

  lemma ListedSnoc<V>(m: map<nat, V>, nums: seq<nat>, list: seq<V>, n: nat, v: V)
    requires ListedBy(m, nums, list) && (forall k :: k in m ==> k < n) && Increasing(nums + [n])
    requires forall k :: k in nums + [n] <==> k in nums || k == n
    ensures ListedBy(m[n := v], nums + [n], list + [v])
  {
    hide Increasing;
    var m', all := m[n := v], nums + [n];
    forall k ensures k in all <==> k in m' {
    }
    forall i | 0 <= i < |all| ensures all[i] in m' && m'[all[i]] == (list + [v])[i] {
      if i < |nums| {
        assert all[i] == nums[i] && nums[i] in nums;
      }
    }
  }

  /** Filtering the table filters the list. */
  lemma {:induction false} FilterBy<V>(m: map<nat, V>, nums: seq<nat>, list: seq<V>, keep: V -> bool)
    returns (xs: seq<nat>)
    requires Increasing(nums) && |nums| == |list|
    requires forall i :: 0 <= i < |nums| ==> nums[i] in m && m[nums[i]] == list[i]
    ensures Increasing(xs) && |xs| == |Filter(list, keep)|
    ensures forall n :: n in xs <==> n in nums && n in m && keep(m[n])
    ensures forall i :: 0 <= i < |xs| ==> xs[i] in m && m[xs[i]] == Filter(list, keep)[i]
    decreases |list|
  {
    xs := [];
    if list != [] {
      var k := |list| - 1;
      IncreasingPrefix(nums);
      hide Increasing;
      xs := FilterBy(m, nums[..k], list[..k], keep);
      if keep(list[k]) {
        IncreasingSnoc(xs, nums[k]);
        xs := xs + [nums[k]];
      }
    }
  }

  lemma ListingFilter<V(!new)>(m: map<nat, V>, m': map<nat, V>, list: seq<V>, keep: V -> bool)
    requires Listing(m, list) && (forall n :: n in m' <==> n in m && keep(m[n]))
    requires forall n :: n in m' ==> m'[n] == m[n]
    ensures Listing(m', Filter(list, keep))
  {
    var nums :| ListedBy(m, nums, list);
    var xs := FilterBy(m, nums, list, keep);
    assert forall i :: 0 <= i < |xs| ==> xs[i] in xs;
    assert ListedBy(m', xs, Filter(list, keep));
  }

  /** A table has one listing, the one an ascending scan gives. */
  lemma ListingIsScan<V(!new)>(m: map<nat, V>, list: seq<V>)
    requires Listing(m, list)
    ensures ListedBy(m, Ascending(m.Keys), list)
  {
    hide Ascending;
    var nums :| ListedBy(m, nums, list);
    var scan := Ascending(m.Keys);
    forall n ensures n in Members(nums) <==> n in Members(scan) {
    }
    IncreasingIsUnique(nums, scan);
  }
}
