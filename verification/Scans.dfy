/** Key-ordered table scans over numbers, and the pages cut from them. */
module Scans {

  predicate Increasing(xs: seq<nat>) {
    forall i, j :: 0 <= i < j < |xs| ==> xs[i] < xs[j]
  }

  function Members(xs: seq<nat>): set<nat> {
    set x | x in xs
  }

  lemma {:induction false} LeastFrom(s: set<nat>, low: nat, x: nat)
    requires x in s && low <= x && forall k :: k in s ==> low <= k
    ensures exists m :: m in s && forall k :: k in s ==> m <= k
    decreases x - low
  {
    if low !in s {
      LeastFrom(s, low + 1, x);
    }
  }

  lemma LeastExists(s: set<nat>)
    requires s != {}
    ensures exists m :: m in s && forall k :: k in s ==> m <= k
  {
    var x :| x in s;
    LeastFrom(s, 0, x);
  }

  function Least(s: set<nat>): (m: nat)
    requires s != {}
    ensures m in s && forall k :: k in s ==> m <= k
  {
    LeastExists(s);
    var m :| m in s && forall k :: k in s ==> m <= k;
    m
  }

  /** The keys of a table in the order an iterator yields them. */
  function Ascending(s: set<nat>): (xs: seq<nat>)
    ensures Members(xs) == s && Increasing(xs)
    decreases s
  {
    if s == {} then []
    else
      var m := Least(s);
      var rest := Ascending(s - {m});
      assert forall k :: k in rest ==> k in Members(rest);
      assert Members([m] + rest) == {m} + Members(rest);
      [m] + rest
  }

  /** A strictly increasing listing of a set is its ascending scan. */
  lemma {:induction false} IncreasingIsUnique(xs: seq<nat>, ys: seq<nat>)
    requires Increasing(xs) && Increasing(ys) && Members(xs) == Members(ys)
    ensures xs == ys
    decreases |xs|
  {
    assert xs != [] ==> xs[0] in Members(xs);
    assert ys != [] ==> ys[0] in Members(ys);
    if xs != [] && ys != [] {
      assert xs[0] in Members(ys) && ys[0] in Members(xs);
      var xs', ys' := xs[1..], ys[1..];
      forall k ensures k in Members(xs') <==> k in Members(ys') {
        assert k in Members(xs) <==> k in Members(ys);
        assert k in xs <==> k == xs[0] || k in xs';
        assert k in ys <==> k == ys[0] || k in ys';
      }
      IncreasingIsUnique(xs', ys');
      assert xs == [xs[0]] + xs' && ys == [ys[0]] + ys';
    }
  }

  function Reverse<T>(xs: seq<T>): (ys: seq<T>)
    ensures |ys| == |xs|
  {
    seq(|xs|, i requires 0 <= i < |xs| => xs[|xs| - 1 - i])
  }

  /** What skipping `offset` rows and keeping at most `limit` leaves. */
  function Page<T>(rows: seq<T>, limit: nat, offset: nat): seq<T> {
    if offset >= |rows| then []
    else if offset + limit >= |rows| then rows[offset..]
    else rows[offset..offset + limit]
  }

  /** How many rows that is. */
  function PageSize(rows: nat, limit: nat, offset: nat): nat {
    if rows <= offset then 0 else if rows - offset <= limit then rows - offset else limit
  }

  lemma PageIs<T>(rows: seq<T>, limit: nat, offset: nat)
    ensures var out := Page(rows, limit, offset);
      |out| == PageSize(|rows|, limit, offset) && forall i :: 0 <= i < |out| ==> out[i] == rows[offset + i]
  {
  }

  lemma PageOfPrefix<T>(some: seq<T>, all: seq<T>, limit: nat, offset: nat)
    requires some <= all && |Page(some, limit, offset)| >= limit
    ensures Page(all, limit, offset) == Page(some, limit, offset)
  {
  }

  /** Consecutive pages join into one: no row is repeated or skipped at a boundary. */
  lemma PagesTile<T>(rows: seq<T>, limit: nat, more: nat, offset: nat)
    ensures Page(rows, limit, offset) + Page(rows, more, offset + limit) == Page(rows, limit + more, offset)
  {
  }
}
