/** Sorting clients by queue position, as the list query's `order_by(posicao)` does. */
module Ordering {
  import opened Clients

  predicate SortedByPosition(xs: seq<Client>) {
    forall i, j :: 0 <= i < j < |xs| ==> xs[i].position <= xs[j].position
  }

  /** No two clients of `xs` share a position. */
  predicate DistinctPositions(xs: seq<Client>) {
    forall i, j :: 0 <= i < j < |xs| ==> xs[i].position != xs[j].position
  }

  /** Puts `x` into the sorted `xs` in front of the first client not ahead of it. */
  function Insert(x: Client, xs: seq<Client>): (r: seq<Client>)
    requires SortedByPosition(xs)
    ensures SortedByPosition(r)
    ensures multiset(r) == multiset(xs) + multiset{x}
    ensures InsertKeepsDistinct(x, xs, r)
  {
    if xs == [] || x.position <= xs[0].position then
      InsertFront(x, xs);
      [x] + xs
    else
      var tail := Insert(x, xs[1..]);
      InsertBehind(x, xs, tail);
      [xs[0]] + tail
  }

  /** If `xs` had distinct positions and `x` took a free one, `r` has distinct positions. */
  predicate InsertKeepsDistinct(x: Client, xs: seq<Client>, r: seq<Client>) {
    DistinctPositions(xs) && (forall y :: y in xs ==> y.position != x.position) ==> DistinctPositions(r)
  }

  lemma InsertFront(x: Client, xs: seq<Client>)
    requires SortedByPosition(xs)
    requires xs == [] || x.position <= xs[0].position
    ensures SortedByPosition([x] + xs)
    ensures InsertKeepsDistinct(x, xs, [x] + xs)
  {
    if xs != [] {
      HeadBelow(xs);
      assert xs == [xs[0]] + xs[1..];
    }
    ConsSorted(x, xs);
    ConsDistinct(x, xs);
  }

  lemma InsertBehind(x: Client, xs: seq<Client>, tail: seq<Client>)
    requires SortedByPosition(xs) && xs != [] && x.position > xs[0].position
    requires SortedByPosition(tail)
    requires multiset(tail) == multiset(xs[1..]) + multiset{x}
    requires InsertKeepsDistinct(x, xs[1..], tail)
    ensures SortedByPosition([xs[0]] + tail)
    ensures multiset([xs[0]] + tail) == multiset(xs) + multiset{x}
    ensures InsertKeepsDistinct(x, xs, [xs[0]] + tail)
  {
    assert xs == [xs[0]] + xs[1..];
    HeadBelow(xs);
    InsertMembers(x, xs[1..], tail);
    ConsSorted(xs[0], tail);
    ConsDistinct(xs[0], tail);
    if DistinctPositions(xs) {
      assert DistinctPositions(xs[1..]);
    }
  }

  /** In a sorted sequence the head is not behind any later client; distinct, it is strictly ahead. */
  lemma HeadBelow(xs: seq<Client>)
    requires SortedByPosition(xs) && xs != []
    ensures forall z :: z in xs[1..] ==> xs[0].position <= z.position
    ensures DistinctPositions(xs) ==> forall z :: z in xs[1..] ==> xs[0].position != z.position
  {
    forall z | z in xs[1..]
      ensures xs[0].position <= z.position
      ensures DistinctPositions(xs) ==> xs[0].position != z.position
    {
      var k :| 0 <= k < |xs[1..]| && xs[1..][k] == z;
      assert xs[k + 1] == z;
    }
  }

  lemma InsertMembers(x: Client, xs: seq<Client>, tail: seq<Client>)
    requires multiset(tail) == multiset(xs) + multiset{x}
    ensures forall z :: z in tail ==> z == x || z in xs
  {
    forall z | z in tail
      ensures z == x || z in xs
    {
      assert z in multiset(tail);
    }
  }

  lemma ConsSorted(h: Client, t: seq<Client>)
    requires SortedByPosition(t)
    requires forall z :: z in t ==> h.position <= z.position
    ensures SortedByPosition([h] + t)
  {
    forall i, j | 0 <= i < j < |[h] + t|
      ensures ([h] + t)[i].position <= ([h] + t)[j].position
    {
      if i == 0 {
        assert ([h] + t)[j] in t;
      }
    }
  }

  lemma ConsDistinct(h: Client, t: seq<Client>)
    ensures DistinctPositions(t) && (forall z :: z in t ==> h.position != z.position) ==>
      DistinctPositions([h] + t)
  {
    forall i, j | 0 <= i < j < |[h] + t| && DistinctPositions(t) && (forall z :: z in t ==> h.position != z.position)
      ensures ([h] + t)[i].position != ([h] + t)[j].position
    {
      if i == 0 {
        assert ([h] + t)[j] in t;
      }
    }
  }

  /** Insertion sort by position: a permutation of `xs` in non-decreasing position order. */
  function SortByPosition(xs: seq<Client>): (r: seq<Client>)
    ensures SortedByPosition(r)
    ensures multiset(r) == multiset(xs)
    ensures DistinctPositions(xs) ==> DistinctPositions(r)
  {
    if xs == [] then []
    else
      var rest := SortByPosition(xs[1..]);
      SortStep(xs, rest);
      Insert(xs[0], rest)
  }

  lemma SortStep(xs: seq<Client>, rest: seq<Client>)
    requires xs != [] && SortedByPosition(rest)
    requires multiset(rest) == multiset(xs[1..])
    requires DistinctPositions(xs[1..]) ==> DistinctPositions(rest)
    ensures multiset(Insert(xs[0], rest)) == multiset(xs)
    ensures DistinctPositions(xs) ==> DistinctPositions(Insert(xs[0], rest))
  {
    assert xs == [xs[0]] + xs[1..];
    if DistinctPositions(xs) {
      assert DistinctPositions(xs[1..]);
      forall y | y in rest
        ensures y.position != xs[0].position
      {
        assert y in multiset(rest);
        var k :| 1 <= k < |xs| && xs[k] == y;
      }
    }
  }

  /** A strictly increasing run of n positions drawn from 1..n is exactly 1, 2, ..., n. */
  lemma Pinned(xs: seq<Client>)
    requires forall k :: 0 <= k < |xs| ==> 1 <= xs[k].position <= |xs|
    requires SortedByPosition(xs) && DistinctPositions(xs)
    ensures forall k :: 0 <= k < |xs| ==> xs[k].position == k + 1
  {
    forall k | 0 <= k < |xs|
      ensures xs[k].position == k + 1
    {
      AtLeast(xs, k);
      AtMost(xs, k);
    }
  }

  lemma {:induction false} AtLeast(xs: seq<Client>, k: nat)
    requires k < |xs|
    requires forall i :: 0 <= i < |xs| ==> 1 <= xs[i].position
    requires SortedByPosition(xs) && DistinctPositions(xs)
    ensures xs[k].position >= k + 1
  {
    if k > 0 {
      AtLeast(xs, k - 1);
    }
  }

  lemma {:induction false} AtMost(xs: seq<Client>, k: nat)
    requires k < |xs|
    requires forall i :: 0 <= i < |xs| ==> xs[i].position <= |xs|
    requires SortedByPosition(xs) && DistinctPositions(xs)
    ensures xs[k].position <= k + 1
    decreases |xs| - k
  {
    if k + 1 < |xs| {
      AtMost(xs, k + 1);
    }
  }
}
