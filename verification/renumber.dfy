/**
 * The renumbering pass that runs after every change to the client table: the
 * waiting clients are split into the priority band and the normal band, each band
 * is taken in arrival order, and positions 1..k go to the priority band and
 * k+1..n to the normal band.
 *
 * A store is a sequence of clients in insertion order; the queue engine keeps
 * arrivals non-decreasing and ids increasing along it, so "in arrival order, ties
 * by id" is the order of the sequence.
 */
module Renumbering {
  import opened Clients

  /** `x` is waiting in band `c`. */
  predicate InBand(x: Client, c: Category) {
    !x.served && x.category == c
  }

  /** 1 when `x` waits in band `c`, else 0. */
  function Tally(x: Client, c: Category): nat {
    if InBand(x, c) then 1 else 0
  }

  /** The number of clients of `s` waiting in band `c`. */
  function Count(s: seq<Client>, c: Category): (n: nat)
    ensures n <= |s|
  {
    if s == [] then 0 else Count(s[..|s| - 1], c) + Tally(s[|s| - 1], c)
  }

  /** The number of waiting clients. */
  function Waiting(s: seq<Client>): nat {
    Count(s, Priority) + Count(s, Normal)
  }

  /**
   * The calling order: the client at `i` is called before the client at `j` when it
   * is a priority client and the other a normal one, or when both are in the same
   * band and `i` is earlier in the table (on tables the engine builds, that is the
   * earlier arrival, ties broken by id).
   */
  predicate Precedes(s: seq<Client>, i: nat, j: nat)
    requires i < |s| && j < |s|
  {
    || (s[i].category == Priority && s[j].category == Normal)
    || (s[i].category == s[j].category && i < j)
  }

  /**
   * The position the pass gives the waiting client at `i`: one past the priority
   * clients that arrived before it, or, for a normal client, one past all priority
   * clients and the normal clients that arrived before it.
   */
  function Rank(s: seq<Client>, i: nat): int
    requires i < |s|
  {
    if s[i].category == Priority then Count(s[..i], Priority) + 1
    else Count(s, Priority) + Count(s[..i], Normal) + 1
  }

  /** Only the positions of waiting clients differ between `s` and `r`. */
  predicate Reassigned(s: seq<Client>, r: seq<Client>) {
    && |r| == |s|
    && (forall i {:trigger r[i]} :: 0 <= i < |s| ==> r[i] == s[i].(position := r[i].position))
    && (forall i {:trigger r[i]} :: 0 <= i < |s| && s[i].served ==> r[i] == s[i])
  }

  /** Every waiting client sits at the position the pass would give it. */
  predicate Canonical(s: seq<Client>) {
    forall i {:trigger Rank(s, i)} :: 0 <= i < |s| && !s[i].served ==> s[i].position == Rank(s, i)
  }

  /** The client at `i` is waiting at position `p`. */
  predicate WaitingAt(s: seq<Client>, i: nat, p: int)
    requires i < |s|
  {
    !s[i].served && s[i].position == p
  }

  /** Some waiting client sits at position `p`. */
  predicate Occupied(s: seq<Client>, p: int) {
    exists i :: 0 <= i < |s| && WaitingAt(s, i, p)
  }

  /** The waiting clients occupy positions 1..n, each exactly once. */
  predicate Contiguous(s: seq<Client>) {
    && (forall i :: 0 <= i < |s| && !s[i].served ==> 1 <= s[i].position <= Waiting(s))
    && (forall i, j :: 0 <= i < j < |s| && !s[i].served && !s[j].served ==> s[i].position != s[j].position)
    && (forall k :: 1 <= k <= Waiting(s) ==> Occupied(s, k))
  }

  /** Every waiting priority client is ahead of every waiting normal client. */
  predicate PriorityFirst(s: seq<Client>) {
    forall i, j :: 0 <= i < |s| && 0 <= j < |s| && InBand(s[i], Priority) && InBand(s[j], Normal) ==>
      s[i].position < s[j].position
  }

  /**
   * Within a band, the client earlier in the table is ahead (on tables the engine
   * builds, the earlier arrival, ties broken by id).
   */
  predicate FirstComeFirstServed(s: seq<Client>) {
    forall i, j :: 0 <= i < j < |s| && !s[i].served && !s[j].served && s[i].category == s[j].category ==>
      s[i].position < s[j].position
  }

  /** The shape the pass promises for the waiting clients. */
  predicate Shaped(s: seq<Client>) {
    Contiguous(s) && PriorityFirst(s) && FirstComeFirstServed(s)
  }

  /** Two stores that agree on which clients wait in which band. */
  predicate SameRoster(s: seq<Client>, t: seq<Client>) {
    && |s| == |t|
    && forall i :: 0 <= i < |s| ==> s[i].served == t[i].served && s[i].category == t[i].category
  }

  /**
   * `reorganizar_posicoes`: every waiting client gets its position in the calling
   * order; called clients and every other field are left alone.
   */
  function Renumber(s: seq<Client>): (r: seq<Client>)
    ensures Reassigned(s, r)
  {
    seq(|s|, i requires 0 <= i < |s| =>
      if s[i].served then s[i] else s[i].(position := Rank(s, i)))
  }

  /** After the pass every waiting client sits at its rank. */
  lemma RenumberCanonical(s: seq<Client>)
    ensures Canonical(Renumber(s))
  {
    RanksAgree(s, Renumber(s));
  }

  /** The pass puts each waiting client at its rank. */
  lemma RenumberAt(s: seq<Client>, j: nat)
    requires j < |s| && !s[j].served
    ensures Renumber(s)[j].position == Rank(s, j)
  {
  }

  // ---------------------------------------------------------------------------
  // Counting

  lemma {:induction false} CountAppend(s: seq<Client>, t: seq<Client>, c: Category)
    ensures Count(s + t, c) == Count(s, c) + Count(t, c)
    decreases |t|
  {
    if t == [] {
      assert s + t == s;
    } else {
      assert (s + t)[..|s + t| - 1] == s + t[..|t| - 1];
      CountAppend(s, t[..|t| - 1], c);
    }
  }

  lemma CountSingle(x: Client, c: Category)
    ensures Count([x], c) == Tally(x, c)
  {
    assert [x][..0] == [];
  }

  /** Cutting `s` at `i` splits its count into the two halves, with `s[i]` between them. */
  lemma CountSplit(s: seq<Client>, i: nat, c: Category)
    requires i < |s|
    ensures Count(s, c) == Count(s[..i], c) + Tally(s[i], c) + Count(s[i + 1..], c)
  {
    assert s == s[..i] + [s[i]] + s[i + 1..];
    CountAppend(s[..i] + [s[i]], s[i + 1..], c);
    CountAppend(s[..i], [s[i]], c);
    CountSingle(s[i], c);
  }

  lemma CountPrefixMono(s: seq<Client>, i: nat, j: nat, c: Category)
    requires i <= j <= |s|
    ensures Count(s[..i], c) <= Count(s[..j], c)
  {
    assert s[..j] == s[..i] + s[i..j];
    CountAppend(s[..i], s[i..j], c);
  }

  /** A client waiting in band `c` at `i` is counted by every prefix that reaches past it. */
  lemma CountPrefixStrict(s: seq<Client>, i: nat, j: nat, c: Category)
    requires i < j <= |s| && InBand(s[i], c)
    ensures Count(s[..i], c) < Count(s[..j], c)
  {
    CountSplit(s[..j], i, c);
    assert s[..j][..i] == s[..i];
  }

  /** A client waiting in band `c` is counted by the whole store. */
  lemma CountWhole(s: seq<Client>, i: nat, c: Category)
    requires i < |s| && InBand(s[i], c)
    ensures Count(s[..i], c) < Count(s, c)
  {
    CountPrefixStrict(s, i, |s|, c);
    assert s[..|s|] == s;
  }

  /** For every k below the band's count, some client of the band has exactly k band-mates before it. */
  lemma {:induction false} Select(s: seq<Client>, c: Category, k: nat) returns (i: nat)
    requires k < Count(s, c)
    ensures i < |s| && InBand(s[i], c) && Count(s[..i], c) == k
    decreases |s|
  {
    var m := |s| - 1;
    var p := s[..m];
    if k < Count(p, c) {
      i := Select(p, c, k);
      assert p[..i] == s[..i];
    } else {
      i := m;
    }
  }

  lemma {:induction false} CountRoster(s: seq<Client>, t: seq<Client>, c: Category)
    requires SameRoster(s, t)
    ensures Count(s, c) == Count(t, c)
    decreases |s|
  {
    if s != [] {
      CountRoster(s[..|s| - 1], t[..|t| - 1], c);
    }
  }

  /** Positions depend only on who waits in which band. */
  lemma RanksAgree(s: seq<Client>, t: seq<Client>)
    requires SameRoster(s, t)
    ensures forall i :: 0 <= i < |s| ==> Rank(s, i) == Rank(t, i)
  {
    CountRoster(s, t, Priority);
    forall i | 0 <= i < |s|
      ensures Rank(s, i) == Rank(t, i)
    {
      CountRoster(s[..i], t[..i], Priority);
      CountRoster(s[..i], t[..i], Normal);
    }
  }

  // ---------------------------------------------------------------------------
  // The shape of the renumbered queue

  /** A waiting client's position lies in 1..n. */
  lemma RankRange(s: seq<Client>, i: nat)
    requires i < |s| && !s[i].served
    ensures 1 <= Rank(s, i) <= Waiting(s)
  {
    CountWhole(s, i, s[i].category);
  }

  /** The calling order is strictly reflected by the positions. */
  lemma RankPrecedes(s: seq<Client>, i: nat, j: nat)
    requires i < |s| && j < |s| && !s[i].served && !s[j].served
    requires Precedes(s, i, j)
    ensures Rank(s, i) < Rank(s, j)
  {
    if s[i].category == s[j].category {
      CountPrefixStrict(s, i, j, s[i].category);
    } else {
      CountWhole(s, i, Priority);
    }
  }

  /** The positions order waiting clients exactly as the calling order does. */
  lemma RankOrder(s: seq<Client>, i: nat, j: nat)
    requires i < |s| && j < |s| && i != j && !s[i].served && !s[j].served
    ensures Rank(s, i) < Rank(s, j) <==> Precedes(s, i, j)
  {
    if Precedes(s, i, j) {
      RankPrecedes(s, i, j);
    } else {
      RankPrecedes(s, j, i);
    }
  }

  /** Every position 1..n is taken by some waiting client. */
  lemma RankOnto(s: seq<Client>, k: int) returns (i: nat)
    requires 1 <= k <= Waiting(s)
    ensures i < |s| && !s[i].served && Rank(s, i) == k
  {
    if k <= Count(s, Priority) {
      i := Select(s, Priority, k - 1);
    } else {
      i := Select(s, Normal, k - 1 - Count(s, Priority));
    }
  }

  /** A store whose waiting clients sit at their ranks has the promised shape. */
  lemma CanonicalShaped(s: seq<Client>)
    requires Canonical(s)
    ensures Shaped(s)
  {
    CanonicalRange(s);
    CanonicalDistinct(s);
    CanonicalOnto(s);
    CanonicalOrdered(s);
  }

  lemma CanonicalRange(s: seq<Client>)
    requires Canonical(s)
    ensures forall i :: 0 <= i < |s| && !s[i].served ==> 1 <= s[i].position <= Waiting(s)
  {
    forall i | 0 <= i < |s| && !s[i].served
      ensures 1 <= s[i].position <= Waiting(s)
    {
      RankRange(s, i);
    }
  }

  lemma CanonicalDistinct(s: seq<Client>)
    requires Canonical(s)
    ensures forall i, j :: 0 <= i < j < |s| && !s[i].served && !s[j].served ==> s[i].position != s[j].position
  {
    forall i, j | 0 <= i < j < |s| && !s[i].served && !s[j].served
      ensures s[i].position != s[j].position
    {
      RankOrder(s, i, j);
      RankOrder(s, j, i);
    }
  }

  lemma CanonicalOnto(s: seq<Client>)
    requires Canonical(s)
    ensures forall k :: 1 <= k <= Waiting(s) ==> Occupied(s, k)
  {
    forall k | 1 <= k <= Waiting(s)
      ensures Occupied(s, k)
    {
      var i := RankOnto(s, k);
      assert WaitingAt(s, i, k);
    }
  }

  lemma CanonicalOrdered(s: seq<Client>)
    requires Canonical(s)
    ensures PriorityFirst(s) && FirstComeFirstServed(s)
  {
    forall i, j | 0 <= i < |s| && 0 <= j < |s| && !s[i].served && !s[j].served && Precedes(s, i, j)
      ensures s[i].position < s[j].position
    {
      RankPrecedes(s, i, j);
    }
  }

  /** After the pass the waiting clients hold positions 1..n, priority first, each band in table order. */
  lemma RenumberShaped(s: seq<Client>)
    ensures Shaped(Renumber(s))
  {
    RenumberCanonical(s);
    CanonicalShaped(Renumber(s));
  }

  /** Running the pass twice gives what running it once gives. */
  lemma RenumberIdempotent(s: seq<Client>)
    ensures Renumber(Renumber(s)) == Renumber(s)
  {
    var r := Renumber(s);
    var rr := Renumber(r);
    RenumberCanonical(s);
    assert SameRoster(r, rr);
    forall i | 0 <= i < |s|
      ensures rr[i] == r[i]
    {
    }
  }

  /** The pass changes nothing exactly when every waiting client already sits at its rank. */
  lemma RenumberFixpoint(s: seq<Client>)
    ensures Renumber(s) == s <==> Canonical(s)
  {
    if Canonical(s) {
      var r := Renumber(s);
      forall i | 0 <= i < |s|
        ensures r[i] == s[i]
      {
        RanksAgree(s, r);
      }
    }
  }

  // ---------------------------------------------------------------------------
  // How ranks move when the table changes

  /** Replacing the client at `i` changes each count by the difference of the two tallies. */
  lemma CountUpdate(s: seq<Client>, i: nat, y: Client, c: Category)
    requires i < |s|
    ensures Count(s[i := y], c) == Count(s, c) - Tally(s[i], c) + Tally(y, c)
  {
    var t := s[i := y];
    CountSplit(s, i, c);
    CountSplit(t, i, c);
    assert t[..i] == s[..i];
    assert t[i + 1..] == s[i + 1..];
  }

  /** Deleting the client at `i` takes its tally off each count. */
  lemma CountDelete(s: seq<Client>, i: nat, c: Category)
    requires i < |s|
    ensures Count(s[..i] + s[i + 1..], c) == Count(s, c) - Tally(s[i], c)
  {
    CountSplit(s, i, c);
    CountAppend(s[..i], s[i + 1..], c);
  }

  /** Appending `x` adds its tally to each count. */
  lemma CountPush(s: seq<Client>, x: Client, c: Category)
    ensures Count(s + [x], c) == Count(s, c) + Tally(x, c)
  {
    CountAppend(s, [x], c);
    CountSingle(x, c);
  }

  /**
   * Calling the waiting client at `i` (it becomes served) moves another waiting
   * client one place up exactly when the called client was ahead of it.
   */
  lemma RankAfterRetire(s: seq<Client>, i: nat, y: Client, j: nat)
    requires i < |s| && j < |s| && i != j
    requires !s[i].served && !s[j].served && y.served
    ensures Rank(s[i := y], j) == Rank(s, j) - (if Precedes(s, i, j) then 1 else 0)
  {
    var t := s[i := y];
    CountUpdate(s, i, y, Priority);
    if j < i {
      assert t[..j] == s[..j];
    } else {
      assert t[..j] == s[..j][i := y];
      CountUpdate(s[..j], i, y, s[j].category);
    }
  }

  /**
   * Deleting the waiting client at `i` moves another waiting client (which shifts
   * from index `j` to `j'`) one place up exactly when the deleted client was ahead of it.
   */
  lemma RankAfterDelete(s: seq<Client>, i: nat, j: nat)
    requires i < |s| && j < |s| && i != j
    requires !s[i].served && !s[j].served
    ensures var t := s[..i] + s[i + 1..];
      var j' := if j < i then j else j - 1;
      && j' < |t| && t[j'] == s[j]
      && Rank(t, j') == Rank(s, j) - (if Precedes(s, i, j) then 1 else 0)
  {
    var t := s[..i] + s[i + 1..];
    CountDelete(s, i, Priority);
    if j < i {
      assert t[..j] == s[..j];
    } else {
      assert t[..j - 1] == s[..j][..i] + s[..j][i + 1..];
      CountDelete(s[..j], i, s[j].category);
    }
  }

  /**
   * Appending a waiting client moves a waiting normal client one place down when
   * the newcomer is a priority client, and leaves everyone else in place.
   */
  lemma RankAfterPush(s: seq<Client>, x: Client, j: nat)
    requires j < |s| && !s[j].served && !x.served
    ensures Rank(s + [x], j) ==
      Rank(s, j) + (if x.category == Priority && s[j].category == Normal then 1 else 0)
  {
    CountPush(s, x, Priority);
    assert (s + [x])[..j] == s[..j];
  }

  /**
   * An appended waiting client goes behind its own band: a priority client behind
   * the waiting priority clients, a normal client behind everyone.
   */
  lemma RankOfPushed(s: seq<Client>, x: Client)
    requires !x.served
    ensures Rank(s + [x], |s|) ==
      (if x.category == Priority then Count(s, Priority) else Waiting(s)) + 1
  {
    CountPush(s, x, Priority);
    assert (s + [x])[..|s|] == s;
  }
}
