/**
 * What the queue engine guarantees between requests: the invariant every operation
 * keeps, and exactly how each operation moves the waiting clients.
 */
module Guarantees {
  import opened Results
  import opened Schemas
  import opened Clients
  import opened Renumbering
  import opened Ordering
  import opened Engine

  // ---------------------------------------------------------------------------
  // The invariant and its consequences

  /** A fresh database satisfies the invariant. */
  lemma FreshInv()
    ensures Inv(Fresh)
  {
  }

  /** Between requests the waiting clients hold positions 1..n, priority first, each band first come first served. */
  lemma InvShaped(q: Queue)
    requires Inv(q)
    ensures Shaped(q.clients)
  {
    CanonicalShaped(q.clients);
  }

  /**
   * Within a band, the client with the earlier arrival time, or with the same time
   * and the smaller id, holds the smaller position.
   */
  lemma ArrivalOrder(q: Queue, i: nat, j: nat)
    requires Inv(q)
    requires i < |q.clients| && j < |q.clients|
    requires !q.clients[i].served && !q.clients[j].served
    requires q.clients[i].category == q.clients[j].category
    requires || q.clients[i].arrival < q.clients[j].arrival
             || (q.clients[i].arrival == q.clients[j].arrival && q.clients[i].id < q.clients[j].id)
    ensures q.clients[i].position < q.clients[j].position
  {
    RankPrecedes(q.clients, i, j);
  }

  /**
   * On a table the engine built, the pass orders each band by arrival time, ties by
   * id, whatever positions the clients held before.
   */
  lemma RenumberArrivalOrder(s: seq<Client>, clock: nat, i: nat, j: nat)
    requires Wf(Queue(s, clock))
    requires i < |s| && j < |s|
    requires !s[i].served && !s[j].served
    requires s[i].category == s[j].category
    requires || s[i].arrival < s[j].arrival
             || (s[i].arrival == s[j].arrival && s[i].id < s[j].id)
    ensures Renumber(s)[i].position < Renumber(s)[j].position
  {
    RankPrecedes(s, i, j);
    RenumberAt(s, i);
    RenumberAt(s, j);
  }

  // ---------------------------------------------------------------------------
  // Enqueue

  /**
   * The pass turns a table that keeps the insertion-order facts and has its called
   * clients at position 0 into one that satisfies the invariant.
   */
  lemma RenumberKeepsInv(s: seq<Client>, clock: nat)
    requires Wf(Queue(s, clock)) && Retired(s)
    ensures Inv(Queue(Renumber(s), clock))
  {
    var r := Renumber(s);
    RenumberCanonical(s);
    forall i, j | 0 <= i < j < |r|
      ensures r[i].id < r[j].id && r[i].arrival <= r[j].arrival
    {
      assert r[i].id == s[i].id && r[i].arrival == s[i].arrival;
      assert r[j].id == s[j].id && r[j].arrival == s[j].arrival;
    }
    forall i | 0 <= i < |r|
      ensures r[i].arrival <= clock
    {
      assert r[i].arrival == s[i].arrival;
    }
  }

  /** Appending a waiting row with a fresh, larger id and the current time keeps the insertion-order facts. */
  lemma PushKeepsWf(q: Queue, c: Client)
    requires Wf(q) && Retired(q.clients) && !c.served && q.clock <= c.arrival
    requires forall i :: 0 <= i < |q.clients| ==> q.clients[i].id < c.id
    ensures Wf(Queue(q.clients + [c], c.arrival)) && Retired(q.clients + [c])
  {
  }

  lemma AddKeepsInv(q: Queue, name: string, category: Category, tick: nat)
    requires Inv(q)
    ensures Inv(Add(q, name, category, tick).queue)
  {
    var c := Client(NextId(q.clients), name, category, q.clock + tick, 0, false);
    AddIsPush(q, name, category, tick);
    PushKeepsWf(q, c);
    RenumberKeepsInv(q.clients + [c], q.clock + tick);
  }

  /**
   * Enqueue puts a new priority client behind the waiting priority clients and a new
   * normal client at the end; it moves every waiting normal client one place down
   * when the newcomer is a priority client and leaves every other position alone.
   */
  lemma AddPositions(q: Queue, name: string, category: Category, tick: nat)
    requires Inv(q)
    ensures var r := Add(q, name, category, tick);
      && r.result.value.position ==
           (if category == Priority then Count(q.clients, Priority) else Waiting(q.clients)) + 1
      && forall j :: 0 <= j < |q.clients| && !q.clients[j].served ==>
           r.queue.clients[j].position ==
             q.clients[j].position + (if category == Priority && q.clients[j].category == Normal then 1 else 0)
  {
    var s := q.clients;
    var c := Client(NextId(s), name, category, q.clock + tick, 0, false);
    AddIsPush(q, name, category, tick);
    PushPositions(s, c);
  }

  /** The table after enqueue is the renumbered table with the new row appended. */
  lemma AddIsPush(q: Queue, name: string, category: Category, tick: nat)
    ensures var c := Client(NextId(q.clients), name, category, q.clock + tick, 0, false);
      var r := Add(q, name, category, tick);
      && r.queue == Queue(Renumber(q.clients + [c]), q.clock + tick)
      && r.result.value == Renumber(q.clients + [c])[|q.clients|]
  {
  }

  lemma PushPositions(s: seq<Client>, c: Client)
    requires Canonical(s) && !c.served
    ensures Renumber(s + [c])[|s|].position ==
      (if c.category == Priority then Count(s, Priority) else Waiting(s)) + 1
    ensures forall j :: 0 <= j < |s| && !s[j].served ==>
      Renumber(s + [c])[j].position ==
        s[j].position + (if c.category == Priority && s[j].category == Normal then 1 else 0)
  {
    RenumberAt(s + [c], |s|);
    RankOfPushed(s, c);
    forall j | 0 <= j < |s| && !s[j].served
      ensures Renumber(s + [c])[j].position ==
        s[j].position + (if c.category == Priority && s[j].category == Normal then 1 else 0)
    {
      RenumberAt(s + [c], j);
      RankAfterPush(s, c, j);
    }
  }

  /** Enqueue keeps the relative order of the clients already waiting. */
  lemma AddKeepsOrder(q: Queue, name: string, category: Category, tick: nat, i: nat, j: nat)
    requires Inv(q)
    requires i < |q.clients| && j < |q.clients| && !q.clients[i].served && !q.clients[j].served
    ensures var r := Add(q, name, category, tick).queue;
      q.clients[i].position < q.clients[j].position <==> r.clients[i].position < r.clients[j].position
  {
    AddPositions(q, name, category, tick);
    CanonicalShaped(q.clients);
  }

  lemma EnqueueKeepsInv(q: Queue, name: string, code: string, tick: nat)
    requires Inv(q)
    ensures Inv(Enqueue(q, name, code, tick).queue)
  {
    match ValidateName(name)
    case Failure(_) =>
    case Success(n) =>
      match ValidateCode(code)
      case Failure(_) =>
      case Success(k) => AddKeepsInv(q, n, CategoryOf(k), tick);
  }

  // ---------------------------------------------------------------------------
  // Call next

  /** Position 1 is taken exactly when somebody waits. */
  lemma FrontOccupied(q: Queue)
    requires Inv(q)
    ensures Occupied(q.clients, 1) <==> Waiting(q.clients) > 0
  {
    var s := q.clients;
    if Waiting(s) > 0 {
      var i := RankOnto(s, 1);
      assert WaitingAt(s, i, 1);
    }
    if Occupied(s, 1) {
      var i :| 0 <= i < |s| && WaitingAt(s, i, 1);
      RankRange(s, i);
    }
  }

  /** The table after call-next: the caller of position 1 retired and the rest renumbered. */
  lemma CallNextIsRetire(q: Queue)
    requires Occupied(q.clients, 1)
    ensures CallNext(q).queue == Queue(Retire(q.clients, FindAt(q.clients, 1).value), q.clock)
  {
  }

  /** Marking a row served at position 0 keeps the insertion-order facts. */
  lemma MarkKeepsWf(q: Queue, i: nat)
    requires Wf(q) && Retired(q.clients) && i < |q.clients|
    ensures var t := q.clients[i := q.clients[i].(served := true, position := 0)];
      Wf(Queue(t, q.clock)) && Retired(t)
  {
    var s := q.clients;
    var t := s[i := s[i].(served := true, position := 0)];
    forall j, k | 0 <= j < k < |t|
      ensures t[j].id < t[k].id && t[j].arrival <= t[k].arrival
    {
      assert t[j].id == s[j].id && t[j].arrival == s[j].arrival;
      assert t[k].id == s[k].id && t[k].arrival == s[k].arrival;
    }
  }

  lemma CallNextKeepsInv(q: Queue)
    requires Inv(q)
    ensures Inv(CallNext(q).queue)
  {
    if Occupied(q.clients, 1) {
      var i := FindAt(q.clients, 1).value;
      CallNextIsRetire(q);
      MarkKeepsWf(q, i);
      RenumberKeepsInv(q.clients[i := q.clients[i].(served := true, position := 0)], q.clock);
    }
  }

  /**
   * Call-next fails exactly on an empty queue. Otherwise it calls the client that is
   * first in the calling order (the earliest priority client if any waits, else the
   * earliest normal client) and every other waiting client moves up one place.
   */
  lemma CallNextOutcome(q: Queue)
    requires Inv(q)
    ensures CallNext(q).result.Failure? <==> Waiting(q.clients) == 0
    ensures CallNext(q).result.Success? ==>
      var s := q.clients;
      var i := FindAt(s, 1).value;
      var r := CallNext(q).queue.clients;
      && (Count(s, Priority) > 0 <==> s[i].category == Priority)
      && (forall j :: 0 <= j < |s| && j != i && InBand(s[j], s[i].category) ==>
            s[i].arrival <= s[j].arrival && s[i].id < s[j].id)
      && (forall j :: 0 <= j < |s| && j != i && !s[j].served ==> r[j].position == s[j].position - 1)
  {
    FrontOccupied(q);
    var s := q.clients;
    if Occupied(s, 1) {
      var i := FindAt(s, 1).value;
      CallNextIsRetire(q);
      FrontIsFirst(s, i);
      RetireShift(s, i);
    }
  }

  /** The client at position 1 is ahead of every other waiting client in the calling order. */
  lemma FrontIsFirst(s: seq<Client>, i: nat)
    requires Canonical(s) && i < |s| && WaitingAt(s, i, 1)
    ensures forall j :: 0 <= j < |s| && j != i && !s[j].served ==> Precedes(s, i, j)
    ensures Count(s, Priority) > 0 <==> s[i].category == Priority
  {
    forall j | 0 <= j < |s| && j != i && !s[j].served
      ensures Precedes(s, i, j)
    {
      RankRange(s, j);
      RankOrder(s, i, j);
      RankOrder(s, j, i);
    }
    if Count(s, Priority) > 0 {
      var j := Select(s, Priority, 0);
    } else if s[i].category == Priority {
      CountWhole(s, i, Priority);
    }
  }

  /** Calling the client at position 1 moves every other waiting client up one place. */
  lemma RetireShift(s: seq<Client>, i: nat)
    requires Canonical(s) && i < |s| && WaitingAt(s, i, 1)
    requires forall j :: 0 <= j < |s| && j != i && !s[j].served ==> Precedes(s, i, j)
    ensures forall j :: 0 <= j < |s| && j != i && !s[j].served ==> Retire(s, i)[j].position == s[j].position - 1
  {
    var y := s[i].(served := true, position := 0);
    forall j | 0 <= j < |s| && j != i && !s[j].served
      ensures Retire(s, i)[j].position == s[j].position - 1
    {
      RenumberAt(s[i := y], j);
      RankAfterRetire(s, i, y, j);
    }
  }

  // ---------------------------------------------------------------------------
  // Remove by position

  lemma RemoveKeepsInv(q: Queue, p: int)
    requires Inv(q)
    ensures Inv(Remove(q, p).queue)
  {
    if Occupied(q.clients, p) {
      var i := FindAt(q.clients, p).value;
      RemoveIsDrop(q, p);
      DropKeepsWf(q, i);
      RenumberKeepsInv(Drop(q.clients, i), q.clock);
    }
  }

  /** The table after removal: the row at `p` deleted and the rest renumbered. */
  lemma RemoveIsDrop(q: Queue, p: int)
    requires Occupied(q.clients, p)
    ensures Remove(q, p).queue == Queue(Renumber(Drop(q.clients, FindAt(q.clients, p).value)), q.clock)
  {
  }

  /** Deleting a row keeps the insertion-order facts and leaves called clients at position 0. */
  lemma DropKeepsWf(q: Queue, i: nat)
    requires Wf(q) && Retired(q.clients) && i < |q.clients|
    ensures Wf(Queue(Drop(q.clients, i), q.clock)) && Retired(Drop(q.clients, i))
  {
    var s := q.clients;
    var t := Drop(s, i);
    forall j, k | 0 <= j < k < |t|
      ensures t[j].id < t[k].id && t[j].arrival <= t[k].arrival
    {
      var j' := if j < i then j else j + 1;
      var k' := if k < i then k else k + 1;
      assert t[j] == s[j'] && t[k] == s[k'];
    }
    forall j | 0 <= j < |t|
      ensures t[j].arrival <= q.clock && (t[j].served ==> t[j].position == 0)
    {
      var j' := if j < i then j else j + 1;
      assert t[j] == s[j'];
    }
  }

  /**
   * Remove fails exactly when `p` lies outside 1..n. Otherwise the client at `p`
   * leaves the table; the waiting clients ahead of `p` keep their positions and those
   * behind it move up one place.
   */
  lemma RemoveOutcome(q: Queue, p: int)
    requires Inv(q)
    ensures Remove(q, p).result.Failure? <==> !(1 <= p <= Waiting(q.clients))
    ensures Remove(q, p).result.Success? ==>
      var s := q.clients;
      var i := FindAt(s, p).value;
      var r := Remove(q, p).queue.clients;
      && (forall k :: 0 <= k < |r| ==> r[k].id != s[i].id)
      && (forall j :: 0 <= j < |s| && j != i && !s[j].served ==>
            var j' := if j < i then j else j - 1;
            && r[j'] == s[j].(position := r[j'].position)
            && r[j'].position == if s[j].position < p then s[j].position else s[j].position - 1)
  {
    var s := q.clients;
    if 1 <= p <= Waiting(s) {
      var i := RankOnto(s, p);
      assert WaitingAt(s, i, p);
    }
    if Occupied(s, p) {
      var i := FindAt(s, p).value;
      RankRange(s, i);
      RemoveIsDrop(q, p);
      DropUnique(q, i);
      DropPositions(s, i);
    }
  }

  /** With unique ids, the deleted row's id is gone from the table. */
  lemma DropUnique(q: Queue, i: nat)
    requires Wf(q) && i < |q.clients|
    ensures forall k :: 0 <= k < |q.clients| - 1 ==> Renumber(Drop(q.clients, i))[k].id != q.clients[i].id
  {
    var s := q.clients;
    var t := Drop(s, i);
    forall k | 0 <= k < |t|
      ensures Renumber(t)[k].id != s[i].id
    {
      var k' := if k < i then k else k + 1;
      assert Renumber(t)[k].id == t[k].id == s[k'].id;
    }
  }

  /** Deleting the waiting client at `i` closes its gap and moves nobody ahead of it. */
  lemma DropPositions(s: seq<Client>, i: nat)
    requires Canonical(s) && i < |s| && !s[i].served
    ensures var r := Renumber(Drop(s, i));
      forall j :: 0 <= j < |s| && j != i && !s[j].served ==>
        var j' := if j < i then j else j - 1;
        r[j'].position == if s[j].position < s[i].position then s[j].position else s[j].position - 1
  {
    var t := Drop(s, i);
    forall j | 0 <= j < |s| && j != i && !s[j].served
      ensures var j' := if j < i then j else j - 1;
        Renumber(t)[j'].position == if s[j].position < s[i].position then s[j].position else s[j].position - 1
    {
      var j' := if j < i then j else j - 1;
      RankAfterDelete(s, i, j);
      RenumberAt(t, j');
      RankOrder(s, i, j);
      RankOrder(s, j, i);
    }
  }

  // ---------------------------------------------------------------------------
  // Queries

  /** The waiting clients of a table with no two waiting clients at one position have distinct positions. */
  lemma {:induction false} WaitingDistinct(s: seq<Client>)
    requires forall i, j :: 0 <= i < j < |s| && !s[i].served && !s[j].served ==> s[i].position != s[j].position
    ensures DistinctPositions(WaitingClients(s))
    decreases |s|
  {
    if s != [] {
      var m := |s| - 1;
      var p := s[..m];
      WaitingDistinct(p);
      var w := WaitingClients(p);
      if !s[m].served {
        forall a | 0 <= a < |w|
          ensures w[a].position != s[m].position
        {
          assert w[a] in w;
          var k :| 0 <= k < |p| && p[k] == w[a];
        }
      }
    }
  }

  /** The list shows the waiting clients at positions 1, 2, ..., n, in that order. */
  lemma ListInOrder(q: Queue)
    requires Inv(q)
    ensures |List(q)| == Waiting(q.clients)
    ensures forall k :: 0 <= k < |List(q)| ==> List(q)[k].position == k + 1
  {
    var s := q.clients;
    CanonicalShaped(s);
    WaitingDistinct(s);
    var l := List(q);
    forall k | 0 <= k < |l|
      ensures 1 <= l[k].position <= |l|
    {
      assert l[k] in l;
      var i :| 0 <= i < |s| && s[i] == l[k];
    }
    Pinned(l);
  }

  /** Get succeeds exactly for the positions 1..n, and answers the one client waiting there. */
  lemma GetOutcome(q: Queue, p: int)
    requires Inv(q)
    ensures Get(q, p).Success? <==> 1 <= p <= Waiting(q.clients)
    ensures Get(q, p).Success? ==>
      forall i :: 0 <= i < |q.clients| && WaitingAt(q.clients, i, p) ==> q.clients[i] == Get(q, p).value
  {
    var s := q.clients;
    CanonicalShaped(s);
    if Occupied(s, p) {
      var i := FindAt(s, p).value;
      RankRange(s, i);
    }
  }

  // ---------------------------------------------------------------------------
  // Any sequence of requests

  /** One request to the service. */
  datatype Request =
    | Join(name: string, code: string, tick: nat)
    | Next
    | Leave(position: int)

  function Apply(q: Queue, a: Request): Queue {
    match a
    case Join(name, code, tick) => Enqueue(q, name, code, tick).queue
    case Next => CallNext(q).queue
    case Leave(p) => Remove(q, p).queue
  }

  function Run(q: Queue, requests: seq<Request>): Queue
    decreases |requests|
  {
    if requests == [] then q else Run(Apply(q, requests[0]), requests[1..])
  }

  /** Every request keeps the invariant. */
  lemma ApplyKeepsInv(q: Queue, a: Request)
    requires Inv(q)
    ensures Inv(Apply(q, a))
  {
    match a
    case Join(name, code, tick) => EnqueueKeepsInv(q, name, code, tick);
    case Next => CallNextKeepsInv(q);
    case Leave(p) => RemoveKeepsInv(q, p);
  }

  /** After any sequence of requests on a fresh database the queue has the promised shape. */
  lemma {:induction false} RunKeepsInv(q: Queue, requests: seq<Request>)
    requires Inv(q)
    ensures Inv(Run(q, requests))
    ensures Shaped(Run(q, requests).clients)
    decreases |requests|
  {
    if requests == [] {
      CanonicalShaped(q.clients);
    } else {
      ApplyKeepsInv(q, requests[0]);
      RunKeepsInv(Apply(q, requests[0]), requests[1..]);
    }
  }
}
