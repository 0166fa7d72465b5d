/**
 * The queue engine: the request handlers that change or read the client table.
 * Each mutating operation changes the table and then runs the renumbering pass.
 * The database session is a `Queue` value passed in and returned; the current
 * time is the last clock reading plus a caller-supplied `tick`.
 */
module Engine {
  import opened Results
  import opened Schemas
  import opened Clients
  import opened Renumbering
  import opened Ordering

  /** The client table in insertion order, with the last arrival time handed out. */
  datatype Queue = Queue(clients: seq<Client>, clock: nat)

  /** Why an operation was refused; the HTTP layer turns these into 422 and 404 replies. */
  datatype Error =
    | Invalid(reason: InputError)   // the enqueue request failed validation
    | EmptyQueue                    // nobody waits at position 1
    | NotFound(position: int)       // nobody waits at the requested position

  /** The confirmation of a call-next or a removal. */
  datatype Notice =
    | Called(name: string)
    | Removed(name: string, position: int)

  /** The table after an operation together with what the operation answered. */
  datatype Reply<+T> = Reply(queue: Queue, result: Result<T, Error>)

  /** The empty table of a fresh database. */
  const Fresh := Queue([], 0)

  /**
   * Rows as the engine inserts them: ids strictly increase and arrival times never
   * decrease along the table, and no arrival lies after the clock.
   */
  predicate Wf(q: Queue) {
    && (forall i, j :: 0 <= i < j < |q.clients| ==>
          q.clients[i].id < q.clients[j].id && q.clients[i].arrival <= q.clients[j].arrival)
    && (forall i :: 0 <= i < |q.clients| ==> q.clients[i].arrival <= q.clock)
  }

  /** Every called client sits at position 0. */
  predicate Retired(s: seq<Client>) {
    forall i :: 0 <= i < |s| && s[i].served ==> s[i].position == 0
  }

  /** What holds between requests. */
  predicate Inv(q: Queue) {
    Wf(q) && Retired(q.clients) && Canonical(q.clients)
  }

  /** The largest id in the table, 0 when it is empty. */
  function MaxId(s: seq<Client>): (m: nat)
    ensures forall i :: 0 <= i < |s| ==> s[i].id <= m
    ensures s == [] ==> m == 0
    ensures s != [] ==> exists i :: 0 <= i < |s| && s[i].id == m
  {
    if s == [] then 0
    else
      var m := MaxId(s[..|s| - 1]);
      if s[|s| - 1].id > m then s[|s| - 1].id else m
  }

  /** The id the table hands to a new row: one past the largest id in use. */
  function NextId(s: seq<Client>): (id: nat)
    ensures forall i :: 0 <= i < |s| ==> s[i].id < id
    ensures id >= 1
  {
    MaxId(s) + 1
  }

  /** The first index, from `k` on, of a waiting client at position `p`. */
  function FindFrom(s: seq<Client>, p: int, k: nat): (r: Option<nat>)
    requires k <= |s|
    ensures r.None? <==> forall i :: k <= i < |s| ==> !WaitingAt(s, i, p)
    ensures r.Some? ==> k <= r.value < |s| && WaitingAt(s, r.value, p)
    ensures r.Some? ==> forall i :: k <= i < r.value ==> !WaitingAt(s, i, p)
    decreases |s| - k
  {
    if k == |s| then None
    else if WaitingAt(s, k, p) then Some(k)
    else FindFrom(s, p, k + 1)
  }

  /** The first waiting client at position `p`, if any. */
  function FindAt(s: seq<Client>, p: int): (r: Option<nat>)
    ensures r.None? <==> !Occupied(s, p)
    ensures r.Some? ==> r.value < |s| && WaitingAt(s, r.value, p)
    ensures r.Some? ==> forall i :: 0 <= i < r.value ==> !WaitingAt(s, i, p)
  {
    FindFrom(s, p, 0)
  }

  /** The waiting clients of `s`, in table order. */
  function WaitingClients(s: seq<Client>): (r: seq<Client>)
    ensures |r| == Waiting(s)
    ensures forall x :: x in r <==> x in s && !x.served
  {
    if s == [] then []
    else
      var x := s[|s| - 1];
      WaitingClients(s[..|s| - 1]) + (if x.served then [] else [x])
  }

  // ---------------------------------------------------------------------------
  // Operations

  /**
   * `adicionar_cliente` after validation: a new row with a fresh id, the current
   * time, position 0 and not served is added, and the pass runs. The reply is the
   * new row with its final position.
   */
  function Add(q: Queue, name: string, category: Category, tick: nat): (r: Reply<Client>)
    ensures r.result.Success?
    ensures r.queue.clock == q.clock + tick
    ensures |r.queue.clients| == |q.clients| + 1
    ensures Reassigned(q.clients, r.queue.clients[..|q.clients|])
    ensures r.result.value == r.queue.clients[|q.clients|]
    ensures var c := r.result.value;
      && c.name == name && c.category == category && c.arrival == q.clock + tick && !c.served
      && forall i :: 0 <= i < |q.clients| ==> q.clients[i].id < c.id
  {
    var c := Client(NextId(q.clients), name, category, q.clock + tick, 0, false);
    var s := Renumber(q.clients + [c]);
    Reply(Queue(s, q.clock + tick), Success(s[|q.clients|]))
  }

  /**
   * `POST /fila`: the request's name and service code are validated first; a
   * refused request leaves the table unchanged.
   */
  function Enqueue(q: Queue, name: string, code: string, tick: nat): (r: Reply<Client>)
    ensures r.result.Failure? <==> ValidateName(name).Failure? || ValidateCode(code).Failure?
    ensures r.result.Failure? ==> r.queue == q && r.result.error.Invalid?
    ensures r.result.Success? ==>
      && r.result.value.name == Strip(name)
      && (r.result.value.category == Priority <==> code == "P" || code == "p")
      && |r.queue.clients| == |q.clients| + 1
  {
    match ValidateName(name)
    case Failure(e) => Reply(q, Failure(Invalid(e)))
    case Success(n) =>
      match ValidateCode(code)
      case Failure(e) => Reply(q, Failure(Invalid(e)))
      case Success(k) => Add(q, n, CategoryOf(k), tick)
  }

  /** The table after the client at `i` is marked served and moved to position 0, renumbered. */
  function Retire(s: seq<Client>, i: nat): seq<Client>
    requires i < |s|
  {
    Renumber(s[i := s[i].(served := true, position := 0)])
  }

  /**
   * `PUT /fila`: the waiting client at position 1 is marked served with position 0
   * and kept in the table, and the pass runs; with nobody at position 1 the call
   * fails and nothing changes.
   */
  function CallNext(q: Queue): (r: Reply<Notice>)
    ensures r.result.Failure? <==> !Occupied(q.clients, 1)
    ensures r.result.Failure? ==> r.queue == q && r.result.error == EmptyQueue
    ensures r.result.Success? ==>
      var i := FindAt(q.clients, 1).value;
      && WaitingAt(q.clients, i, 1)
      && r.result.value == Called(q.clients[i].name)
      && r.queue.clock == q.clock
      && |r.queue.clients| == |q.clients|
      && r.queue.clients[i] == q.clients[i].(served := true, position := 0)
      && (forall j :: 0 <= j < |q.clients| && j != i ==>
            r.queue.clients[j] == q.clients[j].(position := r.queue.clients[j].position))
  {
    match FindAt(q.clients, 1)
    case None => Reply(q, Failure(EmptyQueue))
    case Some(i) =>
      Reply(Queue(Retire(q.clients, i), q.clock), Success(Called(q.clients[i].name)))
  }

  /** The table without the row at `i`. */
  function Drop(s: seq<Client>, i: nat): (t: seq<Client>)
    requires i < |s|
    ensures |t| == |s| - 1
    ensures forall j :: 0 <= j < i ==> t[j] == s[j]
    ensures forall j :: i < j < |s| ==> t[j - 1] == s[j]
  {
    s[..i] + s[i + 1..]
  }

  /**
   * `DELETE /fila/{id}`: the waiting client at position `p` is deleted from the
   * table and the pass runs; with nobody at `p` the call fails and nothing changes.
   */
  function Remove(q: Queue, p: int): (r: Reply<Notice>)
    ensures r.result.Failure? <==> !Occupied(q.clients, p)
    ensures r.result.Failure? ==> r.queue == q && r.result.error == NotFound(p)
    ensures r.result.Success? ==>
      var i := FindAt(q.clients, p).value;
      && WaitingAt(q.clients, i, p)
      && r.result.value == Removed(q.clients[i].name, p)
      && r.queue.clock == q.clock
      && Reassigned(Drop(q.clients, i), r.queue.clients)
  {
    match FindAt(q.clients, p)
    case None => Reply(q, Failure(NotFound(p)))
    case Some(i) =>
      Reply(Queue(Renumber(Drop(q.clients, i)), q.clock), Success(Removed(q.clients[i].name, p)))
  }

  /** `GET /fila`: the waiting clients ordered by position; an empty queue is an empty list. */
  function List(q: Queue): (r: seq<Client>)
    ensures SortedByPosition(r)
    ensures multiset(r) == multiset(WaitingClients(q.clients))
    ensures |r| == Waiting(q.clients)
    ensures forall x :: x in r <==> x in q.clients && !x.served
  {
    var w := WaitingClients(q.clients);
    var r := SortByPosition(w);
    assert forall x :: x in r <==> x in w by {
      forall x
        ensures x in r <==> x in w
      {
        assert x in r <==> x in multiset(r);
        assert x in w <==> x in multiset(w);
      }
    }
    r
  }

  /** `GET /fila/{id}`: the waiting client at position `p`, or NotFound. */
  function Get(q: Queue, p: int): (r: Result<Client, Error>)
    ensures r.Failure? <==> !Occupied(q.clients, p)
    ensures r.Failure? ==> r.error == NotFound(p)
    ensures r.Success? ==> r.value in q.clients && !r.value.served && r.value.position == p
  {
    match FindAt(q.clients, p)
    case None => Failure(NotFound(p))
    case Some(i) => Success(q.clients[i])
  }
}
