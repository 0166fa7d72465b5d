# Walk-in service queue with two priority classes — a Dafny model

This project models the core of a small HTTP service that runs a single walk-in service queue
(`api_fila_atendimento`). Clients join as priority (`P`) or normal (`N`). They can be called
for service, removed by position, listed, or looked up by position. Every change to the client
table is followed by a renumbering pass (`reorganizar_posicoes`). The pass gives positions
1..k to the waiting priority clients in arrival order, then k+1..n to the waiting normal
clients in arrival order. The request schema (`ClienteCreate`) validates and normalises the
name and the one-letter service code before a client is added.

The model is functional. The client table is an immutable `seq<Client>` in insertion order,
held in `Engine.Queue` together with the last clock reading. Each handler is a pure function
that returns the new table and either a result or an error (`Engine.Reply`). The HTTP 404s and
the validation 422s become the `Engine.Error` variants `EmptyQueue`, `NotFound` and `Invalid`.

Files and modules:

| file | module | models |
|---|---|---|
| `results.dfy` | `Results` | `Option` / `Result` carriers |
| `schemas.dfy` | `Schemas` | `ClienteCreate`: the `max_length` constraints, `validar_nome`, `validar_tipo` |
| `clients.dfy` | `Clients` | the `Cliente` row and its two service codes |
| `renumber.dfy` | `Renumbering` | `reorganizar_posicoes` and the shape it gives the queue |
| `ordering.dfy` | `Ordering` | the `order_by(posicao)` of the list query |
| `engine.dfy` | `Engine` | the five handlers: enqueue, call-next, remove, list, get |
| `properties.dfy` | `Guarantees` | the invariant every handler keeps and how each handler moves the clients |

Modelling decisions:

- **Arrival order.** `datetime.now()` becomes `clock + tick`, where `tick: nat` is a
  parameter of enqueue, so arrival times never decrease along the table. Ties are possible.
  SQL leaves the order of equal `data_chegada` values unspecified; the model breaks ties by
  insertion order, which is also id order. `Engine.Wf` states these facts: ids strictly
  increase and arrivals never decrease along the table. Under them, "ordered by arrival,
  ties by id" is simply the order of the sequence.
- **Closed form of the pass.** The pass puts the waiting client at index `i` at
  `Renumbering.Rank`:
  - a priority client gets 1 + (waiting priority clients before it);
  - a normal client gets 1 + (all waiting priority clients) + (waiting normal clients before it).

  This is exactly what the two `for` loops with the shared counter `posicao` assign.
- **Ids.** The table is SQLite with an `INTEGER PRIMARY KEY`, so a new row gets the largest
  id in use plus one (`Engine.NextId`). Called clients stay in the table, so their ids count.
- **Invariant.** `Engine.Inv` holds between requests. It combines `Wf`, "called clients sit at
  position 0" and "every waiting client sits at its rank". `Guarantees.RunKeepsInv` shows it
  holds after any sequence of requests on a fresh table. `Renumbering.CanonicalShaped` derives
  the queue shape from it: positions exactly 1..n, the priority band first, and table order
  within a band, which `Wf` makes arrival order (`Guarantees.ArrivalOrder`).
- **Name validation order.** The `Field(max_length=20)` constraint runs before the
  `validar_nome` after-validator. So a raw name longer than 20 characters is refused as too
  long even when it is blank, and the validator's own length test never fires. The model
  keeps both tests in that order.
- **The name limit is on the raw string.** `max_length=20` and `len(v) > 20` both look at
  the untrimmed input, so `" " * 2 + "a" * 19` is refused even though its trimmed form has
  19 characters. The model follows the code.
- **Position arguments.** The remove and get handlers take an `int` path parameter and
  answer 404 when no waiting client sits at that position. The model answers `NotFound` in
  the same way, for `p <= 0` and for `p > n` alike. Values outside SQLite's 64-bit integer
  range behave differently in the code; see "Left out".

## Model

| member | source | states |
|---|---|---|
| `Schemas.Strip` | api_fila_atendimento/schemas.py:16-20 | the stripped name is the infix left once whitespace is cut from both ends, it neither starts nor ends with whitespace, and it is empty exactly when the input is blank |
| `Schemas.StripIdempotent` | api_fila_atendimento/schemas.py:20 | stripping an already stripped name changes nothing |
| `Schemas.ValidateName` | api_fila_atendimento/schemas.py:10-20 | a name is accepted iff its raw length is 1..20 and it is not blank; over 20 raw characters gives NameTooLong, and otherwise an empty or blank name gives NameBlank; an accepted name comes back stripped, non-empty, at most 20 long and without whitespace at its ends |
| `Schemas.ValidateNameIdempotent` | api_fila_atendimento/schemas.py:16-20 | validating an accepted name again returns the same name |
| `Schemas.ValidateCode` | api_fila_atendimento/schemas.py:22-27 | a service code is accepted iff it is one of "N", "n", "P", "p" (max_length 1, then upper-case form in {N, P}); more than one character gives CodeTooLong; an accepted code comes back as exactly "N" or "P", and as "P" iff the input was "P" or "p" |
| `Schemas.ValidateCodeIdempotent` | api_fila_atendimento/schemas.py:25-27 | validating an accepted code again returns the same code |
| `Schemas.UpperIdempotent` | api_fila_atendimento/schemas.py:25-27 | upper-casing an upper-cased code changes nothing |
| `Clients.CodeRoundTrip` | api_fila_atendimento/models.py:14 | a stored code "N" or "P" reads back to a category whose stored code is that same code |
| `Clients.CodeOf` | api_fila_atendimento/models.py:14 | each category is stored as "N" or "P", and that code maps back to the same category |
| `Renumbering.Renumber` | api_fila_atendimento/main.py:20-46 | the pass changes only the positions of waiting clients: called clients and every name, category, arrival and served flag are untouched |
| `Renumbering.RenumberShaped` | api_fila_atendimento/main.py:26-44 | after the pass, for any table, the waiting clients hold positions exactly 1..n (each taken once), every waiting priority client is ahead of every waiting normal client, and within a band the client earlier in the table is ahead (the earlier arrival on tables satisfying `Engine.Wf`; see `Guarantees.RenumberArrivalOrder`) |
| `Renumbering.RenumberIdempotent` | api_fila_atendimento/main.py:20-46 | running the pass twice gives the same table as running it once |
| `Renumbering.RenumberFixpoint` | api_fila_atendimento/main.py:37-44 | the pass leaves a table unchanged iff every waiting client already sits at its rank |
| `Renumbering.CanonicalShaped` | api_fila_atendimento/main.py:37-44 | a table whose waiting clients sit at their ranks has positions exactly 1..n, priority first, and table order within a band |
| `Renumbering.RankOrder` | api_fila_atendimento/main.py:26-44 | for two waiting clients, the first has the smaller position iff it comes first in the calling order (priority band first, then table order, which is arrival order on tables satisfying `Engine.Wf`) |
| `Renumbering.RankRange` | api_fila_atendimento/main.py:37-44 | a waiting client's position lies in 1..n |
| `Renumbering.RankOnto` | api_fila_atendimento/main.py:37-44 | every position 1..n is given to some waiting client |
| `Renumbering.RanksAgree` | api_fila_atendimento/main.py:25-34 | positions depend only on which clients wait in which band, not on their old positions |
| `Renumbering.RankAfterRetire` | api_fila_atendimento/main.py:153-159 | marking a waiting client served moves another waiting client up one place exactly when the served client was ahead of it |
| `Renumbering.RankAfterDelete` | api_fila_atendimento/main.py:190-195 | deleting a waiting client moves another waiting client up one place exactly when the deleted client was ahead of it |
| `Renumbering.RankAfterPush` | api_fila_atendimento/main.py:108-120 | adding a waiting client moves a waiting normal client down one place when the newcomer is priority, and moves nobody else |
| `Renumbering.RankOfPushed` | api_fila_atendimento/main.py:108-120 | a new priority client lands behind the waiting priority clients, a new normal client behind everyone |
| `Ordering.SortByPosition` | api_fila_atendimento/main.py:59-61 | the listed clients are a permutation of the waiting clients in non-decreasing position order, with distinct positions kept distinct |
| `Engine.NextId` | api_fila_atendimento/models.py:12 | the id of a new row exceeds every id in the table |
| `Engine.FindAt` | api_fila_atendimento/main.py:76-79 | the lookup by position finds nothing iff no waiting client is at that position, and otherwise the first waiting client there |
| `Engine.WaitingClients` | api_fila_atendimento/main.py:59-60 | the filter keeps exactly the clients not yet served, n of them |
| `Engine.Add` | api_fila_atendimento/main.py:107-125 | enqueue always succeeds and adds exactly one row: the given name and category, the current time, not served, an id above all others; it returns that row with its final position, and the old rows change at most in position |
| `Engine.Enqueue` | api_fila_atendimento/main.py:91-125 | the request fails iff name or code validation fails, and then nothing changes; otherwise the stored name is the stripped name and the category is priority iff the code was "P" or "p" |
| `Engine.CallNext` | api_fila_atendimento/main.py:141-161 | call-next fails with EmptyQueue iff nobody waits at position 1, and then nothing changes; otherwise the client at position 1 is marked served with position 0 and kept in the table, its name is reported, and every other row changes at most in position |
| `Engine.Remove` | api_fila_atendimento/main.py:176-197 | remove fails with NotFound iff nobody waits at position p, and then nothing changes; otherwise the client at p is deleted, its name and p are reported, and the remaining rows change at most in position |
| `Engine.List` | api_fila_atendimento/main.py:59-63 | the list holds exactly the waiting clients, n of them, sorted by position; an empty queue is an empty list |
| `Engine.Get` | api_fila_atendimento/main.py:76-87 | get fails with NotFound iff nobody waits at p, and otherwise returns a waiting client at p |
| `Guarantees.FreshInv` | api_fila_atendimento/main.py:10-11 | an empty table satisfies the invariant |
| `Guarantees.InvShaped` | api_fila_atendimento/main.py:20-46 | between requests the waiting clients hold positions 1..n, priority first, first come first served within a band |
| `Guarantees.ArrivalOrder` | api_fila_atendimento/main.py:26-44 | within a band, the earlier arrival, or the same arrival and the smaller id, has the smaller position |
| `Guarantees.RenumberArrivalOrder` | api_fila_atendimento/main.py:26-44 | on a table the engine built (`Engine.Wf`), the pass gives the earlier arrival in a band, or the same arrival and the smaller id, the smaller position, whatever positions the clients held before |
| `Guarantees.AddKeepsInv` | api_fila_atendimento/main.py:107-125 | enqueue keeps the invariant |
| `Guarantees.AddPositions` | api_fila_atendimento/main.py:107-125 | a new priority client gets (waiting priority clients) + 1, a new normal client gets n + 1; waiting normal clients move down one place when the newcomer is priority, and every other position stays |
| `Guarantees.AddKeepsOrder` | api_fila_atendimento/main.py:104-105 | enqueue keeps the relative order of the clients already waiting |
| `Guarantees.EnqueueKeepsInv` | api_fila_atendimento/main.py:91-125 | a validated or refused enqueue request keeps the invariant |
| `Guarantees.FrontOccupied` | api_fila_atendimento/main.py:142-151 | position 1 is occupied iff somebody waits |
| `Guarantees.CallNextKeepsInv` | api_fila_atendimento/main.py:141-161 | call-next keeps the invariant |
| `Guarantees.CallNextOutcome` | api_fila_atendimento/main.py:135-161 | call-next fails iff the queue is empty; otherwise it calls the earliest priority client if any waits, else the earliest normal client, and every other waiting client's position drops by exactly one |
| `Guarantees.FrontIsFirst` | api_fila_atendimento/main.py:141-145 | the client at position 1 is ahead of every other waiting client, and is a priority client iff one waits |
| `Guarantees.RetireShift` | api_fila_atendimento/main.py:153-159 | after the client at position 1 is called, every other waiting client moves up one place |
| `Guarantees.RemoveKeepsInv` | api_fila_atendimento/main.py:176-197 | remove keeps the invariant |
| `Guarantees.RemoveOutcome` | api_fila_atendimento/main.py:176-197 | remove(p) fails iff p lies outside 1..n; otherwise the removed client's id is gone, waiting clients before p keep their position and those after p drop by exactly one, with every other field unchanged |
| `Guarantees.DropPositions` | api_fila_atendimento/main.py:190-195 | deleting the waiting client at position p leaves positions below p alone and lowers those above p by one |
| `Guarantees.ListInOrder` | api_fila_atendimento/main.py:59-63 | between requests the list has n entries and its k-th entry sits at position k |
| `Guarantees.GetOutcome` | api_fila_atendimento/main.py:76-87 | get(p) succeeds iff p lies in 1..n, and returns the one waiting client at p |
| `Guarantees.ApplyKeepsInv` | api_fila_atendimento/main.py:107-197 | each of enqueue, call-next and remove keeps the invariant |
| `Guarantees.RunKeepsInv` | api_fila_atendimento/main.py:107-197 | after any sequence of requests the invariant holds and the queue has the promised shape |

## Left out

- The FastAPI application, routing, status codes and response-model serialisation
  (`ClienteResponse`, `MensagemResponse`). Failures are the `Engine.Error` variants, and
  confirmations are `Engine.Notice` values carrying the name (and, for a removal, the
  position) instead of the Portuguese message text.
- The root information endpoint: it returns a constant dictionary.
- SQLAlchemy: the engine, sessions, `commit`/`refresh` and table creation. The table is a
  `seq<Client>` value. The database script and the table-creation script are not part of this
  model. A crash between the insert's commit and the pass's commit, which would leave a row at
  position 0, is not modelled.
- Concurrency. The handlers take no lock. Interleaved requests could renumber from stale
  reads, and the sequential model does not cover that.
- `datetime.now()`: replaced by the monotone clock described above.
- Full Unicode. `Schemas.IsSpace` is Python's ASCII whitespace only. `Schemas.Upper` only maps
  'a'..'z'. Non-ASCII whitespace such as U+00A0 is therefore not stripped.
- Pydantic's error collection: when both fields are invalid, pydantic reports both errors.
  `Engine.Enqueue` reports the name's error. Non-string JSON values for the fields are not
  modelled.
- Service codes other than `P` and `N` in the table: the validators make them impossible, so
  `Clients.Category` has two variants.
- The demonstration and test scripts drive the HTTP API with `requests`, `input()` and
  `sleep`. They are not modelled.
- Engine.Get / Engine.Remove: positions outside -2^63..2^63-1 are not modelled as the code
  handles them. There the code binds `id` into an SQLite query, the database driver raises an
  unhandled `OverflowError`, and the client gets a server error instead of a 404. The model's
  positions are unbounded integers, and every unoccupied one answers `NotFound`.
- Engine.Get: without the invariant, the contract only says "a waiting client at p". The
  invariant is what makes that client unique, and `Guarantees.GetOutcome` states this.
