/** The one stored entity: a client waiting in, or already called from, the service queue. */
module Clients {

  /** The service class: `'P'` (priority) or `'N'` (normal). */
  datatype Category = Priority | Normal

  /**
   * One row of the client table. `position` is the client's rank in the queue while
   * the client waits and 0 once the client has been called; `arrival` stands for the
   * arrival timestamp as a reading of a monotone clock.
   */
  datatype Client = Client(
    id: nat,
    name: string,
    category: Category,
    arrival: nat,
    position: int,
    served: bool)

  /** The category a validated service code ("N" or "P") stands for. */
  function CategoryOf(code: string): Category {
    if code == "P" then Priority else Normal
  }

  /** The stored one-letter code of a category. */
  function CodeOf(c: Category): (code: string)
    ensures CategoryOf(code) == c
    ensures code == "N" || code == "P"
  {
    match c
    case Priority => "P"
    case Normal => "N"
  }

  /** A stored code ("N" or "P") reads back to a category whose stored code is itself. */
  lemma CodeRoundTrip(code: string)
    requires code == "N" || code == "P"
    ensures CodeOf(CategoryOf(code)) == code
  {
  }
}
