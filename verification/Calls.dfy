/** The calls on a queue of jobs, and what each answers on a sequence of at most `capacity` jobs. */
module Calls {
  import opened Wrappers
  import opened Jobs

  datatype Call = Enqueue(job: Option<JobValue>) | Dequeue | PeekHead | PeekTail | IsEmpty | IsFull

  /** What a call returns. `Took(None)` and `Saw(None)` are NULL. */
  datatype Reply = Nothing | Took(job: Option<JobValue>) | Saw(job: Option<JobValue>) | Flag(b: bool)

  function First(q: seq<JobValue>): Option<JobValue> {
    if q == [] then None else Some(q[0])
  }

  function Last(q: seq<JobValue>): Option<JobValue> {
    if q == [] then None else Some(q[|q| - 1])
  }

  function Answer(q: seq<JobValue>, capacity: int, c: Call): Reply {
    match c
    case Enqueue(_) => Nothing
    case Dequeue => Took(First(q))
    case PeekHead => Saw(First(q))
    case PeekTail => Saw(Last(q))
    case IsEmpty => Flag(q == [])
    case IsFull => Flag(|q| == capacity)
  }
}
