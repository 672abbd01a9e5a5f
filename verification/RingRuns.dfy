/** Whole runs of the job queue by one process: the circular buffer answers every sequence of
    calls as a bounded sequence of jobs does. */
module RingRuns {
  import opened Wrappers
  import opened Jobs
  import opened Rings
  import opened Calls

  /** What one call of jobqueue.c does to the buffer, and what it returns. */
  function Served(r: Ring, c: Call): (out: (Ring, Reply))
    requires r.Valid()
    ensures out.0.Valid() && out.0.Capacity() == r.Capacity()
  {
    match c
    case Enqueue(job) => (Enqueued(r, job), Nothing)
    case Dequeue => (Dequeued(r), Took(if r.IsEmpty() then None else Some(Normalise(r.slots[r.head]))))
    case PeekHead => (r, Saw(if r.IsEmpty() then None else Some(Normalise(r.slots[r.head]))))
    case PeekTail => (r, Saw(if r.IsEmpty() then None else Some(Normalise(r.slots[r.LastIndex()]))))
    case IsEmpty => (r, Flag(r.IsEmpty()))
    case IsFull => (r, Flag(r.IsFull()))
  }

  /** The same on a sequence of at most `capacity` jobs. */
  function Answered(q: seq<JobValue>, capacity: int, c: Call): (seq<JobValue>, Reply) {
    var q' := match c
              case Enqueue(Some(v)) => if |q| < capacity then q + [Normalise(v)] else q
              case Dequeue => if q == [] then [] else q[1..]
              case _ => q;
    (q', Answer(q, capacity, c))
  }

  function ServedAll(r: Ring, calls: seq<Call>): (Ring, seq<Reply>)
    requires r.Valid()
    decreases |calls|
  {
    if calls == [] then (r, []) else
    var (r1, reply) := Served(r, calls[0]);
    var (r2, replies) := ServedAll(r1, calls[1..]);
    (r2, [reply] + replies)
  }

  function AnsweredAll(q: seq<JobValue>, capacity: int, calls: seq<Call>): (seq<JobValue>, seq<Reply>)
    decreases |calls|
  {
    if calls == [] then (q, []) else
    var (q1, reply) := Answered(q, capacity, calls[0]);
    var (q2, replies) := AnsweredAll(q1, capacity, calls[1..]);
    (q2, [reply] + replies)
  }

  lemma {:induction false} OneCall(r: Ring, c: Call)
    requires r.Clean()
    ensures Served(r, c).0.Clean()
    ensures Answered(r.Contents(), r.Capacity(), c) == (Served(r, c).0.Contents(), Served(r, c).1)
  {
    hide Ring.Clean, Ring.Contents, Ring.Window, Normalise, Enqueued, Dequeued;
    Ends(r);
    if c.Enqueue? {
      RingIsBoundedFifo(r, c.job);
    } else {
      RingIsBoundedFifo(r, None);
    }
  }

  /** For every buffer size from 2 on and every sequence of calls, the replies and the contents
      are those of the bounded sequence, and the buffer is clean again. */
  lemma {:induction false} RingRunsAsBoundedFifo(r: Ring, calls: seq<Call>)
    requires r.Clean()
    ensures ServedAll(r, calls).0.Clean()
    ensures AnsweredAll(r.Contents(), r.Capacity(), calls) == (ServedAll(r, calls).0.Contents(), ServedAll(r, calls).1)
    decreases |calls|
  {
    if calls != [] {
      hide Ring.Clean, Ring.Contents, Ring.Window, Served, Answered;
      OneCall(r, calls[0]);
      RingRunsAsBoundedFifo(Served(r, calls[0]).0, calls[1..]);
    }
  }

  function Drain(k: nat): seq<Call> {
    if k == 0 then [] else [Dequeue] + Drain(k - 1)
  }

  lemma {:induction false} DrainsInOrder(q: seq<JobValue>, capacity: int)
    ensures AnsweredAll(q, capacity, Drain(|q|)).0 == []
    ensures |AnsweredAll(q, capacity, Drain(|q|)).1| == |q|
    ensures forall k | 0 <= k < |q| :: AnsweredAll(q, capacity, Drain(|q|)).1[k] == Took(Some(q[k]))
  {
    if q != [] {
      assert Drain(|q|)[1..] == Drain(|q| - 1);
      DrainsInOrder(q[1..], capacity);
    }
  }

  /** A job put into a queue with room comes out after the jobs before it, normalised: equal to
      what was put in exactly if its label had full length. */
  lemma {:induction false} EnqueuedJobComesOut(r: Ring, v: JobValue)
    requires r.Clean() && !r.IsFull()
    ensures var n := |r.Contents()|;
            var replies := ServedAll(Enqueued(r, Some(v)), Drain(n + 1)).1;
            && |replies| == n + 1
            && replies[n] == Took(Some(Normalise(v)))
            && (replies[n] == Took(Some(v)) <==> WellFormed(v))
            && forall k | 0 <= k < n :: replies[k] == Took(Some(r.Contents()[k]))
  {
    hide Ring.Clean, Ring.Contents, Ring.Window, ServedAll, AnsweredAll, Enqueued;
    Ends(r);
    var r1 := Enqueued(r, Some(v));
    CleanContents(r);
    EmptyAndFull(r);
    RingIsBoundedFifo(r, Some(v));
    NormaliseFixesWellFormed(v);
    DrainsInOrder(r1.Contents(), r1.Capacity());
    RingRunsAsBoundedFifo(r1, Drain(|r1.Contents()|));
  }
}
