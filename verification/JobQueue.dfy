/** The job queue of jobqueue.c: an array of job structs updated in place. */
module JobQueues {
  import opened Wrappers
  import opened Jobs
  import opened Rings

  const QUEUE_SIZE := 128

  function Values(js: seq<Job>): (vs: seq<JobValue>)
    reads js
    ensures |vs| == |js|
    ensures forall i | 0 <= i < |js| :: vs[i] == js[i].Value()
  {
    seq(|js|, i requires 0 <= i < |js| reads js => js[i].Value())
  }

  twostate lemma {:induction false} NoSlotChanged(js: seq<Job>)
    requires forall k | 0 <= k < |js| :: unchanged(js[k])
    ensures Values(js) == old(Values(js))
  {
  }

  predicate Distinct(js: seq<Job>) {
    forall i, j | 0 <= i < j < |js| :: js[i] != js[j]
  }

  /** Writing one struct of the buffer changes one slot. */
  method CopyInto(js: seq<Job>, i: nat, job: Job)
    requires i < |js| && Distinct(js) && job !in js
    modifies js[i]
    ensures Values(js) == old(Values(js))[i := Normalise(old(job.Value()))]
    ensures job.Value() == old(job.Value())
  {
    var copy := JobCopy(js[i], job, true);
  }

  method InitAt(js: seq<Job>, i: nat)
    requires i < |js| && Distinct(js)
    modifies js[i]
    ensures Values(js) == old(Values(js))[i := ZEROED]
  {
    JobInit(js[i]);
  }

  /** `(i + 1) % n`, the step that wraps both ends of the buffer. */
  method WrappedNext(i: nat, n: nat) returns (r: nat)
    requires i < n && n >= 2
    ensures r == Next(i, n)
  {
    NextIsRemainder(i, n);
    return (i + 1) % n;
  }

  class JobQueue {
    var head: nat
    var tail: nat
    var bufSize: nat
    const jobs: array<Job>

    function Model(): Ring
      reads this, jobs, jobs[..]
    {
      Ring(head, tail, Values(jobs[..]))
    }

    ghost predicate Valid()
      reads this, jobs, jobs[..]
    {
      && bufSize == jobs.Length
      && Distinct(jobs[..])
      && Model().Clean()
    }

    ghost function Contents(): seq<JobValue>
      reads this, jobs, jobs[..]
      requires Valid()
    {
      Model().Contents()
    }

    /** The memory for a queue of `n` slots, with arbitrary contents. */
    constructor (n: nat, junk: JobValue)
      ensures jobs.Length == n && Distinct(jobs[..])
      ensures fresh(jobs) && fresh(jobs[..])
    {
      var js: seq<Job> := [];
      while |js| < n
        invariant |js| <= n && Distinct(js) && fresh(js)
      {
        var j := new Job(junk);
        js := js + [j];
      }
      jobs := new Job[n](i requires 0 <= i < |js| => js[i]);
      new;
      assert jobs[..] == js;
    }

    /** jobqueue_init, for a buffer of any size. */
    method Init()
      requires Distinct(jobs[..]) && jobs.Length >= 2
      modifies this, jobs[..]
      ensures Valid() && Model() == EmptyRing(jobs.Length) && Contents() == []
      ensures head == 0 && tail == 0 && bufSize == jobs.Length
      ensures forall i | 0 <= i < jobs.Length ::
                && jobs[i].pid == 0 && jobs[i].id == 0
                && forall k | 0 <= k < 32 :: jobs[i].lab[k] == '\0'
    {
      head := 0;
      tail := 0;
      bufSize := jobs.Length;
      for i := 0 to bufSize
        invariant head == 0 && tail == 0 && bufSize == jobs.Length
        invariant forall k | 0 <= k < i :: jobs[k].Value() == ZEROED
        invariant forall k | 0 <= k < i :: jobs[k].pid == 0 && jobs[k].id == 0
        invariant forall k, c | 0 <= k < i && 0 <= c < 32 :: jobs[k].lab[c] == '\0'
      {
        JobInit(jobs[i]);
      }
      assert Model().slots == EmptyRing(jobs.Length).slots;
      EmptyRingIsClean(jobs.Length);
    }

    /** jobqueue_capacity. */
    method Capacity() returns (n: nat)
      requires Valid()
      ensures n == Model().Capacity() >= |Contents()|
      ensures n >= 1
    {
      CleanContents(Model());
      return bufSize - 1;
    }

    /** jobqueue_is_empty. */
    method IsEmpty() returns (b: bool)
      requires Valid()
      ensures b == Model().IsEmpty()
      ensures b <==> Contents() == []
    {
      Ends(Model());
      return head == tail;
    }

    /** jobqueue_is_full. */
    method IsFull() returns (b: bool)
      requires Valid()
      ensures b == Model().IsFull()
      ensures b <==> |Contents()| == bufSize - 1
    {
      Ends(Model());
      var next := WrappedNext(tail, bufSize);
      return head == next;
    }

    /** Copies the job in slot `i` of the window, as both peek functions do. */
    method CopyOut(i: nat, dst: Job?, gotMemory: bool) returns (r: Job?)
      requires Valid() && dst !in jobs[..]
      requires i < bufSize && Model().InWindow(i)
      modifies dst
      ensures Valid() && Model() == old(Model())
      ensures r == null <==> dst == null && !gotMemory
      ensures r != null ==> r.Value() == Model().slots[i] && r !in jobs[..]
      ensures r != null ==> if dst == null then fresh(r) else r == dst
    {
      NormaliseFixesWellFormed(Model().slots[i]);
      r := JobCopy(dst, jobs[i], gotMemory);
      NoSlotChanged(jobs[..]);
    }

    /** jobqueue_peekhead. `gotMemory` says whether malloc succeeds when `dst` is NULL. */
    method PeekHead(dst: Job?, gotMemory: bool) returns (r: Job?)
      requires Valid() && dst !in jobs[..]
      modifies dst
      ensures Valid() && Model() == old(Model())
      ensures r == null <==> Contents() == [] || (dst == null && !gotMemory)
      ensures r != null ==> r.Value() == Contents()[0] && r !in jobs[..]
      ensures r != null ==> if dst == null then fresh(r) else r == dst
    {
      hide Distinct, Values, Ring.Contents, Ring.Window, Normalise;
      Ends(Model());
      var empty := IsEmpty();
      if empty {
        return null;
      }
      r := CopyOut(head, dst, gotMemory);
    }

    /** jobqueue_peektail. */
    method PeekTail(dst: Job?, gotMemory: bool) returns (r: Job?)
      requires Valid() && dst !in jobs[..]
      modifies dst
      ensures Valid() && Model() == old(Model())
      ensures r == null <==> Contents() == [] || (dst == null && !gotMemory)
      ensures r != null ==> r.Value() == Contents()[|Contents()| - 1] && r !in jobs[..]
      ensures r != null ==> if dst == null then fresh(r) else r == dst
    {
      hide Distinct, Values, Ring.Contents, Ring.Window, Normalise;
      Ends(Model());
      var empty := IsEmpty();
      if empty {
        return null;
      }
      var newIndex := if tail < 1 then bufSize - 1 else tail - 1;
      assert newIndex == Model().LastIndex() && Model().InWindow(newIndex);
      hide Ring.Clean;
      r := CopyOut(newIndex, dst, gotMemory);
    }

    /** Initialises the slot at the head and moves the head on, as both branches of dequeue do. */
    method DropHead()
      requires Valid() && !Model().IsEmpty()
      modifies this, jobs[..]
      ensures Valid() && Model() == Dequeued(old(Model()))
      ensures old(Contents()) != [] && Contents() == old(Contents())[1..]
    {
      hide Distinct, Values, Ring.Clean, Ring.Contents, Ring.Window, Normalise;
      ghost var before := Model();
      RingIsBoundedFifo(before, None);
      Ends(before);
      InitAt(jobs[..], head);
      head := WrappedNext(head, bufSize);
      assert Model() == Dequeued(before);
    }

    /** jobqueue_dequeue. When `dst` is NULL and malloc fails the job is lost. */
    method Dequeue(dst: Job?, gotMemory: bool) returns (r: Job?)
      requires Valid() && dst !in jobs[..]
      modifies this, jobs[..], dst
      ensures Valid() && Model() == Dequeued(old(Model()))
      ensures Contents() == if old(Contents()) == [] then [] else old(Contents())[1..]
      ensures r == null <==> old(Contents()) == [] || (dst == null && !gotMemory)
      ensures r != null ==> r.Value() == old(Contents())[0] && r !in jobs[..]
      ensures r != null ==> if dst == null then fresh(r) else r == dst
    {
      hide Distinct, Values, Ring.Clean, Ring.Contents, Ring.Window, Normalise;
      Ends(Model());
      var empty := IsEmpty();
      if empty {
        return null;
      }
      r := PeekHead(dst, gotMemory);
      DropHead();
    }

    /** The two updates of enqueue. */
    method AppendTail(job: Job)
      requires Valid() && !Model().IsFull() && job !in jobs[..]
      modifies this, jobs[..]
      ensures Valid() && Model() == Enqueued(old(Model()), Some(old(job.Value())))
      ensures job.Value() == old(job.Value()) && bufSize == old(bufSize)
    {
      hide Distinct, Values, Ring.Clean, Ring.Contents, Ring.Window, Normalise;
      ghost var before := Model();
      RingIsBoundedFifo(before, Some(job.Value()));
      Ends(before);
      CopyInto(jobs[..], tail, job);
      tail := WrappedNext(tail, bufSize);
      assert Model() == Enqueued(before, Some(job.Value()));
    }

    /** jobqueue_enqueue. */
    method Enqueue(job: Job?)
      requires Valid() && job !in jobs[..]
      modifies this, jobs[..]
      ensures Valid()
      ensures Model() == Enqueued(old(Model()), if job == null then None else Some(old(job.Value())))
      ensures Contents() == if job != null && |old(Contents())| < bufSize - 1
                            then old(Contents()) + [Normalise(job.Value())]
                            else old(Contents())
      ensures job != null ==> job.Value() == old(job.Value())
    {
      RingIsBoundedFifo(Model(), if job == null then None else Some(job.Value()));
      var full := IsFull();
      if job == null || full {
        return;
      }
      AppendTail(job);
    }
  }

  /** jobqueue_new. */
  method NewJobQueue(junk: JobValue, gotMemory: bool) returns (jq: JobQueue?)
    ensures jq == null <==> !gotMemory
    ensures jq != null ==> fresh(jq) && fresh(jq.jobs) && fresh(jq.jobs[..])
    ensures jq != null ==> jq.Valid() && jq.Contents() == [] && jq.bufSize == 128
  {
    jq := null;
    if gotMemory {
      jq := new JobQueue(QUEUE_SIZE, junk);
      jq.Init();
    }
  }
}
