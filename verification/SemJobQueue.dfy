/** The calls of sem_jobqueue.c as they are written, over the shared buffer in memory: each runs
    its waits, its body and its posts in order, and does exactly what the transition system's
    process does when it is scheduled alone. */
module SemJobQueues {
  import opened Wrappers
  import opened Jobs
  import opened Rings
  import opened Calls
  import opened JobQueues
  import opened SemMachine

  /** A state in which one process is about to make the call `c`. */
  predicate AboutTo(s: State, c: Call) {
    s.procs == [Ready([c], [])]
  }

  /** A schedule of that process alone, and the state it has reached. */
  ghost predicate Alone(s: State, turns: seq<Turn>, r: State) {
    Possible(s, turns) && r == Run(s, turns) && |r.procs| == 1
  }

  /** The process of `r` has returned `reply` from its one call. */
  predicate HasReturned(r: State, reply: Reply) {
    |r.procs| == 1 && r.procs[0].todo == [] && r.procs[0].log == [reply]
  }

  /** The process of `r` is inside the call `c`, at a wait that cannot proceed. */
  predicate IsBlocked(r: State, c: Call) {
    && |r.procs| == 1 && r.procs[0].todo == [c]
    && (r.procs[0].stage.Token? || r.procs[0].stage.Lock?)
    && !Enabled(r, Turn(0, false))
  }

  predicate SameShared(s: State, r: State) {
    r.mutex == s.mutex && r.full == s.full && r.empty == s.empty && r.ring == s.ring
  }

  /** The shared state once the call has its token. */
  function WithToken(s: State, c: Call): State
    requires c.Enqueue? ==> s.empty > 0
    requires c.Dequeue? ==> s.full > 0
  {
    match c
    case Enqueue(_) => s.(empty := s.empty - 1)
    case Dequeue => s.(full := s.full - 1)
    case _ => s
  }

  /** The shared state once the whole call is over. */
  function WithCall(s: State, c: Call): State
    requires s.ring.Valid()
    requires c.Enqueue? ==> s.empty > 0
    requires c.Dequeue? ==> s.full > 0
  {
    match c
    case Enqueue(job) => WithToken(s, c).(full := s.full + 1, ring := Enqueued(s.ring, job))
    case Dequeue => WithToken(s, c).(empty := s.empty + 1, ring := Dequeued(s.ring))
    case _ => s
  }

  function ReplyFrom(s: State, c: Call): Reply
    requires s.ring.Valid()
  {
    Answer(s.ring.Contents(), s.ring.Capacity(), c)
  }

  /** What a call made with nobody else running does: it gives up, blocks or completes. */
  ghost predicate CallOutcome(s: State, c: Call, tokenFails: bool, lockFails: bool, r: State) {
    s.ring.Valid() &&
    if TakesToken(c) && tokenFails then
      SameShared(s, r) && HasReturned(r, WhenWaitFails(c))
    else if (c.Enqueue? && s.empty == 0) || (c.Dequeue? && s.full == 0) then
      SameShared(s, r) && IsBlocked(r, c)
    else if lockFails then
      SameShared(WithToken(s, c), r) && HasReturned(r, WhenWaitFails(c))
    else if s.mutex == 0 then
      SameShared(WithToken(s, c), r) && IsBlocked(r, c)
    else
      SameShared(WithCall(s, c), r) && HasReturned(r, ReplyFrom(s, c))
  }

  lemma {:induction false} Go(s: State, turns: seq<Turn>, r: State, fails: bool) returns (turns': seq<Turn>, r': State)
    requires Alone(s, turns, r) && Enabled(r, Turn(0, fails))
    ensures r' == Step(r, Turn(0, fails)) && Alone(s, turns', r')
  {
    RunAppendOne(s, turns, Turn(0, fails));
    turns', r' := turns + [Turn(0, fails)], Step(r, Turn(0, fails));
  }

  /** The posts at the end of a call. */
  lemma {:induction false} AloneEnd(s: State, turns: seq<Turn>, r: State, c: Call, reply: Reply)
      returns (turns': seq<Turn>, r': State)
    requires Alone(s, turns, r) && r.ring.Valid()
    requires r.procs == [Proc([c], Unlock, reply, [])]
    ensures Alone(s, turns', r')
    ensures r'.ring == r.ring && r'.mutex == r.mutex + 1
    ensures r'.full == r.full + (if c.Enqueue? then 1 else 0)
    ensures r'.empty == r.empty + (if c.Dequeue? then 1 else 0)
    ensures HasReturned(r', reply)
  {
    hide Alone, Ring.Clean, Ring.Contents, Ring.Window;
    turns', r' := Go(s, turns, r, false);
    if TakesToken(c) {
      turns', r' := Go(s, turns', r', false);
    }
    assert [c][1..] == [] && [] + [reply] == [reply];
  }

  /** The body of each call, from the first test on. */
  lemma {:induction false} AloneEnqueueBody(s: State, turns: seq<Turn>, r: State, job: Option<JobValue>)
      returns (turns': seq<Turn>, r': State)
    requires Alone(s, turns, r) && r.ring.Valid()
    requires r.procs == [Proc([Enqueue(job)], Check, Nothing, [])]
    ensures Alone(s, turns', r')
    ensures r'.ring == Enqueued(r.ring, job) && r'.full == r.full + 1 && r'.empty == r.empty && r'.mutex == r.mutex + 1
    ensures HasReturned(r', Nothing)
  {
    hide Alone, Normalise, Ring.Clean, Ring.Contents, Ring.Window;
    turns', r' := Go(s, turns, r, false);
    if job.Some? && !r.ring.IsFull() {
      turns', r' := Go(s, turns', r', false);
      turns', r' := Go(s, turns', r', false);
    }
    turns', r' := AloneEnd(s, turns', r', Enqueue(job), Nothing);
  }

  lemma {:induction false} AloneDequeueBody(s: State, turns: seq<Turn>, r: State) returns (turns': seq<Turn>, r': State)
    requires Alone(s, turns, r) && r.ring.Clean()
    requires r.procs == [Proc([Dequeue], Check, Nothing, [])]
    ensures Alone(s, turns', r')
    ensures r'.ring == Dequeued(r.ring) && r'.full == r.full && r'.empty == r.empty + 1 && r'.mutex == r.mutex + 1
    ensures HasReturned(r', Took(First(r.ring.Contents())))
  {
    hide Alone, Normalise, Ring.Clean, Ring.Contents, Ring.Window;
    Ends(r.ring);
    turns', r' := Go(s, turns, r, false);
    if !r.ring.IsEmpty() {
      turns', r' := Go(s, turns', r', false);
      turns', r' := Go(s, turns', r', false);
      turns', r' := Go(s, turns', r', false);
    }
    turns', r' := AloneEnd(s, turns', r', Dequeue, Took(First(r.ring.Contents())));
  }

  lemma {:induction false} AloneReaderBody(s: State, turns: seq<Turn>, r: State, c: Call)
      returns (turns': seq<Turn>, r': State)
    requires Alone(s, turns, r) && r.ring.Clean() && !TakesToken(c)
    requires r.procs == [Proc([c], Check, Nothing, [])]
    ensures Alone(s, turns', r')
    ensures r'.ring == r.ring && r'.full == r.full && r'.empty == r.empty && r'.mutex == r.mutex + 1
    ensures HasReturned(r', ReplyFrom(r, c))
  {
    hide Alone, Normalise, Ring.Clean, Ring.Contents, Ring.Window;
    Ends(r.ring);
    turns', r' := Go(s, turns, r, false);
    if (c.PeekHead? || c.PeekTail?) && !r.ring.IsEmpty() {
      turns', r' := Go(s, turns', r', false);
    }
    turns', r' := AloneEnd(s, turns', r', c, ReplyFrom(r, c));
  }

  /** The wait on the mutex and what follows it. */
  lemma {:induction false} AloneFromLock(s: State, turns: seq<Turn>, r: State, c: Call, lockFails: bool)
      returns (turns': seq<Turn>, r': State)
    requires Alone(s, turns, r) && r.ring.Clean()
    requires r.procs == [Proc([c], Lock, Nothing, [])]
    ensures Alone(s, turns', r')
    ensures r.ring.Valid()
    ensures lockFails ==> SameShared(r, r') && HasReturned(r', WhenWaitFails(c))
    ensures !lockFails && r.mutex == 0 ==> SameShared(r, r') && IsBlocked(r', c)
    ensures !lockFails && r.mutex > 0 ==>
              && r'.mutex == r.mutex && HasReturned(r', ReplyFrom(r, c))
              && r'.full == r.full + (if c.Enqueue? then 1 else 0)
              && r'.empty == r.empty + (if c.Dequeue? then 1 else 0)
              && r'.ring == match c
                            case Enqueue(job) => Enqueued(r.ring, job)
                            case Dequeue => Dequeued(r.ring)
                            case _ => r.ring
  {
    hide Alone, Normalise, Ring.Clean, Ring.Contents, Ring.Window;
    Ends(r.ring);
    turns', r' := turns, r;
    if lockFails {
      assert [c][1..] == [] && [] + [WhenWaitFails(c)] == [WhenWaitFails(c)];
      turns', r' := Go(s, turns, r, true);
    } else if r.mutex > 0 {
      turns', r' := Go(s, turns, r, false);
      match c
      case Enqueue(job) => turns', r' := AloneEnqueueBody(s, turns', r', job);
      case Dequeue => turns', r' := AloneDequeueBody(s, turns', r');
      case _ => turns', r' := AloneReaderBody(s, turns', r', c);
    }
  }

  /** The wait for a token, failed or not. */
  lemma {:induction false} AloneAtToken(s: State, c: Call, fails: bool) returns (turns: seq<Turn>, r: State)
    requires AboutTo(s, c) && s.ring.Valid() && TakesToken(c)
    requires fails || (if c.Enqueue? then s.empty > 0 else s.full > 0)
    ensures Alone(s, turns, r)
    ensures fails ==> SameShared(s, r) && HasReturned(r, WhenWaitFails(c))
    ensures !fails ==> SameShared(WithToken(s, c), r) && r.procs == [Proc([c], Lock, Nothing, [])]
  {
    assert Alone(s, [], s);
    hide Alone, Ring.Clean, Ring.Contents, Ring.Window;
    assert [c][1..] == [] && [] + [WhenWaitFails(c)] == [WhenWaitFails(c)];
    turns, r := Go(s, [], s, fails);
  }

  /** The process of the transition system, scheduled alone, does what the call does. */
  lemma {:induction false} AloneCall(s: State, c: Call, tokenFails: bool, lockFails: bool)
      returns (turns: seq<Turn>, r: State)
    requires AboutTo(s, c) && s.ring.Clean()
    ensures Alone(s, turns, r) && CallOutcome(s, c, tokenFails, lockFails, r)
  {
    assert Alone(s, [], s);
    hide Alone, Step, Ring.Clean, Ring.Contents, Ring.Window, Enqueued, Dequeued, Answer;
    Ends(s.ring);
    turns, r := [], s;
    if TakesToken(c) {
      if !tokenFails && (if c.Enqueue? then s.empty == 0 else s.full == 0) {
        return;
      }
      turns, r := AloneAtToken(s, c, tokenFails);
      if tokenFails {
        return;
      }
    }
    turns, r := AloneFromLock(s, turns, r, c, lockFails);
  }

  function ValueOf(job: Job?): Option<JobValue>
    reads job
  {
    if job == null then None else Some(job.Value())
  }

  class SemJobQueue {
    var mutex: nat
    var full: nat
    var empty: nat
    const queue: JobQueue

    ghost predicate Valid()
      reads this, queue, queue.jobs, queue.jobs[..]
    {
      queue.Valid()
    }

    /** The shared state, with one process about to make the call `c`. */
    function Before(c: Call): State
      reads this, queue, queue.jobs, queue.jobs[..]
    {
      State(mutex, full, empty, queue.Model(), [Ready([c], [])], History([], [], [], [], 0, 0, 0, 0))
    }

    predicate Matches(r: State)
      reads this, queue, queue.jobs, queue.jobs[..]
    {
      r.mutex == mutex && r.full == full && r.empty == empty && r.ring == queue.Model()
    }

    /** sem_jobqueue_new, over the memory of a queue: the semaphores and the buffer start as the
        transition system does. */
    constructor (memory: JobQueue)
      requires Distinct(memory.jobs[..]) && memory.jobs.Length >= 2
      modifies memory, memory.jobs[..]
      ensures queue == memory && Valid()
      ensures forall c :: Before(c) == Init(memory.jobs.Length, [[c]])
      ensures mutex == 1 && full == 0 && empty == memory.jobs.Length - 1 && queue.Contents() == []
    {
      queue := memory;
      mutex, full, empty := 1, 0, memory.jobs.Length - 1;
      new;
      queue.Init();
      forall c ensures Before(c) == Init(memory.jobs.Length, [[c]]) {
        assert Start([[c]]) == [Ready([c], [])];
      }
    }

    /** sem_jobqueue_capacity. */
    method Capacity() returns (n: nat)
      requires Valid()
      ensures n == queue.bufSize - 1 >= |queue.Contents()|
    {
      n := queue.Capacity();
    }

    /** sem_jobqueue_enqueue. The flags say which `sem_wait` fails; `blocked` says that the call
        is left waiting, with whatever token it already has. */
    method Enqueue(job: Job?, tokenFails: bool, lockFails: bool)
      returns (blocked: bool, ghost turns: seq<Turn>, ghost r: State)
      requires Valid() && job !in queue.jobs[..]
      modifies this, queue, queue.jobs[..]
      ensures Valid()
      ensures Alone(old(Before(Call.Enqueue(ValueOf(job)))), turns, r) && Matches(r)
      ensures var c := Call.Enqueue(old(ValueOf(job)));
              CallOutcome(old(Before(Call.Enqueue(ValueOf(job)))), c, tokenFails, lockFails, r)
      ensures if blocked then IsBlocked(r, Call.Enqueue(old(ValueOf(job)))) else HasReturned(r, Nothing)
      ensures blocked <==> !tokenFails && (old(empty) == 0 || (!lockFails && old(mutex) == 0))
      ensures !tokenFails && !lockFails && old(empty) > 0 && old(mutex) > 0 ==>
                && mutex == old(mutex) && empty == old(empty) - 1 && full == old(full) + 1
                && queue.Model() == Enqueued(old(queue.Model()), old(ValueOf(job)))
      ensures tokenFails || lockFails || old(empty) == 0 || old(mutex) == 0 ==>
                && mutex == old(mutex) && full == old(full) && queue.Model() == old(queue.Model())
                && empty == if tokenFails || old(empty) == 0 then old(empty) else old(empty) - 1
    {
      hide Alone, Ring.Clean, Ring.Contents, Ring.Window, Values, Distinct, Enabled, Run, Possible;
      turns, r := AloneCall(Before(Call.Enqueue(ValueOf(job))), Call.Enqueue(ValueOf(job)), tokenFails, lockFails);
      blocked := false;
      if tokenFails {
        return;
      }
      if empty == 0 {
        blocked := true;
        return;
      }
      empty := empty - 1;
      if lockFails {
        return;
      }
      if mutex == 0 {
        blocked := true;
        return;
      }
      mutex := mutex - 1;
      queue.Enqueue(job);
      mutex := mutex + 1;
      full := full + 1;
    }

    /** sem_jobqueue_dequeue. `gotMemory` says whether malloc succeeds when `dst` is NULL; if not,
        the job is taken out all the same and NULL is returned. */
    method Dequeue(dst: Job?, tokenFails: bool, lockFails: bool, gotMemory: bool)
      returns (j: Job?, blocked: bool, ghost turns: seq<Turn>, ghost r: State)
      requires Valid() && dst !in queue.jobs[..]
      modifies this, queue, queue.jobs[..], dst
      ensures Valid()
      ensures Alone(old(Before(Call.Dequeue)), turns, r) && Matches(r)
      ensures CallOutcome(old(Before(Call.Dequeue)), Call.Dequeue, tokenFails, lockFails, r)
      ensures blocked <==> IsBlocked(r, Call.Dequeue)
      ensures blocked <==> !tokenFails && (old(full) == 0 || (!lockFails && old(mutex) == 0))
      ensures blocked || (dst == null && !gotMemory) ==> j == null
      ensures !blocked && (dst != null || gotMemory) ==> HasReturned(r, Took(ValueOf(j)))
      ensures j != null ==> if dst == null then fresh(j) else j == dst
      ensures !tokenFails && !lockFails && old(full) > 0 && old(mutex) > 0 ==>
                && mutex == old(mutex) && full == old(full) - 1 && empty == old(empty) + 1
                && queue.Model() == Dequeued(old(queue.Model()))
                && ValueOf(j) == if dst == null && !gotMemory then None else First(old(queue.Contents()))
      ensures tokenFails || lockFails || old(full) == 0 || old(mutex) == 0 ==>
                && j == null && mutex == old(mutex) && empty == old(empty) && queue.Model() == old(queue.Model())
                && full == if tokenFails || old(full) == 0 then old(full) else old(full) - 1
    {
      hide Alone, Ring.Clean, Ring.Contents, Ring.Window, Values, Distinct, Enabled, Run, Possible;
      turns, r := AloneCall(Before(Call.Dequeue), Call.Dequeue, tokenFails, lockFails);
      j, blocked := null, false;
      if tokenFails {
        return;
      }
      if full == 0 {
        blocked := true;
        return;
      }
      full := full - 1;
      if lockFails {
        return;
      }
      if mutex == 0 {
        blocked := true;
        return;
      }
      mutex := mutex - 1;
      j := queue.Dequeue(dst, gotMemory);
      mutex := mutex + 1;
      empty := empty + 1;
    }

    /** sem_jobqueue_is_empty. */
    method IsEmpty(lockFails: bool) returns (b: bool, blocked: bool, ghost turns: seq<Turn>, ghost r: State)
      requires Valid()
      modifies this`mutex
      ensures Valid() && mutex == old(mutex)
      ensures Alone(old(Before(Call.IsEmpty)), turns, r) && Matches(r)
      ensures CallOutcome(old(Before(Call.IsEmpty)), Call.IsEmpty, false, lockFails, r)
      ensures if blocked then IsBlocked(r, Call.IsEmpty) else HasReturned(r, Flag(b))
      ensures blocked <==> !lockFails && mutex == 0
      ensures !blocked ==> (b <==> lockFails || queue.Contents() == [])
    {
      hide Alone, Ring.Clean, Ring.Contents, Ring.Window, Values, Distinct, Enabled, Run, Possible;
      turns, r := AloneCall(Before(Call.IsEmpty), Call.IsEmpty, false, lockFails);
      b, blocked := true, false;
      if lockFails {
        return;
      }
      if mutex == 0 {
        blocked := true;
        return;
      }
      mutex := mutex - 1;
      b := queue.IsEmpty();
      mutex := mutex + 1;
    }

    /** sem_jobqueue_is_full. */
    method IsFull(lockFails: bool) returns (b: bool, blocked: bool, ghost turns: seq<Turn>, ghost r: State)
      requires Valid()
      modifies this`mutex
      ensures Valid() && mutex == old(mutex)
      ensures Alone(old(Before(Call.IsFull)), turns, r) && Matches(r)
      ensures CallOutcome(old(Before(Call.IsFull)), Call.IsFull, false, lockFails, r)
      ensures if blocked then IsBlocked(r, Call.IsFull) else HasReturned(r, Flag(b))
      ensures blocked <==> !lockFails && mutex == 0
      ensures !blocked ==> (b <==> lockFails || |queue.Contents()| == queue.bufSize - 1)
    {
      hide Alone, Ring.Clean, Ring.Contents, Ring.Window, Values, Distinct, Enabled, Run, Possible;
      turns, r := AloneCall(Before(Call.IsFull), Call.IsFull, false, lockFails);
      b, blocked := true, false;
      if lockFails {
        return;
      }
      if mutex == 0 {
        blocked := true;
        return;
      }
      mutex := mutex - 1;
      b := queue.IsFull();
      mutex := mutex + 1;
    }

    /** sem_jobqueue_peekhead. */
    method PeekHead(dst: Job?, lockFails: bool, gotMemory: bool)
      returns (j: Job?, blocked: bool, ghost turns: seq<Turn>, ghost r: State)
      requires Valid() && dst !in queue.jobs[..]
      modifies this`mutex, dst
      ensures Valid() && mutex == old(mutex) && queue.Model() == old(queue.Model())
      ensures Alone(old(Before(Call.PeekHead)), turns, r) && Matches(r)
      ensures CallOutcome(old(Before(Call.PeekHead)), Call.PeekHead, false, lockFails, r)
      ensures blocked <==> IsBlocked(r, Call.PeekHead)
      ensures blocked <==> !lockFails && mutex == 0
      ensures blocked || (dst == null && !gotMemory) ==> j == null
      ensures !blocked && (dst != null || gotMemory) ==> HasReturned(r, Saw(ValueOf(j)))
      ensures ValueOf(j) ==
              if lockFails || mutex == 0 || (dst == null && !gotMemory) then None else First(queue.Contents())
      ensures j != null ==> if dst == null then fresh(j) else j == dst
    {
      hide Alone, Ring.Clean, Ring.Contents, Ring.Window, Values, Distinct, Enabled, Run, Possible;
      turns, r := AloneCall(Before(Call.PeekHead), Call.PeekHead, false, lockFails);
      j, blocked := null, false;
      if lockFails {
        return;
      }
      if mutex == 0 {
        blocked := true;
        return;
      }
      mutex := mutex - 1;
      j := queue.PeekHead(dst, gotMemory);
      mutex := mutex + 1;
    }

    /** sem_jobqueue_peektail. */
    method PeekTail(dst: Job?, lockFails: bool, gotMemory: bool)
      returns (j: Job?, blocked: bool, ghost turns: seq<Turn>, ghost r: State)
      requires Valid() && dst !in queue.jobs[..]
      modifies this`mutex, dst
      ensures Valid() && mutex == old(mutex) && queue.Model() == old(queue.Model())
      ensures Alone(old(Before(Call.PeekTail)), turns, r) && Matches(r)
      ensures CallOutcome(old(Before(Call.PeekTail)), Call.PeekTail, false, lockFails, r)
      ensures blocked <==> IsBlocked(r, Call.PeekTail)
      ensures blocked <==> !lockFails && mutex == 0
      ensures blocked || (dst == null && !gotMemory) ==> j == null
      ensures !blocked && (dst != null || gotMemory) ==> HasReturned(r, Saw(ValueOf(j)))
      ensures ValueOf(j) ==
              if lockFails || mutex == 0 || (dst == null && !gotMemory) then None else Last(queue.Contents())
      ensures j != null ==> if dst == null then fresh(j) else j == dst
    {
      hide Alone, Ring.Clean, Ring.Contents, Ring.Window, Values, Distinct, Enabled, Run, Possible;
      turns, r := AloneCall(Before(Call.PeekTail), Call.PeekTail, false, lockFails);
      j, blocked := null, false;
      if lockFails {
        return;
      }
      if mutex == 0 {
        blocked := true;
        return;
      }
      mutex := mutex - 1;
      j := queue.PeekTail(dst, gotMemory);
      mutex := mutex + 1;
    }
  }
}
