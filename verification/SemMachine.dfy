/** The semaphore-guarded queue of sem_jobqueue.c as a transition system: any number of
    processes, each running its own list of calls, interleaved one small step at a time.
    A `sem_wait` that fails is part of every schedule's choice. */
module SemMachine {
  import opened Wrappers
  import opened Jobs
  import opened Rings
  import opened Calls

  /** Where a process is inside the call `todo[0]`: waiting for its token (`empty` for enqueue,
      `full` for dequeue), waiting for the mutex, in the body, posting the mutex, posting the
      opposite semaphore. */
  datatype Stage = Token | Lock | Check | Copy | Clear | Advance | Unlock | Signal

  datatype Proc = Proc(todo: seq<Call>, stage: Stage, reply: Reply, log: seq<Reply>)

  /** Observations that the program does not store: jobs put in and taken out, by whom; tokens
      whose holder failed to get the mutex; NULL jobs passed; dequeues that found nothing. */
  datatype History = History(
    accepted: seq<JobValue>, givers: seq<nat>,
    handed: seq<JobValue>, takers: seq<nat>,
    lostEmpty: nat, lostFull: nat, nulls: nat, misses: nat)

  datatype State = State(mutex: nat, full: nat, empty: nat, ring: Ring, procs: seq<Proc>, past: History)

  /** One scheduling choice: which process moves, and whether its `sem_wait` fails. */
  datatype Turn = Turn(id: nat, fails: bool)

  predicate TakesToken(c: Call) {
    c.Enqueue? || c.Dequeue?
  }

  function Ready(todo: seq<Call>, log: seq<Reply>): Proc {
    Proc(todo, if todo != [] && !TakesToken(todo[0]) then Lock else Token, Nothing, log)
  }

  function Start(programs: seq<seq<Call>>): (ps: seq<Proc>)
    ensures |ps| == |programs|
    ensures forall i | 0 <= i < |ps| :: ps[i] == Ready(programs[i], [])
  {
    if programs == [] then [] else [Ready(programs[0], [])] + Start(programs[1..])
  }

  /** What `sem_jobqueue_new` sets up around an initialised queue of `n` slots. */
  function Init(n: nat, programs: seq<seq<Call>>): State
    requires n >= 2
  {
    State(1, 0, n - 1, EmptyRing(n), Start(programs), History([], [], [], [], 0, 0, 0, 0))
  }

  /** The process's return to its caller, which goes on to its next call. */
  function Return(p: Proc, reply: Reply): Proc
    requires p.todo != []
  {
    Ready(p.todo[1..], p.log + [reply])
  }

  function WhenWaitFails(c: Call): Reply {
    match c
    case Enqueue(_) => Nothing
    case Dequeue => Took(None)
    case PeekHead => Saw(None)
    case PeekTail => Saw(None)
    case IsEmpty => Flag(true)
    case IsFull => Flag(true)
  }

  predicate Running(s: State, i: nat) {
    i < |s.procs| && s.procs[i].todo != []
  }

  predicate Enabled(s: State, t: Turn) {
    && Running(s, t.id)
    && s.ring.Valid()
    && var p := s.procs[t.id];
       match p.stage
       case Token => t.fails || (if p.todo[0].Enqueue? then s.empty > 0 else s.full > 0)
       case Lock => t.fails || s.mutex > 0
       case _ => !t.fails
  }

  function With(s: State, i: nat, p: Proc): (r: State)
    requires i < |s.procs|
  {
    s.(procs := s.procs[i := p])
  }

  /** A failed `sem_wait`: the call returns. A token already taken is not given back. */
  function WaitFails(s: State, i: nat): State
    requires Running(s, i)
  {
    var p := s.procs[i];
    var s' := With(s, i, Return(p, WhenWaitFails(p.todo[0])));
    if p.stage.Lock? && p.todo[0].Enqueue? then
      s'.(past := s.past.(lostEmpty := s.past.lostEmpty + 1))
    else if p.stage.Lock? && p.todo[0].Dequeue? then
      s'.(past := s.past.(lostFull := s.past.lostFull + 1))
    else
      s'
  }

  function TakeToken(s: State, i: nat): State
    requires Running(s, i)
    requires if s.procs[i].todo[0].Enqueue? then s.empty > 0 else s.full > 0
  {
    var p := s.procs[i];
    var s' := With(s, i, p.(stage := Lock));
    if p.todo[0].Enqueue? then s'.(empty := s.empty - 1) else s'.(full := s.full - 1)
  }

  function TakeLock(s: State, i: nat): State
    requires Running(s, i) && s.mutex > 0
  {
    With(s, i, s.procs[i].(stage := Check)).(mutex := s.mutex - 1)
  }

  /** The first test of each queue function. */
  function CheckQueue(s: State, i: nat): State
    requires Running(s, i) && s.ring.Valid()
  {
    var p := s.procs[i];
    match p.todo[0]
    case Enqueue(None) =>
      With(s, i, p.(stage := Unlock)).(past := s.past.(nulls := s.past.nulls + 1))
    case Enqueue(Some(_)) =>
      With(s, i, p.(stage := if s.ring.IsFull() then Unlock else Copy))
    case Dequeue =>
      if s.ring.IsEmpty() then
        With(s, i, p.(stage := Unlock, reply := Took(None))).(past := s.past.(misses := s.past.misses + 1))
      else
        With(s, i, p.(stage := Copy))
    case PeekHead =>
      With(s, i, if s.ring.IsEmpty() then p.(stage := Unlock, reply := Saw(None)) else p.(stage := Copy))
    case PeekTail =>
      With(s, i, if s.ring.IsEmpty() then p.(stage := Unlock, reply := Saw(None)) else p.(stage := Copy))
    case IsEmpty =>
      With(s, i, p.(stage := Unlock, reply := Flag(s.ring.IsEmpty())))
    case IsFull =>
      With(s, i, p.(stage := Unlock, reply := Flag(s.ring.IsFull())))
  }

  /** The copy of a job into or out of its slot. */
  function CopyJob(s: State, i: nat): State
    requires Running(s, i) && s.ring.Valid()
  {
    var p := s.procs[i];
    match p.todo[0]
    case Enqueue(Some(v)) =>
      With(s, i, p.(stage := Advance)).(ring := s.ring.Put(s.ring.tail, Normalise(v)))
    case Dequeue =>
      With(s, i, p.(stage := Clear, reply := Took(Some(Normalise(s.ring.slots[s.ring.head])))))
    case PeekHead =>
      With(s, i, p.(stage := Unlock, reply := Saw(Some(Normalise(s.ring.slots[s.ring.head])))))
    case PeekTail =>
      With(s, i, p.(stage := Unlock, reply := Saw(Some(Normalise(s.ring.slots[s.ring.LastIndex()])))))
    case _ => s
  }

  /** Dequeue initialises the slot it copied. From here on the job is out of the queue. */
  function ClearSlot(s: State, i: nat): State
    requires Running(s, i) && s.ring.Valid()
  {
    var p := s.procs[i];
    if p.reply.Took? && p.reply.job.Some? then
      With(s, i, p.(stage := Advance)).(
        ring := s.ring.Put(s.ring.head, ZEROED),
        past := s.past.(handed := s.past.handed + [p.reply.job.value], takers := s.past.takers + [i]))
    else
      s
  }

  /** Moving the head or the tail. From here on an enqueued job is in the queue. */
  function AdvanceEnd(s: State, i: nat): State
    requires Running(s, i) && s.ring.Valid()
  {
    var p := s.procs[i];
    var s' := With(s, i, p.(stage := Unlock));
    match p.todo[0]
    case Enqueue(Some(v)) =>
      s'.(ring := s.ring.AdvanceTail(),
          past := s.past.(accepted := s.past.accepted + [Normalise(v)], givers := s.past.givers + [i]))
    case Dequeue => s'.(ring := s.ring.AdvanceHead())
    case _ => s
  }

  function PostMutex(s: State, i: nat): State
    requires Running(s, i)
  {
    var p := s.procs[i];
    With(s, i, if TakesToken(p.todo[0]) then p.(stage := Signal) else Return(p, p.reply)).(mutex := s.mutex + 1)
  }

  function PostToken(s: State, i: nat): State
    requires Running(s, i)
  {
    var p := s.procs[i];
    var s' := With(s, i, Return(p, p.reply));
    if p.todo[0].Enqueue? then s'.(full := s.full + 1) else s'.(empty := s.empty + 1)
  }

  function Step(s: State, t: Turn): (r: State)
    requires Enabled(s, t)
    ensures |r.procs| == |s.procs|
    ensures r.procs == s.procs[t.id := r.procs[t.id]]
    ensures r.ring.Capacity() == s.ring.Capacity()
    ensures r.procs[t.id].todo in {s.procs[t.id].todo, s.procs[t.id].todo[1..]}
  {
    if t.fails then WaitFails(s, t.id) else
    match s.procs[t.id].stage
    case Token => TakeToken(s, t.id)
    case Lock => TakeLock(s, t.id)
    case Check => CheckQueue(s, t.id)
    case Copy => CopyJob(s, t.id)
    case Clear => ClearSlot(s, t.id)
    case Advance => AdvanceEnd(s, t.id)
    case Unlock => PostMutex(s, t.id)
    case Signal => PostToken(s, t.id)
  }

  /** A schedule that can be followed from `s`, and the state it leads to. */
  predicate Possible(s: State, turns: seq<Turn>)
    decreases |turns|
  {
    turns == [] || (Enabled(s, turns[0]) && Possible(Step(s, turns[0]), turns[1..]))
  }

  function Run(s: State, turns: seq<Turn>): (r: State)
    requires Possible(s, turns)
    ensures |r.procs| == |s.procs|
    ensures r.ring.Capacity() == s.ring.Capacity()
    decreases |turns|
  {
    if turns == [] then s else Run(Step(s, turns[0]), turns[1..])
  }

  lemma {:induction false} RunAppend(s: State, a: seq<Turn>, b: seq<Turn>)
    requires Possible(s, a)
    ensures Possible(s, a + b) <==> Possible(Run(s, a), b)
    ensures Possible(s, a + b) ==> Run(s, a + b) == Run(Run(s, a), b)
    decreases |a|
  {
    if a == [] {
      assert a + b == b;
    } else {
      assert (a + b)[0] == a[0] && (a + b)[1..] == a[1..] + b;
      RunAppend(Step(s, a[0]), a[1..], b);
    }
  }

  lemma {:induction false} RunAppendOne(s: State, a: seq<Turn>, t: Turn)
    requires Possible(s, a) && Enabled(Run(s, a), t)
    ensures Possible(s, a + [t]) && Run(s, a + [t]) == Step(Run(s, a), t)
  {
    RunAppend(s, a, [t]);
    assert [t][1..] == [];
  }
}
