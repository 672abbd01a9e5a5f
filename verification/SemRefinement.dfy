/** Every interleaving of the small steps refines an atomic, blocking, bounded FIFO queue. */
module SemRefinement {
  import opened Wrappers
  import opened Jobs
  import opened Rings
  import opened Calls
  import opened SemMachine
  import opened SemInvariant
  import opened SemSafety

  /** A process as the atomic queue sees it: its call has taken effect with a reply, or not yet. */
  datatype Caller = Caller(todo: seq<Call>, done: Option<Reply>, log: seq<Reply>)

  /** The atomic queue. A NULL job passed to it takes up a place, as a phantom, until a dequeue
      meets it; abandoned tokens shrink the room at either end. */
  datatype Fifo = Fifo(
    capacity: int, queue: seq<JobValue>, phantoms: int,
    lostEmpty: nat, lostFull: nat, callers: seq<Caller>)
  {
    predicate HasRoom() {
      |queue| + phantoms + lostEmpty < capacity
    }

    predicate HasItem() {
      |queue| + phantoms > lostFull
    }
  }

  /** A call takes effect at once; it returns; or it gives up because a wait failed, possibly
      abandoning the token it had. */
  datatype Action = Commit(id: nat) | Respond(id: nat) | GiveUp(id: nat, abandons: bool)

  predicate CanAct(q: Fifo, a: Action) {
    && a.id < |q.callers|
    && var c := q.callers[a.id];
       && c.todo != []
       && match a
          case Commit(_) => c.done.None? && !Blocked(q, c.todo[0])
          case Respond(_) => c.done.Some?
          case GiveUp(_, abandons) => c.done.None? && (abandons ==> TakesToken(c.todo[0]) && !Blocked(q, c.todo[0]))
  }

  predicate Blocked(q: Fifo, c: Call) {
    match c
    case Enqueue(_) => !q.HasRoom()
    case Dequeue => !q.HasItem()
    case _ => false
  }

  function Effect(q: Fifo, c: Call): Fifo {
    match c
    case Enqueue(None) => q.(phantoms := q.phantoms + 1)
    case Enqueue(Some(v)) => q.(queue := q.queue + [Normalise(v)])
    case Dequeue => if q.queue == [] then q.(phantoms := q.phantoms - 1) else q.(queue := q.queue[1..])
    case _ => q
  }

  function Act(q: Fifo, a: Action): Fifo
    requires CanAct(q, a)
  {
    var c := q.callers[a.id];
    match a
    case Commit(i) =>
      Effect(q, c.todo[0]).(callers := q.callers[i := c.(done := Some(Answer(q.queue, q.capacity, c.todo[0])))])
    case Respond(i) =>
      q.(callers := q.callers[i := Caller(c.todo[1..], None, c.log + [c.done.value])])
    case GiveUp(i, abandons) =>
      q.(callers := q.callers[i := Caller(c.todo[1..], None, c.log + [WhenWaitFails(c.todo[0])])],
         lostEmpty := if abandons && c.todo[0].Enqueue? then q.lostEmpty + 1 else q.lostEmpty,
         lostFull := if abandons && c.todo[0].Dequeue? then q.lostFull + 1 else q.lostFull)
  }

  predicate CanActAll(q: Fifo, acts: seq<Action>)
    decreases |acts|
  {
    acts == [] || (CanAct(q, acts[0]) && CanActAll(Act(q, acts[0]), acts[1..]))
  }

  function ActAll(q: Fifo, acts: seq<Action>): Fifo
    requires CanActAll(q, acts)
    decreases |acts|
  {
    if acts == [] then q else ActAll(Act(q, acts[0]), acts[1..])
  }

  predicate Bounded(q: Fifo) {
    && q.phantoms >= 0
    && |q.queue| + q.phantoms + q.lostEmpty <= q.capacity
    && q.lostFull <= |q.queue| + q.phantoms
  }

  /** The atomic queue on its own: whatever is done with it, it never outgrows its capacity, less
      the places it has lost, nor loses more tokens than it has items. */
  lemma {:induction false} AtomicQueueIsBounded(q: Fifo, acts: seq<Action>)
    requires Bounded(q) && CanActAll(q, acts)
    ensures Bounded(ActAll(q, acts)) && ActAll(q, acts).capacity == q.capacity
    decreases |acts|
  {
    if acts != [] {
      hide Normalise;
      AtomicQueueIsBounded(Act(q, acts[0]), acts[1..]);
    }
  }

  /** When a call has taken effect: an enqueue once the tail has moved, a dequeue once its slot
      has been cleared, the others once they have read. */
  function Committed(p: Proc): Option<Reply> {
    if p.todo == [] then None else
    match p.todo[0]
    case Enqueue(_) => if p.stage.Unlock? || p.stage.Signal? then Some(p.reply) else None
    case Dequeue => if p.stage.Advance? || p.stage.Unlock? || p.stage.Signal? then Some(p.reply) else None
    case _ => if p.stage.Unlock? then Some(p.reply) else None
  }

  function AsCaller(p: Proc): Caller {
    Caller(p.todo, Committed(p), p.log)
  }

  function AsCallers(ps: seq<Proc>): (cs: seq<Caller>)
    ensures |cs| == |ps|
    ensures forall i | 0 <= i < |ps| :: cs[i] == AsCaller(ps[i])
  {
    if ps == [] then [] else [AsCaller(ps[0])] + AsCallers(ps[1..])
  }

  function Abs(s: State): Fifo
    requires s.ring.Valid()
  {
    Fifo(s.ring.Capacity(), s.ring.Contents(), s.past.nulls - s.past.misses,
         s.past.lostEmpty, s.past.lostFull, AsCallers(s.procs))
  }

  /** The atomic action that a small step amounts to, if any. */
  function ActionOf(s: State, t: Turn): Option<Action>
    requires Enabled(s, t)
  {
    var p := s.procs[t.id];
    var c := p.todo[0];
    if t.fails then Some(GiveUp(t.id, p.stage.Lock? && TakesToken(c))) else
    match p.stage
    case Token => None
    case Lock => None
    case Check =>
      if c.IsEmpty? || c.IsFull? || c == Enqueue(None) || (!c.Enqueue? && s.ring.IsEmpty()) then
        Some(Commit(t.id))
      else
        None
    case Copy => if c.PeekHead? || c.PeekTail? then Some(Commit(t.id)) else None
    case Clear => Some(Commit(t.id))
    case Advance => if c.Enqueue? then Some(Commit(t.id)) else None
    case Unlock => if TakesToken(c) then None else Some(Respond(t.id))
    case Signal => Some(Respond(t.id))
  }

  ghost predicate Refines(s: State, t: Turn)
    requires Enabled(s, t) && Step(s, t).ring.Valid()
  {
    match ActionOf(s, t)
    case None => Abs(Step(s, t)) == Abs(s)
    case Some(a) => CanAct(Abs(s), a) && Abs(Step(s, t)) == Act(Abs(s), a)
  }

  lemma {:induction false} CallersAfter(s: State, t: Turn)
    requires Enabled(s, t)
    ensures AsCallers(Step(s, t).procs) == AsCallers(s.procs)[t.id := AsCaller(Step(s, t).procs[t.id])]
  {
  }

  lemma {:induction false} OutsideRefines(s: State, t: Turn)
    requires Inv(s) && Enabled(s, t)
    requires t.fails || var g := s.procs[t.id].stage; g.Token? || g.Lock? || g.Unlock? || g.Signal?
    ensures Step(s, t).ring.Valid() && Refines(s, t)
  {
    hide Ring.Clean, Ring.Contents, Ring.Window, Sum, AsCallers;
    CallersAfter(s, t);
    TokenMeansRoom(s, t.id);
    assert Typed(s.procs[t.id]);
    assert AsCallers(s.procs)[t.id] == AsCaller(s.procs[t.id]);
    if ActionOf(s, t).None? {
      assert AsCaller(Step(s, t).procs[t.id]) == AsCaller(s.procs[t.id]);
    }
  }

  lemma {:induction false} CheckRefines(s: State, t: Turn)
    requires Inv(s) && Enabled(s, t) && s.procs[t.id].stage == Check
    ensures Step(s, t).ring.Valid() && Refines(s, t)
  {
    hide Ring.Clean, Ring.Contents, Ring.Window, Sum, AsCallers;
    var p := s.procs[t.id];
    CallersAfter(s, t);
    TokenMeansRoom(s, t.id);
    BodyFindsRoomAndJobs(s, t.id);
    assert Knows(s.ring, p) && Typed(p);
    Ends(s.ring);
    assert AsCallers(s.procs)[t.id] == AsCaller(p);
    if ActionOf(s, t).None? {
      assert AsCaller(Step(s, t).procs[t.id]) == AsCaller(p);
    }
  }

  lemma {:induction false} CopyRefines(s: State, t: Turn)
    requires Inv(s) && Enabled(s, t) && s.procs[t.id].stage == Copy
    ensures Step(s, t).ring.Valid() && Refines(s, t)
  {
    hide Ring.Clean, Ring.Contents, Ring.Window, Sum, AsCallers;
    var p := s.procs[t.id];
    CallersAfter(s, t);
    assert Knows(s.ring, p) && Typed(p);
    CopyStep(s, t.id);
    Ends(s.ring);
    assert AsCallers(s.procs)[t.id] == AsCaller(p);
    if ActionOf(s, t).None? {
      assert AsCaller(Step(s, t).procs[t.id]) == AsCaller(p);
    }
  }

  lemma {:induction false} ClearRefines(s: State, t: Turn)
    requires Inv(s) && Enabled(s, t) && s.procs[t.id].stage == Clear
    ensures Step(s, t).ring.Valid() && Refines(s, t)
  {
    hide Ring.Clean, Ring.Contents, Ring.Window, Sum, AsCallers;
    var p := s.procs[t.id];
    CallersAfter(s, t);
    TokenMeansRoom(s, t.id);
    assert Knows(s.ring, p) && Typed(p);
    ClearStep(s, t.id);
    Ends(s.ring);
    assert AsCallers(s.procs)[t.id] == AsCaller(p);
  }

  lemma {:induction false} AdvanceRefines(s: State, t: Turn)
    requires Inv(s) && Enabled(s, t) && s.procs[t.id].stage == Advance
    ensures Step(s, t).ring.Valid() && Refines(s, t)
  {
    hide Ring.Clean, Ring.Contents, Ring.Window, Sum, AsCallers;
    var p := s.procs[t.id];
    CallersAfter(s, t);
    TokenMeansRoom(s, t.id);
    assert Knows(s.ring, p) && Typed(p);
    AdvanceStep(s, t.id);
    assert AsCallers(s.procs)[t.id] == AsCaller(p);
    if ActionOf(s, t).None? {
      assert AsCaller(Step(s, t).procs[t.id]) == AsCaller(p);
    }
  }

  lemma {:induction false} StepRefines(s: State, t: Turn)
    requires Inv(s) && Enabled(s, t)
    ensures Step(s, t).ring.Valid() && Refines(s, t)
  {
    if t.fails {
      OutsideRefines(s, t);
    } else {
      match s.procs[t.id].stage
      case Check => CheckRefines(s, t);
      case Copy => CopyRefines(s, t);
      case Clear => ClearRefines(s, t);
      case Advance => AdvanceRefines(s, t);
      case _ => OutsideRefines(s, t);
    }
  }

  /** The atomic run behind a schedule. */
  function ActionsOf(s: State, turns: seq<Turn>): seq<Action>
    requires Possible(s, turns)
    decreases |turns|
  {
    if turns == [] then []
    else (match ActionOf(s, turns[0]) case None => [] case Some(a) => [a]) + ActionsOf(Step(s, turns[0]), turns[1..])
  }

  /** Any number of processes, any schedule, any failing waits: the queue, the replies that every
      caller gets and the abandoned tokens are those of a run of the atomic queue. */
  lemma {:induction false} RunRefines(s: State, turns: seq<Turn>)
    requires Inv(s) && Possible(s, turns)
    ensures Run(s, turns).ring.Valid()
    ensures CanActAll(Abs(s), ActionsOf(s, turns))
    ensures ActAll(Abs(s), ActionsOf(s, turns)) == Abs(Run(s, turns))
    decreases |turns|
  {
    if turns != [] {
      hide Ring.Clean, Ring.Contents, Ring.Window, Sum, AsCallers;
      StepKeepsInv(s, turns[0]);
      StepRefines(s, turns[0]);
      var rest := ActionsOf(Step(s, turns[0]), turns[1..]);
      RunRefines(Step(s, turns[0]), turns[1..]);
      match ActionOf(s, turns[0])
      case None => assert [] + rest == rest;
      case Some(a) => assert ([a] + rest)[1..] == rest;
    }
  }

  /** From a fresh queue, in the atomic queue's own terms. */
  lemma {:induction false} FreshQueueRefines(n: nat, programs: seq<seq<Call>>, turns: seq<Turn>, s: State)
    requires n >= 2 && Reached(n, programs, turns, s)
    ensures s.ring.Valid()
    ensures var q0 := Fifo(n - 1, [], 0, 0, 0, AsCallers(Start(programs)));
            var acts := ActionsOf(Init(n, programs), turns);
            CanActAll(q0, acts) && ActAll(q0, acts) == Abs(s)
    ensures forall i | 0 <= i < |s.procs| :: Abs(s).callers[i].log == s.procs[i].log
  {
    hide Ring.Clean, Ring.Contents, Ring.Window, Sum, AsCallers, Run, Possible, ActionsOf, ActAll, CanActAll;
    EmptyRingIsClean(n);
    InitHolds(n, programs);
    ReachedKeepsInv(n, programs, turns, s);
    RunRefines(Init(n, programs), turns);
  }
}
