/** What every step of every schedule keeps: mutual exclusion, token conservation, exact
    occupancy, FIFO order, and the buffer's shape at every point inside a body. */
module SemInvariant {
  import opened Wrappers
  import opened Jobs
  import opened Rings
  import opened Calls
  import opened SemMachine

  /** Quantities summed over all processes. */
  datatype Gauge =
    | Holding   // is between its wait and its post on the mutex
    | InFlight  // has a token whose opposite it has not posted
    | Owing     // has a `full` token and has not taken a job out, or has put a job in and not posted `full`
    | Work      // bounds the steps it can still take
    | Giving    // jobs it has still to put in
    | Taking    // dequeues that have still to take effect

  function Rank(g: Stage): nat {
    match g
    case Token => 8
    case Lock => 7
    case Check => 6
    case Copy => 5
    case Clear => 4
    case Advance => 3
    case Unlock => 2
    case Signal => 1
  }

  predicate Holds(p: Proc) {
    p.todo != [] && (p.stage.Check? || p.stage.Copy? || p.stage.Clear? || p.stage.Advance? || p.stage.Unlock?)
  }

  function Weigh(g: Gauge, p: Proc): nat {
    if p.todo == [] then 0 else
    var c := p.todo[0];
    match g
    case Holding => if Holds(p) then 1 else 0
    case InFlight => if TakesToken(c) && p.stage != Token then 1 else 0
    case Owing =>
      if c.Dequeue? && (p.stage.Lock? || p.stage.Check? || p.stage.Copy? || p.stage.Clear?) then 1
      else if c.Enqueue? && (p.stage.Unlock? || p.stage.Signal?) then 1
      else 0
    case Work => 8 * (|p.todo| - 1) + Rank(p.stage)
    case Giving => |ToGive(p)|
    case Taking =>
      Dequeues(p.todo) - if c.Dequeue? && (p.stage.Advance? || p.stage.Unlock? || p.stage.Signal?) then 1 else 0
  }

  /** The jobs that a list of calls puts in, as stored. */
  function Offers(todo: seq<Call>): seq<JobValue> {
    if todo == [] then []
    else (if todo[0].Enqueue? && todo[0].job.Some? then [Normalise(todo[0].job.value)] else []) + Offers(todo[1..])
  }

  function Dequeues(todo: seq<Call>): nat {
    if todo == [] then 0 else (if todo[0].Dequeue? then 1 else 0) + Dequeues(todo[1..])
  }

  /** The jobs that a process has still to put in. */
  function ToGive(p: Proc): seq<JobValue> {
    if p.todo != [] && p.todo[0].Enqueue? && (p.stage.Unlock? || p.stage.Signal?) then
      Offers(p.todo[1..])
    else
      Offers(p.todo)
  }

  function Sum(g: Gauge, ps: seq<Proc>): nat {
    if ps == [] then 0 else Weigh(g, ps[0]) + Sum(g, ps[1..])
  }

  lemma {:induction false} SumUpdate(g: Gauge, ps: seq<Proc>, i: nat, p: Proc)
    requires i < |ps|
    ensures Sum(g, ps[i := p]) == Sum(g, ps) - Weigh(g, ps[i]) + Weigh(g, p)
  {
    if i == 0 {
      assert ps[i := p][1..] == ps[1..];
    } else {
      assert ps[i := p][1..] == ps[1..][i - 1 := p];
      SumUpdate(g, ps[1..], i - 1, p);
    }
  }

  /** If two processes weigh something, the sum is at least two. */
  lemma {:induction false} SumAtLeast(g: Gauge, ps: seq<Proc>, i: nat, j: nat)
    requires i < |ps| && j < |ps|
    ensures Sum(g, ps) >= if i == j then Weigh(g, ps[i]) else Weigh(g, ps[i]) + Weigh(g, ps[j])
  {
    if i > 0 && j > 0 {
      SumAtLeast(g, ps[1..], i - 1, j - 1);
    } else if i > 0 {
      SumAtLeast(g, ps[1..], i - 1, i - 1);
    } else if j > 0 {
      SumAtLeast(g, ps[1..], j - 1, j - 1);
    }
  }

  /** Every owing process is in flight; one that is in flight and owes nothing makes the gap strict. */
  lemma {:induction false} OwingBelowInFlight(ps: seq<Proc>, i: nat)
    requires forall j | 0 <= j < |ps| :: Typed(ps[j])
    ensures Sum(Owing, ps) <= Sum(InFlight, ps)
    ensures i < |ps| && Weigh(InFlight, ps[i]) > Weigh(Owing, ps[i]) ==> Sum(Owing, ps) < Sum(InFlight, ps)
  {
    if ps != [] {
      OwingBelowInFlight(ps[1..], if i > 0 then i - 1 else |ps|);
      assert Typed(ps[0]);
    }
  }

  /** The stages that each kind of call goes through. */
  predicate Typed(p: Proc) {
    if p.todo == [] then p.stage == Token else
    match p.todo[0]
    case Enqueue(_) => p.stage != Clear && p.reply == Nothing
    case Dequeue => true
    case PeekHead => (p.stage.Lock? || p.stage.Check? || p.stage.Copy? || p.stage.Unlock?) && !p.reply.Took?
    case PeekTail => (p.stage.Lock? || p.stage.Check? || p.stage.Copy? || p.stage.Unlock?) && !p.reply.Took?
    case IsEmpty => (p.stage.Lock? || p.stage.Check? || p.stage.Unlock?) && !p.reply.Took?
    case IsFull => (p.stage.Lock? || p.stage.Check? || p.stage.Unlock?) && !p.reply.Took?
  }

  /** What the process inside the body knows about the buffer. */
  ghost predicate Knows(r: Ring, p: Proc)
    requires p.todo != []
  {
    match p.stage
    case Copy =>
      && r.Clean()
      && (if p.todo[0].Enqueue? then p.todo[0].job.Some? && !r.IsFull() else !r.IsEmpty())
    case Clear =>
      && r.Clean() && !r.IsEmpty()
      && p.reply == Took(Some(r.slots[r.head]))
    case Advance =>
      if p.todo[0].Enqueue? then
        && p.todo[0].job.Some?
        && r.Valid() && !r.IsFull()
        && r.slots[r.tail] == Normalise(p.todo[0].job.value)
        && r.Put(r.tail, ZEROED).Clean()
      else
        && r.Valid() && !r.IsEmpty()
        && r.AdvanceHead().Clean()
        && r.Contents() == r.AdvanceHead().Contents()
        && p.reply.Took? && p.reply.job.Some?
    case _ => r.Clean()
  }

  ghost predicate Shaped(s: State) {
    && s.ring.Valid()
    && (forall i | 0 <= i < |s.procs| :: Typed(s.procs[i]))
    && (s.mutex > 0 ==> s.ring.Clean())
    && (forall i | 0 <= i < |s.procs| && Holds(s.procs[i]) :: Knows(s.ring, s.procs[i]))
  }

  /** Token conservation, with the tokens abandoned by failed waits on the mutex. */
  predicate TokensConserved(s: State) {
    s.empty + s.full + Sum(InFlight, s.procs) + s.past.lostEmpty + s.past.lostFull == s.ring.Capacity()
  }

  /** Exact occupancy. A NULL job counts as an occupant until a dequeue misses because of it. */
  predicate OccupancyExact(s: State)
    requires s.ring.Valid()
  {
    |s.ring.Contents()| + s.past.nulls == s.full + Sum(Owing, s.procs) + s.past.lostFull + s.past.misses
  }

  predicate Counted(s: State)
    requires s.ring.Valid()
  {
    && s.mutex + Sum(Holding, s.procs) == 1
    && TokensConserved(s)
    && OccupancyExact(s)
    && s.past.misses <= s.past.nulls
  }

  /** Jobs come out in the order they went in, each once. */
  predicate FifoOrder(s: State)
    requires s.ring.Valid()
  {
    s.past.accepted == s.past.handed + s.ring.Contents()
  }

  ghost predicate Inv(s: State) {
    Shaped(s) && Counted(s) && FifoOrder(s)
  }

  lemma {:induction false} HolderIsAlone(s: State, i: nat, j: nat)
    requires s.ring.Valid() && Counted(s)
    requires i < |s.procs| && Holds(s.procs[i]) && j < |s.procs|
    ensures s.mutex == 0
    ensures j != i ==> !Holds(s.procs[j])
  {
    SumAtLeast(Holding, s.procs, i, j);
    SumAtLeast(Holding, s.procs, i, i);
  }

  lemma {:induction false} SumOfStart(g: Gauge, programs: seq<seq<Call>>)
    requires g in {Holding, InFlight, Owing}
    ensures Sum(g, Start(programs)) == 0
  {
    if programs != [] {
      SumOfStart(g, programs[1..]);
      assert Start(programs)[1..] == Start(programs[1..]);
    }
  }

  lemma {:induction false} InitHolds(n: nat, programs: seq<seq<Call>>)
    requires n >= 2
    ensures Inv(Init(n, programs))
  {
    EmptyRingIsClean(n);
    SumOfStart(Holding, programs);
    SumOfStart(InFlight, programs);
    SumOfStart(Owing, programs);
  }

  /** The effect on the three sums of replacing one process. */
  lemma {:induction false} SumsAfter(s: State, i: nat, p: Proc)
    requires i < |s.procs|
    ensures Sum(Holding, s.procs[i := p]) == Sum(Holding, s.procs) - Weigh(Holding, s.procs[i]) + Weigh(Holding, p)
    ensures Sum(InFlight, s.procs[i := p]) == Sum(InFlight, s.procs) - Weigh(InFlight, s.procs[i]) + Weigh(InFlight, p)
    ensures Sum(Owing, s.procs[i := p]) == Sum(Owing, s.procs) - Weigh(Owing, s.procs[i]) + Weigh(Owing, p)
  {
    SumUpdate(Holding, s.procs, i, p);
    SumUpdate(InFlight, s.procs, i, p);
    SumUpdate(Owing, s.procs, i, p);
  }

  /** A step that replaces one process keeps the shape if the buffer is unchanged or nobody
      else is inside the body, and the process that moved knows what it must. */
  lemma {:induction false} ShapedAfter(s: State, s': State, i: nat)
    requires Inv(s) && i < |s.procs| && |s'.procs| == |s.procs|
    requires s'.procs == s.procs[i := s'.procs[i]]
    requires s'.ring == s.ring || Holds(s.procs[i])
    requires s'.ring.Valid() && Typed(s'.procs[i])
    requires s'.mutex > 0 ==> s'.ring.Clean()
    requires Holds(s'.procs[i]) ==> Knows(s'.ring, s'.procs[i])
    ensures Shaped(s')
  {
    hide Ring.Clean, Ring.Contents, Ring.Window, Sum;
    forall j | 0 <= j < |s'.procs| && Holds(s'.procs[j]) ensures Knows(s'.ring, s'.procs[j]) {
      if j != i && Holds(s.procs[i]) {
        HolderIsAlone(s, i, j);
      }
    }
  }

  lemma {:induction false} FailStep(s: State, i: nat)
    requires Inv(s) && Running(s, i) && (s.procs[i].stage.Token? || s.procs[i].stage.Lock?)
    ensures Inv(WaitFails(s, i))
  {
    hide Ring.Clean, Ring.Contents, Ring.Window, Sum;
    var s' := WaitFails(s, i);
    SumsAfter(s, i, s'.procs[i]);
    ShapedAfter(s, s', i);
  }

  lemma {:induction false} TokenStep(s: State, i: nat)
    requires Inv(s) && Enabled(s, Turn(i, false)) && s.procs[i].stage == Token
    ensures Inv(TakeToken(s, i))
  {
    hide Ring.Clean, Ring.Contents, Ring.Window, Sum;
    var s' := TakeToken(s, i);
    SumsAfter(s, i, s'.procs[i]);
    ShapedAfter(s, s', i);
  }

  lemma {:induction false} LockStep(s: State, i: nat)
    requires Inv(s) && Enabled(s, Turn(i, false)) && s.procs[i].stage == Lock
    ensures Inv(TakeLock(s, i))
  {
    hide Ring.Clean, Ring.Contents, Ring.Window, Sum;
    var s' := TakeLock(s, i);
    SumsAfter(s, i, s'.procs[i]);
    ShapedAfter(s, s', i);
  }

  lemma {:induction false} UnlockStep(s: State, i: nat)
    requires Inv(s) && Running(s, i) && s.procs[i].stage == Unlock
    ensures Inv(PostMutex(s, i))
  {
    hide Ring.Clean, Ring.Contents, Ring.Window, Sum;
    var s' := PostMutex(s, i);
    HolderIsAlone(s, i, i);
    SumsAfter(s, i, s'.procs[i]);
    ShapedAfter(s, s', i);
  }

  lemma {:induction false} SignalStep(s: State, i: nat)
    requires Inv(s) && Running(s, i) && s.procs[i].stage == Signal
    ensures Inv(PostToken(s, i))
  {
    hide Ring.Clean, Ring.Contents, Ring.Window, Sum;
    var s' := PostToken(s, i);
    SumsAfter(s, i, s'.procs[i]);
    ShapedAfter(s, s', i);
  }

  /** A call that has its token and has not acted yet finds room, or something to take: the
      jobs and outstanding NULL jobs leave a place for it, abandoned tokens apart. */
  lemma {:induction false} TokenMeansRoom(s: State, i: nat)
    requires Inv(s) && Running(s, i)
    ensures s.procs[i].todo[0].Enqueue? && !s.procs[i].stage.Token? && Weigh(Owing, s.procs[i]) == 0 ==>
              |s.ring.Contents()| + s.past.nulls - s.past.misses + s.past.lostEmpty < s.ring.Capacity()
    ensures s.procs[i].todo[0].Dequeue? && Weigh(Owing, s.procs[i]) == 1 ==>
              |s.ring.Contents()| + s.past.nulls - s.past.misses > s.past.lostFull
  {
    hide Ring.Clean, Ring.Contents, Ring.Window, Sum;
    OwingBelowInFlight(s.procs, i);
    SumAtLeast(Owing, s.procs, i, i);
  }

  /** The silent-drop branch is never taken, and a dequeue finds the queue empty only when a
      NULL job's token is still outstanding. */
  lemma {:induction false} BodyFindsRoomAndJobs(s: State, i: nat)
    requires Inv(s) && Running(s, i) && s.procs[i].stage == Check
    ensures s.procs[i].todo[0].Enqueue? ==> !s.ring.IsFull()
    ensures s.procs[i].todo[0].Dequeue? && s.ring.IsEmpty() ==> s.past.misses < s.past.nulls
  {
    hide Ring.Clean, Ring.Contents, Ring.Window, Sum, Normalise;
    TokenMeansRoom(s, i);
    assert Knows(s.ring, s.procs[i]);
    Ends(s.ring);
  }

  lemma {:induction false} CheckStep(s: State, i: nat)
    requires Inv(s) && Running(s, i) && s.procs[i].stage == Check
    ensures Inv(CheckQueue(s, i))
  {
    hide Ring.Clean, Ring.Contents, Ring.Window, Sum;
    var s' := CheckQueue(s, i);
    BodyFindsRoomAndJobs(s, i);
    HolderIsAlone(s, i, i);
    SumsAfter(s, i, s'.procs[i]);
    ShapedAfter(s, s', i);
  }

  lemma {:induction false} CopyStep(s: State, i: nat)
    requires Inv(s) && Running(s, i) && s.procs[i].stage == Copy
    ensures Inv(CopyJob(s, i))
    ensures CopyJob(s, i).ring.Contents() == s.ring.Contents()
  {
    hide Ring.Clean, Ring.Contents, Ring.Window, Sum;
    var p := s.procs[i];
    var s' := CopyJob(s, i);
    HolderIsAlone(s, i, i);
    SumsAfter(s, i, s'.procs[i]);
    if p.todo[0].Enqueue? {
      PutAtTail(s.ring, Normalise(p.todo[0].job.value));
    } else if p.todo[0].Dequeue? {
      Ends(s.ring);
    }
    ShapedAfter(s, s', i);
  }

  lemma {:induction false} ClearStep(s: State, i: nat)
    requires Inv(s) && Running(s, i) && s.procs[i].stage == Clear
    ensures Inv(ClearSlot(s, i))
    ensures s.procs[i].reply.Took? && s.procs[i].reply.job.Some?
    ensures s.ring.Contents() == [s.procs[i].reply.job.value] + ClearSlot(s, i).ring.Contents()
  {
    hide Ring.Clean, Ring.Contents, Ring.Window, Sum;
    var s' := ClearSlot(s, i);
    assert Knows(s.ring, s.procs[i]);
    HolderIsAlone(s, i, i);
    SumsAfter(s, i, s'.procs[i]);
    ClearAtHead(s.ring);
    ShapedAfter(s, s', i);
    assert s'.past.handed + s'.ring.Contents() == s.past.handed + s.ring.Contents();
  }

  lemma {:induction false} AdvanceStep(s: State, i: nat)
    requires Inv(s) && Running(s, i) && s.procs[i].stage == Advance
    ensures Inv(AdvanceEnd(s, i))
    ensures var c := s.procs[i].todo[0];
            if c.Enqueue? then
              c.job.Some? && AdvanceEnd(s, i).ring.Contents() == s.ring.Contents() + [Normalise(c.job.value)]
            else
              AdvanceEnd(s, i).ring.Contents() == s.ring.Contents()
  {
    hide Ring.Clean, Ring.Contents, Ring.Window, Sum;
    var p := s.procs[i];
    var s' := AdvanceEnd(s, i);
    assert Knows(s.ring, p);
    HolderIsAlone(s, i, i);
    SumsAfter(s, i, s'.procs[i]);
    if p.todo[0].Enqueue? {
      NormaliseFixesWellFormed(p.todo[0].job.value);
      AdvanceTailAppends(s.ring);
      assert s'.past.accepted == s.past.handed + s'.ring.Contents();
    }
    ShapedAfter(s, s', i);
  }

  lemma {:induction false} StepKeepsInv(s: State, t: Turn)
    requires Inv(s) && Enabled(s, t)
    ensures Inv(Step(s, t))
  {
    if t.fails {
      FailStep(s, t.id);
    } else {
      match s.procs[t.id].stage
      case Token => TokenStep(s, t.id);
      case Lock => LockStep(s, t.id);
      case Check => CheckStep(s, t.id);
      case Copy => CopyStep(s, t.id);
      case Clear => ClearStep(s, t.id);
      case Advance => AdvanceStep(s, t.id);
      case Unlock => UnlockStep(s, t.id);
      case Signal => SignalStep(s, t.id);
    }
  }

  lemma {:induction false} RunKeepsInv(s: State, turns: seq<Turn>)
    requires Inv(s) && Possible(s, turns)
    ensures Inv(Run(s, turns))
    decreases |turns|
  {
    if turns != [] {
      StepKeepsInv(s, turns[0]);
      RunKeepsInv(Step(s, turns[0]), turns[1..]);
    }
  }
}
