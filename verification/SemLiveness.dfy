/** When the semaphore-guarded queue can stop: every schedule is finite, and exactly which
    states and which sets of programs leave calls waiting for ever. */
module SemLiveness {
  import opened Wrappers
  import opened Jobs
  import opened Rings
  import opened Sequences
  import opened Calls
  import opened SemMachine
  import opened SemInvariant
  import opened SemSafety
  import opened SemDelivery
  import opened SemRefinement

  /** Every step, failing waits included, uses up work. */
  lemma {:induction false} StepUsesWork(s: State, t: Turn)
    requires Inv(s) && Enabled(s, t)
    ensures Sum(Work, Step(s, t).procs) < Sum(Work, s.procs)
  {
    hide Ring.Clean, Ring.Contents, Ring.Window, Sum, Normalise;
    var p := s.procs[t.id];
    assert Typed(p);
    assert Holds(p) ==> Knows(s.ring, p);
    SumUpdate(Work, s.procs, t.id, Step(s, t).procs[t.id]);
  }

  lemma {:induction false} RunUsesWork(s: State, turns: seq<Turn>)
    requires Inv(s) && Possible(s, turns)
    ensures |turns| + Sum(Work, Run(s, turns).procs) <= Sum(Work, s.procs)
    decreases |turns|
  {
    if turns != [] {
      StepKeepsInv(s, turns[0]);
      StepUsesWork(s, turns[0]);
      RunUsesWork(Step(s, turns[0]), turns[1..]);
    }
  }

  function TotalCalls(programs: seq<seq<Call>>): nat {
    if programs == [] then 0 else |programs[0]| + TotalCalls(programs[1..])
  }

  lemma {:induction false} WorkOfStart(programs: seq<seq<Call>>)
    ensures Sum(Work, Start(programs)) <= 8 * TotalCalls(programs)
  {
    if programs != [] {
      assert Start(programs)[1..] == Start(programs[1..]);
      WorkOfStart(programs[1..]);
    }
  }

  /** No schedule is longer than eight steps a call. */
  lemma {:induction false} SchedulesAreFinite(n: nat, programs: seq<seq<Call>>, turns: seq<Turn>)
    requires n >= 2 && Possible(Init(n, programs), turns)
    ensures |turns| <= 8 * TotalCalls(programs)
  {
    InitHolds(n, programs);
    RunUsesWork(Init(n, programs), turns);
    WorkOfStart(programs);
  }

  /** No call can move: every one still unfinished waits on a semaphore. */
  predicate Stuck(s: State) {
    forall i: nat | i < |s.procs| :: !Enabled(s, Turn(i, false))
  }

  predicate Finished(s: State) {
    forall i: nat | i < |s.procs| :: s.procs[i].todo == []
  }

  /** Every state can be run on to a stuck one. */
  lemma {:induction false} RunsOnUntilStuck(s: State) returns (more: seq<Turn>)
    requires Inv(s)
    ensures Possible(s, more) && NoFailures(more) && Stuck(Run(s, more))
    decreases Sum(Work, s.procs)
  {
    if Stuck(s) {
      more := [];
    } else {
      var i: nat :| i < |s.procs| && Enabled(s, Turn(i, false));
      StepKeepsInv(s, Turn(i, false));
      StepUsesWork(s, Turn(i, false));
      var rest := RunsOnUntilStuck(Step(s, Turn(i, false)));
      more := [Turn(i, false)] + rest;
      assert more[1..] == rest;
    }
  }

  /** Jobs in the queue, and NULL jobs whose token is outstanding. */
  function Occupancy(s: State): int
    requires s.ring.Valid()
  {
    |s.ring.Contents()| + s.past.nulls - s.past.misses
  }

  /** Every unfinished process is waiting for its token. */
  predicate Waiting(s: State) {
    forall i: nat | i < |s.procs| && s.procs[i].todo != [] :: s.procs[i].stage == Token
  }

  lemma {:induction false} SumZero(g: Gauge, ps: seq<Proc>)
    requires forall i | 0 <= i < |ps| :: Weigh(g, ps[i]) == 0
    ensures Sum(g, ps) == 0
  {
    if ps != [] {
      SumZero(g, ps[1..]);
    }
  }

  /** With nobody in flight the semaphores say exactly how full the queue is. */
  lemma {:induction false} WaitingCounts(s: State)
    requires Inv(s) && Waiting(s)
    ensures s.mutex == 1
    ensures s.full == Occupancy(s) - s.past.lostFull
    ensures s.empty == s.ring.Capacity() - s.past.lostEmpty - Occupancy(s)
  {
    hide Ring.Clean, Ring.Contents, Ring.Window, Sum;
    forall i | 0 <= i < |s.procs|
      ensures Weigh(Holding, s.procs[i]) == 0 && Weigh(InFlight, s.procs[i]) == 0 && Weigh(Owing, s.procs[i]) == 0
    {
    }
    SumZero(Holding, s.procs);
    SumZero(InFlight, s.procs);
    SumZero(Owing, s.procs);
  }

  lemma {:induction false} StuckMeansWaiting(s: State)
    requires Inv(s) && Stuck(s)
    ensures Waiting(s)
  {
    forall i: nat | i < |s.procs| && s.procs[i].todo != [] ensures s.procs[i].stage == Token {
      assert !Enabled(s, Turn(i, false));
      if s.procs[i].stage == Lock {
        var j := SomeHolder(s.procs);
        assert Enabled(s, Turn(j, false));
      }
    }
  }

  /** The queue length at which a call blocks when nobody is in flight: abandoned `empty` tokens
      lower it for enqueue, abandoned `full` tokens raise it for dequeue. */
  predicate BlockedCall(s: State, c: Call)
    requires s.ring.Valid()
  {
    match c
    case Enqueue(_) => Occupancy(s) == s.ring.Capacity() - s.past.lostEmpty
    case Dequeue => Occupancy(s) == s.past.lostFull
    case _ => false
  }

  lemma {:induction false} BlocksExactlyWhen(s: State, i: nat)
    requires Inv(s) && Waiting(s) && Running(s, i)
    ensures !Enabled(s, Turn(i, false)) <==> BlockedCall(s, s.procs[i].todo[0])
  {
    WaitingCounts(s);
    assert Typed(s.procs[i]);
  }

  /** In every state of every run, with any number of calls in flight: a call is held up exactly at
      its token when the occupancy, the places promised to calls in flight and the abandoned tokens
      leave nothing for it, or at the mutex while somebody is in a body. Only waits can fail. */
  lemma {:induction false} HeldUpIff(s: State, i: nat)
    requires Inv(s) && Running(s, i)
    ensures !Enabled(s, Turn(i, false)) <==>
            match s.procs[i].stage
            case Token =>
              if s.procs[i].todo[0].Enqueue? then
                Occupancy(s) + s.past.lostEmpty + Sum(InFlight, s.procs) - Sum(Owing, s.procs) == s.ring.Capacity()
              else
                Occupancy(s) == Sum(Owing, s.procs) + s.past.lostFull
            case Lock => exists j :: 0 <= j < |s.procs| && Holds(s.procs[j])
            case _ => false
    ensures Enabled(s, Turn(i, true)) <==> s.procs[i].stage.Token? || s.procs[i].stage.Lock?
  {
    hide Ring.Clean, Ring.Contents, Ring.Window, Sum;
    if Sum(Holding, s.procs) > 0 {
      var j := SomeHolder(s.procs);
    }
    forall j: nat | j < |s.procs| && Holds(s.procs[j]) ensures s.mutex == 0 {
      HolderIsAlone(s, j, j);
    }
  }

  /** Deadlock, exactly: nobody is in flight and every unfinished call is at its limit. */
  lemma {:induction false} StuckIff(s: State)
    requires Inv(s)
    ensures Stuck(s) <==> Waiting(s) && forall i: nat | Running(s, i) :: BlockedCall(s, s.procs[i].todo[0])
  {
    if Stuck(s) {
      StuckMeansWaiting(s);
    }
    if Waiting(s) {
      forall i: nat | i < |s.procs| && s.procs[i].todo != []
        ensures !Enabled(s, Turn(i, false)) <==> BlockedCall(s, s.procs[i].todo[0])
      {
        BlocksExactlyWhen(s, i);
      }
      if forall i: nat | Running(s, i) :: BlockedCall(s, s.procs[i].todo[0]) {
        forall i: nat | i < |s.procs| ensures !Enabled(s, Turn(i, false)) {
          if s.procs[i].todo != [] {
            assert Running(s, i);
          }
        }
      } else {
        var i: nat :| Running(s, i) && !BlockedCall(s, s.procs[i].todo[0]);
        assert Enabled(s, Turn(i, false));
      }
    }
  }

  /** With nobody in flight, calls wait exactly when the atomic queue blocks them. */
  lemma {:induction false} WaitsLikeAtomicQueue(s: State, i: nat)
    requires Inv(s) && Waiting(s) && Running(s, i)
    ensures !Enabled(s, Turn(i, false)) <==> Blocked(Abs(s), s.procs[i].todo[0])
  {
    hide Ring.Clean, Ring.Contents, Ring.Window, Sum;
    WaitingCounts(s);
    assert Typed(s.procs[i]);
  }

  /** As long as fewer tokens are abandoned than the queue has places, enqueuers and dequeuers
      never wait for each other. */
  lemma {:induction false} OneKindWaits(s: State, i: nat, j: nat)
    requires Inv(s) && Stuck(s) && Running(s, i) && Running(s, j)
    requires s.past.lostEmpty + s.past.lostFull < s.ring.Capacity()
    ensures TakesToken(s.procs[i].todo[0])
    ensures s.procs[i].todo[0].Enqueue? <==> s.procs[j].todo[0].Enqueue?
    ensures s.past.lostEmpty == s.past.lostFull == 0 && s.past.nulls == s.past.misses ==>
              |s.ring.Contents()| == if s.procs[i].todo[0].Enqueue? then s.ring.Capacity() else 0
  {
    StuckIff(s);
  }

  /** What one failed wait on the mutex costs: with a single place, a producer whose first enqueue
      failed there waits for ever on an empty queue. */
  lemma {:induction false} FailedWaitCanBlockForEver(v: JobValue)
    ensures var s0 := Init(2, [[Enqueue(Some(v)), Enqueue(Some(v))]]);
            var turns := [Turn(0, false), Turn(0, true)];
            && Possible(s0, turns)
            && var s := Run(s0, turns);
               && s.ring == EmptyRing(2) && s.empty + s.full + Sum(InFlight, s.procs) == 0
               && Stuck(s) && !Finished(s)
  {
  }

  /** The books of a run in which no wait fails. */
  lemma {:induction false} StepBalances(s: State, t: Turn)
    requires Inv(s) && Enabled(s, t) && !t.fails
    ensures var s' := Step(s, t);
            && |s'.past.accepted| + Sum(Giving, s'.procs) == |s.past.accepted| + Sum(Giving, s.procs)
            && |s'.past.handed| + s'.past.misses + Sum(Taking, s'.procs)
            == |s.past.handed| + s.past.misses + Sum(Taking, s.procs)
            && s'.past.lostEmpty == s.past.lostEmpty && s'.past.lostFull == s.past.lostFull
  {
    var s' := Step(s, t);
    MoverTakes(s, t);
    hide Ring.Clean, Ring.Contents, Ring.Window, Sum, Normalise, ToGive;
    MoverGives(s, t);
    StepRecords(s, t);
    SumUpdate(Giving, s.procs, t.id, s'.procs[t.id]);
    SumUpdate(Taking, s.procs, t.id, s'.procs[t.id]);
    FinishedGivesNothing(s.procs[t.id]);
    FinishedGivesNothing(s'.procs[t.id]);
  }

  lemma {:induction false} FinishedGivesNothing(p: Proc)
    ensures Weigh(Giving, p) == |ToGive(p)|
  {
  }

  lemma {:induction false} MoverTakes(s: State, t: Turn)
    requires Inv(s) && Enabled(s, t) && !t.fails
    ensures Weigh(Taking, s.procs[t.id])
         == |Takes(s, t)| + (Step(s, t).past.misses - s.past.misses) + Weigh(Taking, Step(s, t).procs[t.id])
    ensures Step(s, t).past.lostEmpty == s.past.lostEmpty && Step(s, t).past.lostFull == s.past.lostFull
  {
    hide Ring.Clean, Ring.Contents, Ring.Window, Sum, Normalise, Dequeues, ToGive;
    var p := s.procs[t.id];
    assert Typed(p);
    assert Holds(p) ==> Knows(s.ring, p);
    DequeuesFirst(p.todo);
  }

  lemma {:induction false} DequeuesFirst(todo: seq<Call>)
    requires todo != []
    ensures Dequeues(todo) == (if todo[0].Dequeue? then 1 else 0) + Dequeues(todo[1..])
    ensures |todo| == 1 ==> Dequeues(todo[1..]) == 0
  {
  }

  lemma {:induction false} RunBalances(s: State, turns: seq<Turn>)
    requires Inv(s) && Possible(s, turns) && NoFailures(turns)
    ensures var r := Run(s, turns);
            && |r.past.accepted| + Sum(Giving, r.procs) == |s.past.accepted| + Sum(Giving, s.procs)
            && |r.past.handed| + r.past.misses + Sum(Taking, r.procs)
            == |s.past.handed| + s.past.misses + Sum(Taking, s.procs)
            && r.past.lostEmpty == s.past.lostEmpty && r.past.lostFull == s.past.lostFull
    decreases |turns|
  {
    if turns != [] {
      hide Ring.Clean, Ring.Contents, Ring.Window, Sum;
      StepKeepsInv(s, turns[0]);
      StepBalances(s, turns[0]);
      RunBalances(Step(s, turns[0]), turns[1..]);
    }
  }

  /** A pure producer or a pure consumer of real jobs, which may also peek and test. */
  predicate Pure(todo: seq<Call>) {
    NullFree(todo) && ((forall c | c in todo :: !c.Dequeue?) || (forall c | c in todo :: !c.Enqueue?))
  }

  predicate AllPure(s: State) {
    forall i | 0 <= i < |s.procs| :: Pure(s.procs[i].todo)
  }

  lemma {:induction false} RunKeepsPure(s: State, turns: seq<Turn>)
    requires Inv(s) && Possible(s, turns) && AllPure(s)
    ensures AllPure(Run(s, turns))
    decreases |turns|
  {
    if turns != [] {
      StepKeepsInv(s, turns[0]);
      var s' := Step(s, turns[0]);
      forall i | 0 <= i < |s'.procs| ensures Pure(s'.procs[i].todo) {
        assert Pure(s.procs[i].todo);
        assert i != turns[0].id ==> s'.procs[i] == s.procs[i];
      }
      RunKeepsPure(s', turns[1..]);
    }
  }

  /** How many jobs all programs put in, and how many dequeues they make. */
  function TotalOffers(programs: seq<seq<Call>>): nat {
    if programs == [] then 0 else |Offers(programs[0])| + TotalOffers(programs[1..])
  }

  function TotalDequeues(programs: seq<seq<Call>>): nat {
    if programs == [] then 0 else Dequeues(programs[0]) + TotalDequeues(programs[1..])
  }

  lemma {:induction false} TotalsOfStart(programs: seq<seq<Call>>)
    ensures Sum(Giving, Start(programs)) == TotalOffers(programs)
    ensures Sum(Taking, Start(programs)) == TotalDequeues(programs)
  {
    if programs != [] {
      assert Start(programs)[1..] == Start(programs[1..]);
      TotalsOfStart(programs[1..]);
    }
  }

  lemma {:induction false} NoneOfferedNoneTaken(todo: seq<Call>)
    ensures (forall c | c in todo :: !c.Enqueue?) ==> Offers(todo) == []
    ensures (forall c | c in todo :: !c.Dequeue?) ==> Dequeues(todo) == 0
    ensures todo != [] && todo[0].Enqueue? && NullFree(todo) ==> |Offers(todo)| > 0
    ensures todo != [] && todo[0].Dequeue? ==> Dequeues(todo) > 0
  {
    if todo != [] {
      NoneOfferedNoneTaken(todo[1..]);
      assert todo[0] in todo;
    }
  }

  /** If some process is stuck at an enqueue, all dequeues have been made; if at a dequeue, all
      jobs have been put in. */
  lemma {:induction false} StuckSideIsAlone(s: State, i: nat)
    requires Inv(s) && Stuck(s) && AllPure(s) && Running(s, i)
    requires s.past.lostEmpty == 0 && s.past.lostFull == 0
    ensures s.procs[i].todo[0].Enqueue? ==> Sum(Taking, s.procs) == 0 && Sum(Giving, s.procs) > 0
    ensures s.procs[i].todo[0].Dequeue? ==> Sum(Giving, s.procs) == 0 && Sum(Taking, s.procs) > 0
  {
    hide Ring.Clean, Ring.Contents, Ring.Window, Sum;
    StuckMeansWaiting(s);
    var enq := s.procs[i].todo[0].Enqueue?;
    forall j: nat | j < |s.procs| ensures Weigh(if enq then Taking else Giving, s.procs[j]) == 0 {
      NoneOfferedNoneTaken(s.procs[j].todo);
      assert Pure(s.procs[j].todo);
      if Running(s, j) {
        OneKindWaits(s, i, j);
        OneKindWaits(s, j, i);
        assert s.procs[j].todo[0] in s.procs[j].todo;
      }
    }
    SumZero(if enq then Taking else Giving, s.procs);
    assert Pure(s.procs[i].todo);
    NoneOfferedNoneTaken(s.procs[i].todo);
    SumAtLeast(Giving, s.procs, i, i);
    SumAtLeast(Taking, s.procs, i, i);
  }

  lemma {:induction false} FinishedOwesNothing(ps: seq<Proc>)
    requires forall i: nat | i < |ps| :: ps[i].todo == []
    ensures Sum(Giving, ps) == 0 && Sum(Taking, ps) == 0
  {
    if ps != [] {
      FinishedOwesNothing(ps[1..]);
    }
  }

  /** The books of a run of pure programs without failures. */
  lemma {:induction false} PureBooks(n: nat, programs: seq<seq<Call>>, turns: seq<Turn>, s: State)
    requires n >= 2 && Reached(n, programs, turns, s) && NoFailures(turns)
    requires forall i | 0 <= i < |programs| :: Pure(programs[i])
    ensures Inv(s) && AllPure(s) && s.ring.Capacity() == n - 1
    ensures s.past.lostEmpty == 0 && s.past.lostFull == 0 && s.past.nulls == 0 && s.past.misses == 0
    ensures |s.past.accepted| + Sum(Giving, s.procs) == TotalOffers(programs)
    ensures |s.past.handed| + Sum(Taking, s.procs) == TotalDequeues(programs)
  {
    hide Ring.Clean, Ring.Contents, Ring.Window, Sum, Run, Possible;
    var s0 := Init(n, programs);
    ReachedKeepsInv(n, programs, turns, s);
    InitHolds(n, programs);
    RunBalances(s0, turns);
    RunKeepsPure(s0, turns);
    NoNullsNoMisses(s0, turns);
    TotalsOfStart(programs);
  }

  /** Any number of pure producers and pure consumers, no wait failing: a schedule that cannot go
      on has finished every call if and only if the jobs put in at least cover the dequeues and
      at most fill the queue besides. What is left is then the last jobs put in, in order. */
  lemma {:induction false} CompletesIff(n: nat, programs: seq<seq<Call>>, turns: seq<Turn>, s: State)
    requires n >= 2 && Reached(n, programs, turns, s) && NoFailures(turns)
    requires forall i | 0 <= i < |programs| :: Pure(programs[i])
    requires Stuck(s)
    ensures Finished(s) <==> TotalDequeues(programs) <= TotalOffers(programs) <= TotalDequeues(programs) + n - 1
    ensures Finished(s) ==>
              && |s.past.accepted| == TotalOffers(programs)
              && |s.past.handed| == TotalDequeues(programs)
              && s.ring.Valid()
              && s.ring.Contents() == s.past.accepted[TotalDequeues(programs)..]
  {
    hide Ring.Clean, Ring.Contents, Ring.Window, Sum, Run, Possible, TotalOffers, TotalDequeues, Pure, Init;
    PureBooks(n, programs, turns, s);
    assert |s.past.accepted| == |s.past.handed| + |s.ring.Contents()|;
    if Finished(s) {
      FinishedOwesNothing(s.procs);
      EveryReachedStateIsSafe(n, programs, turns, s);
    } else {
      var i: nat :| i < |s.procs| && s.procs[i].todo != [];
      StuckSideIsAlone(s, i);
      StuckIff(s);
      assert Running(s, i);
    }
  }

  /** The programs have to be pure: a process that takes before it puts waits for itself. */
  lemma {:induction false} ImpureProgramCanBlock(v: JobValue)
    ensures var s := Init(2, [[Dequeue, Enqueue(Some(v))]]);
            Stuck(s) && !Finished(s)
    ensures TotalDequeues([[Dequeue, Enqueue(Some(v))]]) == TotalOffers([[Dequeue, Enqueue(Some(v))]])
  {
    var todo: seq<Call> := [Dequeue, Enqueue(Some(v))];
    assert todo[1..] == [Enqueue(Some(v))] && todo[1..][1..] == [];
    var programs: seq<seq<Call>> := [todo];
    assert programs[1..] == [];
    assert Start([todo]) == [Ready(todo, [])];
    assert Offers(todo[1..]) == [Normalise(v)] + [] && Offers(todo) == [] + Offers(todo[1..]);
    assert Dequeues(todo[1..]) == 0;
  }

  /** So programs that meet the condition always complete: from every state they reach, however
      the run goes on, it stops within the remaining work, and it stops finished. */
  lemma {:induction false} GuaranteedCompletion(
      n: nat, programs: seq<seq<Call>>, turns: seq<Turn>, s: State, more: seq<Turn>)
    requires n >= 2 && Reached(n, programs, turns, s) && NoFailures(turns)
    requires forall i | 0 <= i < |programs| :: Pure(programs[i])
    requires TotalDequeues(programs) <= TotalOffers(programs) <= TotalDequeues(programs) + n - 1
    requires Possible(s, more) && NoFailures(more)
    ensures |turns| + |more| <= 8 * TotalCalls(programs)
    ensures Stuck(Run(s, more)) ==> Finished(Run(s, more))
  {
    RunAppend(Init(n, programs), turns, more);
    SchedulesAreFinite(n, programs, turns + more);
    if Stuck(Run(s, more)) {
      CompletesIff(n, programs, turns + more, Run(s, more));
    }
  }

  // ---- One producer and one consumer ----

  function Puts(jobs: seq<JobValue>): (todo: seq<Call>)
    ensures |todo| == |jobs| && forall k | 0 <= k < |jobs| :: todo[k] == Enqueue(Some(jobs[k]))
  {
    seq(|jobs|, k requires 0 <= k < |jobs| => Enqueue(Some(jobs[k])))
  }

  function Takings(d: nat): (todo: seq<Call>)
    ensures |todo| == d && forall k | 0 <= k < d :: todo[k] == Dequeue
  {
    seq(d, k => Dequeue)
  }

  function Stored(jobs: seq<JobValue>): (vs: seq<JobValue>)
    ensures |vs| == |jobs| && forall k | 0 <= k < |jobs| :: vs[k] == Normalise(jobs[k])
  {
    seq(|jobs|, k requires 0 <= k < |jobs| => Normalise(jobs[k]))
  }

  lemma {:induction false} PutsAndTakings(jobs: seq<JobValue>, d: nat)
    ensures Offers(Puts(jobs)) == Stored(jobs) && Dequeues(Puts(jobs)) == 0
    ensures Offers(Takings(d)) == [] && Dequeues(Takings(d)) == d
    ensures Pure(Puts(jobs)) && Pure(Takings(d))
    decreases |jobs| + d
  {
    if jobs != [] {
      PutsAndTakings(jobs[1..], d);
      assert Puts(jobs)[1..] == Puts(jobs[1..]);
      assert Stored(jobs) == [Normalise(jobs[0])] + Stored(jobs[1..]);
    } else if d > 0 {
      PutsAndTakings(jobs, d - 1);
      assert Takings(d)[1..] == Takings(d - 1);
    }
  }

  /** One process puts in the given jobs, another makes `d` dequeues, and no wait fails. A run that
      cannot go on has finished exactly if d <= jobs <= d + capacity; the consumer has then
      received the first `d` jobs, as stored and in order, and the others are in the queue. */
  lemma {:induction false} ProducerAndConsumer(
      n: nat, jobs: seq<JobValue>, d: nat, turns: seq<Turn>, s: State)
    requires n >= 2 && Reached(n, [Puts(jobs), Takings(d)], turns, s) && NoFailures(turns) && Stuck(s)
    ensures |s.procs| == 2 && s.ring.Valid()
    ensures Finished(s) <==> d <= |jobs| <= d + n - 1
    ensures Finished(s) ==> Returned(s.procs[1].log) == Stored(jobs)[..d] && s.ring.Contents() == Stored(jobs)[d..]
  {
    var programs := [Puts(jobs), Takings(d)];
    PutsAndTakings(jobs, d);
    TotalsOfPair(Puts(jobs), Takings(d));
    hide Reached, Pure, Stuck, Finished, Puts, Takings, Returned, TotalOffers, TotalDequeues;
    CompletesIff(n, programs, turns, s);
    EveryReachedStateIsSafe(n, programs, turns, s);
    ReachedKeepsInv(n, programs, turns, s);
    if Finished(s) {
      FinishedPair(s);
      AllFromFirst(n, programs, turns, s);
      AllToSecond(n, programs, turns, s);
    }
  }

  lemma {:induction false} TotalsOfPair(a: seq<Call>, b: seq<Call>)
    ensures TotalOffers([a, b]) == |Offers(a)| + |Offers(b)|
    ensures TotalDequeues([a, b]) == Dequeues(a) + Dequeues(b)
  {
    assert [a, b][1..] == [b] && [b][1..] == [];
    assert TotalOffers([b]) == |Offers(b)| + TotalOffers([]);
    assert TotalDequeues([b]) == Dequeues(b) + TotalDequeues([]);
  }

  lemma {:induction false} FinishedPair(s: State)
    requires Finished(s) && |s.procs| == 2
    ensures s.procs[0].todo == [] && s.procs[1].todo == []
  {
  }

  lemma {:induction false} AllFromFirst(n: nat, programs: seq<seq<Call>>, turns: seq<Turn>, s: State)
    requires n >= 2 && Reached(n, programs, turns, s) && NoFailures(turns)
    requires |programs| > 0 && |s.procs| > 0 && s.procs[0].todo == []
    requires |s.past.accepted| == |Offers(programs[0])|
    ensures s.past.accepted == Offers(programs[0])
  {
    ProducersKeepProgramOrder(n, programs, turns, s, 0);
    hide Reached;
    var f := ByPositions(s.past.accepted, s.past.givers, 0);
    IncreasingIsIdentity(f, |s.past.accepted|);
  }

  /** Positions below `m`, as many as `m` and increasing, are all positions in order. */
  lemma {:induction false} IncreasingIsIdentity(f: seq<nat>, m: nat)
    requires Increasing(f) && |f| == m && forall k | 0 <= k < m :: f[k] < m
    ensures forall k | 0 <= k < m :: f[k] == k
  {
    if m > 0 {
      assert forall k | 0 <= k < m - 1 :: f[k] < f[m - 1];
      IncreasingIsIdentity(f[..m - 1], m - 1);
      assert forall k | 0 <= k < m - 1 :: f[..m - 1][k] == f[k];
      assert m > 1 ==> f[m - 2] == m - 2;
    }
  }

  lemma {:induction false} FirstReceivesNothing(n: nat, programs: seq<seq<Call>>, turns: seq<Turn>, s: State)
    requires n >= 2 && Reached(n, programs, turns, s)
    requires |programs| == |s.procs| == 2 && Dequeue !in programs[0]
    ensures Received(s.procs[0]) == []
  {
    InitHolds(n, programs);
    NonConsumerReceivesNothing(Init(n, programs), turns, 0);
  }

  lemma {:induction false} AllToSecond(n: nat, programs: seq<seq<Call>>, turns: seq<Turn>, s: State)
    requires n >= 2 && Reached(n, programs, turns, s)
    requires |programs| == 2 && Dequeue !in programs[0]
    requires |s.procs| == 2 && s.procs[1].todo == []
    ensures Returned(s.procs[1].log) == s.past.handed
  {
    hide *;
    FirstReceivesNothing(n, programs, turns, s);
    CallersReceiveWhatWasHandedOut(n, programs, turns, s, 0);
    CallersReceiveWhatWasHandedOut(n, programs, turns, s, 1);
    TakersAreCallers(n, programs, turns, s);
    var f := ByPositions(s.past.handed, s.past.takers, 0);
    forall k | 0 <= k < |s.past.takers| ensures s.past.takers[k] == 1 {
      assert s.past.takers[k] == 0 ==> k in f;
    }
    ByAll(s.past.handed, s.past.takers, 1);
  }
}
