/** Safety of every run of the semaphore-guarded queue. */
module SemSafety {
  import opened Wrappers
  import opened Jobs
  import opened Rings
  import opened Calls
  import opened Sequences
  import opened SemMachine
  import opened SemInvariant

  /** States that some schedule reaches from a fresh queue of `n` slots. */
  ghost predicate Reached(n: nat, programs: seq<seq<Call>>, turns: seq<Turn>, s: State)
    requires n >= 2
  {
    Possible(Init(n, programs), turns) && s == Run(Init(n, programs), turns)
  }

  lemma {:induction false} ReachedKeepsInv(n: nat, programs: seq<seq<Call>>, turns: seq<Turn>, s: State)
    requires n >= 2 && Reached(n, programs, turns, s)
    ensures Inv(s) && s.ring.Capacity() == n - 1 && |s.procs| == |programs|
  {
    InitHolds(n, programs);
    RunKeepsInv(Init(n, programs), turns);
  }

  /** Whatever the programs, the schedule and the failing waits, NULL jobs included. */
  lemma {:induction false} EveryReachedStateIsSafe(n: nat, programs: seq<seq<Call>>, turns: seq<Turn>, s: State)
    requires n >= 2 && Reached(n, programs, turns, s)
    ensures s.ring.Valid()
    // the mutex is free or exactly one process is inside a body
    ensures forall i, j | 0 <= i < j < |s.procs| :: !(Holds(s.procs[i]) && Holds(s.procs[j]))
    ensures s.mutex == if exists i :: 0 <= i < |s.procs| && Holds(s.procs[i]) then 0 else 1
    // tokens are conserved, and the queue never outgrows its capacity
    ensures s.empty + s.full + Sum(InFlight, s.procs) + s.past.lostEmpty + s.past.lostFull == n - 1
    ensures |s.ring.Contents()| + s.past.nulls == s.full + Sum(Owing, s.procs) + s.past.lostFull + s.past.misses
    ensures |s.ring.Contents()| <= n - 1 - s.past.lostEmpty
    // first in, first out, each job once; misses are paid for by NULL jobs
    ensures s.past.accepted == s.past.handed + s.ring.Contents()
    ensures s.past.misses <= s.past.nulls
    // outside the bodies the buffer is clean
    ensures s.mutex == 1 ==> s.ring.Clean()
  {
    ReachedKeepsInv(n, programs, turns, s);
    OwingBelowInFlight(s.procs, |s.procs|);
    forall i, j | 0 <= i < j < |s.procs| ensures !(Holds(s.procs[i]) && Holds(s.procs[j])) {
      SumAtLeast(Holding, s.procs, i, j);
    }
    if Sum(Holding, s.procs) == 0 {
      forall i | 0 <= i < |s.procs| ensures !Holds(s.procs[i]) {
        SumAtLeast(Holding, s.procs, i, i);
      }
    } else {
      var i := SomeHolder(s.procs);
    }
  }

  lemma {:induction false} SomeHolder(ps: seq<Proc>) returns (i: nat)
    requires Sum(Holding, ps) > 0
    ensures i < |ps| && Holds(ps[i])
  {
    if Holds(ps[0]) {
      i := 0;
    } else {
      i := SomeHolder(ps[1..]);
      i := i + 1;
    }
  }

  /** While a process is inside a body, no step of another process touches the buffer or
      gets into a body: the several small steps of a body act as one. */
  lemma {:induction false} BodyIsNotInterrupted(s: State, i: nat, t: Turn)
    requires Inv(s) && i < |s.procs| && Holds(s.procs[i])
    requires Enabled(s, t) && t.id != i
    ensures Step(s, t).ring == s.ring
    ensures Step(s, t).procs[i] == s.procs[i] && !Holds(Step(s, t).procs[t.id])
  {
    hide Ring.Clean, Ring.Contents, Ring.Window, Sum, Normalise;
    HolderIsAlone(s, i, t.id);
  }

  /** NULL jobs. */
  predicate NullFree(todo: seq<Call>) {
    Enqueue(None) !in todo
  }

  predicate NoNulls(s: State) {
    s.past.nulls == 0 && forall i | 0 <= i < |s.procs| :: NullFree(s.procs[i].todo)
  }

  lemma {:induction false} StepKeepsNoNulls(s: State, t: Turn)
    requires NoNulls(s) && Enabled(s, t)
    ensures NoNulls(Step(s, t))
  {
  }

  lemma {:induction false} NoNullsNoMisses(s: State, turns: seq<Turn>)
    requires Inv(s) && Possible(s, turns) && NoNulls(s)
    ensures Run(s, turns).past.nulls == 0 && Run(s, turns).past.misses == 0
    decreases |turns|
  {
    if turns != [] {
      StepKeepsInv(s, turns[0]);
      StepKeepsNoNulls(s, turns[0]);
      NoNullsNoMisses(Step(s, turns[0]), turns[1..]);
    }
  }

  /** Without NULL jobs, and even when waits fail, no dequeue ever finds the queue empty, and
      the queue's length is exactly what the semaphores and the calls under way say. */
  lemma {:induction false} WithoutNullsOccupancyIsExact(n: nat, programs: seq<seq<Call>>, turns: seq<Turn>, s: State)
    requires n >= 2 && Reached(n, programs, turns, s)
    requires forall i | 0 <= i < |programs| :: NullFree(programs[i])
    ensures s.ring.Valid()
    ensures |s.ring.Contents()| == s.full + Sum(Owing, s.procs) + s.past.lostFull
    ensures forall i: nat | Running(s, i) && s.procs[i].todo[0] == Dequeue && s.procs[i].stage == Check ::
              !s.ring.IsEmpty()
  {
    ReachedKeepsInv(n, programs, turns, s);
    InitHolds(n, programs);
    NoNullsNoMisses(Init(n, programs), turns);
    forall i: nat | Running(s, i) && s.procs[i].todo[0] == Dequeue && s.procs[i].stage == Check
      ensures !s.ring.IsEmpty()
    {
      BodyFindsRoomAndJobs(s, i);
    }
  }

  /** With NULL jobs too: a job offered to the queue is never silently dropped. */
  lemma {:induction false} NoJobIsDropped(n: nat, programs: seq<seq<Call>>, turns: seq<Turn>, s: State, i: nat)
    requires n >= 2 && Reached(n, programs, turns, s)
    requires Running(s, i) && s.procs[i].todo[0].Enqueue? && s.procs[i].stage == Check
    ensures s.ring.Valid() && !s.ring.IsFull()
  {
    ReachedKeepsInv(n, programs, turns, s);
    BodyFindsRoomAndJobs(s, i);
  }

  lemma {:induction false} GoOn(n: nat, programs: seq<seq<Call>>, turns: seq<Turn>, s: State)
      returns (turns': seq<Turn>, s': State)
    requires n >= 2 && Reached(n, programs, turns, s) && Enabled(s, Turn(0, false))
    ensures s' == Step(s, Turn(0, false)) && Reached(n, programs, turns', s')
  {
    turns', s' := turns + [Turn(0, false)], Step(s, Turn(0, false));
    RunAppendOne(Init(n, programs), turns, Turn(0, false));
  }

  lemma {:induction false} NullInBody() returns (turns: seq<Turn>, s: State)
    ensures Reached(2, [[Enqueue(None), Dequeue]], turns, s)
    ensures s == Init(2, [[Enqueue(None), Dequeue]]).(
                   mutex := 0, empty := 0, procs := [Proc([Enqueue(None), Dequeue], Check, Nothing, [])])
  {
    var programs: seq<seq<Call>> := [[Enqueue(None), Dequeue]];
    assert Start(programs) == [Ready([Enqueue(None), Dequeue], [])];
    turns, s := [], Init(2, programs);
    assert Reached(2, programs, turns, s);
    hide Reached, Ring.Clean, Ring.Contents, Ring.Window, Normalise;
    turns, s := GoOn(2, programs, turns, s);
    turns, s := GoOn(2, programs, turns, s);
  }

  lemma {:induction false} NullEnqueued() returns (turns: seq<Turn>, s: State)
    ensures Reached(2, [[Enqueue(None), Dequeue]], turns, s)
    ensures s == Init(2, [[Enqueue(None), Dequeue]]).(
                   full := 1, empty := 0, procs := [Ready([Dequeue], [Nothing])], past := s.past)
    ensures s.past == History([], [], [], [], 0, 0, 1, 0)
  {
    var todo: seq<Call> := [Enqueue(None), Dequeue];
    assert todo[1..] == [Dequeue] && [] + [Nothing] == [Nothing];
    hide Reached, Ring.Clean, Ring.Contents, Ring.Window, Normalise;
    var programs: seq<seq<Call>> := [[Enqueue(None), Dequeue]];
    turns, s := NullInBody();
    turns, s := GoOn(2, programs, turns, s);
    assert s.procs == [Proc(todo, Unlock, Nothing, [])];
    turns, s := GoOn(2, programs, turns, s);
    assert s.procs == [Proc(todo, Signal, Nothing, [])];
    turns, s := GoOn(2, programs, turns, s);
  }

  /** A NULL job is not without effect here: it leaves a `full` token behind, and a dequeue that
      would otherwise wait takes that token and returns NULL from the empty queue. */
  lemma {:induction false} NullMakesDequeueMiss() returns (turns: seq<Turn>, s: State)
    ensures Reached(2, [[Enqueue(None), Dequeue]], turns, s)
    ensures s.procs[0].todo == [] && s.procs[0].log == [Nothing, Took(None)]
    ensures s.past.misses == 1 && s.past.accepted == []
  {
    var programs: seq<seq<Call>> := [[Enqueue(None), Dequeue]];
    assert [Dequeue][1..] == [] && [Nothing] + [Took(None)] == [Nothing, Took(None)];
    hide Reached;
    turns, s := NullEnqueued();
    turns, s := GoOn(2, programs, turns, s);
    turns, s := GoOn(2, programs, turns, s);
    turns, s := GoOn(2, programs, turns, s);
    turns, s := GoOn(2, programs, turns, s);
    turns, s := GoOn(2, programs, turns, s);
  }

  function Pids(js: seq<JobValue>): (ps: seq<Pid>)
    ensures |ps| == |js|
    ensures forall k | 0 <= k < |js| :: ps[k] == js[k].pid
  {
    seq(|js|, k requires 0 <= k < |js| => js[k].pid)
  }

  /** The jobs that a given producer made, in order. */
  function MadeBy(js: seq<JobValue>, pid: Pid): seq<JobValue> {
    By(js, Pids(js), pid)
  }

  lemma {:induction false} MadeByAppend(a: seq<JobValue>, b: seq<JobValue>, pid: Pid)
    ensures MadeBy(a + b, pid) == MadeBy(a, pid) + MadeBy(b, pid)
  {
    ByConcat(a, Pids(a), b, Pids(b), pid);
    assert Pids(a + b) == Pids(a) + Pids(b);
  }

  predicate SameKey(a: JobValue, b: JobValue) {
    a.pid == b.pid && a.id == b.id
  }

  predicate KeysDistinct(js: seq<JobValue>) {
    forall a, b | 0 <= a < b < |js| :: !SameKey(js[a], js[b])
  }

  /** Each producer's jobs come out in the order it put them in, and if the (pid, id) pairs put
      in are distinct then none comes out twice or is both handed out and still queued. */
  lemma {:induction false} EachJobOnceInOrder(n: nat, programs: seq<seq<Call>>, turns: seq<Turn>, s: State, pid: Pid)
    requires n >= 2 && Reached(n, programs, turns, s)
    ensures MadeBy(s.past.handed, pid) <= MadeBy(s.past.accepted, pid)
    ensures s.ring.Valid()
    ensures MadeBy(s.past.accepted, pid) == MadeBy(s.past.handed, pid) + MadeBy(s.ring.Contents(), pid)
    ensures KeysDistinct(s.past.accepted) ==> KeysDistinct(s.past.handed + s.ring.Contents())
    ensures KeysDistinct(s.past.accepted) ==> KeysDistinct(s.past.handed)
  {
    ReachedKeepsInv(n, programs, turns, s);
    MadeByAppend(s.past.handed, s.ring.Contents(), pid);
    if KeysDistinct(s.past.accepted) {
      forall a, b | 0 <= a < b < |s.past.handed|
        ensures !SameKey(s.past.handed[a], s.past.handed[b])
      {
        assert s.past.accepted[a] == s.past.handed[a] && s.past.accepted[b] == s.past.handed[b];
      }
    }
  }
}
