/** The lock variable of mutex_lockvar.c, for any number of processes. One step is one read or
    one write of the lock. */
module LockVar {

  /** About to read the lock, about to write 1, or inside. */
  datatype Point = Testing | Writing | Inside

  datatype State = State(lock: int, at: seq<Point>)

  function Everywhere(n: nat, p: Point): (at: seq<Point>)
    ensures |at| == n
    ensures forall i | 0 <= i < n :: at[i] == p
  {
    seq(n, _ => p)
  }

  function Init(n: nat): State {
    State(0, Everywhere(n, Testing))
  }

  function Step(s: State, p: nat): (r: State)
    requires p < |s.at|
    ensures |r.at| == |s.at|
  {
    match s.at[p]
    case Testing => if s.lock != 0 then s else s.(at := s.at[p := Writing])
    case Writing => State(1, s.at[p := Inside])
    case Inside => State(0, s.at[p := Testing])
  }

  predicate Possible(s: State, schedule: seq<nat>) {
    forall k | 0 <= k < |schedule| :: schedule[k] < |s.at|
  }

  function Run(s: State, schedule: seq<nat>): (r: State)
    requires Possible(s, schedule)
    ensures |r.at| == |s.at|
    decreases |schedule|
  {
    if schedule == [] then s else Run(Step(s, schedule[0]), schedule[1..])
  }

  predicate Clash(s: State) {
    exists i, j :: 0 <= i < j < |s.at| && s.at[i] == Inside && s.at[j] == Inside
  }

  /** The process does not find the lock open while another has found it open and not yet
      closed it. */
  predicate Careful(s: State, p: nat)
    requires p < |s.at|
  {
    s.at[p] == Testing && s.lock == 0 ==> Writing !in s.at
  }

  predicate CarefulRun(s: State, schedule: seq<nat>)
    requires Possible(s, schedule)
    decreases |schedule|
  {
    schedule == [] || (Careful(s, schedule[0]) && CarefulRun(Step(s, schedule[0]), schedule[1..]))
  }

  /** At most one process is past its test, and the lock is closed exactly when it is inside. */
  predicate Inv(s: State) {
    && (forall i, j | 0 <= i < j < |s.at| :: s.at[i] == Testing || s.at[j] == Testing)
    && (s.lock != 0 <==> Inside in s.at)
  }

  lemma {:induction false} StepKeepsInv(s: State, p: nat)
    requires Inv(s) && p < |s.at| && Careful(s, p)
    ensures Inv(Step(s, p))
  {
    var s' := Step(s, p);
    if s.at[p] == Writing {
      assert s'.at[p] == Inside;
    }
    if s.at[p] == Testing && s.lock == 0 {
      forall i | 0 <= i < |s.at| ensures s.at[i] == Testing {
        assert s.at[i] in s.at;
      }
    }
  }

  lemma {:induction false} CarefulRunExcludes(s: State, schedule: seq<nat>)
    requires Inv(s) && Possible(s, schedule) && CarefulRun(s, schedule)
    ensures Inv(Run(s, schedule)) && !Clash(Run(s, schedule))
    decreases |schedule|
  {
    if schedule != [] {
      StepKeepsInv(s, schedule[0]);
      CarefulRunExcludes(Step(s, schedule[0]), schedule[1..]);
    }
  }

  lemma {:induction false} CarefulRunExcludesFromStart(n: nat, schedule: seq<nat>)
    requires Possible(Init(n), schedule) && CarefulRun(Init(n), schedule)
    ensures Inv(Run(Init(n), schedule)) && !Clash(Run(Init(n), schedule))
  {
    CarefulRunExcludes(Init(n), schedule);
  }

  /** What one step may touch: the process's own point, and the lock only on the way in, which
      closes it, and on the way out, which opens it. */
  lemma {:induction false} StepTouches(s: State, p: nat)
    requires p < |s.at|
    ensures var r := Step(s, p);
            && (forall i | 0 <= i < |s.at| && i != p :: r.at[i] == s.at[i])
            && (r.at[p] == Inside && s.at[p] != Inside ==> s.at[p] == Writing && r.lock == 1)
            && (s.at[p] == Inside ==> r.at[p] == Testing && r.lock == 0)
            && (s.at[p] == Testing ==> r.lock == s.lock && r.at[p] == if s.lock == 0 then Writing else Testing)
            && (s.at[p] == Writing ==> r.at[p] == Inside)
  {
  }

  /** A process on its own gets in with two steps if the lock is open, and out again with a third,
      which leaves everything as it was. */
  lemma {:induction false} AloneInAndOut(s: State, p: nat)
    requires p < |s.at| && s.at[p] == Testing && s.lock == 0
    ensures Possible(s, [p, p]) && Run(s, [p, p]) == State(1, s.at[p := Inside])
    ensures Possible(s, [p, p, p]) && Run(s, [p, p, p]) == s
  {
    assert [p, p, p][1..] == [p, p] && [p, p][1..] == [p] && [p][1..] == [];
    var s1 := Step(s, p);
    var s2 := Step(s1, p);
    var s3 := Step(s2, p);
    assert s3.at == s.at;
    assert Possible(s2, [p]) && Run(s2, [p]) == Run(s3, []) == s3;
    assert Possible(s2, []) && Run(s2, []) == s2;
    assert Run(s1, [p, p]) == s3 && Run(s1, [p]) == s2;
  }

  /** The lock is never shut for good: from every state of a careful run, each process can be
      brought inside by a careful continuation, in which whoever is past its test goes first. */
  lemma {:induction false} EveryoneCanGetIn(s: State, p: nat) returns (schedule: seq<nat>)
    requires Inv(s) && p < |s.at|
    ensures Possible(s, schedule) && CarefulRun(s, schedule) && |schedule| <= 4
    ensures Run(s, schedule).at[p] == Inside
  {
    if s.at[p] == Inside {
      schedule := [];
    } else if s.at[p] == Writing {
      schedule := OneMore(s, p, []);
    } else if q: nat :| q < |s.at| && s.at[q] == Writing {
      StepKeepsInv(s, q);
      schedule := AfterLeaving(Step(s, q), p, q);
      schedule := OneMore(s, q, schedule);
    } else if q: nat :| q < |s.at| && s.at[q] == Inside {
      schedule := AfterLeaving(s, p, q);
    } else {
      schedule := IntoFreeLock(s, p);
    }
  }

  lemma {:induction false} OneMore(s: State, p: nat, rest: seq<nat>) returns (schedule: seq<nat>)
    requires p < |s.at| && Careful(s, p)
    requires Possible(Step(s, p), rest) && CarefulRun(Step(s, p), rest)
    ensures schedule == [p] + rest
    ensures Possible(s, schedule) && CarefulRun(s, schedule) && Run(s, schedule) == Run(Step(s, p), rest)
  {
    schedule := [p] + rest;
    assert schedule[1..] == rest;
  }

  lemma {:induction false} IntoFreeLock(s: State, p: nat) returns (schedule: seq<nat>)
    requires p < |s.at| && s.lock == 0 && forall i | 0 <= i < |s.at| :: s.at[i] == Testing
    ensures Possible(s, schedule) && CarefulRun(s, schedule) && |schedule| == 2
    ensures Run(s, schedule).at[p] == Inside
  {
    schedule := OneMore(Step(s, p), p, []);
    schedule := OneMore(s, p, schedule);
  }

  lemma {:induction false} AfterLeaving(s: State, p: nat, q: nat) returns (schedule: seq<nat>)
    requires Inv(s) && p < |s.at| && q < |s.at| && p != q && s.at[q] == Inside
    ensures Possible(s, schedule) && CarefulRun(s, schedule) && |schedule| == 3
    ensures Run(s, schedule).at[p] == Inside
  {
    schedule := IntoFreeLock(Step(s, q), p);
    schedule := OneMore(s, q, schedule);
  }

  predicate BreachedBy(s: State, schedule: seq<nat>) {
    Possible(s, schedule) && CarefulRun(s, schedule) && Clash(Run(s, schedule))
  }

  /** Exactly when a successful test is safe: a careful continuation can put two processes inside
      after it if and only if another process was about to close the lock. */
  lemma {:induction false} TestBreaksIff(s: State, p: nat)
    requires Inv(s) && p < |s.at| && s.at[p] == Testing && s.lock == 0
    ensures (exists schedule :: BreachedBy(Step(s, p), schedule)) <==> Writing in s.at
  {
    var s1 := Step(s, p);
    if Writing in s.at {
      var q: nat :| q < |s.at| && s.at[q] == Writing;
      var s2, s3 := Step(s1, p), Step(Step(s1, p), q);
      assert [p, q][1..] == [q] && [q][1..] == [];
      assert Possible(s3, []) && CarefulRun(s3, []) && Run(s3, []) == s3;
      assert Possible(s2, [q]) && CarefulRun(s2, [q]) && Run(s2, [q]) == s3;
      assert Possible(s1, [p, q]) && CarefulRun(s1, [p, q]) && Run(s1, [p, q]) == s3;
      assert s3.at[p] == Inside && s3.at[q] == Inside;
      assert Clash(s3);
      assert BreachedBy(s1, [p, q]);
    } else {
      StepKeepsInv(s, p);
      forall schedule | Possible(s1, schedule) && CarefulRun(s1, schedule)
        ensures !BreachedBy(s1, schedule)
      {
        CarefulRunExcludes(s1, schedule);
      }
    }
  }

  function UpTo(n: nat): (r: seq<nat>)
    ensures |r| == n
    ensures forall k | 0 <= k < n :: r[k] < n
  {
    if n == 0 then [] else UpTo(n - 1) + [n - 1]
  }

  lemma {:induction false} RunAppendOne(s: State, a: seq<nat>, p: nat)
    requires Possible(s, a + [p])
    ensures Possible(s, a) && p < |s.at|
    ensures Run(s, a + [p]) == Step(Run(s, a), p)
    decreases |a|
  {
    assert (a + [p])[|a|] == p;
    forall k | 0 <= k < |a| ensures a[k] < |s.at| {
      assert (a + [p])[k] == a[k];
    }
    if a == [] {
      assert [p][1..] == [];
      assert a + [p] == [p];
    } else {
      assert (a + [p])[1..] == a[1..] + [p];
      RunAppendOne(Step(s, a[0]), a[1..], p);
    }
  }

  /** One round of steps by the first `k` processes takes each of them past its test, or inside. */
  lemma {:induction false} Round(s: State, k: nat, from: Point)
    requires k <= |s.at| && s.at == Everywhere(|s.at|, from)
    requires (from == Testing && s.lock == 0) || from == Writing
    ensures Possible(s, UpTo(k))
    ensures var next := if from == Testing then Writing else Inside;
            forall i | 0 <= i < |s.at| :: Run(s, UpTo(k)).at[i] == if i < k then next else from
    ensures from == Testing ==> Run(s, UpTo(k)).lock == 0
  {
    if k > 0 {
      Round(s, k - 1, from);
      RunAppendOne(s, UpTo(k - 1), k - 1);
    }
  }

  lemma {:induction false} RunAppend(s: State, a: seq<nat>, b: seq<nat>)
    requires Possible(s, a) && Possible(s, b)
    ensures Possible(s, a + b) && Run(s, a + b) == Run(Run(s, a), b)
    decreases |a|
  {
    if a == [] {
      assert a + b == b;
    } else {
      assert (a + b)[1..] == a[1..] + b;
      RunAppend(Step(s, a[0]), a[1..], b);
    }
  }

  /** The lock excludes nobody: for every number of processes, all of them can be inside at once. */
  lemma {:induction false} AllCanBeInside(n: nat)
    ensures exists schedule :: Possible(Init(n), schedule) && Run(Init(n), schedule).at == Everywhere(n, Inside)
  {
    Round(Init(n), n, Testing);
    var s := Run(Init(n), UpTo(n));
    assert s.at == Everywhere(n, Writing);
    Round(s, n, Writing);
    RunAppend(Init(n), UpTo(n), UpTo(n));
    assert Run(Init(n), UpTo(n) + UpTo(n)).at == Everywhere(n, Inside);
  }

  /** The same as a program over the shared variable. */
  class Shared {
    var lock: int
    const at: array<Point>

    function Model(): State
      reads this, at
    {
      State(lock, at[..])
    }

    constructor (n: nat)
      ensures Model() == Init(n) && fresh(at)
      ensures lock == 0 && at.Length == n && forall i | 0 <= i < n :: at[i] == Testing
    {
      lock := 0;
      at := new Point[n](i => Testing);
      new;
      assert at[..] == Everywhere(n, Testing);
    }

    /** The next access of process `p`. */
    method Move(p: nat)
      requires p < at.Length
      modifies this`lock, at
      ensures Model() == Step(old(Model()), p)
    {
      match at[p] {
        case Testing =>
          if lock == 0 {
            at[p] := Writing;
          }
        case Writing =>
          lock := 1;
          at[p] := Inside;
        case Inside =>
          lock := 0;
          at[p] := Testing;
      }
    }

    /** Runs a schedule. Where each process then stands is what the transition system says; after
        a careful run at most one is inside. */
    method Execute(schedule: seq<nat>)
      requires forall k | 0 <= k < |schedule| :: schedule[k] < at.Length
      modifies this`lock, at
      ensures Possible(old(Model()), schedule) && Model() == Run(old(Model()), schedule)
      ensures Inv(old(Model())) && CarefulRun(old(Model()), schedule) ==> Inv(Model()) && !Clash(Model())
    {
      ghost var s := Model();
      assert Possible(s, schedule);
      assert schedule[..0] == [];
      for i := 0 to |schedule|
        invariant Possible(s, schedule[..i]) && Model() == Run(s, schedule[..i])
      {
        Move(schedule[i]);
        assert schedule[..i + 1] == schedule[..i] + [schedule[i]];
        RunAppendOne(s, schedule[..i], schedule[i]);
      }
      assert schedule[..|schedule|] == schedule;
      if Inv(s) && CarefulRun(s, schedule) {
        CarefulRunExcludes(s, schedule);
      }
    }
  }
}
