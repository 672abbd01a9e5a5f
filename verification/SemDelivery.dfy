/** Who put in and who got what: the jobs that callers receive are the jobs handed out, and the
    jobs accepted are the ones the producers' programs offer, in program order. */
module SemDelivery {
  import opened Jobs
  import opened Rings
  import opened Calls
  import opened Sequences
  import opened SemMachine
  import opened SemInvariant
  import opened SemSafety

  /** The jobs that a caller's dequeues have returned to it. */
  function Returned(log: seq<Reply>): seq<JobValue> {
    if log == [] then []
    else Returned(log[..|log| - 1]) + TakenBy(log[|log| - 1])
  }

  function TakenBy(r: Reply): seq<JobValue> {
    if r.Took? && r.job.Some? then [r.job.value] else []
  }

  lemma {:induction false} ReturnedAppend(log: seq<Reply>, r: Reply)
    ensures Returned(log + [r]) == Returned(log) + TakenBy(r)
  {
  }

  /** With the job that a dequeue under way has already taken out. */
  function Received(p: Proc): seq<JobValue> {
    Returned(p.log) +
    (if p.todo != [] && p.todo[0].Dequeue? && (p.stage.Advance? || p.stage.Unlock? || p.stage.Signal?)
     then TakenBy(p.reply) else [])
  }

  predicate Ledger(s: State) {
    && |s.past.accepted| == |s.past.givers|
    && |s.past.handed| == |s.past.takers|
    && (forall k | 0 <= k < |s.past.takers| :: s.past.takers[k] < |s.procs|)
    && (forall k | 0 <= k < |s.past.givers| :: s.past.givers[k] < |s.procs|)
    && (forall i: nat | i < |s.procs| :: By(s.past.handed, s.past.takers, i) == Received(s.procs[i]))
  }

  /** What one step puts in, takes out, or finds missing. */
  function Gives(s: State, t: Turn): (js: seq<JobValue>)
    requires Enabled(s, t)
    ensures |js| <= 1
  {
    var p := s.procs[t.id];
    if !t.fails && p.stage.Advance? && p.todo[0].Enqueue? && p.todo[0].job.Some? then
      [Normalise(p.todo[0].job.value)]
    else
      []
  }

  function Takes(s: State, t: Turn): (js: seq<JobValue>)
    requires Enabled(s, t)
    ensures |js| <= 1
  {
    var p := s.procs[t.id];
    if !t.fails && p.stage.Clear? then TakenBy(p.reply) else []
  }

  lemma {:induction false} StepRecords(s: State, t: Turn)
    requires Inv(s) && Enabled(s, t)
    ensures Step(s, t).past.accepted == s.past.accepted + Gives(s, t)
    ensures Step(s, t).past.givers == s.past.givers + (if Gives(s, t) == [] then [] else [t.id])
    ensures Step(s, t).past.handed == s.past.handed + Takes(s, t)
    ensures Step(s, t).past.takers == s.past.takers + (if Takes(s, t) == [] then [] else [t.id])
  {
    hide Ring.Clean, Ring.Contents, Ring.Window, Sum;
    assert Typed(s.procs[t.id]);
    assert Holds(s.procs[t.id]) ==> Knows(s.ring, s.procs[t.id]);
  }

  /** The mover's side of the books. */
  lemma {:induction false} MoverReceives(s: State, t: Turn)
    requires Inv(s) && Enabled(s, t)
    ensures Received(Step(s, t).procs[t.id]) == Received(s.procs[t.id]) + Takes(s, t)
  {
    hide Ring.Clean, Ring.Contents, Ring.Window, Ring.IsFull, Ring.Put, Ring.AdvanceTail, Ring.AdvanceHead;
    hide Sum, Returned, Normalise;
    var p := s.procs[t.id];
    assert Typed(p);
    assert Holds(p) ==> Knows(s.ring, p);
    ReturnedAppend(p.log, WhenWaitFails(p.todo[0]));
    ReturnedAppend(p.log, p.reply);
    var q := Step(s, t).procs[t.id];
    if q.log == p.log {
      assert Received(p) + [] == Received(p);
    } else {
      assert Received(q) == Returned(q.log);
    }
  }

  lemma {:induction false} OffersFirst(todo: seq<Call>)
    requires todo != []
    ensures Offers(todo) ==
            if todo[0].Enqueue? && todo[0].job.Some? then [Normalise(todo[0].job.value)] + Offers(todo[1..])
            else Offers(todo[1..])
  {
  }

  lemma {:induction false} MoverGives(s: State, t: Turn)
    requires Inv(s) && Enabled(s, t) && !t.fails
    ensures ToGive(s.procs[t.id]) == Gives(s, t) + ToGive(Step(s, t).procs[t.id])
  {
    hide Ring.Clean, Ring.Contents, Ring.Window, Sum, Offers, Ring.Put, Ring.AdvanceTail, Ring.AdvanceHead, Normalise;
    var p := s.procs[t.id];
    assert Typed(p);
    assert Holds(p) ==> Knows(s.ring, p);
    OffersFirst(p.todo);
    if p.stage.Check? {
      BodyFindsRoomAndJobs(s, t.id);
    }
    if Gives(s, t) == [] {
      assert [] + ToGive(p) == ToGive(p);
    }
  }

  lemma {:induction false} StepKeepsLedger(s: State, t: Turn)
    requires Inv(s) && Ledger(s) && Enabled(s, t)
    ensures Ledger(Step(s, t))
  {
    hide Ring.Clean, Ring.Contents, Ring.Window, Sum, By, Received, Step;
    StepRecords(s, t);
    MoverReceives(s, t);
    var s' := Step(s, t);
    var got := Takes(s, t);
    forall i: nat | i < |s'.procs| ensures By(s'.past.handed, s'.past.takers, i) == Received(s'.procs[i]) {
      if got != [] {
        ByAppend(s.past.handed, s.past.takers, got[0], t.id, i);
        assert got == [got[0]];
      } else {
        assert s'.past.handed == s.past.handed && s'.past.takers == s.past.takers;
      }
      assert i != t.id || Received(s'.procs[i]) == Received(s.procs[i]) + got;
    }
  }

  lemma {:induction false} RunKeepsLedger(s: State, turns: seq<Turn>)
    requires Inv(s) && Ledger(s) && Possible(s, turns)
    ensures Ledger(Run(s, turns))
    decreases |turns|
  {
    if turns != [] {
      StepKeepsInv(s, turns[0]);
      StepKeepsLedger(s, turns[0]);
      RunKeepsLedger(Step(s, turns[0]), turns[1..]);
    }
  }

  /** In every run, failing waits and NULL jobs included, each caller's dequeues return to it,
      in order, exactly the jobs that were taken out of the queue for it. */
  lemma {:induction false} CallersReceiveWhatWasHandedOut(
      n: nat, programs: seq<seq<Call>>, turns: seq<Turn>, s: State, i: nat)
    requires n >= 2 && Reached(n, programs, turns, s) && i < |programs|
    ensures |s.past.handed| == |s.past.takers| && |s.procs| == |programs|
    ensures By(s.past.handed, s.past.takers, i) == Received(s.procs[i])
    ensures s.procs[i].todo == [] ==> By(s.past.handed, s.past.takers, i) == Returned(s.procs[i].log)
  {
    var s0 := Init(n, programs);
    InitHolds(n, programs);
    assert Ledger(s0);
    RunKeepsLedger(s0, turns);
  }

  lemma {:induction false} TakersAreCallers(n: nat, programs: seq<seq<Call>>, turns: seq<Turn>, s: State)
    requires n >= 2 && Reached(n, programs, turns, s)
    ensures forall k | 0 <= k < |s.past.takers| :: s.past.takers[k] < |programs|
    ensures forall k | 0 <= k < |s.past.givers| :: s.past.givers[k] < |programs|
  {
    InitHolds(n, programs);
    assert Ledger(Init(n, programs));
    RunKeepsLedger(Init(n, programs), turns);
  }

  lemma {:induction false} ByKeepsKeysDistinct(js: seq<JobValue>, who: seq<nat>, i: nat)
    requires |js| == |who| && KeysDistinct(js)
    ensures KeysDistinct(By(js, who, i))
  {
    var f := ByPositions(js, who, i);
  }

  /** If the (pid, id) pairs put in are distinct, no job is returned to two callers, nor twice to
      one. */
  lemma {:induction false} NoJobReachesTwoCallers(
      n: nat, programs: seq<seq<Call>>, turns: seq<Turn>, s: State, i: nat, j: nat)
    requires n >= 2 && Reached(n, programs, turns, s) && i < |programs| && j < |programs|
    requires KeysDistinct(s.past.accepted)
    ensures |s.procs| == |programs|
    ensures KeysDistinct(Received(s.procs[i]))
    ensures i != j ==> forall v, w | v in Received(s.procs[i]) && w in Received(s.procs[j]) :: !SameKey(v, w)
  {
    hide By, Received, Run, Possible;
    CallersReceiveWhatWasHandedOut(n, programs, turns, s, i);
    CallersReceiveWhatWasHandedOut(n, programs, turns, s, j);
    EachJobOnceInOrder(n, programs, turns, s, 0);
    ByKeepsKeysDistinct(s.past.handed, s.past.takers, i);
    var mine, others := By(s.past.handed, s.past.takers, i), By(s.past.handed, s.past.takers, j);
    var f := ByPositions(s.past.handed, s.past.takers, i);
    var g := ByPositions(s.past.handed, s.past.takers, j);
    forall v, w | i != j && v in mine && w in others ensures !SameKey(v, w) {
      var a: nat :| a < |mine| && mine[a] == v;
      var b: nat :| b < |others| && others[b] == w;
      assert f[a] != g[b];
    }
  }

  predicate NoFailures(turns: seq<Turn>) {
    forall k | 0 <= k < |turns| :: !turns[k].fails
  }

  lemma {:induction false} StepGives(s: State, t: Turn, i: nat)
    requires Inv(s) && Ledger(s) && Enabled(s, t) && !t.fails && i < |s.procs|
    requires Ledger(Step(s, t))
    ensures By(Step(s, t).past.accepted, Step(s, t).past.givers, i) + ToGive(Step(s, t).procs[i])
         == By(s.past.accepted, s.past.givers, i) + ToGive(s.procs[i])
  {
    hide Ring.Clean, Ring.Contents, Ring.Window, Sum, By, ToGive, Step;
    StepRecords(s, t);
    MoverGives(s, t);
    var given := Gives(s, t);
    if given != [] {
      ByAppend(s.past.accepted, s.past.givers, given[0], t.id, i);
      assert given == [given[0]];
    } else {
      assert Step(s, t).past.accepted == s.past.accepted && Step(s, t).past.givers == s.past.givers;
      assert [] + ToGive(Step(s, t).procs[t.id]) == ToGive(Step(s, t).procs[t.id]);
    }
  }

  lemma {:induction false} GivenPlusToGive(s: State, turns: seq<Turn>, i: nat)
    requires Inv(s) && Ledger(s) && Possible(s, turns) && NoFailures(turns) && i < |s.procs|
    ensures Ledger(Run(s, turns))
    ensures By(Run(s, turns).past.accepted, Run(s, turns).past.givers, i) + ToGive(Run(s, turns).procs[i])
         == By(s.past.accepted, s.past.givers, i) + ToGive(s.procs[i])
    decreases |turns|
  {
    if turns != [] {
      hide Ring.Clean, Ring.Contents, Ring.Window, Sum, By, ToGive;
      StepKeepsInv(s, turns[0]);
      StepKeepsLedger(s, turns[0]);
      StepGives(s, turns[0], i);
      GivenPlusToGive(Step(s, turns[0]), turns[1..], i);
    }
  }

  /** When no wait fails, what each process has put in is, in program order, the first part of
      what its program offers; a process that has finished has put in all of it. */
  lemma {:induction false} ProducersKeepProgramOrder(
      n: nat, programs: seq<seq<Call>>, turns: seq<Turn>, s: State, i: nat)
    requires n >= 2 && Reached(n, programs, turns, s) && NoFailures(turns) && i < |programs|
    ensures |s.past.accepted| == |s.past.givers| && |s.procs| == |programs|
    ensures By(s.past.accepted, s.past.givers, i) + ToGive(s.procs[i]) == Offers(programs[i])
    ensures s.procs[i].todo == [] ==> By(s.past.accepted, s.past.givers, i) == Offers(programs[i])
  {
    var s0 := Init(n, programs);
    InitHolds(n, programs);
    assert Ledger(s0);
    GivenPlusToGive(s0, turns, i);
    assert By([], [], i) + Offers(programs[i]) == Offers(programs[i]);
  }

  /** A call that gives up because a wait fails offers its job to nobody; the calls after it are
      as before. */
  lemma {:induction false} FailedStepGives(s: State, t: Turn)
    requires Inv(s) && Enabled(s, t) && t.fails
    ensures Subsequence(ToGive(Step(s, t).procs[t.id]), ToGive(s.procs[t.id]))
    ensures Step(s, t).past.accepted == s.past.accepted && Step(s, t).past.givers == s.past.givers
  {
    hide Ring.Clean, Ring.Contents, Ring.Window, Sum, Offers, Normalise;
    var p := s.procs[t.id];
    OffersFirst(p.todo);
    var rest := Offers(p.todo[1..]);
    SubsequenceOfItself(rest);
    assert Offers(p.todo) != rest ==> Offers(p.todo)[1..] == rest;
  }

  lemma {:induction false} StepGivesInOrder(s: State, t: Turn, i: nat)
    requires Inv(s) && Ledger(s) && Enabled(s, t) && i < |s.procs|
    requires Ledger(Step(s, t))
    ensures Subsequence(By(Step(s, t).past.accepted, Step(s, t).past.givers, i) + ToGive(Step(s, t).procs[i]),
                        By(s.past.accepted, s.past.givers, i) + ToGive(s.procs[i]))
  {
    hide Inv, By, ToGive, Subsequence;
    var given, toGive := By(s.past.accepted, s.past.givers, i), ToGive(s.procs[i]);
    if t.fails {
      FailedStepGives(s, t);
      SubsequenceOfItself(given);
      SubsequenceOfItself(toGive);
      SubsequenceConcat(given, given, ToGive(Step(s, t).procs[i]), toGive);
    } else {
      StepGives(s, t, i);
      SubsequenceOfItself(given + toGive);
    }
  }

  lemma {:induction false} RunGivesInOrder(s: State, turns: seq<Turn>, i: nat)
    requires Inv(s) && Ledger(s) && Possible(s, turns) && i < |s.procs|
    ensures Ledger(Run(s, turns))
    ensures Subsequence(By(Run(s, turns).past.accepted, Run(s, turns).past.givers, i) + ToGive(Run(s, turns).procs[i]),
                        By(s.past.accepted, s.past.givers, i) + ToGive(s.procs[i]))
    decreases |turns|
  {
    var given, toGive := By(s.past.accepted, s.past.givers, i), ToGive(s.procs[i]);
    if turns == [] {
      SubsequenceOfItself(given + toGive);
    } else {
      hide Inv, By, ToGive, Subsequence, Step, Enabled;
      var s', r := Step(s, turns[0]), Run(s, turns);
      StepKeepsInv(s, turns[0]);
      StepKeepsLedger(s, turns[0]);
      StepGivesInOrder(s, turns[0], i);
      RunGivesInOrder(s', turns[1..], i);
      SubsequenceTransitive(By(r.past.accepted, r.past.givers, i) + ToGive(r.procs[i]),
                            By(s'.past.accepted, s'.past.givers, i) + ToGive(s'.procs[i]),
                            given + toGive);
    }
  }

  /** In every run, failing waits and NULL jobs included: what a process has put in, and then what
      it has still to put in, is in its program's order. Only calls that gave up are left out. */
  lemma {:induction false} ProducersKeepOrderThroughFailures(
      n: nat, programs: seq<seq<Call>>, turns: seq<Turn>, s: State, i: nat)
    requires n >= 2 && Reached(n, programs, turns, s) && i < |programs|
    ensures |s.past.accepted| == |s.past.givers| && |s.procs| == |programs|
    ensures Subsequence(By(s.past.accepted, s.past.givers, i) + ToGive(s.procs[i]), Offers(programs[i]))
    ensures Subsequence(By(s.past.accepted, s.past.givers, i), Offers(programs[i]))
  {
    var s0 := Init(n, programs);
    InitHolds(n, programs);
    assert Ledger(s0);
    RunGivesInOrder(s0, turns, i);
    assert By([], [], i) + Offers(programs[i]) == Offers(programs[i]);
    hide Inv, By, ToGive, Subsequence, Run, Possible;
    var given := By(s.past.accepted, s.past.givers, i);
    PrefixIsSubsequence(given, given + ToGive(s.procs[i]));
    SubsequenceTransitive(given, given + ToGive(s.procs[i]), Offers(programs[i]));
  }

  /** Which process put in each of the jobs that `j` has received. */
  function Sources(s: State, j: nat): seq<nat>
    requires |s.past.handed| == |s.past.takers| && |s.past.handed| <= |s.past.givers|
  {
    By(s.past.givers[..|s.past.handed|], s.past.takers, j)
  }

  /** End to end, in every run: the jobs that any one caller has received from any one process
      reach it in the order of that process's program. */
  lemma {:induction false} CallersSeeProgramOrder(
      n: nat, programs: seq<seq<Call>>, turns: seq<Turn>, s: State, i: nat, j: nat)
    requires n >= 2 && Reached(n, programs, turns, s) && i < |programs| && j < |programs|
    ensures |s.past.handed| == |s.past.takers| && |s.past.handed| <= |s.past.givers| && |s.procs| == |programs|
    ensures |Sources(s, j)| == |Received(s.procs[j])|
    ensures Subsequence(By(Received(s.procs[j]), Sources(s, j), i), Offers(programs[i]))
  {
    hide By, Received, Run, Possible, Subsequence, Offers, Init;
    CallersReceiveWhatWasHandedOut(n, programs, turns, s, j);
    ProducersKeepOrderThroughFailures(n, programs, turns, s, i);
    assert s.past.handed <= s.past.accepted by {
      EveryReachedStateIsSafe(n, programs, turns, s);
    }
    var m := |s.past.handed|;
    assert s.past.accepted[..m] == s.past.handed;
    var all, mine := By(s.past.accepted, s.past.givers, i), By(s.past.handed, s.past.givers[..m], i);
    ByWithinBy(s.past.handed, s.past.givers[..m], s.past.takers, i, j);
    ByOfPrefix(s.past.accepted, s.past.givers, m, i);
    PrefixIsSubsequence(mine, all);
    SubsequenceTransitive(mine, all, Offers(programs[i]));
    SubsequenceTransitive(By(Received(s.procs[j]), Sources(s, j), i), mine, Offers(programs[i]));
  }

  /** A process whose program has no dequeue never receives a job. */
  lemma {:induction false} NonConsumerReceivesNothing(s: State, turns: seq<Turn>, i: nat)
    requires Inv(s) && Possible(s, turns) && i < |s.procs|
    requires Dequeue !in s.procs[i].todo && Received(s.procs[i]) == []
    ensures Received(Run(s, turns).procs[i]) == []
    decreases |turns|
  {
    if turns != [] {
      var s' := Step(s, turns[0]);
      StepKeepsInv(s, turns[0]);
      if turns[0].id == i {
        MoverReceives(s, turns[0]);
        assert Typed(s.procs[i]) && s.procs[i].todo[0] in s.procs[i].todo;
        assert Holds(s.procs[i]) ==> Knows(s.ring, s.procs[i]);
      }
      hide Inv, Received, Step, Enabled;
      NonConsumerReceivesNothing(s', turns[1..], i);
    }
  }
}
