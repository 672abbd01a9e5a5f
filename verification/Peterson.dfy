/** Busy-waiting mutual exclusion for two processes of opposite parity: the entry protocol of
    test/test_ipc.c, which sets interest before turn, and the one of mutex_peterson.c, which
    sets turn before interest. One step is one read or one write of a shared variable. */
module Peterson {
  datatype Order = InterestFirst | TurnFirst

  /** The two processes, by the parity of their ids. */
  datatype Side = Even | Odd

  function Other(p: Side): Side {
    if p == Even then Odd else Even
  }

  datatype Pair<T> = Pair(even: T, odd: T)
  {
    function Of(p: Side): T {
      if p == Even then even else odd
    }

    function With(p: Side, v: T): (r: Pair<T>)
      ensures r.Of(p) == v && r.Of(Other(p)) == Of(Other(p))
    {
      if p == Even then this.(even := v) else this.(odd := v)
    }
  }

  /** What a process does next: its first or second write of the doorway, the read of `turn` or
      of the other's interest in its waiting loop, or its leave. */
  datatype Point = Outside | Doorway | ReadTurn | ReadOther | Inside

  datatype State = State(turn: int, interested: Pair<bool>, at: Pair<Point>)

  /** Ids as mutex_peterson.h assumes them. */
  predicate IdsOk(ids: Pair<int>) {
    ids.even >= 0 && ids.odd >= 0 && ids.even % 2 == 0 && ids.odd % 2 == 1
  }

  /** ZEROED shared memory and nobody in the protocol. */
  function Init(): State {
    State(0, Pair(false, false), Pair(Outside, Outside))
  }

  function Step(o: Order, ids: Pair<int>, s: State, p: Side): State {
    match s.at.Of(p)
    case Outside =>
      if o == InterestFirst then s.(interested := s.interested.With(p, true), at := s.at.With(p, Doorway))
      else s.(turn := ids.Of(p), at := s.at.With(p, Doorway))
    case Doorway =>
      if o == InterestFirst then s.(turn := ids.Of(p), at := s.at.With(p, ReadTurn))
      else s.(interested := s.interested.With(p, true), at := s.at.With(p, ReadTurn))
    case ReadTurn =>
      s.(at := s.at.With(p, if s.turn == ids.Of(p) then ReadOther else Inside))
    case ReadOther =>
      s.(at := s.at.With(p, if s.interested.Of(Other(p)) then ReadTurn else Inside))
    case Inside =>
      s.(interested := s.interested.With(p, false), at := s.at.With(p, Outside))
  }

  function Run(o: Order, ids: Pair<int>, s: State, schedule: seq<Side>): State
    decreases |schedule|
  {
    if schedule == [] then s else Run(o, ids, Step(o, ids, s, schedule[0]), schedule[1..])
  }

  lemma {:induction false} RunAppend(o: Order, ids: Pair<int>, s: State, a: seq<Side>, b: seq<Side>)
    ensures Run(o, ids, s, a + b) == Run(o, ids, Run(o, ids, s, a), b)
    decreases |a|
  {
    if a == [] {
      assert a + b == b;
    } else {
      assert (a + b)[1..] == a[1..] + b;
      RunAppend(o, ids, Step(o, ids, s, a[0]), a[1..], b);
    }
  }

  predicate BothInside(s: State) {
    s.at == Pair(Inside, Inside)
  }

  predicate Waits(s: State, p: Side) {
    s.at.Of(p) == ReadTurn || s.at.Of(p) == ReadOther
  }

  /** Has written `turn` in its current entry. */
  predicate TookTurn(o: Order, s: State, p: Side) {
    match s.at.Of(p)
    case Outside => false
    case Doorway => o == TurnFirst
    case _ => true
  }

  /** Has set its interest in its current entry. */
  predicate Shows(o: Order, s: State, p: Side) {
    match s.at.Of(p)
    case Outside => false
    case Doorway => o == InterestFirst
    case _ => true
  }

  /** Holds in both orders on every run. */
  predicate Base(o: Order, ids: Pair<int>, s: State) {
    IdsOk(ids) && BaseOf(o, ids, s, Even) && BaseOf(o, ids, s, Odd)
  }

  predicate BaseOf(o: Order, ids: Pair<int>, s: State, p: Side) {
    && s.interested.Of(p) == Shows(o, s, p)
    && (TookTurn(o, s, p) ==> s.turn == ids.even || s.turn == ids.odd)
  }

  /** If `p` is inside while the other waits, it is the other's turn to wait. */
  predicate WaiterHasTurn(ids: Pair<int>, s: State, p: Side) {
    s.at.Of(p) == Inside && Waits(s, Other(p)) ==> s.turn == ids.Of(Other(p))
  }

  lemma {:induction false} BaseKept(o: Order, ids: Pair<int>, s: State, p: Side)
    requires Base(o, ids, s)
    ensures Base(o, ids, Step(o, ids, s, p))
  {
  }

  lemma {:induction false} RunKeepsBase(o: Order, ids: Pair<int>, s: State, schedule: seq<Side>)
    requires Base(o, ids, s)
    ensures Base(o, ids, Run(o, ids, s, schedule))
    decreases |schedule|
  {
    if schedule != [] {
      BaseKept(o, ids, s, schedule[0]);
      RunKeepsBase(o, ids, Step(o, ids, s, schedule[0]), schedule[1..]);
    }
  }

  /** So every state that either protocol reaches from zeroed memory is one that the theorems on
      bypass and progress speak of. */
  lemma {:induction false} BaseFromStart(o: Order, ids: Pair<int>, schedule: seq<Side>)
    requires IdsOk(ids)
    ensures Base(o, ids, Run(o, ids, Init(), schedule))
  {
    RunKeepsBase(o, ids, Init(), schedule);
  }

  /** What one step may touch: the process's own point and interest, and `turn` only where it
      takes the turn, with its own id. It moves from outside through the doorway to the loop, from
      the loop to the inside, and from there outside. */
  lemma {:induction false} StepTouches(o: Order, ids: Pair<int>, s: State, p: Side)
    requires Base(o, ids, s)
    ensures var r := Step(o, ids, s, p);
            && r.at.Of(Other(p)) == s.at.Of(Other(p))
            && r.interested.Of(Other(p)) == s.interested.Of(Other(p))
            && r.interested.Of(p) == Shows(o, r, p)
            && r.turn == (if TookTurn(o, r, p) && !TookTurn(o, s, p) then ids.Of(p) else s.turn)
            && match s.at.Of(p)
               case Outside => r.at.Of(p) == Doorway
               case Doorway => Waits(r, p)
               case Inside => r.at.Of(p) == Outside
               case _ => Waits(r, p) || r.at.Of(p) == Inside
  {
  }

  // ---- Interest first: mutual exclusion without conditions ----

  predicate InterestInv(ids: Pair<int>, s: State) {
    && Base(InterestFirst, ids, s)
    && !BothInside(s)
    && WaiterHasTurn(ids, s, Even) && WaiterHasTurn(ids, s, Odd)
  }

  lemma {:induction false} InterestInvKept(ids: Pair<int>, s: State, p: Side)
    requires InterestInv(ids, s)
    ensures InterestInv(ids, Step(InterestFirst, ids, s, p))
  {
  }

  /** The protocol of test_ipc.c: whatever the ids and the schedule, never both inside. */
  lemma {:induction false} InterestFirstExcludes(ids: Pair<int>, s: State, schedule: seq<Side>)
    requires InterestInv(ids, s)
    ensures InterestInv(ids, Run(InterestFirst, ids, s, schedule))
    ensures !BothInside(Run(InterestFirst, ids, s, schedule))
    decreases |schedule|
  {
    if schedule != [] {
      InterestInvKept(ids, s, schedule[0]);
      InterestFirstExcludes(ids, Step(InterestFirst, ids, s, schedule[0]), schedule[1..]);
    }
  }

  lemma {:induction false} InterestFirstExcludesFromStart(ids: Pair<int>, schedule: seq<Side>)
    requires IdsOk(ids)
    ensures !BothInside(Run(InterestFirst, ids, Init(), schedule))
  {
    InterestFirstExcludes(ids, Init(), schedule);
  }

  // ---- Turn first: exactly when it excludes ----

  /** The step does not write `turn` while the other is between its two doorway writes. */
  predicate Careful(s: State, p: Side) {
    s.at.Of(p) == Outside ==> s.at.Of(Other(p)) != Doorway
  }

  predicate CarefulRun(ids: Pair<int>, s: State, schedule: seq<Side>)
    decreases |schedule|
  {
    schedule == [] || (Careful(s, schedule[0]) && CarefulRun(ids, Step(TurnFirst, ids, s, schedule[0]), schedule[1..]))
  }

  predicate TurnInv(ids: Pair<int>, s: State) {
    && Base(TurnFirst, ids, s)
    && !BothInside(s)
    && (s.at.even == Doorway ==> s.turn == ids.even)
    && (s.at.odd == Doorway ==> s.turn == ids.odd)
    && WaiterHasTurn(ids, s, Even) && WaiterHasTurn(ids, s, Odd)
  }

  lemma {:induction false} TurnInvKept(ids: Pair<int>, s: State, p: Side)
    requires TurnInv(ids, s) && Careful(s, p)
    ensures TurnInv(ids, Step(TurnFirst, ids, s, p))
  {
  }

  /** The protocol of mutex_peterson.c excludes on every careful run. */
  lemma {:induction false} CarefulRunExcludes(ids: Pair<int>, s: State, schedule: seq<Side>)
    requires TurnInv(ids, s) && CarefulRun(ids, s, schedule)
    ensures TurnInv(ids, Run(TurnFirst, ids, s, schedule))
    ensures !BothInside(Run(TurnFirst, ids, s, schedule))
    decreases |schedule|
  {
    if schedule != [] {
      TurnInvKept(ids, s, schedule[0]);
      CarefulRunExcludes(ids, Step(TurnFirst, ids, s, schedule[0]), schedule[1..]);
    }
  }

  lemma {:induction false} CarefulRunExcludesFromStart(ids: Pair<int>, schedule: seq<Side>)
    requires IdsOk(ids) && CarefulRun(ids, Init(), schedule)
    ensures TurnInv(ids, Run(TurnFirst, ids, Init(), schedule))
    ensures !BothInside(Run(TurnFirst, ids, Init(), schedule))
  {
    CarefulRunExcludes(ids, Init(), schedule);
  }

  predicate BreachedBy(ids: Pair<int>, s: State, schedule: seq<Side>) {
    CarefulRun(ids, s, schedule) && BothInside(Run(TurnFirst, ids, s, schedule))
  }

  /** After a careless write of `turn` by `p`, this continuation puts both inside. */
  function Breach(p: Side): seq<Side> {
    [p, p, p, Other(p), Other(p)]
  }

  lemma {:induction false} CarelessWriteBreaks(ids: Pair<int>, s: State, p: Side)
    requires TurnInv(ids, s) && s.at.Of(p) == Outside && !Careful(s, p)
    ensures BreachedBy(ids, Step(TurnFirst, ids, s, p), Breach(p))
  {
  }

  /** Exactly when a write of `turn` is safe: a careful continuation can put both inside after it
      if and only if the other process stood between its two doorway writes. */
  lemma {:induction false} TurnWriteBreaksIff(ids: Pair<int>, s: State, p: Side)
    requires TurnInv(ids, s) && s.at.Of(p) == Outside
    ensures (exists schedule :: BreachedBy(ids, Step(TurnFirst, ids, s, p), schedule))
       <==> s.at.Of(Other(p)) == Doorway
  {
    var s1 := Step(TurnFirst, ids, s, p);
    if s.at.Of(Other(p)) == Doorway {
      CarelessWriteBreaks(ids, s, p);
    } else {
      TurnInvKept(ids, s, p);
      forall schedule | CarefulRun(ids, s1, schedule)
        ensures !BreachedBy(ids, s1, schedule)
      {
        CarefulRunExcludes(ids, s1, schedule);
      }
    }
  }

  /** A run of mutex_peterson.c from the start that puts both processes inside. */
  lemma {:induction false} TurnFirstFails(ids: Pair<int>)
    requires IdsOk(ids)
    ensures exists schedule :: BothInside(Run(TurnFirst, ids, Init(), schedule))
  {
    var s1 := Step(TurnFirst, ids, Init(), Even);
    CarelessWriteBreaks(ids, s1, Odd);
    var schedule := [Even] + ([Odd] + Breach(Odd));
    assert schedule[1..] == [Odd] + Breach(Odd) && ([Odd] + Breach(Odd))[1..] == Breach(Odd);
    assert BothInside(Run(TurnFirst, ids, Init(), schedule));
  }

  // ---- Both orders: bounded bypass and progress ----

  /** `p` is in its waiting loop at every point of the run. */
  predicate WaitsThroughout(o: Order, ids: Pair<int>, s: State, schedule: seq<Side>, p: Side)
    decreases |schedule|
  {
    Waits(s, p) && (schedule != [] ==> WaitsThroughout(o, ids, Step(o, ids, s, schedule[0]), schedule[1..], p))
  }

  /** How often `q` gets inside during the run. */
  function Entries(o: Order, ids: Pair<int>, s: State, schedule: seq<Side>, q: Side): nat
    decreases |schedule|
  {
    if schedule == [] then 0
    else
      var s' := Step(o, ids, s, schedule[0]);
      (if s.at.Of(q) != Inside && s'.at.Of(q) == Inside then 1 else 0) + Entries(o, ids, s', schedule[1..], q)
  }

  /** Whether `q` may still get past a waiting process: it has written `turn` already, and the
      waiting process has overwritten it. */
  predicate MayPass(o: Order, ids: Pair<int>, s: State, q: Side) {
    s.turn != ids.Of(q) && TookTurn(o, s, q) && s.at.Of(q) != Inside
  }

  /** While one process waits, the other gets in at most once more, and only if it may pass. */
  lemma {:induction false} BypassAtMostOnce(o: Order, ids: Pair<int>, s: State, schedule: seq<Side>, p: Side)
    requires Base(o, ids, s) && WaitsThroughout(o, ids, s, schedule, p)
    ensures Entries(o, ids, s, schedule, Other(p)) <= if MayPass(o, ids, s, Other(p)) then 1 else 0
    decreases |schedule|
  {
    if schedule != [] {
      BaseKept(o, ids, s, schedule[0]);
      BypassAtMostOnce(o, ids, Step(o, ids, s, schedule[0]), schedule[1..], p);
    }
  }

  /** `p` is inside at some point of the run. */
  predicate GetsIn(o: Order, ids: Pair<int>, s: State, schedule: seq<Side>, p: Side)
    decreases |schedule|
  {
    s.at.Of(p) == Inside || (schedule != [] && GetsIn(o, ids, Step(o, ids, s, schedule[0]), schedule[1..], p))
  }

  /** A process leaves its loop only to get inside. */
  lemma {:induction false} WaitsOrGetsIn(o: Order, ids: Pair<int>, s: State, schedule: seq<Side>, p: Side)
    requires Base(o, ids, s) && Waits(s, p)
    ensures WaitsThroughout(o, ids, s, schedule, p) <==> !GetsIn(o, ids, s, schedule, p)
    decreases |schedule|
  {
    if schedule != [] {
      var s' := Step(o, ids, s, schedule[0]);
      BaseKept(o, ids, s, schedule[0]);
      StepTouches(o, ids, s, schedule[0]);
      if Waits(s', p) {
        WaitsOrGetsIn(o, ids, s', schedule[1..], p);
      }
    }
  }

  lemma {:induction false} GetsInLater(
      o: Order, ids: Pair<int>, s: State, a: seq<Side>, b: seq<Side>, p: Side)
    requires GetsIn(o, ids, Run(o, ids, s, a), b, p)
    ensures GetsIn(o, ids, s, a + b, p)
    decreases |a|
  {
    if a == [] {
      assert a + b == b;
    } else {
      assert (a + b)[1..] == a[1..] + b;
      GetsInLater(o, ids, Step(o, ids, s, a[0]), a[1..], b, p);
    }
  }

  /** One undisturbed evaluation of the loop test lets a process in exactly if the turn is not its
      own or the other is not interested, and otherwise leaves everything as it was. */
  lemma {:induction false} LoopTest(o: Order, ids: Pair<int>, s: State, p: Side)
    requires Base(o, ids, s) && s.at.Of(p) == ReadTurn
    ensures GetsIn(o, ids, s, [p, p], p) <==> s.turn != ids.Of(p) || !s.interested.Of(Other(p))
    ensures !GetsIn(o, ids, s, [p, p], p) ==> Run(o, ids, s, [p, p]) == s
  {
    assert [p, p][1..] == [p] && [p][1..] == [];
    var s1 := Step(o, ids, s, p);
    var s2 := Step(o, ids, s1, p);
    assert GetsIn(o, ids, s2, [], p) <==> s2.at.Of(p) == Inside;
    assert GetsIn(o, ids, s1, [p], p) <==> s1.at.Of(p) == Inside || s2.at.Of(p) == Inside;
    assert Run(o, ids, s1, [p]) == Run(o, ids, s2, []);
  }

  /** `q` shows no interest at any point of the run. */
  predicate Uninterested(o: Order, ids: Pair<int>, s: State, schedule: seq<Side>, q: Side)
    decreases |schedule|
  {
    && !s.interested.Of(q)
    && (schedule != [] ==> Uninterested(o, ids, Step(o, ids, s, schedule[0]), schedule[1..], q))
  }

  /** How many steps an unopposed process needs to get inside. */
  function StepsIn(at: Point): nat {
    match at
    case Outside => 4
    case Doorway => 3
    case ReadTurn => 2
    case ReadOther => 1
    case Inside => 0
  }

  /** Both orders: a process gets in within four of its own steps as long as the other shows no
      interest, wherever in the protocol the two are. */
  lemma {:induction false} GetsInUnopposed(o: Order, ids: Pair<int>, s: State, schedule: seq<Side>, p: Side)
    requires Base(o, ids, s) && Uninterested(o, ids, s, schedule, Other(p))
    requires Count(schedule, p) >= StepsIn(s.at.Of(p))
    ensures GetsIn(o, ids, s, schedule, p)
    decreases |schedule|
  {
    if s.at.Of(p) != Inside {
      var s' := Step(o, ids, s, schedule[0]);
      BaseKept(o, ids, s, schedule[0]);
      StepTouches(o, ids, s, schedule[0]);
      GetsInUnopposed(o, ids, s', schedule[1..], p);
    }
  }

  /** With the other outside, entering takes exactly four accesses, and leaving one. */
  lemma {:induction false} AloneInAndOut(o: Order, ids: Pair<int>, s: State, p: Side)
    requires Base(o, ids, s) && s.at == Pair(Outside, Outside)
    ensures Run(o, ids, s, [p, p, p, p]).at == s.at.With(p, Inside)
    ensures !GetsIn(o, ids, s, [p, p, p], p)
    ensures Run(o, ids, s, [p, p, p, p, p]) == s.(turn := ids.Of(p))
  {
    var s1 := Step(o, ids, s, p);
    var s2 := Step(o, ids, s1, p);
    var s3 := Step(o, ids, s2, p);
    var s4 := Step(o, ids, s3, p);
    var ps := [p, p, p, p, p];
    assert ps[1..] == [p, p, p, p] && [p, p, p, p][1..] == [p, p, p];
    assert [p, p, p][1..] == [p, p] && [p, p][1..] == [p] && [p][1..] == [];
    assert Run(o, ids, s4, [p]) == Run(o, ids, Step(o, ids, s4, p), []);
    assert Run(o, ids, s3, [p]) == Run(o, ids, s4, []) == s4;
    assert !GetsIn(o, ids, s3, [], p);
    assert !GetsIn(o, ids, s2, [p], p);
    assert !GetsIn(o, ids, s1, [p, p], p);
    assert Run(o, ids, s2, [p, p]) == s4 && Run(o, ids, s1, [p, p, p]) == s4;
    assert Run(o, ids, s2, [p, p, p]) == Run(o, ids, s3, [p, p]) == Run(o, ids, s4, [p]);
    assert Run(o, ids, s1, [p, p, p, p]) == Run(o, ids, s4, [p]);
  }

  function Count(schedule: seq<Side>, p: Side): nat {
    if schedule == [] then 0 else (if schedule[0] == p then 1 else 0) + Count(schedule[1..], p)
  }

  /** A waiting process whose id is not in `turn` is inside after at most two of its own steps,
      whatever the other does meanwhile; after one if it is about to read `turn`. */
  lemma {:induction false} LeavesWhenNotItsTurn(o: Order, ids: Pair<int>, s: State, schedule: seq<Side>, p: Side)
    requires Base(o, ids, s) && Waits(s, p) && s.turn != ids.Of(p)
    requires Count(schedule, p) >= if s.at.Of(p) == ReadTurn then 1 else 2
    ensures !WaitsThroughout(o, ids, s, schedule, p)
    ensures GetsIn(o, ids, s, schedule, p)
    decreases |schedule|
  {
    WaitsOrGetsIn(o, ids, s, schedule, p);
    BaseKept(o, ids, s, schedule[0]);
    var s' := Step(o, ids, s, schedule[0]);
    if Waits(s', p) {
      LeavesWhenNotItsTurn(o, ids, s', schedule[1..], p);
    }
  }

  /** How many of its own steps `q` is from having written `turn` last, while the other waits. */
  function StepsToYield(o: Order, ids: Pair<int>, s: State, q: Side): nat {
    if s.turn == ids.Of(q) then 0 else
    match s.at.Of(q)
    case Outside => if o == InterestFirst then 2 else 1
    case Doorway => if o == InterestFirst then 1 else 4
    case ReadTurn => if o == InterestFirst then 4 else 3
    case ReadOther => if o == InterestFirst then 5 else 4
    case Inside => if o == InterestFirst then 3 else 2
  }

  lemma {:induction false} OtherYields(o: Order, ids: Pair<int>, s: State, schedule: seq<Side>, p: Side)
    requires Base(o, ids, s) && WaitsThroughout(o, ids, s, schedule, p)
    requires Count(schedule, Other(p)) >= StepsToYield(o, ids, s, Other(p))
    ensures Run(o, ids, s, schedule).turn == ids.Of(Other(p))
    ensures Base(o, ids, Run(o, ids, s, schedule)) && Waits(Run(o, ids, s, schedule), p)
    decreases |schedule|
  {
    if schedule != [] {
      BaseKept(o, ids, s, schedule[0]);
      OtherYields(o, ids, Step(o, ids, s, schedule[0]), schedule[1..], p);
    }
  }

  lemma {:induction false} WaitsThroughoutSplit(o: Order, ids: Pair<int>, s: State, a: seq<Side>, b: seq<Side>, p: Side)
    requires WaitsThroughout(o, ids, s, a + b, p)
    ensures WaitsThroughout(o, ids, s, a, p)
    ensures WaitsThroughout(o, ids, Run(o, ids, s, a), b, p)
    decreases |a|
  {
    if a == [] {
      assert a + b == b;
    } else {
      assert (a + b)[1..] == a[1..] + b;
      WaitsThroughoutSplit(o, ids, Step(o, ids, s, a[0]), a[1..], b, p);
    }
  }

  /** No starvation, in both orders: once the other has taken five steps and then the waiting
      process two, it has got inside. */
  lemma {:induction false} NoStarvation(o: Order, ids: Pair<int>, s: State, a: seq<Side>, b: seq<Side>, p: Side)
    requires Base(o, ids, s) && Waits(s, p)
    requires Count(a, Other(p)) >= 5 && Count(b, p) >= 2
    ensures GetsIn(o, ids, s, a + b, p)
  {
    WaitsOrGetsIn(o, ids, s, a + b, p);
    if WaitsThroughout(o, ids, s, a + b, p) {
      WaitsThroughoutSplit(o, ids, s, a, b, p);
      OtherYields(o, ids, s, a, p);
      LeavesWhenNotItsTurn(o, ids, Run(o, ids, s, a), b, p);
    }
  }

  /** After two of its own steps a process is in its loop or has got inside. */
  lemma {:induction false} DoorwayPassed(o: Order, ids: Pair<int>, s: State, schedule: seq<Side>, p: Side)
    requires Base(o, ids, s)
    requires Count(schedule, p) >= match s.at.Of(p) case Outside => 2 case Doorway => 1 case _ => 0
    ensures GetsIn(o, ids, s, schedule, p) || Waits(Run(o, ids, s, schedule), p)
    decreases |schedule|
  {
    if schedule != [] {
      BaseKept(o, ids, s, schedule[0]);
      StepTouches(o, ids, s, schedule[0]);
      if s.at.Of(p) != Inside {
        DoorwayPassed(o, ids, Step(o, ids, s, schedule[0]), schedule[1..], p);
      }
    }
  }

  lemma {:induction false} GetsInSooner(
      o: Order, ids: Pair<int>, s: State, a: seq<Side>, b: seq<Side>, p: Side)
    requires GetsIn(o, ids, s, a, p)
    ensures GetsIn(o, ids, s, a + b, p)
    decreases |a|
  {
    if a != [] && s.at.Of(p) != Inside {
      assert (a + b)[1..] == a[1..] + b;
      GetsInSooner(o, ids, Step(o, ids, s, a[0]), a[1..], b, p);
    }
  }

  /** Both orders, from any state: a process that takes two steps, then sees the other take five,
      then takes two more, all interleaved otherwise at will, has got inside. So there is no
      deadlock and, under fair scheduling, everyone who wants to gets in. */
  lemma {:induction false} EveryoneGetsIn(
      o: Order, ids: Pair<int>, s: State, a: seq<Side>, b: seq<Side>, c: seq<Side>, p: Side)
    requires Base(o, ids, s)
    requires Count(a, p) >= 2 && Count(b, Other(p)) >= 5 && Count(c, p) >= 2
    ensures GetsIn(o, ids, s, a + (b + c), p)
  {
    DoorwayPassed(o, ids, s, a, p);
    if GetsIn(o, ids, s, a, p) {
      GetsInSooner(o, ids, s, a, b + c, p);
    } else {
      RunKeepsBase(o, ids, s, a);
      NoStarvation(o, ids, Run(o, ids, s, a), b, c, p);
      GetsInLater(o, ids, s, a, b + c, p);
    }
  }

  /** With both in their loops, the one whose id is not in `turn` gets in on its next evaluation,
      and the other stays in its loop until then. */
  lemma {:induction false} OneOfTwoWaitersGoes(o: Order, ids: Pair<int>, s: State, schedule: seq<Side>, p: Side)
    requires Base(o, ids, s) && Waits(s, p) && Waits(s, Other(p)) && s.turn != ids.Of(p)
    requires Count(schedule, p) >= if s.at.Of(p) == ReadTurn then 1 else 2
    ensures exists k | 0 <= k <= |schedule| ::
              Run(o, ids, s, schedule[..k]).at.Of(p) == Inside && Waits(Run(o, ids, s, schedule[..k]), Other(p))
    decreases |schedule|
  {
    BaseKept(o, ids, s, schedule[0]);
    var s' := Step(o, ids, s, schedule[0]);
    var rest := schedule[1..];
    if s'.at.Of(p) == Inside {
      assert schedule[..1] == [schedule[0]] && [schedule[0]][1..] == [];
      assert Run(o, ids, s, schedule[..1]) == s';
    } else {
      OneOfTwoWaitersGoes(o, ids, s', rest, p);
      var k :| && 0 <= k <= |rest|
               && Run(o, ids, s', rest[..k]).at.Of(p) == Inside && Waits(Run(o, ids, s', rest[..k]), Other(p));
      assert schedule[..k + 1][1..] == rest[..k];
      assert Run(o, ids, s, schedule[..k + 1]) == Run(o, ids, s', rest[..k]);
    }
  }

  // ---- The same protocols as programs over shared memory ----

  /** The shared structure and the two processes' program counters. */
  class Shared {
    var turn: int
    const interested: array<int>
    var evenAt: Point
    var oddAt: Point
    const order: Order
    const ids: Pair<int>

    ghost predicate Valid()
      reads this, interested
    {
      && interested.Length == 2 && IdsOk(ids)
      && interested[0] in {0, 1} && interested[1] in {0, 1}
    }

    function Model(): State
      reads this, interested
      requires interested.Length == 2
    {
      State(turn, Pair(interested[0] == 1, interested[1] == 1), Pair(evenAt, oddAt))
    }

    constructor (order: Order, ids: Pair<int>)
      requires IdsOk(ids)
      ensures Valid() && Model() == Init() && this.order == order && this.ids == ids && fresh(interested)
      ensures turn == 0 && interested[..] == [0, 0] && evenAt == Outside && oddAt == Outside
    {
      this.order, this.ids := order, ids;
      turn, evenAt, oddAt := 0, Outside, Outside;
      interested := new int[2](i => 0);
    }

    /** The next access of the process with this id. */
    method Move(id: int)
      requires Valid() && (id == ids.even || id == ids.odd)
      modifies this, interested
      ensures Valid()
      ensures Model() == Step(order, ids, old(Model()), if id % 2 == 0 then Even else Odd)
    {
      var otherID := 1 - id % 2;
      var at := if id % 2 == 0 then evenAt else oddAt;
      match at {
        case Outside =>
          if order == InterestFirst {
            interested[id % 2] := 1;
          } else {
            turn := id;
          }
          at := Doorway;
        case Doorway =>
          if order == InterestFirst {
            turn := id;
          } else {
            interested[id % 2] := 1;
          }
          at := ReadTurn;
        case ReadTurn =>
          at := if turn == id then ReadOther else Inside;
        case ReadOther =>
          at := if interested[otherID] == 1 then ReadTurn else Inside;
        case Inside =>
          interested[id % 2] := 0;
          at := Outside;
      }
      if id % 2 == 0 {
        evenAt := at;
      } else {
        oddAt := at;
      }
    }

    /** Runs a schedule, and reports whether both processes were ever inside together. */
    method Execute(schedule: seq<Side>) returns (clash: bool)
      requires Valid()
      modifies this, interested
      ensures Valid() && Model() == Run(order, ids, old(Model()), schedule)
      ensures clash <==> exists k | 0 <= k <= |schedule| :: BothInside(Run(order, ids, old(Model()), schedule[..k]))
      ensures order == InterestFirst && InterestInv(ids, old(Model())) ==> !clash
      ensures order == TurnFirst && TurnInv(ids, old(Model())) && CarefulRun(ids, old(Model()), schedule) ==> !clash
    {
      ghost var s := Model();
      clash := evenAt == Inside && oddAt == Inside;
      assert schedule[..0] == [];
      for i := 0 to |schedule|
        invariant Valid() && Model() == Run(order, ids, s, schedule[..i])
        invariant clash <==> exists k | 0 <= k <= i :: BothInside(Run(order, ids, s, schedule[..k]))
      {
        Move(ids.Of(schedule[i]));
        clash := clash || (evenAt == Inside && oddAt == Inside);
        assert schedule[..i + 1] == schedule[..i] + [schedule[i]];
        RunAppend(order, ids, s, schedule[..i], [schedule[i]]);
        assert [schedule[i]][1..] == [];
      }
      assert schedule[..|schedule|] == schedule;
      forall k | 0 <= k <= |schedule| && order == InterestFirst && InterestInv(ids, s)
        ensures !BothInside(Run(order, ids, s, schedule[..k]))
      {
        InterestFirstExcludes(ids, s, schedule[..k]);
      }
      forall k | 0 <= k <= |schedule| && order == TurnFirst && TurnInv(ids, s) && CarefulRun(ids, s, schedule)
        ensures !BothInside(Run(order, ids, s, schedule[..k]))
      {
        CarefulPrefix(ids, s, schedule, k);
        CarefulRunExcludes(ids, s, schedule[..k]);
      }
    }
  }

  lemma {:induction false} CarefulPrefix(ids: Pair<int>, s: State, schedule: seq<Side>, k: nat)
    requires CarefulRun(ids, s, schedule) && k <= |schedule|
    ensures CarefulRun(ids, s, schedule[..k])
    decreases k
  {
    if k > 0 {
      assert schedule[..k][1..] == schedule[1..][..k - 1];
      CarefulPrefix(ids, Step(TurnFirst, ids, s, schedule[0]), schedule[1..], k - 1);
    }
  }
}
