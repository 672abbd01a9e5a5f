/** The circular buffer of jobqueue.c as a value: the state that its functions read and
    update, the micro-steps in which they update it, and what it means as a sequence. */
module Rings {
  import opened Wrappers
  import opened Jobs

  datatype Ring = Ring(head: nat, tail: nat, slots: seq<JobValue>)
  {
    predicate Valid() {
      |slots| >= 2 && head < |slots| && tail < |slots|
    }

    function Capacity(): int {
      |slots| - 1
    }

    predicate IsEmpty() {
      head == tail
    }

    predicate IsFull()
      requires Valid()
    {
      head == Next(tail, |slots|)
    }

    /** How many slots the head-to-tail window spans. */
    function Len(): (n: nat)
      requires Valid()
      ensures n < |slots|
    {
      if head <= tail then tail - head else |slots| - head + tail
    }

    predicate InWindow(i: nat) {
      if head <= tail then head <= i < tail else i >= head || i < tail
    }

    /** The slots of the window, oldest first. */
    function Window(): (w: seq<JobValue>)
      requires Valid()
      ensures |w| == Len()
    {
      Stretch(slots, head, Len())
    }

    /** The jobs in the queue. A window slot that has been zeroed has already been handed out. */
    function Contents(): (q: seq<JobValue>)
      requires Valid()
    {
      if !IsEmpty() && Cleared(slots[head]) then Window()[1..] else Window()
    }

    /** Between operations: jobs inside the window are stored jobs, slots outside are zeroed. */
    ghost predicate Clean() {
      && Valid()
      && (forall i: nat | i < |slots| && InWindow(i) :: WellFormed(slots[i]))
      && (forall i: nat | i < |slots| && !InWindow(i) :: slots[i] == ZEROED)
    }

    /** The micro-steps of enqueue and dequeue: write a slot, advance the tail, advance the head. */
    function Put(i: nat, v: JobValue): Ring
      requires i < |slots|
    {
      this.(slots := slots[i := v])
    }

    function AdvanceTail(): Ring
      requires Valid()
    {
      this.(tail := Next(tail, |slots|))
    }

    function AdvanceHead(): Ring
      requires Valid()
    {
      this.(head := Next(head, |slots|))
    }

    /** The index that peektail reads: the slot behind the tail, wrapping at 0. */
    function LastIndex(): int {
      if tail < 1 then |slots| - 1 else tail - 1
    }
  }

  predicate Cleared(v: JobValue) {
    v.lab[0] == NUL
  }

  /** The next index of a buffer of `n` slots, which wraps round to 0. */
  function Next(i: nat, n: nat): (r: nat)
    requires i < n
    ensures r < n
  {
    if i + 1 == n then 0 else i + 1
  }

  lemma {:induction false} NextIsRemainder(i: nat, n: nat)
    requires i < n && n >= 2
    ensures Next(i, n) == (i + 1) % n
  {
  }

  /** The index `k` places after `i` in a buffer of `n` slots. */
  function Wrap(i: nat, k: nat, n: nat): (r: nat)
    requires i < n && k < n
    ensures r < n
  {
    if i + k < n then i + k else i + k - n
  }

  /** The `count` slots from index `i` on, wrapping round. */
  function Stretch(slots: seq<JobValue>, i: nat, count: nat): (w: seq<JobValue>)
    requires i < |slots| && count <= |slots|
    ensures |w| == count
    ensures forall k: nat | k < count :: w[k] == slots[Wrap(i, k, |slots|)]
  {
    seq(count, k requires 0 <= k < count => slots[Wrap(i, k, |slots|)])
  }

  function EmptyRing(n: nat): Ring {
    Ring(0, 0, seq(n, _ => ZEROED))
  }

  /** The two ends of the occupancy range are what the source's two tests detect. */
  lemma {:induction false} EmptyAndFull(r: Ring)
    requires r.Valid()
    ensures r.IsEmpty() <==> r.Len() == 0
    ensures r.IsFull() <==> r.Len() == r.Capacity()
  {
  }

  lemma {:induction false} CleanContents(r: Ring)
    requires r.Clean()
    ensures r.Contents() == r.Window()
    ensures |r.Contents()| == r.Len()
    ensures forall v | v in r.Contents() :: WellFormed(v)
  {
  }

  lemma {:induction false} EmptyRingIsClean(n: nat)
    requires n >= 2
    ensures EmptyRing(n).Clean() && EmptyRing(n).Contents() == []
  {
  }

  /** Writing the slot at the tail does not yet change the queue. */
  lemma {:induction false} PutAtTail(r: Ring, v: JobValue)
    requires r.Clean() && !r.IsFull()
    ensures var r1 := r.Put(r.tail, v);
            && r1.Valid() && !r1.IsFull()
            && r1.slots[r1.tail] == v
            && r1.Put(r1.tail, ZEROED) == r
            && r1.Contents() == r.Contents()
  {
    var r1 := r.Put(r.tail, v);
    CleanContents(r);
    assert r1.Put(r1.tail, ZEROED).slots == r.slots by {
      assert !r.InWindow(r.tail);
    }
    if !r.IsEmpty() {
      assert r.InWindow(r.head);
      assert r1.slots[r1.head] == r.slots[r.head];
      WellFormedIsNotCleared(r.slots[r.head]);
    }
    assert r1.Window() == r.Window();
  }

  /** Advancing the tail over a written slot appends that job. */
  lemma {:induction false} AdvanceTailAppends(r1: Ring)
    requires r1.Valid() && !r1.IsFull() && WellFormed(r1.slots[r1.tail])
    requires r1.Put(r1.tail, ZEROED).Clean()
    ensures var r2 := r1.AdvanceTail();
            && r2.Clean()
            && r2.Contents() == r1.Contents() + [r1.slots[r1.tail]]
  {
    var n := |r1.slots|;
    var r := r1.Put(r1.tail, ZEROED);
    var r2 := r1.AdvanceTail();
    PutAtTail(r, r1.slots[r1.tail]);
    assert r.Put(r.tail, r1.slots[r1.tail]).slots == r1.slots;
    assert r.Put(r.tail, r1.slots[r1.tail]) == r1;
    forall i: nat | i < n
      ensures (r2.InWindow(i) ==> WellFormed(r2.slots[i])) && (!r2.InWindow(i) ==> r2.slots[i] == ZEROED)
    {
      assert i != r1.tail ==> r.slots[i] == r2.slots[i];
    }
    CleanContents(r);
    CleanContents(r2);
    EmptyAndFull(r1);
    assert r2.Window() == r.Window() + [r1.slots[r1.tail]];
  }

  lemma {:induction false} ClearAtHeadIsClean(r: Ring)
    requires r.Clean() && !r.IsEmpty()
    ensures r.Put(r.head, ZEROED).AdvanceHead().Clean()
    ensures r.Put(r.head, ZEROED).AdvanceHead().Len() == r.Len() - 1
  {
  }

  lemma {:induction false} StretchAfterHead(slots: seq<JobValue>, i: nat, count: nat, v: JobValue)
    requires i < |slots| && 0 < count < |slots|
    ensures var next := Next(i, |slots|);
            && Stretch(slots, i, count) == [slots[i]] + Stretch(slots[i := v], next, count - 1)
            && Stretch(slots[i := v], i, count)[1..] == Stretch(slots[i := v], next, count - 1)
  {
    var rest := Stretch(slots[i := v], Next(i, |slots|), count - 1);
    forall k: nat | k < count - 1
      ensures rest[k] == Stretch(slots, i, count)[k + 1] == Stretch(slots[i := v], i, count)[k + 1]
    {
      assert Wrap(Next(i, |slots|), k, |slots|) == Wrap(i, k + 1, |slots|) != i;
    }
  }

  /** Clearing the slot at the head takes the oldest job out. */
  lemma {:induction false} ClearAtHead(r: Ring)
    requires r.Clean() && !r.IsEmpty()
    ensures var r1 := r.Put(r.head, ZEROED);
            && r1.Valid()
            && r1.AdvanceHead().Clean()
            && r.Contents() == [r.slots[r.head]] + r1.Contents()
            && r1.Contents() == r1.AdvanceHead().Contents()
  {
    var r1 := r.Put(r.head, ZEROED);
    ClearAtHeadIsClean(r);
    CleanContents(r);
    CleanContents(r1.AdvanceHead());
    StretchAfterHead(r.slots, r.head, r.Len(), ZEROED);
  }

  /** Enqueue and dequeue as a whole. `None` is a NULL job. */
  function Enqueued(r: Ring, job: Option<JobValue>): Ring
    requires r.Valid()
  {
    if job.None? || r.IsFull() then r else r.Put(r.tail, Normalise(job.value)).AdvanceTail()
  }

  function Dequeued(r: Ring): Ring
    requires r.Valid()
  {
    if r.IsEmpty() then r else r.Put(r.head, ZEROED).AdvanceHead()
  }

  /** The buffer implements a bounded FIFO sequence of normalised jobs. */
  lemma {:induction false} RingIsBoundedFifo(r: Ring, job: Option<JobValue>)
    requires r.Clean()
    ensures Enqueued(r, job).Clean() && Dequeued(r).Clean()
    ensures Enqueued(r, job).Contents()
         == if job.Some? && |r.Contents()| < r.Capacity() then r.Contents() + [Normalise(job.value)] else r.Contents()
    ensures Dequeued(r).Contents() == if r.Contents() == [] then [] else r.Contents()[1..]
  {
    Ends(r);
    if job.Some? && !r.IsFull() {
      NormaliseFixesWellFormed(job.value);
      PutAtTail(r, Normalise(job.value));
      AdvanceTailAppends(r.Put(r.tail, Normalise(job.value)));
    }
    if !r.IsEmpty() {
      ClearAtHead(r);
    }
  }

  /** What the four reading functions see. */
  lemma {:induction false} Ends(r: Ring)
    requires r.Clean()
    ensures r.Valid()
    ensures r.IsEmpty() <==> r.Contents() == []
    ensures r.IsFull() <==> |r.Contents()| == r.Capacity()
    ensures !r.IsEmpty() ==> 0 <= r.LastIndex() < |r.slots|
    ensures !r.IsEmpty() ==> r.Contents()[0] == r.slots[r.head]
    ensures !r.IsEmpty() ==> r.Contents()[|r.Contents()| - 1] == r.slots[r.LastIndex()]
    ensures !r.IsEmpty() ==> Normalise(r.slots[r.head]) == r.slots[r.head]
    ensures !r.IsEmpty() ==> Normalise(r.slots[r.LastIndex()]) == r.slots[r.LastIndex()]
  {
    CleanContents(r);
    EmptyAndFull(r);
    if !r.IsEmpty() {
      NormaliseFixesWellFormed(r.slots[r.head]);
      NormaliseFixesWellFormed(r.slots[r.LastIndex()]);
    }
  }

  /** How many slots hold a job. */
  function Used(slots: seq<JobValue>): nat {
    if slots == [] then 0 else (if Cleared(slots[0]) then 0 else 1) + Used(slots[1..])
  }

  lemma {:induction false} UsedOfAppend(a: seq<JobValue>, b: seq<JobValue>)
    ensures Used(a + b) == Used(a) + Used(b)
  {
    if a == [] {
      assert a + b == b;
    } else {
      assert (a + b)[1..] == a[1..] + b;
      UsedOfAppend(a[1..], b);
    }
  }

  lemma {:induction false} UsedOfUniform(s: seq<JobValue>, cleared: bool)
    requires forall i | 0 <= i < |s| :: Cleared(s[i]) == cleared
    ensures Used(s) == if cleared then 0 else |s|
  {
    if s != [] {
      UsedOfUniform(s[1..], cleared);
    }
  }

  /** A buffer whose middle stretch is cleared one way and whose ends are cleared the other. */
  lemma {:induction false} UsedOfPieces(s: seq<JobValue>, lo: nat, hi: nat, middle: bool)
    requires lo <= hi <= |s|
    requires forall i | 0 <= i < |s| :: Cleared(s[i]) == if lo <= i < hi then middle else !middle
    ensures Used(s) == if middle then |s| - (hi - lo) else hi - lo
  {
    UsedOfUniform(s[..lo], !middle);
    UsedOfUniform(s[lo..hi], middle);
    UsedOfUniform(s[hi..], !middle);
    UsedOfAppend(s[..lo], s[lo..hi]);
    UsedOfAppend(s[..lo] + s[lo..hi], s[hi..]);
    assert s == s[..lo] + s[lo..hi] + s[hi..];
  }

  lemma {:induction false} UsedIsLen(r: Ring)
    requires r.Clean()
    ensures Used(r.slots) == r.Len()
  {
    forall i: nat | i < |r.slots| ensures Cleared(r.slots[i]) <==> !r.InWindow(i) {
      if r.InWindow(i) {
        WellFormedIsNotCleared(r.slots[i]);
      }
    }
    if r.head <= r.tail {
      UsedOfPieces(r.slots, r.head, r.tail, false);
    } else {
      UsedOfPieces(r.slots, r.tail, r.head, true);
    }
  }

  /** Between operations the slots and the head alone determine the queue: the tail is the
      head plus the number of slots in use, and the queue is that many slots from the head. */
  lemma {:induction false} SlotsDetermineQueue(r: Ring)
    requires r.Clean()
    ensures Used(r.slots) == r.Len() == |r.Contents()|
    ensures r.tail == Wrap(r.head, Used(r.slots), |r.slots|)
    ensures r.Contents() == Stretch(r.slots, r.head, Used(r.slots))
  {
    UsedIsLen(r);
    CleanContents(r);
  }
}
