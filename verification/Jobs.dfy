/** The job record and the operations on it (job.c). A `JobValue` is the contents of a
    `struct job`; a `Job` is such a struct in memory, updated in place. */
module Jobs {
  import opened Wrappers

  const MAX_NAME_SIZE := 32
  const PAD_CHAR := '*'
  const NUL := '\0'

  /** 32-bit `pid_t` and `unsigned int`. */
  type Pid = x: int | -0x8000_0000 <= x < 0x8000_0000
  type JobId = x: int | 0 <= x < 0x1_0000_0000

  /** A `char[MAX_NAME_SIZE]` array. */
  type Label = l: seq<char> | |l| == 32 witness seq(32, _ => '\0')

  datatype JobValue = JobValue(pid: Pid, id: JobId, lab: Label)

  function ZeroLabel(): Label {
    seq(MAX_NAME_SIZE, _ => NUL)
  }

  const ZEROED: JobValue := JobValue(0, 0, ZeroLabel())

  /** The C string stored at the start of `s`: everything before the first NUL. */
  function CString(s: seq<char>): (r: seq<char>)
    ensures '\0' !in r
    ensures r <= s
    ensures |r| < |s| ==> s[|r|] == '\0'
  {
    if s == [] || s[0] == NUL then [] else [s[0]] + CString(s[1..])
  }

  /** The C string at the start of `s` is the longest NUL-free prefix: the only one that is
      NUL-free and followed by NUL or by the end. */
  lemma {:induction false} CStringIs(s: seq<char>, n: nat)
    requires n <= |s| && NUL !in s[..n] && (n < |s| ==> s[n] == NUL)
    ensures CString(s) == s[..n]
  {
  }

  function Padding(): (r: seq<char>)
    ensures |r| == MAX_NAME_SIZE - 1
    ensures forall k | 0 <= k < |r| :: r[k] == '*'
  {
    seq(MAX_NAME_SIZE - 1, _ => PAD_CHAR)
  }

  /** The label array that `job_set` stores: the first 31 characters of the label
      followed by padding, then NUL. */
  function SetLabel(lab: seq<char>): (r: Label)
    ensures CString(r) == (CString(lab) + Padding())[..MAX_NAME_SIZE - 1]
    ensures r[MAX_NAME_SIZE - 1] == NUL
  {
    var text := (CString(lab) + Padding())[..MAX_NAME_SIZE - 1];
    var r := text + [NUL];
    assert r[..MAX_NAME_SIZE - 1] == text;
    CStringIs(r, MAX_NAME_SIZE - 1);
    r
  }

  /** Character by character: 31 places of the label, filled up with stars, then NUL. */
  lemma {:induction false} LabelPlaces(lab: seq<char>)
    ensures forall k | 0 <= k < 31 :: SetLabel(lab)[k] == if k < |CString(lab)| then lab[k] else '*'
    ensures SetLabel(lab)[31] == '\0'
  {
  }

  function Normalise(v: JobValue): (r: JobValue)
    ensures r.pid == v.pid && r.id == v.id
  {
    JobValue(v.pid, v.id, SetLabel(v.lab))
  }

  /** A label as job.h promises it: a string of length exactly MAX_NAME_SIZE - 1. */
  predicate WellFormed(v: JobValue) {
    |CString(v.lab)| == MAX_NAME_SIZE - 1
  }

  /** What `job_set` stores is well formed, and exactly the well-formed jobs are stored unchanged. */
  lemma {:induction false} NormaliseFixesWellFormed(v: JobValue)
    ensures WellFormed(Normalise(v))
    ensures WellFormed(v) <==> Normalise(v) == v
    ensures Normalise(Normalise(v)) == Normalise(v)
  {
  }

  /** A stored job never looks like a zeroed slot. */
  lemma {:induction false} WellFormedIsNotCleared(v: JobValue)
    requires WellFormed(v)
    ensures v.lab[0] != NUL && v != ZEROED
  {
  }

  /** strncmp(a, b, n) == 0, as ISO C99 7.21.4.4 defines it: characters after a NUL are not compared. */
  predicate StrncmpZero(a: seq<char>, b: seq<char>, n: nat)
    requires n <= |a| && n <= |b|
  {
    n == 0 || (a[0] == b[0] && (a[0] == NUL || StrncmpZero(a[1..], b[1..], n - 1)))
  }

  lemma {:induction false} StrncmpComparesStrings(a: seq<char>, b: seq<char>)
    requires |a| == |b|
    ensures StrncmpZero(a, b, |a|) <==> CString(a) == CString(b)
  {
    if a != [] {
      if a[0] == NUL || b[0] == NUL {
        assert a[0] != NUL ==> CString(a)[0] == a[0];
        assert b[0] != NUL ==> CString(b)[0] == b[0];
      } else {
        StrncmpComparesStrings(a[1..], b[1..]);
        assert CString(a) == [a[0]] + CString(a[1..]) && CString(b) == [b[0]] + CString(b[1..]);
        assert CString(a)[1..] == CString(a[1..]) && CString(b)[1..] == CString(b[1..]);
      }
    }
  }

  predicate EqualValues(a: JobValue, b: JobValue) {
    a.pid == b.pid && a.id == b.id && StrncmpZero(a.lab, b.lab, MAX_NAME_SIZE)
  }

  /** The comparison of job.h: equal ids and equal label strings. */
  lemma {:induction false} EqualValuesIff(a: JobValue, b: JobValue)
    ensures EqualValues(a, b) <==> a.pid == b.pid && a.id == b.id && CString(a.lab) == CString(b.lab)
  {
    StrncmpComparesStrings(a.lab, b.lab);
  }

  /** job.h promises that a copy is `job_is_equal` to its source. It is so exactly when the
      source's label already has full length. */
  lemma {:induction false} CopyIsEqualIffWellFormed(v: JobValue)
    ensures EqualValues(Normalise(v), v) <==> WellFormed(v)
  {
    EqualValuesIff(Normalise(v), v);
    NormaliseFixesWellFormed(v);
  }

  /** A short label for which the promise fails. */
  lemma {:induction false} CopyOfShortLabelDiffers()
    ensures var v := JobValue(1, 2, ['a'] + seq(31, _ => NUL));
            !EqualValues(Normalise(v), v)
  {
    var v := JobValue(1, 2, ['a'] + seq(31, _ => NUL));
    CStringIs(v.lab, 1);
    CopyIsEqualIffWellFormed(v);
  }

  /** A `struct job` in memory. */
  class Job {
    var pid: Pid
    var id: JobId
    var lab: Label

    constructor (v: JobValue)
      ensures Value() == v
    {
      pid, id, lab := v.pid, v.id, v.lab;
    }

    function Value(): JobValue
      reads this
    {
      JobValue(pid, id, lab)
    }
  }

  /** job_set. The label argument is the memory it points to; `None` is NULL. */
  method JobSet(job: Job?, pid: Pid, id: JobId, lab: Option<seq<char>>) returns (r: Job?)
    modifies job
    ensures r == job
    ensures job != null ==>
              job.Value() == JobValue(pid, id, SetLabel(if lab.Some? then lab.value else []))
    ensures job != null ==>
              var text := if lab.Some? then CString(lab.value) else [];
              && (forall k | 0 <= k < 31 :: job.lab[k] == if k < |text| then text[k] else '*')
              && job.lab[31] == '\0'
  {
    if job == null {
      return null;
    }
    job.pid := pid;
    job.id := id;
    ghost var text := if lab.Some? then lab.value else [];
    LabelPlaces(text);
    var padding := Padding();
    if lab.None? || CString(lab.value) == [] {
      job.lab := padding + [NUL];
      assert CString([]) + padding == padding;
      assert padding[..MAX_NAME_SIZE - 1] == padding;
      assert job.lab == SetLabel(text);
    } else {
      var finalLabel := (CString(lab.value) + padding)[..MAX_NAME_SIZE - 1] + [NUL];
      job.lab := finalLabel;
      assert job.lab == SetLabel(text);
    }
    return job;
  }

  /** job_new. `gotMemory` says whether malloc succeeds. */
  method JobNew(pid: Pid, id: JobId, lab: Option<seq<char>>, gotMemory: bool) returns (r: Job?)
    ensures r == null <==> !gotMemory
    ensures r != null ==> fresh(r)
    ensures r != null ==> r.Value() == JobValue(pid, id, SetLabel(if lab.Some? then lab.value else []))
  {
    r := null;
    if gotMemory {
      r := new Job(ZEROED);
    }
    r := JobSet(r, pid, id, lab);
  }

  /** job_copy. */
  method JobCopy(dst: Job?, src: Job?, gotMemory: bool) returns (r: Job?)
    modifies dst
    ensures src == null || src == dst ==> r == src && (dst != null ==> dst.Value() == old(dst.Value()))
    ensures src != null && src != dst ==> src.Value() == old(src.Value())
    ensures src != null && dst == null ==> (r == null <==> !gotMemory) && (r != null ==> fresh(r))
    ensures src != null && dst != null ==> r == dst
    ensures src != null && src != dst && r != null ==> r.Value() == Normalise(old(src.Value()))
  {
    if src == null {
      return null;
    }
    if src == dst {
      return src;
    }
    if dst == null {
      r := JobNew(src.pid, src.id, Some(src.lab), gotMemory);
    } else {
      r := JobSet(dst, src.pid, src.id, Some(src.lab));
    }
  }

  /** job_init. */
  method JobInit(job: Job?)
    modifies job
    ensures job != null ==> job.Value() == ZEROED
    ensures job != null ==> job.pid == 0 && job.id == 0 && forall k | 0 <= k < 32 :: job.lab[k] == '\0'
  {
    if job != null {
      job.pid := 0;
      job.id := 0;
      job.lab := ZeroLabel();
    }
  }

  /** job_is_equal. */
  method JobIsEqual(j1: Job?, j2: Job?) returns (b: bool)
    ensures j1 == j2 ==> b
    ensures b <==> if j1 == null || j2 == null then j1 == j2
                   else j1.pid == j2.pid && j1.id == j2.id && CString(j1.lab) == CString(j2.lab)
  {
    if j1 == null && j2 == null {
      return true;
    } else if j1 == null || j2 == null {
      return false;
    }
    EqualValuesIff(j1.Value(), j2.Value());
    return j1.pid == j2.pid && j1.id == j2.id && StrncmpZero(j1.lab, j2.lab, MAX_NAME_SIZE);
  }
}
