/** The log files of joblog.c: one per process, in one directory. */
module JobLogFiles {
  import opened Wrappers
  import opened Jobs
  import opened Decimal
  import opened JobLogs

  /** The process types of proc.h and their labels in proc.c. */
  datatype Kind = BwaitCons | BwaitProd | SemCons | SemProd

  function KindLabel(k: Kind): string {
    match k
    case BwaitCons => "bwait_cons"
    case BwaitProd => "bwait_prod"
    case SemCons => "sem_cons"
    case SemProd => "sem_prod"
  }

  /** A process descriptor, as far as the log reads it. */
  datatype Proc = Proc(kind: Kind, id: Pid)

  /** new_log_name. */
  function LogName(p: Proc): string {
    "./out/" + KindLabel(p.kind) + Padded(7, p.id) + ".txt"
  }

  predicate InNumber(c: char) {
    IsDigit(c) || c == '-'
  }

  /** Everything before the first digit or minus sign. */
  function BeforeNumber(s: string): string {
    if s == "" || InNumber(s[0]) then "" else [s[0]] + BeforeNumber(s[1..])
  }

  lemma {:induction false} BeforeNumberStops(a: string, b: string)
    requires forall c | c in a :: !InNumber(c)
    requires b != "" && InNumber(b[0])
    ensures BeforeNumber(a + b) == a
  {
    if a == "" {
      assert a + b == b;
    } else {
      assert (a + b)[1..] == a[1..] + b;
      BeforeNumberStops(a[1..], b);
    }
  }

  lemma {:induction false} KindLabels(j: Kind, k: Kind)
    ensures forall c | c in KindLabel(k) :: !InNumber(c)
    ensures KindLabel(j) == KindLabel(k) ==> j == k
  {
  }

  lemma {:induction false} NameParts(p: Proc)
    ensures LogName(p)[6..] == KindLabel(p.kind) + (Padded(7, p.id) + ".txt")
    ensures BeforeNumber(LogName(p)[6..]) == KindLabel(p.kind)
  {
    hide Padded, KindLabel;
    PaddedChars(7, p.id);
    KindLabels(p.kind, p.kind);
    var number := Padded(7, p.id);
    assert number[0] in number;
    BeforeNumberStops(KindLabel(p.kind), number + ".txt");
  }

  /** Different processes log to different files, whatever the width of their ids. */
  lemma {:induction false} LogNamesDiffer(p: Proc, q: Proc)
    ensures LogName(p) == LogName(q) <==> p == q
  {
    if LogName(p) == LogName(q) {
      hide Padded, KindLabel, Number;
      NameParts(p);
      NameParts(q);
      KindLabels(p.kind, q.kind);
      var x, y := Padded(7, p.id), Padded(7, q.id);
      assert LogName(p)[6..][|KindLabel(p.kind)|..] == x + ".txt";
      assert LogName(q)[6..][|KindLabel(q.kind)|..] == y + ".txt";
      assert (x + ".txt")[..|x|] == x && (y + ".txt")[..|y|] == y;
      NumberOfPadded(7, p.id);
      NumberOfPadded(7, q.id);
    }
  }

  /** The name of a log in full: directory, type, number of seven digits or more, extension. */
  lemma {:induction false} LogNameInFull(p: Proc)
    ensures LogName(p) ==
            (match p.kind
             case BwaitCons => "./out/bwait_cons"
             case BwaitProd => "./out/bwait_prod"
             case SemCons => "./out/sem_cons"
             case SemProd => "./out/sem_prod") + Padded(7, p.id) + ".txt"
    ensures p.id == 1 ==> Padded(7, p.id) == "0000001"
  {
    PaddedOnes();
    hide Padded;
  }

  type Files = map<string, string>

  /** What happens to the directory: a process writes a job to its log, or its log is deleted. */
  datatype Event = Wrote(from: Proc, job: JobValue) | Deleted(from: Proc)

  function Content(files: Files, p: Proc): string {
    if LogName(p) in files then files[LogName(p)] else ""
  }

  function Happen(files: Files, e: Event): Files {
    match e
    case Wrote(p, v) => files[LogName(p) := Content(files, p) + Line(v)]
    case Deleted(p) => files - {LogName(p)}
  }

  function HappenAll(files: Files, es: seq<Event>): Files {
    if es == [] then files else Happen(HappenAll(files, es[..|es| - 1]), es[|es| - 1])
  }

  /** The jobs a process has written since its log was last deleted. */
  function OwnJobs(es: seq<Event>, p: Proc): seq<JobValue> {
    if es == [] then [] else
    var before := OwnJobs(es[..|es| - 1], p);
    match es[|es| - 1]
    case Wrote(q, v) => if q == p then before + [v] else before
    case Deleted(q) => if q == p then [] else before
  }

  /** Reading an entry of a process that has no log file is NULL. */
  function ReadFile(files: Files, p: Proc, entryNum: int): Option<string> {
    if LogName(p) in files then Read(files[LogName(p)], entryNum) else None
  }

  lemma {:induction false} ReadOfContent(files: Files, p: Proc, entryNum: int)
    ensures ReadFile(files, p, entryNum) == Read(Content(files, p), entryNum)
  {
  }

  /** Whatever all processes write and delete in whatever order, each log holds exactly its own
      process's jobs since its last deletion. */
  lemma {:induction false} LogsAreIsolated(es: seq<Event>, p: Proc)
    ensures Content(HappenAll(map[], es), p) == Log(OwnJobs(es, p))
  {
    if es != [] {
      var before := es[..|es| - 1];
      var e := es[|es| - 1];
      LogsAreIsolated(before, p);
      LogNamesDiffer(p, e.from);
      if e.Wrote? && e.from == p {
        LogAppend(OwnJobs(before, p), [e.job]);
        assert Log([e.job]) == Line(e.job) + Log([]) == Line(e.job);
      }
    }
  }

  /** The directory holds a file for exactly those processes that have written since their last
      deletion, and no other files. */
  lemma {:induction false} DirectoryHoldsLogs(es: seq<Event>)
    ensures forall p: Proc :: LogName(p) in HappenAll(map[], es) <==> OwnJobs(es, p) != []
    ensures forall name | name in HappenAll(map[], es) :: exists p: Proc :: name == LogName(p)
  {
    if es != [] {
      hide LogName, Line;
      var e := es[|es| - 1];
      DirectoryHoldsLogs(es[..|es| - 1]);
      forall p: Proc ensures LogName(p) in HappenAll(map[], es) <==> OwnJobs(es, p) != [] {
        LogNamesDiffer(p, e.from);
      }
    }
  }

  lemma {:induction false} FilesReadAsLogs(es: seq<Event>, p: Proc, entryNum: int)
    ensures ReadFile(HappenAll(map[], es), p, entryNum) == Read(Log(OwnJobs(es, p)), entryNum)
  {
    hide HappenAll, OwnJobs, Read, Log, LogName;
    LogsAreIsolated(es, p);
    ReadOfContent(HappenAll(map[], es), p, entryNum);
  }

  /** What a process should read as entry `k` after the events `es`. */
  function OwnEntry(es: seq<Event>, p: Proc, k: int): Option<string> {
    if 0 <= k < |OwnJobs(es, p)| then Some(Entry(OwnJobs(es, p)[k])) else None
  }

  /** So each process reads back exactly its own jobs, from whatever interleaving of whatever
      jobs, if and only if its own jobs make a readable log. */
  lemma {:induction false} ProcessReadsItsOwnJobs(es: seq<Event>, p: Proc)
    ensures (forall k: int :: ReadFile(HappenAll(map[], es), p, k) == OwnEntry(es, p, k))
       <==> Readable(OwnJobs(es, p))
  {
    hide HappenAll, OwnJobs, ReadFile, Read, Log, Entry, Readable;
    var own := OwnJobs(es, p);
    ReadsBackIff(own);
    forall k: int ensures ReadFile(HappenAll(map[], es), p, k) == Read(Log(own), k) {
      FilesReadAsLogs(es, p, k);
    }
    if !ReadsBack(own) {
      var k: int :| Read(Log(own), k) != if 0 <= k < |own| then Some(Entry(own[k])) else None;
      assert ReadFile(HappenAll(map[], es), p, k) != OwnEntry(es, p, k);
    }
  }

  /** The directory, and the functions of joblog.c over it. A NULL descriptor or job is `None`;
      `opens` says whether fopen succeeds on a file that is there to open. */
  class LogDirectory {
    var files: Files

    constructor ()
      ensures files == map[]
    {
      files := map[];
    }

    /** joblog_write_entry. */
    method WriteEntry(proc: Option<Proc>, job: Job?, opens: bool)
      modifies this
      ensures files == if proc.Some? && job != null && opens then
                         Happen(old(files), Wrote(proc.value, job.Value()))
                       else
                         old(files)
      ensures proc.Some? && job != null && opens ==>
                Content(files, proc.value) == old(Content(files, proc.value)) + Line(job.Value())
      ensures forall p: Proc | proc != Some(p) ::
                (LogName(p) in files <==> LogName(p) in old(files)) && Content(files, p) == old(Content(files, p))
    {
      if proc.None? || job == null || !opens {
        return;
      }
      forall p: Proc | p != proc.value ensures LogName(p) != LogName(proc.value) {
        LogNamesDiffer(p, proc.value);
      }
      var name := LogName(proc.value);
      var numbers := "pid:" + Padded(7, job.pid) + ",id:" + Padded(5, AsSigned(job.id));
      var entry := numbers + ",label:" + CString(job.lab) + "\n";
      files := files[name := (if name in files then files[name] else "") + entry];
    }

    /** joblog_read_entry: the string read, or NULL. */
    method ReadEntry(proc: Option<Proc>, entryNum: int, opens: bool) returns (entry: Option<string>)
      ensures entry == if proc.Some? && opens then ReadFile(files, proc.value, entryNum) else None
      ensures entry.Some? <==> proc.Some? && opens && 0 <= 59 * entryNum < |Content(files, proc.value)|
      ensures entry.Some? ==> entry.value == Fgets(Content(files, proc.value)[59 * entryNum..], 58)
    {
      if proc.None? || entryNum < 0 {
        return None;
      }
      var name := LogName(proc.value);
      if !opens || name !in files {
        return None;
      }
      var position := entryNum * JOBLOG_ENTRY_SIZE;
      if position >= |files[name]| {
        return None;
      }
      return Some(Fgets(files[name][position..], JOBLOG_ENTRY_SIZE - 1));
    }

    /** joblog_delete. */
    method Delete(proc: Proc)
      modifies this
      ensures files == Happen(old(files), Deleted(proc))
      ensures LogName(proc) !in files
      ensures forall p: Proc | p != proc ::
                (LogName(p) in files <==> LogName(p) in old(files)) && Content(files, p) == old(Content(files, p))
    {
      forall p: Proc | p != proc ensures LogName(p) != LogName(proc) {
        LogNamesDiffer(p, proc);
      }
      files := files - {LogName(proc)};
    }

    /** The loop that joblog.h shows for reading a log. It ends on every log, after one read for
        each 59 characters or part of them, and on a readable one it visits every job that the
        process wrote, in order. */
    method ReadAll(proc: Proc, ghost es: seq<Event>) returns (entries: seq<string>)
      ensures forall k | 0 <= k < |entries| :: ReadFile(files, proc, k) == Some(entries[k])
      ensures ReadFile(files, proc, |entries|) == None
      ensures (|entries| - 1) * JOBLOG_ENTRY_SIZE < |Content(files, proc)| <= |entries| * JOBLOG_ENTRY_SIZE
      ensures files == HappenAll(map[], es) && Readable(OwnJobs(es, proc)) ==>
                && |entries| == |OwnJobs(es, proc)|
                && forall k | 0 <= k < |entries| :: entries[k] == Entry(OwnJobs(es, proc)[k])
    {
      hide HappenAll, OwnJobs, Fgets, Entry, Readable, LogName;
      ProcessReadsItsOwnJobs(es, proc);
      entries := [];
      var entry := ReadEntry(Some(proc), 0, true);
      while entry.Some?
        invariant entry == ReadFile(files, proc, |entries|)
        invariant (|entries| - 1) * JOBLOG_ENTRY_SIZE < |Content(files, proc)|
        invariant forall k | 0 <= k < |entries| :: ReadFile(files, proc, k) == Some(entries[k])
        decreases |Content(files, proc)| - |entries| * JOBLOG_ENTRY_SIZE
      {
        entries := entries + [entry.value];
        entry := ReadEntry(Some(proc), |entries|, true);
      }
      if files == HappenAll(map[], es) && Readable(OwnJobs(es, proc)) {
        assert OwnEntry(es, proc, |entries|) == None;
        forall k | 0 <= k < |entries| ensures OwnEntry(es, proc, k) == Some(entries[k]) {
          assert ReadFile(files, proc, k) == Some(entries[k]);
        }
        if |entries| > 0 {
          assert OwnEntry(es, proc, |entries| - 1).Some?;
        }
      }
    }
  }
}
