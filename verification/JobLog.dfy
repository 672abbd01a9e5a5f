/** The job log of joblog.c: fixed-width lines appended to a file, read back by offset. */
module JobLogs {
  import opened Wrappers
  import opened Jobs
  import opened Decimal

  const JOBLOG_ENTRY_SIZE := 59

  /** An `unsigned int` printed with `%d`. */
  function AsSigned(id: JobId): int {
    if id < 0x8000_0000 then id else id - 0x1_0000_0000
  }

  /** The fixed text of the format string. */
  function PidTag(): string { "pid:" }
  function IdTag(): string { ",id:" }
  function LabelTag(): string { ",label:" }

  /** The entry that the format string produces, without its newline. */
  function Entry(v: JobValue): string {
    PidTag() + Padded(7, v.pid) + IdTag() + Padded(5, AsSigned(v.id)) + LabelTag() + CString(v.lab)
  }

  function Line(v: JobValue): string {
    Entry(v) + "\n"
  }

  /** The log after writing `vs`. */
  function Log(vs: seq<JobValue>): string {
    if vs == [] then "" else Line(vs[0]) + Log(vs[1..])
  }

  lemma {:induction false} LogAppend(a: seq<JobValue>, b: seq<JobValue>)
    ensures Log(a + b) == Log(a) + Log(b)
  {
    if a == [] {
      assert a + b == b;
    } else {
      assert (a + b)[1..] == a[1..] + b;
      LogAppend(a[1..], b);
    }
  }

  // ---- Decoding ----

  /** What comes before the first `c`, or everything. */
  function Until(s: string, c: char): (r: string)
    ensures r <= s
  {
    if s == "" || s[0] == c then "" else [s[0]] + Until(s[1..], c)
  }

  lemma {:induction false} UntilStops(a: string, c: char, b: string)
    requires c !in a
    ensures Until(a + [c] + b, c) == a
  {
    if a == "" {
      assert a + [c] + b == [c] + b;
    } else {
      assert (a + [c] + b)[1..] == a[1..] + [c] + b;
      UntilStops(a[1..], c, b);
    }
  }

  datatype Fields = Fields(pid: int, id: int, text: string)

  /** A fixed opening, then text up to the next comma: the text, and what is left. */
  function Field(s: string, opening: string): Option<(string, string)> {
    if opening <= s then
      var text := Until(s[|opening|..], ',');
      Some((text, s[|opening|..][|text|..]))
    else
      None
  }

  /** Reads the three fields of an entry. */
  function Decode(entry: string): Option<Fields> {
    match Field(entry, "pid:")
    case None => None
    case Some((pid, afterPid)) =>
      match Field(afterPid, ",id:")
      case None => None
      case Some((id, afterId)) =>
        if ",label:" <= afterId then Some(Fields(Number(pid), Number(id), afterId[7..])) else None
  }

  lemma {:induction false} FieldIsCut(opening: string, text: string, rest: string)
    requires ',' !in text
    ensures Field(opening + (text + ("," + rest)), opening) == Some((text, "," + rest))
  {
    var s := opening + (text + ("," + rest));
    assert s[|opening|..] == text + [','] + rest;
    UntilStops(text, ',', rest);
  }

  lemma {:induction false} Regroup(p: string, i: string, l: string)
    ensures "pid:" + p + ",id:" + i + ",label:" + l == "pid:" + (p + ("," + ("id:" + (i + ("," + ("label:" + l))))))
    ensures "," + ("id:" + (i + ("," + ("label:" + l)))) == ",id:" + (i + ("," + ("label:" + l)))
    ensures "," + ("label:" + l) == ",label:" + l
    ensures ",label:" <= ",label:" + l && (",label:" + l)[7..] == l
  {
  }

  lemma {:induction false} DecodeOfParts(p: string, i: string, l: string)
    requires ',' !in p && ',' !in i
    ensures Decode("pid:" + p + ",id:" + i + ",label:" + l) == Some(Fields(Number(p), Number(i), l))
  {
    hide Number, Field;
    Regroup(p, i, l);
    FieldIsCut("pid:", p, "id:" + (i + ("," + ("label:" + l))));
    FieldIsCut(",id:", i, "label:" + l);
  }

  /** Every entry can be decoded, in range or not. */
  lemma {:induction false} EntryDecodes(v: JobValue)
    ensures Decode(Entry(v)) == Some(Fields(v.pid, AsSigned(v.id), CString(v.lab)))
    ensures v.id < 0x8000_0000 ==> Decode(Entry(v)).value.id == v.id
    ensures -0x8000_0000 <= Decode(Entry(v)).value.id < 0x8000_0000
    ensures (Decode(Entry(v)).value.id - v.id) % 0x1_0000_0000 == 0
  {
    hide Padded, Number, Decode, CString;
    PaddedChars(7, v.pid);
    PaddedChars(5, AsSigned(v.id));
    NumberOfPadded(7, v.pid);
    NumberOfPadded(5, AsSigned(v.id));
    DecodeOfParts(Padded(7, v.pid), Padded(5, AsSigned(v.id)), CString(v.lab));
  }

  /** The start of an entry of job 1 of process 1. */
  lemma {:induction false} FrontOfFirst(v: JobValue)
    requires v.pid == 1 && v.id == 1
    ensures Entry(v) == "pid:0000001,id:00001,label:" + CString(v.lab)
  {
    PaddedOnes();
    hide Padded, CString;
    assert PidTag() + "0000001" + IdTag() + "00001" + LabelTag() == "pid:0000001,id:00001,label:";
  }

  lemma {:induction false} PaddedOnes()
    ensures Padded(7, 1) == "0000001" && Padded(5, 1) == "00001"
  {
    assert Digits(1) == "1" && Zeros(6) == "000000" && Zeros(4) == "0000";
  }

  /** The second line of README_joblog_example.txt: job 1 of process 1, with label "a". */
  lemma {:induction false} DocumentedEntry()
    ensures var e := Entry(JobValue(1, 1, SetLabel("a")));
            && |e| == 58 && e[..27] == "pid:0000001,id:00001,label:"
            && e[27] == 'a' && forall k | 28 <= k < 58 :: e[k] == '*'
  {
    var front, lab := "pid:0000001,id:00001,label:", SetLabel("a");
    assert |front| == 27;
    CStringIs("a", 1);
    FrontOfFirst(JobValue(1, 1, lab));
    assert CString("a") == "a";
    CStringIs(lab, 31);
    hide *;
  }

  /** Two jobs have the same line exactly when `job_is_equal` holds of them. */
  lemma {:induction false} SameLineIff(a: JobValue, b: JobValue)
    ensures Line(a) == Line(b) <==> EqualValues(a, b)
  {
    EqualValuesIff(a, b);
    EntryDecodes(a);
    EntryDecodes(b);
    if Line(a) == Line(b) {
      assert Line(a)[..|Line(a)| - 1] == Entry(a);
      assert Line(b)[..|Line(b)| - 1] == Entry(b);
    }
  }

  // ---- Reading by offset ----

  /** fgets on the rest of a file with room for `room` characters before the NUL
      (ISO C99 7.19.7.2): up to and including the first newline. */
  function Fgets(rest: string, room: nat): (r: string)
    ensures r <= rest && |r| <= room
  {
    if rest == "" || room == 0 then ""
    else if rest[0] == '\n' then "\n"
    else [rest[0]] + Fgets(rest[1..], room - 1)
  }

  /** joblog_read_entry on a log with this content; `None` is NULL. */
  function Read(content: string, entryNum: int): Option<string> {
    if entryNum < 0 then None
    else if entryNum * JOBLOG_ENTRY_SIZE >= |content| then None
    else Some(Fgets(content[entryNum * JOBLOG_ENTRY_SIZE..], JOBLOG_ENTRY_SIZE - 1))
  }

  /** Reading entry `k` gives the k-th line written, without its newline, and NULL elsewhere. */
  ghost predicate ReadsBack(vs: seq<JobValue>) {
    forall k: int :: Read(Log(vs), k) == if 0 <= k < |vs| then Some(Entry(vs[k])) else None
  }

  /** A newline before the last place. */
  predicate NewlineInside(text: string) {
    exists i | 0 <= i < |text| - 1 :: text[i] == '\n'
  }

  predicate EndsInNewline(text: string) {
    text != "" && text[|text| - 1] == '\n'
  }

  /** Jobs with a line of the promised length that one read takes in whole. */
  predicate Regular(v: JobValue) {
    |Line(v)| == JOBLOG_ENTRY_SIZE && !NewlineInside(CString(v.lab))
  }

  /** Jobs that read back when no line follows theirs: a line may then also be too short, if its
      label supplies the newline that ends the read. */
  predicate RegularAtEnd(v: JobValue) {
    && |Line(v)| <= JOBLOG_ENTRY_SIZE && !NewlineInside(CString(v.lab))
    && (|Line(v)| < JOBLOG_ENTRY_SIZE ==> EndsInNewline(CString(v.lab)))
  }

  /** Every line but the last is regular, and the last one is regular at the end. */
  predicate Readable(vs: seq<JobValue>) {
    && (forall k | 0 <= k < |vs| - 1 :: Regular(vs[k]))
    && (vs != [] ==> RegularAtEnd(vs[|vs| - 1]))
  }

  /** Whether both ids fit their printed widths. */
  predicate IdsFit(v: JobValue) {
    -1_000_000 < v.pid < 10_000_000 && -10_000 < AsSigned(v.id) < 100_000
  }

  /** The fixed text, the two numbers and the label make up a line. It has the promised length for
      labels of full length exactly if the ids fit; it is shorter, among others, for every shorter
      label with ids that fit. */
  lemma {:induction false} LineLength(v: JobValue)
    ensures |Line(v)| == 16 + |Padded(7, v.pid)| + |Padded(5, AsSigned(v.id))| + |CString(v.lab)|
    ensures |Line(v)| >= 28 + |CString(v.lab)|
    ensures |Line(v)| == 28 + |CString(v.lab)| <==> IdsFit(v)
    ensures WellFormed(v) ==> (|Line(v)| == JOBLOG_ENTRY_SIZE <==> IdsFit(v))
  {
    PaddedWidth(7, v.pid);
    PaddedWidth(5, AsSigned(v.id));
    Powers();
  }

  lemma {:induction false} Powers()
    ensures Pow10(4) == 10_000 && Pow10(5) == 100_000 && Pow10(6) == 1_000_000 && Pow10(7) == 10_000_000
  {
  }

  /** Newlines in an entry are those of its label. */
  lemma {:induction false} NewlinesOfEntry(v: JobValue)
    ensures |Entry(v)| >= 27 && Entry(v)[0] != Entry(v)[1]
    ensures NewlineInside(Entry(v)) <==> NewlineInside(CString(v.lab))
    ensures EndsInNewline(Entry(v)) <==> EndsInNewline(CString(v.lab))
  {
    PaddedChars(7, v.pid);
    PaddedChars(5, AsSigned(v.id));
    LineLength(v);
    var front := PidTag() + Padded(7, v.pid) + IdTag() + Padded(5, AsSigned(v.id)) + LabelTag();
    var text := CString(v.lab);
    hide Padded, CString, AsSigned;
    assert Entry(v) == front + text && front[0] == 'p' && front[1] == 'i' && front[|front| - 1] == ':';
    assert '\n' !in front;
    NewlinesAfter(front, text);
  }

  lemma {:induction false} NewlinesAfter(front: string, text: string)
    requires front != "" && '\n' !in front
    ensures NewlineInside(front + text) <==> NewlineInside(text)
    ensures EndsInNewline(front + text) <==> EndsInNewline(text)
  {
    assert forall i | 0 <= i < |text| :: text[i] == (front + text)[|front| + i];
    if NewlineInside(front + text) {
      var i :| 0 <= i < |front + text| - 1 && (front + text)[i] == '\n';
      assert i < |front| ==> '\n' in front;
      assert text[i - |front|] == '\n';
    }
    assert front[|front| - 1] in front;
  }

  /** No log of lines up to full width outgrows them; one that is as long has only full lines. */
  lemma {:induction false} LogLength(vs: seq<JobValue>)
    requires forall v | v in vs :: |Line(v)| <= JOBLOG_ENTRY_SIZE
    ensures |Log(vs)| <= JOBLOG_ENTRY_SIZE * |vs|
    ensures |Log(vs)| == JOBLOG_ENTRY_SIZE * |vs| <==> forall v | v in vs :: |Line(v)| == JOBLOG_ENTRY_SIZE
  {
    if vs != [] {
      hide Line;
      assert vs == [vs[0]] + vs[1..];
      LogLength(vs[1..]);
    }
  }

  lemma {:induction false} LogCons(v: JobValue, rest: seq<JobValue>)
    ensures Log([v] + rest) == Entry(v) + ("\n" + Log(rest))
  {
  }

  lemma {:induction false} LogFromRecord(vs: seq<JobValue>, m: nat)
    requires m < |vs|
    ensures Log(vs) == Log(vs[..m]) + (Entry(vs[m]) + ("\n" + Log(vs[m + 1..])))
  {
    hide Log, Entry;
    LogCons(vs[m], vs[m + 1..]);
    LogAppend(vs[..m], [vs[m]] + vs[m + 1..]);
    assert vs == vs[..m] + ([vs[m]] + vs[m + 1..]);
  }

  /** After `m` full-width records the next one starts at offset 59 m. */
  lemma {:induction false} OffsetOfRecord(vs: seq<JobValue>, m: nat)
    requires m < |vs| && forall v | v in vs[..m] :: |Line(v)| == JOBLOG_ENTRY_SIZE
    ensures m * JOBLOG_ENTRY_SIZE < |Log(vs)|
    ensures Log(vs)[m * JOBLOG_ENTRY_SIZE..] == Entry(vs[m]) + ("\n" + Log(vs[m + 1..]))
  {
    hide Log, Entry;
    LogLength(vs[..m]);
    LogFromRecord(vs, m);
    assert |Log(vs[..m])| == m * JOBLOG_ENTRY_SIZE;
  }

  /** What fgets makes of any line: the entry without its newline exactly if the entry fits, has
      no newline before its last place, and either just fits or ends in a newline itself. */
  lemma {:induction false} FgetsOfLine(e: string, rest: string)
    ensures Fgets(e + ("\n" + rest), JOBLOG_ENTRY_SIZE - 1) == e <==>
              && |e| < JOBLOG_ENTRY_SIZE && !NewlineInside(e)
              && (|e| < JOBLOG_ENTRY_SIZE - 1 ==> EndsInNewline(e))
  {
    FgetsUpTo(e, "\n" + rest, JOBLOG_ENTRY_SIZE - 1);
  }

  /** fgets, as the standard has it: as much as there is room for, but nothing after a newline. */
  lemma {:induction false} FgetsIs(rest: string, room: nat, r: string)
    ensures Fgets(rest, room) == r <==>
              && r <= rest && |r| <= room && !NewlineInside(r)
              && (|r| < room && r != rest ==> EndsInNewline(r))
  {
    if rest != "" && room > 0 && r != "" {
      NewlinesOfTail(r);
      hide NewlineInside, EndsInNewline;
      if r[0] == rest[0] && rest[0] != '\n' {
        FgetsIs(rest[1..], room - 1, r[1..]);
        assert r == [r[0]] + r[1..] && rest == [rest[0]] + rest[1..];
      }
    }
  }

  lemma {:induction false} NewlinesOfTail(e: string)
    requires e != ""
    ensures NewlineInside(e) <==> |e| > 1 && (e[0] == '\n' || NewlineInside(e[1..]))
    ensures EndsInNewline(e) <==> if |e| == 1 then e == "\n" else EndsInNewline(e[1..])
  {
  }

  lemma {:induction false} FgetsUpTo(e: string, rest: string, room: nat)
    requires rest != "" && rest[0] == '\n'
    ensures Fgets(e + rest, room) == e <==>
              |e| <= room && !NewlineInside(e) && (|e| < room ==> EndsInNewline(e))
  {
    if e == "" {
      assert e + rest == rest;
    } else {
      NewlinesOfTail(e);
      hide NewlineInside;
      if room > 0 && e[0] != '\n' {
        assert (e + rest)[1..] == e[1..] + rest;
        FgetsUpTo(e[1..], rest, room - 1);
        assert e == [e[0]] + e[1..];
      }
    }
  }

  /** The read of the first record that may be irregular. */
  lemma {:induction false} ReadOfRecord(vs: seq<JobValue>, m: nat)
    requires m < |vs| && forall v | v in vs[..m] :: |Line(v)| == JOBLOG_ENTRY_SIZE
    ensures Read(Log(vs), m) == Some(Entry(vs[m])) <==> RegularAtEnd(vs[m])
  {
    OffsetOfRecord(vs, m);
    NewlinesOfEntry(vs[m]);
    FgetsOfLine(Entry(vs[m]), Log(vs[m + 1..]));
    hide Log, Fgets, Entry, CString, NewlineInside, EndsInNewline;
  }

  lemma {:induction false} ReadTakesPrefix(content: string, k: int, e: string)
    requires Read(content, k) == Some(e)
    ensures 0 <= k * JOBLOG_ENTRY_SIZE < |content|
    ensures e <= content[k * JOBLOG_ENTRY_SIZE..] && |e| < JOBLOG_ENTRY_SIZE
  {
  }

  /** A last line that is found at or after its beginning is found at its beginning. */
  lemma {:induction false} LastLineIsInPlace(before: string, e: string, n: nat)
    requires |e| >= 2 && e[0] != e[1]
    requires |before| <= n < |before + (e + "\n")| && e <= (before + (e + "\n"))[n..]
    ensures n == |before|
  {
  }

  lemma {:induction false} LinesFit(vs: seq<JobValue>)
    requires ReadsBack(vs)
    ensures forall v | v in vs :: |Line(v)| <= JOBLOG_ENTRY_SIZE
  {
  }

  /** If a log reads back, all its lines but the last have the promised length: otherwise the last
      one begins before its place, and is not found there. */
  lemma {:induction false} ReadBackMeansAligned(vs: seq<JobValue>)
    requires ReadsBack(vs) && vs != []
    ensures forall v | v in vs[..|vs| - 1] :: |Line(v)| == JOBLOG_ENTRY_SIZE
  {
    var m := |vs| - 1;
    assert Read(Log(vs), m) == Some(Entry(vs[m]));
    LinesFit(vs);
    LastRecord(vs);
    hide *;
    ReadTakesPrefix(Log(vs), m, Entry(vs[m]));
    LogLength(vs[..m]);
    NewlinesOfEntry(vs[m]);
    LastLineIsInPlace(Log(vs[..m]), Entry(vs[m]), m * JOBLOG_ENTRY_SIZE);
  }

  lemma {:induction false} LastRecord(vs: seq<JobValue>)
    requires vs != []
    ensures Log(vs) == Log(vs[..|vs| - 1]) + (Entry(vs[|vs| - 1]) + "\n")
  {
    LogFromRecord(vs, |vs| - 1);
    assert "\n" + Log([]) == "\n";
  }

  /** After lines of the promised length, each read is decided by its own record. */
  lemma {:induction false} ReadsOfAligned(vs: seq<JobValue>)
    requires vs != [] && forall v | v in vs[..|vs| - 1] :: |Line(v)| == JOBLOG_ENTRY_SIZE
    ensures forall k: nat | k < |vs| :: Read(Log(vs), k) == Some(Entry(vs[k])) <==> RegularAtEnd(vs[k])
    ensures Readable(vs) <==> forall k: nat | k < |vs| :: RegularAtEnd(vs[k])
  {
    hide Read, Log, Entry, Line, NewlineInside, EndsInNewline;
    forall k: nat | k < |vs|
      ensures Read(Log(vs), k) == Some(Entry(vs[k])) <==> RegularAtEnd(vs[k])
      ensures k < |vs| - 1 ==> (Regular(vs[k]) <==> RegularAtEnd(vs[k]))
    {
      forall v | v in vs[..k] ensures |Line(v)| == JOBLOG_ENTRY_SIZE {
        assert v in vs[..|vs| - 1];
      }
      assert k < |vs| - 1 ==> vs[k] in vs[..|vs| - 1];
      ReadOfRecord(vs, k);
    }
  }

  lemma {:induction false} ReadableIsAligned(vs: seq<JobValue>)
    requires Readable(vs) && vs != []
    ensures forall v | v in vs[..|vs| - 1] :: |Line(v)| == JOBLOG_ENTRY_SIZE
  {
  }

  /** For every list of jobs, whatever their ids and labels: the log reads back what was written,
      for every entry number, if and only if the list is readable. */
  lemma {:induction false} ReadsBackIff(vs: seq<JobValue>)
    ensures ReadsBack(vs) <==> Readable(vs)
  {
    hide Read, Log, Entry, Line, Regular, RegularAtEnd;
    if ReadsBack(vs) && vs != [] {
      ReadBackMeansAligned(vs);
      ReadsOfAligned(vs);
    }
    if Readable(vs) {
      ReadsNullElsewhere(vs);
      if vs != [] {
        ReadableIsAligned(vs);
        ReadsOfAligned(vs);
      }
    }
  }

  lemma {:induction false} ReadsNullElsewhere(vs: seq<JobValue>)
    requires Readable(vs)
    ensures forall k: int | k < 0 || k >= |vs| :: Read(Log(vs), k) == None
  {
    hide Log, Line, Fgets;
    forall v | v in vs ensures |Line(v)| <= JOBLOG_ENTRY_SIZE {
      var k: nat :| k < |vs| && vs[k] == v;
      assert k < |vs| - 1 ==> Regular(vs[k]);
    }
    LogLength(vs);
  }

  /** Regular jobs read back in any number and any order. */
  lemma {:induction false} RegularReadsBack(vs: seq<JobValue>)
    requires forall v | v in vs :: Regular(v)
    ensures ReadsBack(vs)
  {
    ReadsBackIff(vs);
    hide ReadsBack, Line;
    forall k | 0 <= k < |vs| ensures Regular(vs[k]) {
      assert vs[k] in vs;
    }
  }

  /** For jobs as `job_set` leaves them: exactly if the ids fit their printed widths and no label
      has a newline before its last place. */
  lemma {:induction false} StoredJobsReadBackIff(vs: seq<JobValue>)
    requires forall v | v in vs :: WellFormed(v)
    ensures ReadsBack(vs) <==> forall v | v in vs :: IdsFit(v) && !NewlineInside(CString(v.lab))
  {
    ReadsBackIff(vs);
    hide ReadsBack, Line, NewlineInside, EndsInNewline;
    forall v | v in vs
      ensures Regular(v) <==> IdsFit(v) && !NewlineInside(CString(v.lab))
      ensures RegularAtEnd(v) <==> Regular(v)
    {
      LineLength(v);
    }
    hide IdsFit, RegularAtEnd, Regular;
    forall v | v in vs && Readable(vs) ensures Regular(v) {
      var k :| 0 <= k < |vs| && vs[k] == v;
    }
  }

  /** For labels of any length without newlines: exactly if every line has the promised length. */
  lemma {:induction false} ReadsBackIffAligned(vs: seq<JobValue>)
    requires forall v | v in vs :: '\n' !in CString(v.lab)
    ensures ReadsBack(vs) <==> forall v | v in vs :: |Line(v)| == JOBLOG_ENTRY_SIZE
  {
    ReadsBackIff(vs);
    hide ReadsBack, Line;
    forall k | 0 <= k < |vs| ensures Regular(vs[k]) <==> |Line(vs[k])| == JOBLOG_ENTRY_SIZE
      ensures RegularAtEnd(vs[k]) <==> |Line(vs[k])| == JOBLOG_ENTRY_SIZE
    {
      assert vs[k] in vs;
    }
  }

  /** joblog.h promises lines of one width. A job id of six digits breaks it. */
  lemma {:induction false} WideIdIsMisread()
    ensures !ReadsBack([JobValue(1, 100_000, SetLabel("a"))])
  {
    var v := JobValue(1, 100_000, SetLabel("a"));
    NormaliseFixesWellFormed(v);
    assert WellFormed(v);
    LineLength(v);
    ReadsBackIff([v]);
  }

  /** So does a job that `job_init` has just zeroed. */
  lemma {:induction false} ZeroedJobIsMisread()
    ensures |Line(ZEROED)| == 28 && !ReadsBack([ZEROED])
  {
    LineLength(ZEROED);
    ReadsBackIff([ZEROED]);
  }
}
