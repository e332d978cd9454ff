// The start time of a process from /proc/<pid>/stat (filelock/starttime_linux.go).

module StartTime {
  import opened Wrappers
  import opened Decimal
  import opened Text
  import opened Rfc3339
  import opened Marker
  import opened MarkerLaws
  import opened Stale
  import opened TornMarker

  // ---------------------------------------------------------------- strings.Fields

  /** Bytes before the first white space. */
  function WordLength(s: string): (n: nat)
    ensures n <= |s| && (s != "" && SpaceFront(s) == 0 ==> n > 0)
  {
    if s == "" || SpaceFront(s) > 0 then 0 else 1 + WordLength(s[1..])
  }

  /** strings.Fields. */
  function Fields(s: string): seq<string>
    decreases |s|
  {
    if s == "" then []
    else if SpaceFront(s) > 0 then Fields(s[SpaceFront(s)..])
    else [s[..WordLength(s)]] + Fields(s[WordLength(s)..])
  }

  // ---------------------------------------------------------------- ticks to time

  const USER_HZ: int := 100

  /** Go's integer division truncates toward zero. */
  function Quot(a: int, b: int): int
    requires b > 0
  {
    if a >= 0 then a / b else -((-a) / b)
  }

  function Rem(a: int, b: int): int
    requires b > 0
  {
    a - Quot(a, b) * b
  }

  /** bt.Add(time.Duration(secs)*time.Second + time.Duration(nanos)), in int64 arithmetic. */
  function AddTicks(boot: int, ticks: int): int {
    var secs := Quot(ticks, USER_HZ);
    var nanos := Rem(ticks, USER_HZ) * (1_000_000_000 / USER_HZ);
    boot + Wrap64(Wrap64(secs * 1_000_000_000) + nanos)
  }

  const START_FIELD: nat := 19

  /** processStartTime on the contents of the stat file; 0 when it cannot be told. */
  function ProcessStartTime(pid: int, stat: Option<string>, boot: Option<int>): int {
    if pid <= 0 || stat.None? then 0 else
      var close := LastIndexOf(stat.value, ')');
      if close == -1 then 0 else
        var fields := Fields(Trim(stat.value[close + 1..]));
        if |fields| <= START_FIELD then 0 else
          match Atoi(fields[START_FIELD])
          case None => 0
          case Some(ticks) => if boot.None? then 0 else AddTicks(boot.value, ticks)
  }

  // ---------------------------------------------------------------- boot time

  const BTIME := "btime "

  /** The lines of /proc/stat that name a boot time. */
  predicate NamesBootTime(line: string) {
    BTIME <= line && |Fields(line)| >= 2
  }

  /** time.Unix as an instant. */
  function UnixTime(secs: int): int {
    Seconds(secs + 62_135_596_800)
  }

  /** Unix seconds count from the first instant of 1970. */
  lemma UnixEpoch(secs: int)
    ensures InRange(UnixTime(0)) && Format(UnixTime(0)) == "1970-01-01T00:00:00Z"
    ensures UnixTime(secs) == UnixTime(0) + secs * 1_000_000_000
  {
    hide Format;
    AnchoredInstants();
  }

  /** A line that names seconds since the Unix epoch says just that. */
  lemma BootLineReads(secs: int)
    requires IsInt64(secs)
    ensures NamesBootTime("btime " + DecInt(secs))
    ensures Atoi(Fields("btime " + DecInt(secs))[1]) == Some(secs)
  {
    AtoiReadsDecInt(secs);
    FieldsOfPid(secs);
    assert Unbroken("btime");
    hide Fields, Unbroken, Atoi, DecInt;
    var line := "btime " + DecInt(secs);
    assert line == "btime" + ([' '] + DecInt(secs));
    assert AsciiSpace(' ');
    FieldsOfWord("btime", [' '] + DecInt(secs));
    SpaceSkipped(DecInt(secs));
    assert DecInt(secs) + "" == DecInt(secs);
    FieldsOfWord(DecInt(secs), "");
    NewlineIsNoField();
  }

  /** No other line is taken for one. */
  lemma OtherLinesName(line: string)
    ensures NamesBootTime(line) ==> |line| >= 6 && line[..6] == "btime "
  {
  }

  predicate FirstBootLine(lines: seq<string>, i: int) {
    0 <= i < |lines| && NamesBootTime(lines[i]) && forall j :: 0 <= j < i ==> !NamesBootTime(lines[j])
  }

  /** The scan of /proc/stat: Unix seconds of the first line that names a boot time. */
  method ScanBootTime(lines: seq<string>) returns (r: Option<int>)
    ensures (forall i :: 0 <= i < |lines| ==> !NamesBootTime(lines[i])) ==> r.None?
    ensures forall i :: FirstBootLine(lines, i) ==> r == Atoi(Fields(lines[i])[1])
  {
    for n := 0 to |lines|
      invariant forall i :: 0 <= i < n ==> !NamesBootTime(lines[i])
    {
      if !(BTIME <= lines[n]) {
        continue;
      }
      var parts := Fields(lines[n]);
      if |parts| < 2 {
        continue;
      }
      return Atoi(parts[1]);
    }
    return None;
  }

  /** The package variables of bootTime. */
  class BootTimeCache {
    var once: bool
    var answer: Option<int>

    constructor ()
      ensures !once
    {
      once, answer := false, None;
    }

    /** bootTime: the first call reads /proc/stat, if it can, and every later one repeats its answer, errors included. */
    method Get(stat: Option<seq<string>>) returns (r: Option<int>)
      modifies this
      ensures once && r == answer
      ensures old(once) ==> r == old(answer)
      ensures !old(once) && stat.None? ==> r.None?
      ensures !old(once) && stat.Some? && (forall i :: 0 <= i < |stat.value| ==> !NamesBootTime(stat.value[i])) ==> r.None?
      ensures !old(once) && stat.Some? ==>
        forall i :: FirstBootLine(stat.value, i) ==>
          r == match Atoi(Fields(stat.value[i])[1]) case Some(secs) => Some(UnixTime(secs)) case None => None
    {
      if !once {
        once := true;
        if stat.None? {
          answer := None;
        } else {
          var secs := ScanBootTime(stat.value);
          answer := if secs.None? then None else Some(UnixTime(secs.value));
        }
      }
      return answer;
    }
  }

  // ---------------------------------------------------------------- the arithmetic is exact

  /** Ticks become exactly ten milliseconds each, up to the wrap-around of a Duration. */
  lemma TicksAreExact(boot: int, ticks: int)
    ensures AddTicks(boot, ticks) == boot + Wrap64(ticks * 10_000_000)
  {
    hide Wrap64;
    var secs := Quot(ticks, USER_HZ);
    WrapTwice(secs * 1_000_000_000, Rem(ticks, USER_HZ) * 10_000_000);
    assert secs * 1_000_000_000 + Rem(ticks, USER_HZ) * 10_000_000 == ticks * 10_000_000;
  }

  /** No wrap-around for some 292 years of uptime. */
  predicate NoOverflow(ticks: int) {
    MIN_INT64 <= ticks * 10_000_000 <= MAX_INT64
  }

  lemma TicksWithoutOverflow(boot: int, ticks: int)
    requires NoOverflow(ticks)
    ensures AddTicks(boot, ticks) == boot + ticks * 10_000_000
  {
    hide AddTicks, Wrap64;
    TicksAreExact(boot, ticks);
    WrapIsIdentity(ticks * 10_000_000);
  }

  /** Two processes of one boot have the same start time only when their ticks are the same. */
  lemma DistinctTicksDistinctTimes(boot: int, s: int, t: int)
    requires NoOverflow(s) && NoOverflow(t) && s != t
    ensures AddTicks(boot, s) != AddTicks(boot, t)
  {
    hide AddTicks;
    TicksWithoutOverflow(boot, s);
    TicksWithoutOverflow(boot, t);
  }

  // ---------------------------------------------------------------- the parse is exact

  /** A field of the stat record after the command name. */
  predicate Word(s: string) {
    s != "" && forall i :: 0 <= i < |s| ==> Solid(s[i]) && s[i] != ')'
  }

  function Join(words: seq<string>): string {
    if words == [] then "" else if |words| == 1 then words[0] else words[0] + [' '] + Join(words[1..])
  }

  /** The kernel's record: pid (comm) state ppid ... */
  function StatRecord(pid: int, comm: string, words: seq<string>): string {
    DecInt(pid) + " (" + comm + ")" + (" " + Join(words) + "\n")
  }

  lemma {:induction false} JoinShape(words: seq<string>)
    requires words != [] && forall i :: 0 <= i < |words| ==> Word(words[i])
    ensures Join(words) != "" && Solid(Join(words)[0]) && Solid(Join(words)[|Join(words)| - 1])
    ensures forall i :: 0 <= i < |Join(words)| ==> Join(words)[i] != ')'
  {
    hide Solid;
    assert Word(words[0]);
    if |words| > 1 {
      assert forall i :: 0 <= i < |words| - 1 ==> words[1..][i] == words[i + 1];
      JoinShape(words[1..]);
      var j := Join(words);
      assert j[|j| - 1] == Join(words[1..])[|Join(words[1..])| - 1];
    }
  }

  lemma {:induction false} WordLengthAtSpace(w: string, rest: string)
    requires forall i :: 0 <= i < |w| ==> Solid(w[i])
    requires rest == "" || AsciiSpace(rest[0])
    ensures WordLength(w + rest) == |w|
    decreases |w|
  {
    if w == "" {
      assert w + rest == rest;
    } else {
      assert (w + rest)[0] == w[0] && (w + rest)[1..] == w[1..] + rest;
      SolidFront(w + rest);
      WordLengthAtSpace(w[1..], rest);
    }
  }

  /** A run of bytes without white space. */
  predicate Unbroken(w: string) {
    w != "" && forall i :: 0 <= i < |w| ==> Solid(w[i])
  }

  lemma FieldsOfWord(w: string, rest: string)
    requires Unbroken(w) && (rest == "" || AsciiSpace(rest[0]))
    ensures Fields(w + rest) == [w] + Fields(rest)
  {
    hide SpaceFront, Solid, WordLength, AsciiSpace, Fields, TrimLeft;
    var s := w + rest;
    WordLengthAtSpace(w, rest);
    assert s[0] == w[0];
    SolidFront(s);
    assert s[..|w|] == w && s[|w|..] == rest;
    FirstField(s);
  }

  lemma FirstField(s: string)
    requires s != "" && SpaceFront(s) == 0
    ensures Fields(s) == [s[..WordLength(s)]] + Fields(s[WordLength(s)..])
  {
    hide SpaceFront, WordLength;
  }

  lemma {:induction false} FieldsOfJoin(words: seq<string>)
    requires forall i :: 0 <= i < |words| ==> Word(words[i])
    ensures Fields(Join(words)) == words
    ensures Fields(Join(words) + "\n") == words
    decreases |words|
  {
    NewlineIsNoField();
    if words == [] {
      assert Join(words) + "\n" == "\n";
    } else {
      var tail := words[1..];
      var rest := if tail == [] then "" else [' '] + Join(tail);
      assert Join(words) == words[0] + rest;
      assert Join(words) + "\n" == words[0] + (rest + "\n");
      assert tail != [] ==> rest + "\n" == [' '] + (Join(tail) + "\n");
      assert forall i :: 0 <= i < |tail| ==> tail[i] == words[i + 1];
      FieldsOfJoin(tail);
      WordIsUnbroken(words[0]);
      hide Word, Fields, Join;
      FieldsOfWord(words[0], rest);
      FieldsOfWord(words[0], rest + "\n");
      SpaceSkipped(Join(tail));
      SpaceSkipped(Join(tail) + "\n");
    }
  }

  lemma WordIsUnbroken(w: string)
    requires Word(w)
    ensures Unbroken(w)
  {
  }

  lemma NewlineIsNoField()
    ensures Fields("") == [] && Fields("\n") == []
  {
    assert "\n"[1..] == "";
  }

  lemma SpaceSkipped(s: string)
    ensures Fields([' '] + s) == Fields(s)
    ensures SpaceFront([' '] + s) == 1
  {
    assert ([' '] + s)[1..] == s;
  }

  lemma TrimBlankEnds(s: string)
    requires s != "" && Solid(s[0]) && Solid(s[|s| - 1])
    ensures Trim(" " + s + "\n") == s
  {
    var t := s + "\n";
    assert (" " + s + "\n")[1..] == t;
    assert TrimLeft(" " + s + "\n") == TrimLeft(t);
    SolidFront(t);
    SolidEnds(s);
    assert SpaceBack(t) == 1 && t[..|t| - 1] == s;
  }

  /** Behind its last closing parenthesis the record has exactly its fields. */
  lemma FieldsOfRecord(pid: int, comm: string, words: seq<string>)
    requires words != [] && forall i :: 0 <= i < |words| ==> Word(words[i])
    ensures var stat := StatRecord(pid, comm, words); var close := LastIndexOf(stat, ')');
      close >= 0 && Fields(Trim(stat[close + 1..])) == words
  {
    hide Solid, DecInt, Trim, Fields, Join, Word;
    var front := DecInt(pid) + " (" + comm;
    var tail := " " + Join(words) + "\n";
    JoinShape(words);
    assert ')' !in tail;
    var stat := StatRecord(pid, comm, words);
    assert stat == front + [')'] + tail;
    LastIndexBeforeTail(front, ')', tail);
    assert stat[|front| + 1..] == tail;
    TrimBlankEnds(Join(words));
    FieldsOfJoin(words);
  }

  /** Whatever the command is called, the start time is the twentieth field behind it. */
  lemma ReadsField22(pid: int, comm: string, words: seq<string>, boot: int, ticks: int)
    requires pid > 0 && IsInt64(ticks)
    requires |words| >= 20 && (forall i :: 0 <= i < |words| ==> Word(words[i])) && words[19] == DecInt(ticks)
    ensures ProcessStartTime(pid, Some(StatRecord(pid, comm, words)), Some(boot)) == AddTicks(boot, ticks)
  {
    hide Word, Atoi, DecInt, AddTicks, Trim, Fields, StatRecord;
    FieldsOfRecord(pid, comm, words);
    AtoiReadsDecInt(ticks);
  }

  lemma FieldsOfPid(pid: int)
    ensures Unbroken(DecInt(pid))
  {
    assert forall i :: 0 <= i < |DecInt(pid)| ==> IsDigit(DecInt(pid)[i]) || DecInt(pid)[i] == '-';
  }

  lemma Parenthesised(comm: string)
    requires Unbroken(comm)
    ensures Unbroken("(" + comm + ")")
  {
  }

  lemma SpaceIsSpace()
    ensures AsciiSpace(' ')
  {
  }

  lemma RecordShape(pid: int, comm: string, words: seq<string>)
    ensures StatRecord(pid, comm, words)
         == DecInt(pid) + ([' '] + (("(" + comm + ")") + ([' '] + (Join(words) + "\n"))))
  {
    hide DecInt, Join;
  }

  /** When the command name has no white space, the record splits at its spaces. */
  lemma WholeRecord(pid: int, comm: string, words: seq<string>)
    requires Unbroken(comm) && words != [] && forall i :: 0 <= i < |words| ==> Word(words[i])
    ensures Fields(StatRecord(pid, comm, words)) == [DecInt(pid), "(" + comm + ")"] + words
  {
    hide Unbroken, Fields, Join, Word, DecInt, AsciiSpace, SpaceFront;
    var name := "(" + comm + ")";
    var rest := Join(words) + "\n";
    Parenthesised(comm);
    SpaceIsSpace();
    RecordShape(pid, comm, words);
    FieldsOfPid(pid);
    FieldsOfJoin(words);
    hide StatRecord;
    FieldsOfWord(DecInt(pid), [' '] + (name + ([' '] + rest)));
    SpaceSkipped(name + ([' '] + rest));
    FieldsOfWord(name, [' '] + rest);
    SpaceSkipped(rest);
  }

  /**
   * In a record whose command name has no white space, the start time is boot time plus ten milliseconds for each of
   * the ticks in the twenty-second field, absent overflow; a record with fewer fields has none.
   */
  lemma StartTimeIsField22(pid: int, comm: string, words: seq<string>, boot: int, ticks: int)
    requires pid > 0 && IsInt64(ticks) && NoOverflow(ticks)
    requires Unbroken(comm) && words != [] && forall i :: 0 <= i < |words| ==> Word(words[i])
    ensures var record := StatRecord(pid, comm, words); var fields := Fields(record);
      && (|fields| >= 22 && fields[21] == DecInt(ticks) ==>
            ProcessStartTime(pid, Some(record), Some(boot)) == boot + ticks * 10_000_000)
      && (|fields| < 22 ==> ProcessStartTime(pid, Some(record), Some(boot)) == 0)
  {
    hide ProcessStartTime, AddTicks, StatRecord, Fields, Word, Unbroken, DecInt;
    WholeRecord(pid, comm, words);
    if |words| < 20 {
      TruncatedRecordIsUnknown(pid, comm, words, Some(boot));
    } else if words[19] == DecInt(ticks) {
      ReadsField22(pid, comm, words, boot, ticks);
      TicksWithoutOverflow(boot, ticks);
    }
  }

  /** A record of fewer than 22 fields or with no int64 in that field, or a boot time that cannot be read, gives no start time. */
  lemma TruncatedRecordIsUnknown(pid: int, comm: string, words: seq<string>, boot: Option<int>)
    requires words != [] && forall i :: 0 <= i < |words| ==> Word(words[i])
    requires |words| < 20 || Atoi(words[19]).None? || boot.None?
    ensures ProcessStartTime(pid, Some(StatRecord(pid, comm, words)), boot) == 0
  {
    hide Word, Atoi, AddTicks, Trim, Fields, StatRecord;
    FieldsOfRecord(pid, comm, words);
  }

  /** Neither does a text without a command name, a record that cannot be read, or a PID that is none. */
  lemma NoRecordIsUnknown(pid: int, stat: Option<string>, boot: Option<int>)
    requires pid <= 0 || stat.None? || ')' !in stat.value
    ensures ProcessStartTime(pid, stat, boot) == 0
  {
    hide Fields, Trim, Atoi, AddTicks;
  }

  /** A stat record of the process that started these ticks after boot. */
  predicate RecordOf(words: seq<string>, ticks: int) {
    |words| >= 20 && (forall k :: 0 <= k < |words| ==> Word(words[k])) && words[19] == DecInt(ticks)
  }

  /**
   * A process wrote its marker in w. Later, in w', its record may name another command and hold other numbers, but
   * its start time is that of the marker, and the marker, read back in full or cut short, never makes the process look
   * like another one under a reused PID.
   */
  lemma OwnStartTimeIsNotReuse(w: World, w': World, pid: int, cfg: Config, boot: int, ticks: int,
                               comm: string, words: seq<string>, comm': string, words': seq<string>, i: nat)
    requires pid > 0 && IsInt64(ticks) && NoOverflow(ticks) && RecordOf(words, ticks) && RecordOf(words', ticks)
    requires pid in w.procs && pid in w'.procs && Hostname(w') == Hostname(w)
    requires w.procs[pid].start == ProcessStartTime(pid, Some(StatRecord(pid, comm, words)), Some(boot))
    requires w'.procs[pid].start == ProcessStartTime(pid, Some(StatRecord(pid, comm', words')), Some(boot))
    requires Printable(OwnMarker(w, pid, cfg)) && NewlineFree(OwnMarker(w, pid, cfg)) && i <= |Content(OwnMarker(w, pid, cfg))|
    ensures OwnMarker(w, pid, cfg).pidStart == boot + ticks * 10_000_000
    ensures !ReadsDead(w', Content(OwnMarker(w, pid, cfg))[..i])
  {
    hide ProcessStartTime, AddTicks, Content, Read, StatRecord;
    ReadsField22(pid, comm, words, boot, ticks);
    ReadsField22(pid, comm', words', boot, ticks);
    TicksWithoutOverflow(boot, ticks);
    TornMarkerReadsDeadExactly(w', OwnMarker(w, pid, cfg));
  }
}
