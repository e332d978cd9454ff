// What the marker's printer and parser promise each other: the round trip, and indifference to noise lines.

module MarkerLaws {
  import opened Wrappers
  import opened Decimal
  import opened Text
  import opened Rfc3339
  import opened Marker

  predicate OneLine(s: string) {
    '\n' !in s
  }

  /** A key of the marker format: no space, no '=', no leading '#'. */
  predicate PlainKey(k: string) {
    k != "" && k[0] != '#' && forall i :: 0 <= i < |k| ==> Solid(k[i]) && k[i] != '='
  }

  // ---------------------------------------------------------------- reading line by line

  /** The scan loop's step on a state that may already have failed. */
  function Then(r: ReadResult, line: string): ReadResult {
    match r
    case Err(e) => Err(e)
    case Ok(m) => Absorb(m, line)
  }

  function FoldLines(r: ReadResult, ls: seq<string>): ReadResult
    decreases |ls|
  {
    if ls == [] then r else FoldLines(Then(r, ls[0]), ls[1..])
  }

  function ReadRest(r: ReadResult, rest: string): ReadResult {
    match r
    case Err(e) => Err(e)
    case Ok(m) => ReadFrom(m, rest)
  }

  lemma ReadOneLine(r: ReadResult, line: string, rest: string)
    requires OneLine(line)
    ensures ReadRest(r, line + "\n" + rest) == ReadRest(Then(r, line), rest)
  {
    hide Absorb;
    var s := line + "\n" + rest;
    var i := IndexOf(s, '\n');
    assert s[|line|] == '\n';
    assert forall j :: 0 <= j < |line| ==> s[j] == line[j];
    assert i == |line|;
    assert s[..i] == line && s[i + 1..] == rest;
  }

  /** A file made of whole lines is read one line at a time, whatever follows them. */
  lemma {:induction false} ReadWholeLines(r: ReadResult, ls: seq<string>, rest: string)
    requires forall i :: 0 <= i < |ls| ==> OneLine(ls[i])
    ensures ReadRest(r, Unlines(ls) + rest) == ReadRest(FoldLines(r, ls), rest)
    decreases |ls|
  {
    hide Absorb, ReadFrom;
    if ls == [] {
      assert Unlines(ls) + rest == rest;
    } else {
      assert Unlines(ls) + rest == ls[0] + "\n" + (Unlines(ls[1..]) + rest);
      ReadOneLine(r, ls[0], Unlines(ls[1..]) + rest);
      ReadWholeLines(Then(r, ls[0]), ls[1..], rest);
    }
  }

  lemma ReadLines(ls: seq<string>)
    requires forall i :: 0 <= i < |ls| ==> OneLine(ls[i])
    ensures Read(Unlines(ls)) == FoldLines(Ok(NO_MARKER), ls)
  {
    ReadWholeLines(Ok(NO_MARKER), ls, "");
    assert Unlines(ls) + "" == Unlines(ls);
  }

  lemma {:induction false} FoldLinesAppend(r: ReadResult, a: seq<string>, b: seq<string>)
    ensures FoldLines(r, a + b) == FoldLines(FoldLines(r, a), b)
    decreases |a|
  {
    hide Absorb;
    if a == [] {
      assert a + b == b;
    } else {
      assert (a + b)[1..] == a[1..] + b;
      FoldLinesAppend(Then(r, a[0]), a[1..], b);
    }
  }

  // ---------------------------------------------------------------- lines without effect

  /** A line the reader skips: blank, a comment, without '=', or under a key it does not know. */
  predicate Noise(line: string) {
    && OneLine(line) && |line| < SCAN_LIMIT
    && (var t := Trim(line);
        t == "" || t[0] == '#' || IndexOf(t, '=') == |t| || Trim(t[..IndexOf(t, '=')]) !in KEYS)
  }

  lemma NoiseIsSkipped(r: ReadResult, line: string)
    requires Noise(line)
    ensures Then(r, line) == r
  {
    hide Trim;
  }

  /** ls is clean with noise lines put in anywhere. */
  ghost predicate Interspersed(ls: seq<string>, clean: seq<string>) {
    if ls == [] then clean == [] else
      || (Noise(ls[0]) && Interspersed(ls[1..], clean))
      || (clean != [] && ls[0] == clean[0] && Interspersed(ls[1..], clean[1..]))
  }

  lemma {:induction false} NoiseChangesNothing(r: ReadResult, ls: seq<string>, clean: seq<string>)
    requires Interspersed(ls, clean)
    ensures FoldLines(r, ls) == FoldLines(r, clean)
    decreases |ls|
  {
    hide Noise, Absorb;
    if ls != [] {
      if Noise(ls[0]) && Interspersed(ls[1..], clean) {
        NoiseIsSkipped(r, ls[0]);
        NoiseChangesNothing(r, ls[1..], clean);
      } else {
        NoiseChangesNothing(Then(r, ls[0]), ls[1..], clean[1..]);
      }
    }
  }

  // ---------------------------------------------------------------- which files are rejected

  /** The value of a line does not fit its key. */
  predicate BadValue(key: string, val: string) {
    || (key in {"pid", "max_concurrent", "slot"} && Atoi(val).None?)
    || (key in {"pid_start", "acquired"} && Parse(val).None?)
  }

  /** A line the reader gives up on. */
  predicate BadLine(line: string) {
    || |line| >= SCAN_LIMIT
    || (var t := Trim(line);
        var i := IndexOf(t, '=');
        t != "" && t[0] != '#' && i < |t| && BadValue(Trim(t[..i]), Trim(t[i + 1..])))
  }

  lemma BadLineIsRejected(m: Marker, line: string)
    ensures Absorb(m, line).Err? <==> BadLine(line)
  {
    hide Trim, Atoi, Parse, IndexOf;
  }

  lemma {:induction false} FoldRejects(r: ReadResult, ls: seq<string>)
    ensures FoldLines(r, ls).Err? <==> r.Err? || exists i :: 0 <= i < |ls| && BadLine(ls[i])
    decreases |ls|
  {
    hide Absorb, BadLine;
    if ls != [] {
      if r.Ok? { BadLineIsRejected(r.value, ls[0]); }
      FoldRejects(Then(r, ls[0]), ls[1..]);
      assert forall i :: 1 <= i < |ls| ==> ls[i] == ls[1..][i - 1];
      assert forall i :: 0 <= i < |ls| - 1 ==> ls[1..][i] == ls[i + 1];
    }
  }

  /**
   * A file is rejected exactly when one of its lines is bad, wherever it stands and whatever else is in the file.
   * last is what follows the last newline: nothing, or a line without one.
   */
  lemma RejectedExactly(ls: seq<string>, last: string)
    requires OneLine(last) && forall i :: 0 <= i < |ls| ==> OneLine(ls[i])
    ensures Read(Unlines(ls) + last).Err? <==> BadLine(last) || exists i :: 0 <= i < |ls| && BadLine(ls[i])
  {
    hide FoldLines, BadLine, ReadFrom, Unlines;
    ReadWholeLines(Ok(NO_MARKER), ls, last);
    FoldRejects(Ok(NO_MARKER), ls);
    var r := FoldLines(Ok(NO_MARKER), ls);
    if r.Ok? {
      BadLineIsRejected(r.value, last);
      LastPart(r.value, last);
    }
  }

  /** What follows the last newline is read as a line. */
  lemma LastPart(m: Marker, last: string)
    requires OneLine(last)
    ensures ReadFrom(m, last) == Absorb(m, last)
  {
    hide Trim, SetField;
    if last == "" {
      TrimOfNothing();
    } else {
      assert IndexOf(last, '\n') == |last|;
      assert last[..|last|] == last;
    }
  }

  // ---------------------------------------------------------------- printed lines

  /** A line writeMarker can print, apart from what its values may contain. */
  predicate ItemOk(item: Item) {
    match item
    case Remark(t) => |t| < SCAN_LIMIT && (t == "" || (t[0] == '#' && OneLine(t)))
    case Field(k, v) => PlainKey(k)
  }

  /** The effect of a printed line. */
  function Put(r: ReadResult, item: Item): ReadResult {
    match r
    case Err(e) => Err(e)
    case Ok(m) =>
      match item
      case Remark(_) => r
      case Field(k, v) => if |k| + 1 + |v| >= SCAN_LIMIT then Err(LineTooLong) else SetField(m, k, Trim(v))
  }

  function PutAll(r: ReadResult, items: seq<Item>): ReadResult
    decreases |items|
  {
    if items == [] then r else PutAll(Put(r, items[0]), items[1..])
  }

  lemma {:induction false} PutAllAppend(r: ReadResult, a: seq<Item>, b: seq<Item>)
    ensures PutAll(r, a + b) == PutAll(PutAll(r, a), b)
    decreases |a|
  {
    hide Put;
    if a == [] {
      assert a + b == b;
    } else {
      assert (a + b)[1..] == a[1..] + b;
      PutAllAppend(Put(r, a[0]), a[1..], b);
    }
  }

  lemma PutOptional(r: ReadResult, present: bool, item: Item)
    ensures PutAll(r, Optional(present, item)) == if present then Put(r, item) else r
  {
    hide Put;
    assert PutAll(Put(r, item), []) == Put(r, item);
  }

  lemma SolidEnds(s: string)
    requires s != "" && Solid(s[0]) && Solid(s[|s| - 1])
    ensures Trimmed(s) && Trim(s) == s
  {
    assert Trimmed(s);
    hide Solid, SpaceFront, SpaceBack;
    TrimKeepsTrimmed(s);
  }

  lemma SolidFront(s: string)
    requires s != "" && Solid(s[0])
    ensures SpaceFront(s) == 0 && TrimLeft(s) == s
  {
  }

  /** Trim on key=val leaves the key alone. */
  lemma TrimField(k: string, v: string)
    requires k != "" && Solid(k[0])
    ensures Trim(k + ['='] + v) == k + ['='] + TrimRight(v)
  {
    hide Solid, TrimRight, SpaceFront, SpaceBack, TrimLeft;
    var line := k + ['='] + v;
    assert line[0] == k[0];
    SolidFront(line);
    EqualsIsSolid();
    TrimRightBehindSolid(k, '=', v);
  }

  lemma IndexBehind(k: string, v: string)
    requires forall j :: 0 <= j < |k| ==> k[j] != '='
    ensures IndexOf(k + ['='] + v, '=') == |k|
  {
    var t := k + ['='] + v;
    assert t[|k|] == '=';
    assert forall j :: 0 <= j < |k| ==> t[j] == k[j];
  }

  lemma EqualsIsSolid()
    ensures Solid('=') && Solid('#')
  {
  }

  lemma AbsorbField(m: Marker, k: string, v: string)
    requires PlainKey(k)
    ensures Absorb(m, k + "=" + v) == Put(Ok(m), Field(k, v))
  {
    hide Solid, Trim, TrimRight, SetField, IndexOf;
    var t := k + ['='] + TrimRight(v);
    assert k + "=" + v == k + ['='] + v;
    TrimField(k, v);
    SolidEnds(k);
    IndexBehind(k, TrimRight(v));
    assert t[0] == k[0] && t[..|k|] == k && t[|k| + 1..] == TrimRight(v);
    TrimOfTrimRight(v);
  }

  lemma TrimOfNothing()
    ensures Trim("") == ""
  {
  }

  lemma AbsorbRemark(m: Marker, t: string)
    requires ItemOk(Remark(t))
    ensures Absorb(m, t) == Ok(m)
  {
    hide Solid, TrimRight, SpaceFront, SpaceBack, TrimLeft, SetField, IndexOf;
    if t == "" {
      TrimOfNothing();
    } else {
      EqualsIsSolid();
      assert t == [] + ['#'] + t[1..];
      TrimRightBehindSolid([], '#', t[1..]);
      SolidFront(t);
    }
  }

  lemma PrintedLineIsItem(r: ReadResult, item: Item)
    requires ItemOk(item)
    ensures Then(r, Render(item)) == Put(r, item)
  {
    hide Absorb;
    if r.Ok? {
      match item
      case Remark(t) => AbsorbRemark(r.value, t);
      case Field(k, v) => AbsorbField(r.value, k, v);
    }
  }

  lemma {:induction false} PrintedLinesAreItems(r: ReadResult, items: seq<Item>)
    requires forall i :: 0 <= i < |items| ==> ItemOk(items[i])
    ensures FoldLines(r, Renders(items)) == PutAll(r, items)
    decreases |items|
  {
    if items != [] {
      hide Absorb, Put, ItemOk;
      var item := items[0];
      assert Then(r, Render(item)) == Put(r, item) by {
        PrintedLineIsItem(r, item);
      }
      assert Renders(items)[1..] == Renders(items[1..]);
      PrintedLinesAreItems(Put(r, item), items[1..]);
    }
  }

  lemma DebugItemIs(m: Marker, x: Item)
    requires x in DebugItems(m)
    ensures
      || x == Remark("")
      || x == Remark(DEBUG_REMARK)
      || x == Field("strategy", m.strategy)
      || x == Field("stale_after", m.staleAfter)
      || x == Field("max_concurrent", DecInt(m.maxConcurrent))
      || x == Field("slot", DecInt(m.slot))
      || x == Field("trace_id", m.traceID)
  {
    hide DecInt;
  }

  lemma HeadItemIs(m: Marker, x: Item)
    requires Printable(m) && x in HeadItems(m)
    ensures
      || x == Remark(IDENTITY_REMARK)
      || x == Field("pid", DecInt(m.pid))
      || x == Field("pid_start", Format(m.pidStart))
  {
    hide DecInt, Format;
  }

  lemma ItemIs(m: Marker, x: Item)
    requires Printable(m) && x in Items(m)
    ensures x in HeadItems(m) || x == Field("host", m.host) || x == Field("acquired", Format(m.acquired)) || x in DebugItems(m)
  {
    hide HeadItems, DebugItems, Format;
  }

  lemma KeysArePlain()
    ensures forall k :: k in KEYS ==> PlainKey(k)
  {
    assert PlainKey("pid");
    assert PlainKey("pid_start");
    assert PlainKey("host");
    assert PlainKey("acquired");
    assert PlainKey("strategy");
    assert PlainKey("stale_after");
    assert PlainKey("max_concurrent");
    assert PlainKey("slot");
    assert PlainKey("trace_id");
  }

  lemma IdentityRemarkIsOk()
    ensures ItemOk(Remark(IDENTITY_REMARK))
  {
    assert forall i :: 0 <= i < |IDENTITY_REMARK| ==> IDENTITY_REMARK[i] != '\n';
  }

  lemma DebugRemarkIsOk()
    ensures ItemOk(Remark(DEBUG_REMARK))
  {
    assert forall i :: 0 <= i < |DEBUG_REMARK| ==> DEBUG_REMARK[i] != '\n';
  }

  lemma RemarksAreOk()
    ensures ItemOk(Remark(IDENTITY_REMARK)) && ItemOk(Remark(DEBUG_REMARK)) && ItemOk(Remark(""))
  {
    IdentityRemarkIsOk();
    DebugRemarkIsOk();
    hide IDENTITY_REMARK, DEBUG_REMARK;
  }

  lemma ItemsOk(m: Marker)
    requires Printable(m)
    ensures forall i :: 0 <= i < |Items(m)| ==> ItemOk(Items(m)[i])
  {
    hide Format, DecInt, HeadItems, DebugItems, PlainKey, Items, Printable;
    RemarksAreOk();
    KeysArePlain();
    forall i | 0 <= i < |Items(m)| ensures ItemOk(Items(m)[i]) {
      var x := Items(m)[i];
      ItemIs(m, x);
      if x in HeadItems(m) { HeadItemIs(m, x); }
      if x in DebugItems(m) { DebugItemIs(m, x); }
    }
  }

  // ---------------------------------------------------------------- the text of a file

  lemma TextAppend(a: seq<Item>, b: seq<Item>)
    ensures Unlines(Renders(a + b)) == Unlines(Renders(a)) + Unlines(Renders(b))
  {
    RendersAppend(a, b);
    UnlinesAppend(Renders(a), Renders(b));
  }

  lemma TextOfOne(item: Item)
    ensures Unlines(Renders([item])) == Render(item) + "\n"
  {
    LineAppended([], item);
    assert [] + [item] == [item];
    assert Unlines(Renders([])) == "";
  }

  lemma TextOfOptional(present: bool, item: Item)
    ensures Unlines(Renders(Optional(present, item))) == if present then Render(item) + "\n" else ""
  {
    if present { TextOfOne(item); }
  }

  /** A line of the file. */
  function Line(present: bool, text: string): string {
    if present then text + "\n" else ""
  }

  lemma TextOfHead(m: Marker)
    requires Printable(m)
    ensures Unlines(Renders(HeadItems(m)))
         == Line(true, "# Identity \U{E2}\U{80}\U{94} read by Acquire") + Line(true, "pid=" + DecInt(m.pid))
            + Line(m.pidStart != 0, "pid_start=" + Format(m.pidStart))
  {
    hide Unlines, Renders, Format, DecInt;
    var pid, start := Field("pid", DecInt(m.pid)), Field("pid_start", Format(m.pidStart));
    TextAppend([Remark(IDENTITY_REMARK), pid], Optional(m.pidStart != 0, start));
    TextAppend([Remark(IDENTITY_REMARK)], [pid]);
    assert [Remark(IDENTITY_REMARK)] + [pid] == [Remark(IDENTITY_REMARK), pid];
    TextOfOne(Remark(IDENTITY_REMARK));
    TextOfOne(pid);
    TextOfOptional(m.pidStart != 0, start);
    assert "pid" + "=" == "pid=" && "pid_start" + "=" == "pid_start=";
  }

  lemma TextOfField(present: bool, k: string, head: string, v: string)
    requires head == k + "="
    ensures Unlines(Renders(Optional(present, Field(k, v)))) == Line(present, head + v)
  {
    hide Unlines, Renders, Optional;
    TextOfOptional(present, Field(k, v));
  }

  lemma TextOfSix(a: seq<Item>, b: seq<Item>, c: seq<Item>, d: seq<Item>, e: seq<Item>, f: seq<Item>)
    ensures Unlines(Renders(a + b + c + d + e + f))
         == Unlines(Renders(a)) + Unlines(Renders(b)) + Unlines(Renders(c)) + Unlines(Renders(d)) + Unlines(Renders(e)) + Unlines(Renders(f))
  {
    hide Unlines, Renders;
    TextAppend(a + b + c + d + e, f);
    TextAppend(a + b + c + d, e);
    TextAppend(a + b + c, d);
    TextAppend(a + b, c);
    TextAppend(a, b);
  }

  lemma TextOfDebugHead()
    ensures Unlines(Renders([Remark("")] + [Remark(DEBUG_REMARK)]))
         == "\n" + Line(true, "# Debug \U{E2}\U{80}\U{94} informational only")
  {
    hide Unlines, Renders;
    TextAppend([Remark("")], [Remark(DEBUG_REMARK)]);
    TextOfOne(Remark(""));
    TextOfOne(Remark(DEBUG_REMARK));
  }

  lemma TextOfDebug(m: Marker)
    ensures Unlines(Renders(DebugItems(m))) ==
      if !HasDebug(m) then "" else
        "\n" + Line(true, "# Debug \U{E2}\U{80}\U{94} informational only")
        + Line(m.strategy != "", "strategy=" + m.strategy) + Line(m.staleAfter != "", "stale_after=" + m.staleAfter)
        + Line(m.maxConcurrent != 0, "max_concurrent=" + DecInt(m.maxConcurrent)) + Line(m.slot != 0, "slot=" + DecInt(m.slot))
        + Line(m.traceID != "", "trace_id=" + m.traceID)
  {
    if HasDebug(m) {
      hide Unlines, Renders, Render, DecInt, Optional, Line, DEBUG_REMARK;
      TextOfDebugHead();
      KeyTexts();
      TextOfField(m.strategy != "", "strategy", "strategy=", m.strategy);
      TextOfField(m.staleAfter != "", "stale_after", "stale_after=", m.staleAfter);
      TextOfField(m.maxConcurrent != 0, "max_concurrent", "max_concurrent=", DecInt(m.maxConcurrent));
      TextOfField(m.slot != 0, "slot", "slot=", DecInt(m.slot));
      TextOfField(m.traceID != "", "trace_id", "trace_id=", m.traceID);
      TextOfSix([Remark("")] + [Remark(DEBUG_REMARK)],
                Optional(m.strategy != "", Field("strategy", m.strategy)),
                Optional(m.staleAfter != "", Field("stale_after", m.staleAfter)),
                Optional(m.maxConcurrent != 0, Field("max_concurrent", DecInt(m.maxConcurrent))),
                Optional(m.slot != 0, Field("slot", DecInt(m.slot))),
                Optional(m.traceID != "", Field("trace_id", m.traceID)));
    } else {
      TextOfNothing();
    }
  }

  lemma TextOfNothing()
    ensures Unlines(Renders([])) == ""
  {
  }

  lemma KeyTexts()
    ensures "strategy" + "=" == "strategy=" && "stale_after" + "=" == "stale_after=" && "slot" + "=" == "slot="
    ensures "max_concurrent" + "=" == "max_concurrent=" && "trace_id" + "=" == "trace_id="
  {
  }

  /** The bytes of a marker file, line by line. */
  lemma TextOfFile(m: Marker)
    requires Printable(m)
    ensures Content(m)
         == Line(true, "# Identity \U{E2}\U{80}\U{94} read by Acquire") + Line(true, "pid=" + DecInt(m.pid))
            + Line(m.pidStart != 0, "pid_start=" + Format(m.pidStart))
            + Line(true, "host=" + m.host) + Line(true, "acquired=" + Format(m.acquired))
            + if !HasDebug(m) then "" else
                "\n" + Line(true, "# Debug \U{E2}\U{80}\U{94} informational only")
                + Line(m.strategy != "", "strategy=" + m.strategy) + Line(m.staleAfter != "", "stale_after=" + m.staleAfter)
                + Line(m.maxConcurrent != 0, "max_concurrent=" + DecInt(m.maxConcurrent)) + Line(m.slot != 0, "slot=" + DecInt(m.slot))
                + Line(m.traceID != "", "trace_id=" + m.traceID)
  {
    hide Unlines, Renders, HeadItems, DebugItems, Format, DecInt, HasDebug;
    var host, acquired := Field("host", m.host), Field("acquired", Format(m.acquired));
    TextAppend(HeadItems(m) + [host] + [acquired], DebugItems(m));
    TextAppend(HeadItems(m) + [host], [acquired]);
    TextAppend(HeadItems(m), [host]);
    TextOfHead(m);
    TextOfOne(host);
    TextOfOne(acquired);
    TextOfDebug(m);
    assert "host" + "=" == "host=" && "acquired" + "=" == "acquired=";
  }

  /** A line that needs no value can have 65535 bytes and not one more. */
  lemma LineLimit(comment: string)
    requires OneLine(comment) && comment != "" && comment[0] == '#'
    ensures Read(comment).Ok? <==> |comment| < 65_536
  {
    hide Read, Trim, IndexOf;
    RejectedExactly([], comment);
    assert Unlines([]) + comment == comment;
    CommentStays(comment);
  }

  lemma CommentStays(comment: string)
    requires comment != "" && comment[0] == '#'
    ensures Trim(comment) != "" && Trim(comment)[0] == '#'
  {
    hide Solid, TrimRight, SpaceFront, SpaceBack, TrimLeft;
    EqualsIsSolid();
    assert comment == [] + ['#'] + comment[1..];
    TrimRightBehindSolid([], '#', comment[1..]);
    SolidFront(comment);
  }

  // ---------------------------------------------------------------- the round trip

  lemma DecIntIsClean(n: int)
    ensures OneLine(DecInt(n)) && Trimmed(DecInt(n)) && 1 <= |DecInt(n)|
  {
    var s := DecInt(n);
    assert forall i :: 0 <= i < |s| ==> IsDigit(s[i]) || s[i] == '-';
  }

  lemma FormatIsClean(t: Instant)
    ensures OneLine(Format(t)) && Trimmed(Format(t)) && |Format(t)| <= 30
  {
    hide OneLine, Format, Trimmed;
    FormatChars(t);
    var f := Format(t);
    assert OneLine(f) by { StampIsOneLine(f); }
    assert Solid(f[0]) && Solid(f[|f| - 1]) by { StampIsSolid(f[0]); StampIsSolid(f[|f| - 1]); }
    SolidEnds(f);
  }

  lemma StampIsOneLine(f: string)
    requires forall i :: 0 <= i < |f| ==> StampChar(f[i])
    ensures OneLine(f)
  {
  }

  lemma StampIsSolid(c: char)
    requires StampChar(c)
    ensures Solid(c)
  {
  }

  /** A value that a key=value line can carry and give back. */
  predicate Carried(key: string, v: string) {
    OneLine(v) && Trimmed(v) && |key| + 1 + |v| < SCAN_LIMIT
  }

  /** Markers whose strings are trimmed single lines within the scanner's limit. */
  predicate RoundTrippable(m: Marker) {
    && Printable(m)
    && Carried("host", m.host) && Carried("strategy", m.strategy)
    && Carried("stale_after", m.staleAfter) && Carried("trace_id", m.traceID)
  }

  lemma PutCarried(m: Marker, k: string, v: string)
    requires Carried(k, v)
    ensures Put(Ok(m), Field(k, v)) == SetField(m, k, v)
  {
    TrimKeepsTrimmed(v);
    hide SetField;
  }

  lemma PutNumber(m: Marker, k: string, n: int)
    requires IsInt64(n) && |k| < 20
    ensures Put(Ok(m), Field(k, DecInt(n))) == SetField(m, k, DecInt(n))
    ensures Atoi(DecInt(n)) == Some(n)
  {
    hide SetField;
    AtoiReadsDecInt(n);
    DecIntIsClean(n);
    DecIntLength(n);
    PutCarried(m, k, DecInt(n));
  }

  lemma DecIntLength(n: int)
    requires IsInt64(n)
    ensures |DecInt(n)| <= 21
  {
    assert Pow10(5) == 100_000;
    assert Pow10(10) == 100_000 * Pow10(5);
    assert Pow10(15) == 100_000 * Pow10(10);
    assert Pow10(20) == 100_000 * Pow10(15);
    DecLength(if n < 0 then -n else n, 20);
  }

  lemma PutTime(m: Marker, k: string, t: Instant)
    requires |k| < 20
    ensures Put(Ok(m), Field(k, Format(t))) == SetField(m, k, Format(t))
    ensures Parse(Format(t)) == Some(t as int)
  {
    hide SetField, Parse;
    ParseReadsFormat(t);
    FormatIsClean(t);
    PutCarried(m, k, Format(t));
  }

  lemma ReadHead(m: Marker)
    requires Printable(m)
    ensures PutAll(Ok(NO_MARKER), HeadItems(m)) == Ok(NO_MARKER.(pid := m.pid, pidStart := m.pidStart))
  {
    hide Atoi, Parse, Format, DecInt;
    var r := Ok(NO_MARKER.(pid := m.pid));
    PutNumber(NO_MARKER, "pid", m.pid);
    PutTime(NO_MARKER.(pid := m.pid), "pid_start", m.pidStart);
    var start := Field("pid_start", Format(m.pidStart));
    PutAllAppend(Ok(NO_MARKER), [Remark(IDENTITY_REMARK), Field("pid", DecInt(m.pid))], Optional(m.pidStart != 0, start));
    PutTwo(Ok(NO_MARKER), Remark(IDENTITY_REMARK), Field("pid", DecInt(m.pid)));
    PutOptional(r, m.pidStart != 0, start);
  }

  lemma PutOne(r: ReadResult, a: Item)
    ensures PutAll(r, [a]) == Put(r, a)
  {
    hide Put;
    assert PutAll(Put(r, a), []) == Put(r, a);
  }

  lemma PutTwo(r: ReadResult, a: Item, b: Item)
    ensures PutAll(r, [a, b]) == Put(Put(r, a), b)
    ensures PutAll(r, [a] + [b]) == Put(Put(r, a), b)
  {
    hide Put;
    assert [a] + [b] == [a, b];
    PutAllAppend(r, [a], [b]);
    PutOne(r, a);
    PutOne(Put(r, a), b);
  }

  lemma Setters(b: Marker, v: string, n: int)
    requires IsInt64(n)
    ensures SetField(b, "strategy", v) == Ok(b.(strategy := v))
    ensures SetField(b, "stale_after", v) == Ok(b.(staleAfter := v))
    ensures SetField(b, "trace_id", v) == Ok(b.(traceID := v))
    ensures SetField(b, "max_concurrent", DecInt(n)) == Ok(b.(maxConcurrent := n))
    ensures SetField(b, "slot", DecInt(n)) == Ok(b.(slot := n))
  {
    hide Atoi, DecInt, Parse;
    AtoiReadsDecInt(n);
  }

  /** An optional field that was omitted when it held the value b already has. */
  lemma ReadOptionalText(r: ReadResult, before: seq<Item>, b: Marker, k: string, v: string, b': Marker)
    requires PutAll(r, before) == Ok(b) && Carried(k, v)
    requires if v != "" then SetField(b, k, v) == Ok(b') else b' == b
    ensures PutAll(r, before + Optional(v != "", Field(k, v))) == Ok(b')
  {
    hide SetField, PutAll, Put, Carried;
    ReadOptional(r, before, v != "", Field(k, v));
    PutCarried(b, k, v);
  }

  lemma ReadOptionalNumber(r: ReadResult, before: seq<Item>, b: Marker, k: string, n: int, b': Marker)
    requires PutAll(r, before) == Ok(b) && IsInt64(n) && |k| < 20
    requires if n != 0 then SetField(b, k, DecInt(n)) == Ok(b') else b' == b
    ensures PutAll(r, before + Optional(n != 0, Field(k, DecInt(n)))) == Ok(b')
  {
    hide SetField, PutAll, Put, DecInt;
    ReadOptional(r, before, n != 0, Field(k, DecInt(n)));
    PutNumber(b, k, n);
  }

  lemma ReadDebug(m: Marker, b: Marker)
    requires RoundTrippable(m)
    requires b.strategy == "" && b.staleAfter == "" && b.maxConcurrent == 0 && b.slot == 0 && b.traceID == ""
    ensures PutAll(Ok(b), DebugItems(m))
         == Ok(b.(strategy := m.strategy, staleAfter := m.staleAfter, maxConcurrent := m.maxConcurrent,
                  slot := m.slot, traceID := m.traceID))
  {
    hide SetField, DecInt, Optional, PutAll, Carried;
    var b1 := b.(strategy := m.strategy);
    var b2 := b1.(staleAfter := m.staleAfter);
    var b3 := b2.(maxConcurrent := m.maxConcurrent);
    var b4 := b3.(slot := m.slot);
    var b5 := b4.(traceID := m.traceID);
    if HasDebug(m) {
      var i0 := [Remark("")] + [Remark(DEBUG_REMARK)];
      var i1 := i0 + Optional(m.strategy != "", Field("strategy", m.strategy));
      var i2 := i1 + Optional(m.staleAfter != "", Field("stale_after", m.staleAfter));
      var i3 := i2 + Optional(m.maxConcurrent != 0, Field("max_concurrent", DecInt(m.maxConcurrent)));
      var i4 := i3 + Optional(m.slot != 0, Field("slot", DecInt(m.slot)));
      PutTwo(Ok(b), Remark(""), Remark(DEBUG_REMARK));
      Setters(b, m.strategy, 0);
      Setters(b1, m.staleAfter, 0);
      Setters(b2, "", m.maxConcurrent);
      Setters(b3, "", m.slot);
      Setters(b4, m.traceID, 0);
      ReadOptionalText(Ok(b), i0, b, "strategy", m.strategy, b1);
      ReadOptionalText(Ok(b), i1, b1, "stale_after", m.staleAfter, b2);
      ReadOptionalNumber(Ok(b), i2, b2, "max_concurrent", m.maxConcurrent, b3);
      ReadOptionalNumber(Ok(b), i3, b3, "slot", m.slot, b4);
      ReadOptionalText(Ok(b), i4, b4, "trace_id", m.traceID, b5);
    } else {
      PutNothing(Ok(b));
    }
  }

  lemma PutNothing(r: ReadResult)
    ensures PutAll(r, []) == r
  {
  }

  lemma ReadOptional(r: ReadResult, before: seq<Item>, present: bool, item: Item)
    ensures PutAll(r, before + Optional(present, item))
         == if present then Put(PutAll(r, before), item) else PutAll(r, before)
  {
    hide Put;
    PutAllAppend(r, before, Optional(present, item));
    PutOptional(PutAll(r, before), present, item);
  }

  lemma ReadItems(m: Marker)
    requires RoundTrippable(m)
    ensures PutAll(Ok(NO_MARKER), Items(m)) == Ok(m)
  {
    hide Atoi, Parse, Format, DecInt, HeadItems, DebugItems, PutAll;
    var z: ReadResult := Ok(NO_MARKER);
    var b1 := NO_MARKER.(pid := m.pid, pidStart := m.pidStart);
    var b2 := b1.(host := m.host);
    var b3 := b2.(acquired := m.acquired);
    var host, acquired := Field("host", m.host), Field("acquired", Format(m.acquired));
    ReadHead(m);
    PutAllAppend(z, HeadItems(m), [host]);
    PutOne(Ok(b1), host);
    PutCarried(b1, "host", m.host);
    PutAllAppend(z, HeadItems(m) + [host], [acquired]);
    PutOne(Ok(b2), acquired);
    PutTime(b2, "acquired", m.acquired);
    PutAllAppend(z, HeadItems(m) + [host] + [acquired], DebugItems(m));
    ReadDebug(m, b3);
  }

  /** The lines of the file of m. */
  function Lines(m: Marker): seq<string>
    requires Printable(m)
  {
    Renders(Items(m))
  }

  /** Every string of m is free of newlines. */
  predicate NewlineFree(m: Marker) {
    OneLine(m.host) && OneLine(m.strategy) && OneLine(m.staleAfter) && OneLine(m.traceID)
  }

  lemma LinesAreLines(m: Marker)
    requires Printable(m) && NewlineFree(m)
    ensures forall i :: 0 <= i < |Lines(m)| ==> OneLine(Lines(m)[i])
  {
    hide Format, DecInt, Trimmed, HeadItems, DebugItems, Items, OneLine;
    forall i | 0 <= i < |Lines(m)| ensures OneLine(Lines(m)[i]) {
      var x := Items(m)[i];
      ItemIs(m, x);
      if x in HeadItems(m) { HeadItemIs(m, x); }
      if x in DebugItems(m) { DebugItemIs(m, x); }
      ItemIsLine(m, x);
    }
  }

  lemma FieldIsLine(k: string, v: string)
    requires k in KEYS && OneLine(v)
    ensures OneLine(Render(Field(k, v)))
  {
    assert OneLine(k) && OneLine("=");
  }

  lemma ItemIsLine(m: Marker, x: Item)
    requires Printable(m) && NewlineFree(m)
    requires
      || x == Remark("")
      || x == Remark(DEBUG_REMARK)
      || x == Remark(IDENTITY_REMARK)
      || x == Field("pid", DecInt(m.pid))
      || x == Field("pid_start", Format(m.pidStart))
      || x == Field("host", m.host)
      || x == Field("acquired", Format(m.acquired))
      || x == Field("strategy", m.strategy)
      || x == Field("stale_after", m.staleAfter)
      || x == Field("max_concurrent", DecInt(m.maxConcurrent))
      || x == Field("slot", DecInt(m.slot))
      || x == Field("trace_id", m.traceID)
    ensures OneLine(Render(x))
  {
    hide Format, DecInt, Trimmed, Render;
    FormatIsClean(m.pidStart);
    FormatIsClean(m.acquired);
    DecIntIsClean(m.pid);
    DecIntIsClean(m.maxConcurrent);
    DecIntIsClean(m.slot);
    match x
    case Field(k, v) =>
      FieldIsLine(k, v);
    case Remark(t) =>
      assert OneLine(t) by { RemarksAreOk(); }
      assert Render(x) == t by { RenderRemark(t); }
  }

  lemma RenderRemark(t: string)
    ensures Render(Remark(t)) == t
  {
  }

  /**
   * Reading a marker file gives back the marker that was written, fields that were left out included,
   * even after blank lines, comments and lines under unknown keys were put in anywhere.
   */
  lemma RoundTrip(m: Marker, ls: seq<string>)
    requires RoundTrippable(m)
    requires Interspersed(ls, Lines(m))
    ensures Read(Unlines(ls)) == Ok(m)
  {
    hide Interspersed, Items, PutAll;
    LinesAreLines(m);
    InterspersedLines(ls, Lines(m));
    ReadLines(ls);
    NoiseChangesNothing(Ok(NO_MARKER), ls, Lines(m));
    ItemsOk(m);
    PrintedLinesAreItems(Ok(NO_MARKER), Items(m));
    ReadItems(m);
  }

  lemma {:induction false} InterspersedLines(ls: seq<string>, clean: seq<string>)
    requires Interspersed(ls, clean)
    requires forall i :: 0 <= i < |clean| ==> OneLine(clean[i])
    ensures forall i :: 0 <= i < |ls| ==> OneLine(ls[i])
  {
    if ls != [] {
      assert OneLine(ls[0]);
      if Noise(ls[0]) && Interspersed(ls[1..], clean) {
        InterspersedLines(ls[1..], clean);
      } else {
        InterspersedLines(ls[1..], clean[1..]);
      }
      assert forall i :: 1 <= i < |ls| ==> ls[i] == ls[1..][i - 1];
    }
  }

  lemma {:induction false} InterspersedWithNothing(ls: seq<string>)
    ensures Interspersed(ls, ls)
  {
    if ls != [] {
      InterspersedWithNothing(ls[1..]);
    }
  }

  /** readMarker undoes writeMarker. */
  lemma ReadsWhatWasWritten(m: Marker)
    requires RoundTrippable(m)
    ensures Read(Content(m)) == Ok(m)
  {
    InterspersedWithNothing(Lines(m));
    RoundTrip(m, Lines(m));
  }

  // ---------------------------------------------------------------- lines that repeat a key

  lemma OneMoreField(ls: seq<string>, k: string, v: string)
    requires (forall i :: 0 <= i < |ls| ==> OneLine(ls[i])) && Read(Unlines(ls)).Ok?
    requires k in KEYS && OneLine(k + "=" + v)
    ensures Read(Unlines(ls) + (k + "=" + v)) == Put(Read(Unlines(ls)), Field(k, v))
  {
    hide FoldLines, ReadFrom, Unlines, Absorb, Put;
    var line := k + "=" + v;
    ReadLines(ls);
    ReadWholeLines(Ok(NO_MARKER), ls, line);
    var m := FoldLines(Ok(NO_MARKER), ls).value;
    LastPart(m, line);
    KeysArePlain();
    AbsorbField(m, k, v);
  }

  lemma LineOfKey(k: string, v: string)
    requires k in KEYS && OneLine(v)
    ensures OneLine(k + "=" + v)
  {
    KeysArePlain();
    assert !Solid('\n');
    assert OneLine(k);
  }

  /** The last line of a key counts: it overrides what was read before it, and nothing else. */
  lemma LaterLinesOverride(ls: seq<string>, n: int, t: Instant, host: string)
    requires (forall i :: 0 <= i < |ls| ==> OneLine(ls[i])) && Read(Unlines(ls)).Ok?
    requires IsInt64(n) && Carried("host", host)
    ensures var text := Unlines(ls); var m := Read(text).value;
      && Read(text + ("pid=" + DecInt(n))) == Ok(m.(pid := n))
      && Read(text + ("pid_start=" + Format(t))) == Ok(m.(pidStart := t))
      && Read(text + ("host=" + host)) == Ok(m.(host := host))
      && Read(text + ("acquired=" + Format(t))) == Ok(m.(acquired := t))
  {
    hide Unlines, ReadFrom, DecInt, Format, Parse, Atoi, Put, OneLine, Trimmed;
    var text := Unlines(ls);
    var m := Read(text).value;
    DecIntIsClean(n);
    FormatIsClean(t);
    LineOfKey("pid", DecInt(n));
    LineOfKey("pid_start", Format(t));
    LineOfKey("host", host);
    LineOfKey("acquired", Format(t));
    IdentityKeyTexts();
    OneMoreField(ls, "pid", DecInt(n));
    OneMoreField(ls, "pid_start", Format(t));
    OneMoreField(ls, "host", host);
    OneMoreField(ls, "acquired", Format(t));
    PutNumber(m, "pid", n);
    PutTime(m, "pid_start", t);
    PutCarried(m, "host", host);
    PutTime(m, "acquired", t);
  }

  lemma IdentityKeyTexts()
    ensures "pid" + "=" == "pid=" && "pid_start" + "=" == "pid_start=" && "host" + "=" == "host=" && "acquired" + "=" == "acquired="
  {
  }

  // ---------------------------------------------------------------- exactly what survives

  lemma FrontOfPrefix(s: string, n: nat)
    requires n <= |s| && SpaceFront(s) == 0
    ensures SpaceFront(s[..n]) == 0
  {
    var t := s[..n];
    assert forall i :: 0 <= i < |t| ==> t[i] == s[i];
  }

  lemma TrimIsTrimmed(s: string)
    ensures Trimmed(Trim(s)) && |Trim(s)| <= |s| && forall c :: c in Trim(s) ==> c in s
  {
    hide SpaceFront, SpaceBack, TrimLeft, TrimRight;
    var t := TrimLeft(s);
    assert TrimRight(t) == t[..|TrimRight(t)|];
    FrontOfPrefix(t, |TrimRight(t)|);
    TrimIsPart(s);
  }

  lemma TrimIsPart(s: string)
    ensures |Trim(s)| <= |s| && forall c :: c in Trim(s) ==> c in s
  {
    hide SpaceFront, SpaceBack, TrimLeft, TrimRight;
    var t := TrimLeft(s);
    assert t == s[|s| - |t|..];
    assert TrimRight(t) <= t;
  }

  /** A reading keeps nothing that a line could not carry. */
  predicate AllCarried(m: Marker) {
    && Carried("host", m.host) && Carried("strategy", m.strategy)
    && Carried("stale_after", m.staleAfter) && Carried("trace_id", m.traceID)
  }

  lemma SetKeepsCarried(m: Marker, key: string, val: string)
    requires AllCarried(m) && Carried(key, val)
    ensures SetField(m, key, val).Ok? ==> AllCarried(SetField(m, key, val).value)
  {
    hide Carried, Atoi, Parse;
  }

  lemma AbsorbKeepsCarried(m: Marker, line: string)
    requires AllCarried(m) && OneLine(line)
    ensures Absorb(m, line).Ok? ==> AllCarried(Absorb(m, line).value)
  {
    hide Trim, Trimmed, SetField, AllCarried, IndexOf;
    var t := Trim(line);
    var i := IndexOf(t, '=');
    if |line| < SCAN_LIMIT && t != "" && t[0] != '#' && i < |t| {
      var key, val := Trim(t[..i]), Trim(t[i + 1..]);
      TrimIsTrimmed(line);
      TrimIsTrimmed(t[..i]);
      TrimIsTrimmed(t[i + 1..]);
      assert forall c :: c in t[i + 1..] ==> c in t;
      assert Carried(key, val);
      SetKeepsCarried(m, key, val);
    }
  }

  lemma ReadStep(m: Marker, s: string)
    requires s != ""
    ensures var i := IndexOf(s, '\n');
      ReadFrom(m, s) == match Absorb(m, s[..i])
                        case Err(e) => Err(e)
                        case Ok(m') => if i == |s| then Ok(m') else ReadFrom(m', s[i + 1..])
  {
    hide Absorb, IndexOf;
  }

  lemma FirstLine(s: string)
    ensures OneLine(s[..IndexOf(s, '\n')])
  {
    hide IndexOf;
  }

  lemma {:induction false} ReadKeepsCarried(m: Marker, s: string)
    requires AllCarried(m)
    ensures ReadFrom(m, s).Ok? ==> AllCarried(ReadFrom(m, s).value)
    decreases |s|
  {
    if s != "" {
      hide Absorb, AllCarried, ReadFrom, IndexOf;
      var i := IndexOf(s, '\n');
      FirstLine(s);
      ReadStep(m, s);
      AbsorbKeepsCarried(m, s[..i]);
      var r := Absorb(m, s[..i]);
      if r.Ok? && i < |s| {
        ReadKeepsCarried(r.value, s[i + 1..]);
      }
    }
  }

  lemma NothingIsCarried()
    ensures AllCarried(NO_MARKER)
  {
  }

  /** The round trip holds for the markers whose strings are trimmed single lines within the scanner's limit, and no other. */
  lemma RoundTripExactly(m: Marker)
    requires Printable(m)
    ensures Read(Content(m)) == Ok(m) <==> RoundTrippable(m)
    ensures RoundTrippable(m) <==>
      && Trimmed(m.host) && Trimmed(m.strategy) && Trimmed(m.staleAfter) && Trimmed(m.traceID)
      && '\n' !in m.host && '\n' !in m.strategy && '\n' !in m.staleAfter && '\n' !in m.traceID
      && |m.host| < 65_531 && |m.strategy| < 65_527 && |m.staleAfter| < 65_524 && |m.traceID| < 65_527
  {
    NothingIsCarried();
    CarriedLengths(m);
    hide Content, AllCarried, ReadFrom;
    ReadKeepsCarried(NO_MARKER, Content(m));
    if RoundTrippable(m) { ReadsWhatWasWritten(m); }
    CarriedIsRoundTrippable(m);
  }

  lemma CarriedIsRoundTrippable(m: Marker)
    requires Printable(m)
    ensures AllCarried(m) <==> RoundTrippable(m)
  {
    hide Carried;
  }

  lemma CarriedLengths(m: Marker)
    requires Printable(m)
    ensures RoundTrippable(m) <==>
      && Trimmed(m.host) && Trimmed(m.strategy) && Trimmed(m.staleAfter) && Trimmed(m.traceID)
      && '\n' !in m.host && '\n' !in m.strategy && '\n' !in m.staleAfter && '\n' !in m.traceID
      && |m.host| < 65_531 && |m.strategy| < 65_527 && |m.staleAfter| < 65_524 && |m.traceID| < 65_527
  {
    hide Trimmed, Printable;
  }
}
