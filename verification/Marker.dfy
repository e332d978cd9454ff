// The marker file of filelock: a line-oriented printer and parser (filelock/marker.go).

module Marker {
  import opened Wrappers
  import opened Decimal
  import opened Text
  import opened Rfc3339

  /** The contents of a marker file. Times are instants; 0 is Go's zero Time. */
  datatype Marker = Marker(
    pid: int,
    pidStart: int,
    host: string,
    acquired: int,
    strategy: string,
    staleAfter: string,
    maxConcurrent: int,
    slot: int,
    traceID: string)

  const NO_MARKER := Marker(0, 0, "", 0, "", "", 0, 0, "")

  predicate IsInt64(n: int) {
    MIN_INT64 <= n <= MAX_INT64
  }

  /** Markers whose fields Go can hold and whose times have four-digit years. */
  predicate Printable(m: Marker) {
    IsInt64(m.pid) && IsInt64(m.maxConcurrent) && IsInt64(m.slot) && InRange(m.pidStart) && InRange(m.acquired)
  }

  // ---------------------------------------------------------------- the printer

  /** One line of a marker: a remark (a comment or a blank line) or key=value. */
  datatype Item = Remark(text: string) | Field(key: string, val: string)

  function Render(item: Item): string {
    match item
    case Remark(text) => text
    case Field(key, val) => key + "=" + val
  }

  function Renders(items: seq<Item>): (ls: seq<string>)
    ensures |ls| == |items|
    ensures forall i :: 0 <= i < |items| ==> ls[i] == Render(items[i])
  {
    if items == [] then [] else [Render(items[0])] + Renders(items[1..])
  }

  function Unlines(ls: seq<string>): string {
    if ls == [] then "" else ls[0] + "\n" + Unlines(ls[1..])
  }

  function Optional(present: bool, item: Item): seq<Item> {
    if present then [item] else []
  }

  const IDENTITY_REMARK := "# Identity \U{E2}\U{80}\U{94} read by Acquire"
  const DEBUG_REMARK := "# Debug \U{E2}\U{80}\U{94} informational only"

  function HeadItems(m: Marker): seq<Item>
    requires Printable(m)
  {
    [Remark(IDENTITY_REMARK), Field("pid", DecInt(m.pid))]
    + Optional(m.pidStart != 0, Field("pid_start", Format(m.pidStart)))
  }

  predicate HasDebug(m: Marker) {
    m.strategy != "" || m.staleAfter != "" || m.maxConcurrent != 0 || m.slot != 0 || m.traceID != ""
  }

  function DebugItems(m: Marker): seq<Item> {
    if !HasDebug(m) then [] else
      [Remark("")] + [Remark(DEBUG_REMARK)]
      + Optional(m.strategy != "", Field("strategy", m.strategy))
      + Optional(m.staleAfter != "", Field("stale_after", m.staleAfter))
      + Optional(m.maxConcurrent != 0, Field("max_concurrent", DecInt(m.maxConcurrent)))
      + Optional(m.slot != 0, Field("slot", DecInt(m.slot)))
      + Optional(m.traceID != "", Field("trace_id", m.traceID))
  }

  /** The lines of a marker in the order writeMarker emits them. */
  function Items(m: Marker): seq<Item>
    requires Printable(m)
  {
    HeadItems(m) + [Field("host", m.host)] + [Field("acquired", Format(m.acquired))] + DebugItems(m)
  }

  /** The bytes of a marker file. */
  function Content(m: Marker): string
    requires Printable(m)
  {
    Unlines(Renders(Items(m)))
  }

  lemma {:induction false} UnlinesAppend(a: seq<string>, b: seq<string>)
    ensures Unlines(a + b) == Unlines(a) + Unlines(b)
  {
    if a == [] {
      assert a + b == b;
    } else {
      assert (a + b)[1..] == a[1..] + b;
      UnlinesAppend(a[1..], b);
    }
  }

  lemma {:induction false} RendersAppend(a: seq<Item>, b: seq<Item>)
    ensures Renders(a + b) == Renders(a) + Renders(b)
  {
  }

  lemma LineAppended(items: seq<Item>, item: Item)
    ensures Unlines(Renders(items + [item])) == Unlines(Renders(items)) + Render(item) + "\n"
  {
    RendersAppend(items, [item]);
    UnlinesAppend(Renders(items), [Render(item)]);
    assert Renders([item]) == [Render(item)];
    assert Unlines([Render(item)]) == Render(item) + "\n";
  }

  /** The buffered writer a marker is printed to, one line at a time. */
  class Buffer {
    var bytes: string
    ghost var items: seq<Item>

    ghost predicate Valid()
      reads this
    {
      bytes == Unlines(Renders(items))
    }

    constructor ()
      ensures Valid() && bytes == "" && items == []
    {
      bytes, items := "", [];
    }

    /** fmt.Fprintln and fmt.Fprintf with a trailing newline. */
    method Line(item: Item)
      requires Valid()
      modifies this
      ensures Valid() && items == old(items) + [item]
    {
      LineAppended(items, item);
      bytes := bytes + Render(item) + "\n";
      items := items + [item];
    }

    /** A line printed only when its field was set. */
    method LineIf(present: bool, item: Item)
      requires Valid()
      modifies this
      ensures Valid() && items == old(items) + Optional(present, item)
    {
      if present {
        Line(item);
      }
    }
  }

  /** writeMarker: prints m into b line by line. */
  method WriteMarker(b: Buffer, m: Marker)
    requires Printable(m) && b.Valid() && b.bytes == "" && b.items == []
    modifies b
    ensures b.Valid() && b.bytes == Content(m)
  {
    hide Renders, Unlines, Render, Format, DecInt;
    b.Line(Remark(IDENTITY_REMARK));
    b.Line(Field("pid", DecInt(m.pid)));
    if m.pidStart != 0 {
      b.Line(Field("pid_start", Format(m.pidStart)));
    }
    b.Line(Field("host", m.host));
    b.Line(Field("acquired", Format(m.acquired)));
    assert b.items == HeadItems(m) + [Field("host", m.host)] + [Field("acquired", Format(m.acquired))];
    if HasDebug(m) {
      WriteDebug(b, m);
    }
    assert b.items == Items(m);
  }

  lemma Regroup<T>(a: seq<T>, b: seq<T>, c: seq<T>, d: seq<T>, e: seq<T>, f: seq<T>, g: seq<T>, h: seq<T>)
    ensures a + b + c + d + e + f + g + h == a + (b + c + d + e + f + g + h)
  {
    assert a + b + c == a + (b + c);
    assert a + (b + c) + d == a + (b + c + d);
    assert a + (b + c + d) + e == a + (b + c + d + e);
    assert a + (b + c + d + e) + f == a + (b + c + d + e + f);
    assert a + (b + c + d + e + f) + g == a + (b + c + d + e + f + g);
    assert a + (b + c + d + e + f + g) + h == a + (b + c + d + e + f + g + h);
  }

  /** The debug block: only the fields that were set. */
  method WriteDebug(b: Buffer, m: Marker)
    requires HasDebug(m) && b.Valid()
    modifies b
    ensures b.Valid() && b.items == old(b.items) + DebugItems(m)
  {
    hide Renders, Unlines, Render, Format, DecInt, Optional;
    b.Line(Remark(""));
    b.Line(Remark(DEBUG_REMARK));
    b.LineIf(m.strategy != "", Field("strategy", m.strategy));
    b.LineIf(m.staleAfter != "", Field("stale_after", m.staleAfter));
    b.LineIf(m.maxConcurrent != 0, Field("max_concurrent", DecInt(m.maxConcurrent)));
    b.LineIf(m.slot != 0, Field("slot", DecInt(m.slot)));
    b.LineIf(m.traceID != "", Field("trace_id", m.traceID));
    Regroup(old(b.items), [Remark("")], [Remark(DEBUG_REMARK)],
            Optional(m.strategy != "", Field("strategy", m.strategy)),
            Optional(m.staleAfter != "", Field("stale_after", m.staleAfter)),
            Optional(m.maxConcurrent != 0, Field("max_concurrent", DecInt(m.maxConcurrent))),
            Optional(m.slot != 0, Field("slot", DecInt(m.slot))),
            Optional(m.traceID != "", Field("trace_id", m.traceID)));
  }

  // ---------------------------------------------------------------- the parser

  /** bufio.Scanner's token limit: a line of this many bytes is too long. */
  const SCAN_LIMIT: nat := 65_536

  datatype ReadError = LineTooLong | Malformed(key: string)

  type ReadResult = Result<Marker, ReadError>

  const KEYS: set<string> :=
    {"pid", "pid_start", "host", "acquired", "strategy", "stale_after", "max_concurrent", "slot", "trace_id"}

  /** The effect of one key=value line; an unknown key has none. */
  function SetField(m: Marker, key: string, val: string): ReadResult {
    if key == "pid" then
      match Atoi(val) case Some(n) => Ok(m.(pid := n)) case None => Err(Malformed(key))
    else if key == "pid_start" then
      match Parse(val) case Some(t) => Ok(m.(pidStart := t)) case None => Err(Malformed(key))
    else if key == "host" then Ok(m.(host := val))
    else if key == "acquired" then
      match Parse(val) case Some(t) => Ok(m.(acquired := t)) case None => Err(Malformed(key))
    else if key == "strategy" then Ok(m.(strategy := val))
    else if key == "stale_after" then Ok(m.(staleAfter := val))
    else if key == "max_concurrent" then
      match Atoi(val) case Some(n) => Ok(m.(maxConcurrent := n)) case None => Err(Malformed(key))
    else if key == "slot" then
      match Atoi(val) case Some(n) => Ok(m.(slot := n)) case None => Err(Malformed(key))
    else if key == "trace_id" then Ok(m.(traceID := val))
    else Ok(m)
  }

  /** The effect of one scanned line. TrimSpace also removes the carriage return that ScanLines would drop. */
  function Absorb(m: Marker, line: string): ReadResult {
    if |line| >= SCAN_LIMIT then Err(LineTooLong) else
      var t := Trim(line);
      if t == "" || t[0] == '#' then Ok(m) else
        var i := IndexOf(t, '=');
        if i == |t| then Ok(m) else SetField(m, Trim(t[..i]), Trim(t[i + 1..]))
  }

  /** What the scan loop makes of the remaining bytes when m holds the fields read so far. */
  function ReadFrom(m: Marker, s: string): ReadResult
    decreases |s|
  {
    if s == "" then Ok(m) else
      var i := IndexOf(s, '\n');
      match Absorb(m, s[..i])
      case Err(e) => Err(e)
      case Ok(m') => if i == |s| then Ok(m') else ReadFrom(m', s[i + 1..])
  }

  function Read(s: string): ReadResult {
    ReadFrom(NO_MARKER, s)
  }

  /** readMarker on the bytes of the file: scans line by line and fills in the fields of m. */
  method ReadMarker(content: string) returns (r: ReadResult)
    ensures r == Read(content)
  {
    hide SetField, Trim, TrimLeft, TrimRight, SpaceFront, SpaceBack;
    var m := NO_MARKER;
    var rest := content;
    while rest != ""
      invariant ReadFrom(m, rest) == Read(content)
      decreases |rest|
    {
      var end := IndexOf(rest, '\n');
      var line := rest[..end];
      if |line| >= SCAN_LIMIT {
        return Err(LineTooLong);
      }
      rest := if end == |rest| then "" else rest[end + 1..];
      line := Trim(line);
      if line == "" || line[0] == '#' {
        continue;
      }
      var cut := IndexOf(line, '=');
      if cut == |line| {
        continue;
      }
      match SetField(m, Trim(line[..cut]), Trim(line[cut + 1..])) {
        case Err(e) => return Err(e);
        case Ok(updated) => m := updated;
      }
    }
    r := Ok(m);
  }
}
