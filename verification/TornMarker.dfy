// A marker file cut off anywhere, as a reader can find it while it is being written.

module TornMarker {
  import opened Wrappers
  import opened Decimal
  import opened Text
  import opened Rfc3339
  import opened Marker
  import opened MarkerLaws
  import opened Stale

  // ---------------------------------------------------------------- where a cut can fall

  /** Every prefix is some whole lines and a part of the next one. */
  lemma {:induction false} CutAt(ls: seq<string>, i: nat) returns (j: nat, k: nat)
    requires i <= |Unlines(ls)|
    ensures j <= |ls| && (j < |ls| ==> k <= |ls[j]|)
    ensures Unlines(ls)[..i] == Unlines(ls[..j]) + if j < |ls| then ls[j][..k] else ""
    ensures i == |Unlines(ls[..j])| + if j < |ls| then k else 0
  {
    if ls == [] {
      j, k := 0, 0;
    } else if i <= |ls[0]| {
      j, k := 0, i;
      assert Unlines(ls)[..i] == ls[0][..i];
    } else {
      var head := ls[0] + "\n";
      j, k := CutAt(ls[1..], i - |head|);
      assert Unlines(ls)[..i] == head + Unlines(ls[1..])[..i - |head|];
      assert ls[..j + 1][1..] == ls[1..][..j];
      j := j + 1;
    }
  }

  // ---------------------------------------------------------------- what a part of a line does

  lemma PartOfKeyIsSkipped(m: Marker, k: string, n: nat)
    requires PlainKey(k) && n <= |k|
    ensures ReadFrom(m, k[..n]) == Ok(m) || |k| >= SCAN_LIMIT
  {
    var p := k[..n];
    if p != "" && |k| < SCAN_LIMIT {
      SolidEnds(p);
      assert forall i :: 0 <= i < |p| ==> p[i] == k[i];
      assert IndexOf(p, '=') == |p|;
      assert IndexOf(p, '\n') == |p|;
      assert p[..|p|] == p;
      hide Trim, Solid, IndexOf;
    }
  }

  lemma PartOfRemarkIsSkipped(m: Marker, t: string, n: nat)
    requires ItemOk(Remark(t)) && n <= |t|
    ensures ReadFrom(m, t[..n]) == Ok(m)
  {
    var p := t[..n];
    if p != "" {
      assert p[0] == t[0];
      assert IndexOf(p, '\n') == |p|;
      assert p[..|p|] == p;
      AbsorbRemark(m, p);
      hide Absorb;
    }
  }

  lemma LastLine(m: Marker, p: string)
    requires OneLine(p) && p != ""
    ensures ReadFrom(m, p) == Absorb(m, p)
  {
    hide Absorb;
    assert IndexOf(p, '\n') == |p|;
    assert p[..|p|] == p;
  }

  /** A part of a key=val line is skipped, or is read as key=(part of val). */
  lemma PartOfField(m: Marker, k: string, v: string, n: nat)
    requires PlainKey(k) && |k| < 20 && OneLine(v) && n <= |k + "=" + v|
    ensures n <= |k| ==> ReadFrom(m, (k + "=" + v)[..n]) == Ok(m)
    ensures n > |k| ==> ReadFrom(m, (k + "=" + v)[..n]) == Put(Ok(m), Field(k, v[..n - |k| - 1]))
  {
    hide Absorb, Put, Solid;
    if n <= |k| {
      assert (k + "=" + v)[..n] == k[..n];
      PartOfKeyIsSkipped(m, k, n);
    } else {
      var u := v[..n - |k| - 1];
      var p := (k + "=" + v)[..n];
      assert p == k + "=" + u;
      assert OneLine(k) by { PlainKeyIsLine(k); }
      assert OneLine(p);
      LastLine(m, p);
      AbsorbField(m, k, u);
    }
  }

  lemma PlainKeyIsLine(k: string)
    requires PlainKey(k)
    ensures OneLine(k)
  {
  }

  // ---------------------------------------------------------------- which lines matter

  /** The fields that decide staleness, by key. */
  function FieldOf(m: Marker, key: string): (int, string) {
    if key == "pid" then (m.pid, "")
    else if key == "pid_start" then (m.pidStart, "")
    else if key == "host" then (0, m.host)
    else if key == "acquired" then (m.acquired, "")
    else (0, "")
  }

  lemma OtherFieldsStay(m: Marker, k: string, v: string, key: string)
    requires k != key
    ensures SetField(m, k, v).Ok? ==> FieldOf(SetField(m, k, v).value, key) == FieldOf(m, key)
  {
    hide Atoi, Parse;
  }

  ghost predicate Misses(items: seq<Item>, key: string) {
    forall x :: x in items && x.Field? ==> x.key != key
  }

  lemma PutStays(r: ReadResult, x: Item, key: string)
    requires x.Field? ==> x.key != key
    ensures Put(r, x).Ok? ==> r.Ok? && FieldOf(Put(r, x).value, key) == FieldOf(r.value, key)
  {
    hide SetField, FieldOf, Trim;
    if r.Ok? && x.Field? {
      OtherFieldsStay(r.value, x.key, Trim(x.val), key);
    }
  }

  lemma {:induction false} FieldStays(r: ReadResult, items: seq<Item>, key: string)
    requires Misses(items, key)
    ensures PutAll(r, items).Ok? ==> r.Ok? && FieldOf(PutAll(r, items).value, key) == FieldOf(r.value, key)
    decreases |items|
  {
    hide Put, FieldOf;
    if items != [] {
      var x := items[0];
      assert x in items;
      assert forall y :: y in items[1..] ==> y in items;
      PutStays(r, x, key);
      FieldStays(Put(r, x), items[1..], key);
    }
  }

  // ---------------------------------------------------------------- reading a cut marker

  const HOST_LINE: nat := 5

  /** Bytes up to the end of the acquired timestamp. */
  function AcquiredEnd(m: Marker): nat
    requires Printable(m)
  {
    |Unlines(Renders(HeadItems(m) + [Field("host", m.host)]))| + |Render(Field("acquired", Format(m.acquired)))|
  }

  /** The identity as it was written, but for white space around the hostname. */
  predicate WholeIdentity(m: Marker, t: Marker) {
    HOST_LINE + |m.host| < SCAN_LIMIT && t.host == Trim(m.host) && t.pid == m.pid && t.pidStart == m.pidStart
  }

  /** What the reader can make of the identity: no host yet, or all of it with a host that may be cut short. */
  ghost predicate TornIdentity(m: Marker, t: Marker) {
    || t.host == ""
    || (exists k :: 0 <= k <= |m.host| && TornHost(m, t, k))
  }

  predicate TornHost(m: Marker, t: Marker, k: int)
    requires 0 <= k <= |m.host|
  {
    HOST_LINE + k < SCAN_LIMIT && t.host == Trim(m.host[..k]) && t.pid == m.pid && t.pidStart == m.pidStart
  }

  ghost predicate TornReading(m: Marker, i: nat, r: ReadResult)
    requires Printable(m)
  {
    r.Ok? ==>
      && TornIdentity(m, r.value)
      && (r.value.acquired == 0
          || (r.value.acquired == m.acquired && i >= AcquiredEnd(m) && WholeIdentity(m, r.value)))
  }

  /** The reading of whole lines followed by a part of one line. */
  lemma ReadCut(m: Marker, j: nat, k: nat)
    requires Printable(m) && NewlineFree(m)
    requires j < |Items(m)| && k <= |Render(Items(m)[j])|
    ensures Read(Unlines(Lines(m)[..j]) + Render(Items(m)[j])[..k])
         == ReadRest(PutAll(Ok(NO_MARKER), Items(m)[..j]), Render(Items(m)[j])[..k])
  {
    hide Items, ReadFrom, Put, Unlines, Renders, Render, PutAll;
    var before := Items(m)[..j];
    LinesAreLines(m);
    ItemsOk(m);
    RendersOfPrefix(Items(m), j);
    assert forall i :: 0 <= i < j ==> before[i] == Items(m)[i];
    assert forall i :: 0 <= i < j ==> Lines(m)[i] == Renders(before)[i];
    ReadItemsThen(before, Render(Items(m)[j])[..k]);
  }

  lemma ReadItemsThen(items: seq<Item>, part: string)
    requires forall i :: 0 <= i < |items| ==> ItemOk(items[i]) && OneLine(Renders(items)[i])
    ensures Read(Unlines(Renders(items)) + part) == ReadRest(PutAll(Ok(NO_MARKER), items), part)
  {
    hide ReadFrom, Put, Unlines, Renders, Render, PutAll, FoldLines, ItemOk;
    ReadWholeLines(Ok(NO_MARKER), Renders(items), part);
    PrintedLinesAreItems(Ok(NO_MARKER), items);
  }

  lemma RendersOfPrefix(items: seq<Item>, j: nat)
    requires j <= |items|
    ensures Renders(items)[..j] == Renders(items[..j])
  {
    hide Renders, Render;
    assert items[..j] + items[j..] == items;
    RendersAppend(items[..j], items[j..]);
  }

  lemma HeadMisses(m: Marker)
    requires Printable(m)
    ensures Misses(HeadItems(m), "host") && Misses(HeadItems(m), "acquired")
  {
    hide HeadItems, Format, DecInt;
    forall x | x in HeadItems(m) ensures x.Field? ==> x.key == "pid" || x.key == "pid_start" {
      HeadItemIs(m, x);
    }
  }

  lemma DebugMisses(m: Marker)
    ensures Misses(DebugItems(m), "pid") && Misses(DebugItems(m), "pid_start")
    ensures Misses(DebugItems(m), "host") && Misses(DebugItems(m), "acquired")
  {
    hide DebugItems, DecInt;
    forall x | x in DebugItems(m)
      ensures x.Field? ==> x.key != "pid" && x.key != "pid_start" && x.key != "host" && x.key != "acquired"
    {
      DebugItemIs(m, x);
    }
  }

  /** A cut that ends inside one of items[from..to], none of which sets key, leaves what the earlier lines set. */
  lemma PartStays(r: ReadResult, x: Item, n: nat, key: string)
    requires ItemOk(x) && (x.Field? ==> |x.key| < 20 && x.key != key && OneLine(x.val)) && n <= |Render(x)|
    ensures ReadRest(r, Render(x)[..n]).Ok? ==>
      r.Ok? && FieldOf(ReadRest(r, Render(x)[..n]).value, key) == FieldOf(r.value, key)
  {
    hide FieldOf, ReadFrom, SetField;
    if r.Ok? {
      match x
      case Remark(t) =>
        PartOfRemarkIsSkipped(r.value, t, n);
      case Field(k, v) =>
        PartOfField(r.value, k, v, n);
        if n > |k| {
          OtherFieldsStay(r.value, k, Trim(v[..n - |k| - 1]), key);
        }
    }
  }

  lemma ItemShape(m: Marker, j: nat)
    requires Printable(m) && NewlineFree(m) && j < |Items(m)|
    ensures var x := Items(m)[j]; ItemOk(x) && (x.Field? ==> |x.key| < 20 && OneLine(x.val))
  {
    hide Items, HeadItems, DebugItems, Format, DecInt, PlainKey, OneLine, Trimmed;
    ItemsOk(m);
    var x := Items(m)[j];
    ItemIs(m, x);
    if x in HeadItems(m) { HeadItemIs(m, x); }
    if x in DebugItems(m) { DebugItemIs(m, x); }
    FormatIsClean(m.pidStart);
    FormatIsClean(m.acquired);
    DecIntIsClean(m.pid);
    DecIntIsClean(m.maxConcurrent);
    DecIntIsClean(m.slot);
  }

  lemma CutInHead(m: Marker, j: nat, k: nat, i: nat)
    requires Printable(m) && NewlineFree(m)
    requires j < |HeadItems(m)| && k <= |Render(Items(m)[j])|
    ensures TornReading(m, i, ReadRest(PutAll(Ok(NO_MARKER), Items(m)[..j]), Render(Items(m)[j])[..k]))
  {
    hide PutAll, ReadFrom, HeadItems, DebugItems, Format;
    var head, x := HeadItems(m), Items(m)[j];
    var r := PutAll(Ok(NO_MARKER), Items(m)[..j]);
    HeadMisses(m);
    assert Items(m)[..j] == head[..j] && x == head[j] && x in head;
    assert Misses(head[..j], "host") && Misses(head[..j], "acquired");
    FieldStays(Ok(NO_MARKER), head[..j], "host");
    FieldStays(Ok(NO_MARKER), head[..j], "acquired");
    ItemShape(m, j);
    PartStays(r, x, k, "host");
    PartStays(r, x, k, "acquired");
  }

  lemma CutInHost(m: Marker, k: nat, i: nat)
    requires Printable(m) && NewlineFree(m)
    requires k <= |Render(Field("host", m.host))|
    ensures var r := ReadRest(PutAll(Ok(NO_MARKER), HeadItems(m)), Render(Field("host", m.host))[..k]);
      && TornReading(m, i, r)
      && (k >= HOST_LINE && k < SCAN_LIMIT ==> r.Ok? && TornHost(m, r.value, k - HOST_LINE))
  {
    hide PutAll, ReadFrom, HeadItems, AcquiredEnd, Trim;
    KeysArePlain();
    hide PlainKey;
    ReadHead(m);
    var b := NO_MARKER.(pid := m.pid, pidStart := m.pidStart);
    PartOfField(b, "host", m.host, k);
    var r := ReadFrom(b, Render(Field("host", m.host))[..k]);
    if k >= HOST_LINE && k < SCAN_LIMIT {
      assert r == Ok(b.(host := Trim(m.host[..k - HOST_LINE])));
      assert TornHost(m, r.value, k - HOST_LINE);
    }
  }

  lemma PrefixOfFormatIsTrimmed(t: Instant, n: nat)
    requires n <= |Format(t)|
    ensures Trim(Format(t)[..n]) == Format(t)[..n]
  {
    hide Format, Trim, Trimmed;
    FormatChars(t);
    var p := Format(t)[..n];
    if p == "" {
      TrimOfNothing();
    } else {
      StampIsSolid(p[0]);
      StampIsSolid(p[|p| - 1]);
      SolidEnds(p);
    }
  }

  lemma CutInAcquired(m: Marker, b: Marker, k: nat)
    requires Printable(m) && NewlineFree(m) && k <= |Render(Field("acquired", Format(m.acquired)))|
    requires b.acquired == 0
    ensures var line := Render(Field("acquired", Format(m.acquired)));
      var r := ReadFrom(b, line[..k]);
      r.Ok? ==> r.value == b || (r.value == b.(acquired := m.acquired) && k == |line|)
  {
    hide ReadFrom, Trim, Parse, Format;
    KeysArePlain();
    hide PlainKey;
    FormatIsClean(m.acquired);
    PartOfField(b, "acquired", Format(m.acquired), k);
    var n: int := k - 9;
    if n >= 0 {
      PrefixOfFormatIsTrimmed(m.acquired, n);
      if n < |Format(m.acquired)| {
        CutTimestampIsRejected(m.acquired, n);
      } else {
        assert Format(m.acquired)[..n] == Format(m.acquired);
        ParseReadsFormat(m.acquired);
      }
    }
  }

  /** The fields after the host line. */
  lemma PutHost(m: Marker)
    requires Printable(m)
    ensures PutAll(Ok(NO_MARKER), HeadItems(m) + [Field("host", m.host)])
         == if HOST_LINE + |m.host| >= SCAN_LIMIT then Err(LineTooLong)
            else Ok(NO_MARKER.(pid := m.pid, pidStart := m.pidStart, host := Trim(m.host)))
  {
    hide PutAll, HeadItems, Trim;
    ReadHead(m);
    PutAllAppend(Ok(NO_MARKER), HeadItems(m), [Field("host", m.host)]);
    PutOne(PutAll(Ok(NO_MARKER), HeadItems(m)), Field("host", m.host));
  }

  lemma PutAcquired(m: Marker)
    requires Printable(m)
    ensures PutAll(Ok(NO_MARKER), HeadItems(m) + [Field("host", m.host)] + [Field("acquired", Format(m.acquired))])
         == if HOST_LINE + |m.host| >= SCAN_LIMIT then Err(LineTooLong)
            else Ok(NO_MARKER.(pid := m.pid, pidStart := m.pidStart, host := Trim(m.host), acquired := m.acquired))
  {
    hide PutAll, HeadItems, Trim, Format, Parse;
    PutHost(m);
    var before := HeadItems(m) + [Field("host", m.host)];
    PutAllAppend(Ok(NO_MARKER), before, [Field("acquired", Format(m.acquired))]);
    PutOne(PutAll(Ok(NO_MARKER), before), Field("acquired", Format(m.acquired)));
    if HOST_LINE + |m.host| < SCAN_LIMIT {
      PutTime(NO_MARKER.(pid := m.pid, pidStart := m.pidStart, host := Trim(m.host)), "acquired", m.acquired);
    }
  }

  lemma WholeHost(m: Marker, t: Marker)
    requires WholeIdentity(m, t)
    ensures TornIdentity(m, t)
  {
    hide Trim;
    assert m.host[..|m.host|] == m.host;
    assert TornHost(m, t, |m.host|);
  }

  lemma CutInAcquiredLine(m: Marker, k: nat, i: nat)
    requires Printable(m) && NewlineFree(m)
    requires k <= |Render(Field("acquired", Format(m.acquired)))|
    requires i == |Unlines(Renders(HeadItems(m) + [Field("host", m.host)]))| + k
    ensures TornReading(m, i, ReadRest(PutAll(Ok(NO_MARKER), HeadItems(m) + [Field("host", m.host)]),
                                       Render(Field("acquired", Format(m.acquired)))[..k]))
  {
    hide PutAll, ReadFrom, HeadItems, Render, Format, Trim, Unlines, Renders, TornIdentity;
    PutHost(m);
    if HOST_LINE + |m.host| < SCAN_LIMIT {
      var b := NO_MARKER.(pid := m.pid, pidStart := m.pidStart, host := Trim(m.host));
      CutInAcquired(m, b, k);
      var r := ReadFrom(b, Render(Field("acquired", Format(m.acquired)))[..k]);
      if r.Ok? {
        WholeHost(m, r.value);
      }
    }
  }

  lemma SameIdentity(m: Marker, a: Marker, t: Marker)
    requires HOST_LINE + |m.host| < SCAN_LIMIT
    requires a == NO_MARKER.(pid := m.pid, pidStart := m.pidStart, host := Trim(m.host), acquired := m.acquired)
    requires FieldOf(t, "pid") == FieldOf(a, "pid") && FieldOf(t, "pid_start") == FieldOf(a, "pid_start")
    requires FieldOf(t, "host") == FieldOf(a, "host") && FieldOf(t, "acquired") == FieldOf(a, "acquired")
    ensures TornIdentity(m, t) && WholeIdentity(m, t) && t.acquired == m.acquired
  {
    hide Trim, TornIdentity;
    WholeHost(m, t);
  }

  lemma CutInDebug(m: Marker, d: nat, k: nat, i: nat)
    requires Printable(m) && NewlineFree(m)
    requires d < |DebugItems(m)| && k <= |Render(DebugItems(m)[d])| && i >= AcquiredEnd(m)
    ensures TornReading(m, i,
              ReadRest(PutAll(Ok(NO_MARKER), HeadItems(m) + [Field("host", m.host)] + [Field("acquired", Format(m.acquired))]
                                             + DebugItems(m)[..d]),
                       Render(DebugItems(m)[d])[..k]))
  {
    hide PutAll, ReadFrom, HeadItems, DebugItems, Format, AcquiredEnd, Trim, FieldOf, TornIdentity;
    var a := HeadItems(m) + [Field("host", m.host)] + [Field("acquired", Format(m.acquired))];
    var ra := PutAll(Ok(NO_MARKER), a);
    var debug := DebugItems(m)[..d];
    var rd := PutAll(ra, debug);
    PutAcquired(m);
    PutAllAppend(Ok(NO_MARKER), a, debug);
    DebugMisses(m);
    var x := DebugItems(m)[d];
    assert x in DebugItems(m) && forall y :: y in debug ==> y in DebugItems(m);
    assert x == Items(m)[|a| + d];
    ItemShape(m, |a| + d);
    FieldStays(ra, debug, "pid");
    FieldStays(ra, debug, "pid_start");
    FieldStays(ra, debug, "host");
    FieldStays(ra, debug, "acquired");
    PartStays(rd, x, k, "pid");
    PartStays(rd, x, k, "pid_start");
    PartStays(rd, x, k, "host");
    PartStays(rd, x, k, "acquired");
    var r := ReadRest(rd, Render(x)[..k]);
    if r.Ok? {
      SameIdentity(m, ra.value, r.value);
    }
  }

  lemma ItemsAt(m: Marker, j: nat)
    requires Printable(m) && j < |Items(m)|
    ensures |Items(m)| == |HeadItems(m)| + 2 + |DebugItems(m)|
    ensures var h := |HeadItems(m)|;
      && (j < h ==> Items(m)[..j] == HeadItems(m)[..j] && Items(m)[j] == HeadItems(m)[j])
      && (j == h ==> Items(m)[..j] == HeadItems(m) && Items(m)[j] == Field("host", m.host))
      && (j == h + 1 ==> Items(m)[..j] == HeadItems(m) + [Field("host", m.host)]
                         && Items(m)[j] == Field("acquired", Format(m.acquired)))
      && (j >= h + 2 ==> Items(m)[..j] == HeadItems(m) + [Field("host", m.host)] + [Field("acquired", Format(m.acquired))]
                                          + DebugItems(m)[..j - h - 2]
                         && Items(m)[j] == DebugItems(m)[j - h - 2])
  {
    hide HeadItems, DebugItems, Format;
  }

  /** Whole lines up to and including the acquired line are longer than AcquiredEnd. */
  lemma PastAcquired(m: Marker, debug: seq<Item>)
    requires Printable(m)
    ensures |Unlines(Renders(HeadItems(m) + [Field("host", m.host)] + [Field("acquired", Format(m.acquired))] + debug))|
         >= AcquiredEnd(m)
  {
    hide HeadItems, Format, Render, Renders, Unlines;
    var a := HeadItems(m) + [Field("host", m.host)];
    LineAppended(a, Field("acquired", Format(m.acquired)));
    RendersAppend(a + [Field("acquired", Format(m.acquired))], debug);
    UnlinesAppend(Renders(a + [Field("acquired", Format(m.acquired))]), Renders(debug));
  }

  lemma ReadWhole(m: Marker)
    requires Printable(m) && NewlineFree(m)
    ensures TornReading(m, |Content(m)|, Read(Content(m)))
  {
    hide PutAll, ReadFrom, HeadItems, DebugItems, Format, AcquiredEnd, Trim, FieldOf, TornIdentity, Unlines, Renders;
    var a := HeadItems(m) + [Field("host", m.host)] + [Field("acquired", Format(m.acquired))];
    var ra := PutAll(Ok(NO_MARKER), a);
    PutAcquired(m);
    PutAllAppend(Ok(NO_MARKER), a, DebugItems(m));
    DebugMisses(m);
    FieldStays(ra, DebugItems(m), "pid");
    FieldStays(ra, DebugItems(m), "pid_start");
    FieldStays(ra, DebugItems(m), "host");
    FieldStays(ra, DebugItems(m), "acquired");
    PastAcquired(m, DebugItems(m));
    LinesAreLines(m);
    ItemsOk(m);
    ReadLines(Lines(m));
    PrintedLinesAreItems(Ok(NO_MARKER), Items(m));
    var r := PutAll(Ok(NO_MARKER), Items(m));
    if r.Ok? {
      SameIdentity(m, ra.value, r.value);
    }
  }

  /** What a reader can find in a marker file cut off after i bytes. */
  lemma ReadTorn(m: Marker, i: nat)
    requires Printable(m) && NewlineFree(m) && i <= |Content(m)|
    ensures TornReading(m, i, Read(Content(m)[..i]))
  {
    hide Items, HeadItems, DebugItems, Render, Unlines, Renders, PutAll, ReadFrom, Format, TornReading, AcquiredEnd;
    var j, k := CutAt(Lines(m), i);
    var h := |HeadItems(m)|;
    if j == |Lines(m)| {
      assert Lines(m)[..j] == Lines(m);
      ReadWhole(m);
      assert Content(m)[..i] == Content(m);
    } else {
      assert Lines(m)[j] == Render(Items(m)[j]);
      ReadCut(m, j, k);
      RendersOfPrefix(Items(m), j);
      ItemsAt(m, j);
      if j < h {
        CutInHead(m, j, k, i);
      } else if j == h {
        CutInHost(m, k, i);
      } else if j == h + 1 {
        CutInAcquiredLine(m, k, i);
      } else {
        PastAcquired(m, DebugItems(m)[..j - h - 2]);
        CutInDebug(m, j - h - 2, k, i);
      }
    }
  }

  // ---------------------------------------------------------------- when a torn marker looks dead

  predicate ReadsDead(w: World, s: string) {
    Read(s).Ok? && ProbeMarker(w, Read(s).value) == Dead
  }

  /** Some bytes of the writer's hostname, cut short or whole, read as the local hostname. */
  ghost predicate HostCanBeMistaken(w: World, m: Marker) {
    exists k :: 0 <= k <= |m.host| && ReadsAsLocal(w, m, k)
  }

  predicate ReadsAsLocal(w: World, m: Marker, k: int)
    requires 0 <= k <= |m.host|
  {
    HOST_LINE + k < SCAN_LIMIT && Trim(m.host[..k]) == Hostname(w)
  }

  /**
   * A cut marker can be judged dead exactly when the local process table condemns the writer's PID and some
   * prefix of the writer's hostname reads as the local one.
   */
  lemma TornMarkerReadsDeadExactly(w: World, m: Marker)
    requires Printable(m) && NewlineFree(m)
    ensures (exists i :: 0 <= i <= |Content(m)| && ReadsDead(w, Content(m)[..i]))
       <==> (Hostname(w) != "unknown" && HostCanBeMistaken(w, m)
             && m.pid > 0 && ProbePID(w, m.pid, m.pidStart) == Dead)
  {
    hide Read, Content, Trim;
    if i :| 0 <= i <= |Content(m)| && ReadsDead(w, Content(m)[..i]) {
      ReadTorn(m, i);
      var t := Read(Content(m)[..i]).value;
      var k :| 0 <= k <= |m.host| && TornHost(m, t, k);
      assert ReadsAsLocal(w, m, k);
    }
    if Hostname(w) != "unknown" && HostCanBeMistaken(w, m) && m.pid > 0 && ProbePID(w, m.pid, m.pidStart) == Dead {
      var k :| 0 <= k <= |m.host| && ReadsAsLocal(w, m, k);
      var i := CutInsideHost(m, k);
      assert ReadsDead(w, Content(m)[..i]);
    }
  }

  /** A cut right behind the first k bytes of the hostname. */
  lemma CutInsideHost(m: Marker, k: nat) returns (i: nat)
    requires Printable(m) && NewlineFree(m) && k <= |m.host| && HOST_LINE + k < SCAN_LIMIT
    ensures i <= |Content(m)|
    ensures Read(Content(m)[..i]).Ok? && TornHost(m, Read(Content(m)[..i]).value, k)
  {
    hide Items, HeadItems, DebugItems, Unlines, Renders, PutAll, ReadFrom, Format, TornReading, AcquiredEnd, TornHost;
    var h := |HeadItems(m)|;
    HostComesAfterHead(m);
    var line := Render(Items(m)[h]);
    assert |line| == HOST_LINE + |m.host|;
    RendersOfPrefix(Items(m), h);
    i := |Unlines(Lines(m)[..h])| + HOST_LINE + k;
    ContentAround(m, h);
    assert Content(m)[..i] == Unlines(Lines(m)[..h]) + line[..HOST_LINE + k];
    ReadCut(m, h, HOST_LINE + k);
    CutInHost(m, HOST_LINE + k, i);
  }

  lemma HostComesAfterHead(m: Marker)
    requires Printable(m)
    ensures |HeadItems(m)| < |Items(m)|
    ensures Items(m)[|HeadItems(m)|] == Field("host", m.host) && Items(m)[..|HeadItems(m)|] == HeadItems(m)
  {
    hide HeadItems, DebugItems, Format;
  }

  lemma ContentAround(m: Marker, j: nat)
    requires Printable(m) && j < |Items(m)|
    ensures Unlines(Lines(m)[..j]) + Render(Items(m)[j]) <= Content(m)
  {
    hide Items, Render, Renders;
    var ls := Lines(m);
    assert ls == ls[..j] + ls[j..];
    UnlinesAppend(ls[..j], ls[j..]);
    assert Unlines(ls[j..]) == ls[j] + "\n" + Unlines(ls[j..][1..]);
  }

  /** The writer's process is known to run, as seen by a reader on the writer's own host. */
  predicate WriterRuns(w: World, m: Marker) {
    && m.host == Hostname(w)
    && m.pid in w.procs
    && (m.pidStart == 0 || w.procs[m.pid].start == 0 || w.procs[m.pid].start == m.pidStart)
  }

  lemma RunningWriterIsNotCondemned(w: World, m: Marker)
    requires WriterRuns(w, m)
    ensures m.pid > 0 ==> ProbePID(w, m.pid, m.pidStart) != Dead
  {
  }

  /**
   * On the writer's host, no prefix of a running process's marker is ever stale under PIDOnly, or under PIDFirst
   * without a window; with a window, and under TimeOnly on any host, none that stops before the end of the acquired
   * timestamp is.
   */
  lemma TornMarkerIsNotStale(w: World, m: Marker, i: nat, cfg: Config)
    requires Printable(m) && NewlineFree(m) && i <= |Content(m)|
    requires cfg.strategy != TimeOnly ==> WriterRuns(w, m)
    requires !NoWindow(cfg) ==> i < AcquiredEnd(m)
    ensures Read(Content(m)[..i]).Ok? ==> !IsStale(w, Read(Content(m)[..i]).value, cfg)
  {
    hide Read, Content, AcquiredEnd, ProbeMarker, ProbePID, Printable, NewlineFree, WholeIdentity, TornIdentity;
    ReadTorn(m, i);
    if cfg.strategy != TimeOnly {
      RunningWriterIsNotCondemned(w, m);
      TornMarkerReadsDeadExactly(w, m);
      assert !ReadsDead(w, Content(m)[..i]);
    }
  }

  /**
   * Across hosts the same cut is dangerous: when the reader's hostname is a proper prefix of the writer's, the
   * reader can take over the marker of a process that runs elsewhere.
   */
  lemma TornMarkerAcrossHosts(w: World, m: Marker, cfg: Config)
    requires Printable(m) && NewlineFree(m) && m.pid > 0 && NoWindow(cfg)
    requires Hostname(w) < m.host && |Hostname(w)| < SCAN_LIMIT - HOST_LINE && Trimmed(Hostname(w)) && Hostname(w) != "unknown"
    requires m.pid !in w.procs
    ensures exists i :: 0 <= i <= |Content(m)| && Read(Content(m)[..i]).Ok? && IsStale(w, Read(Content(m)[..i]).value, cfg)
  {
    hide Read, Content, Trim, Printable, NewlineFree;
    var k := |Hostname(w)|;
    TrimKeepsTrimmed(Hostname(w));
    assert m.host[..k] == Hostname(w);
    assert ReadsAsLocal(w, m, k);
    TornMarkerReadsDeadExactly(w, m);
    var i :| 0 <= i <= |Content(m)| && ReadsDead(w, Content(m)[..i]);
    WithoutWindowOnlyTheDeadAreStale(w, Read(Content(m)[..i]).value, cfg);
  }
}
