// Byte strings as Go's strings and bufio packages see them. Each char stands for one byte of a file,
// so a multi-byte UTF-8 space appears as two or three chars.

module Text {

  predicate AsciiSpace(c: char) {
    c == ' ' || '\t' <= c <= '\r'
  }

  /** U+0085 and U+00A0. */
  predicate TwoByteSpace(a: char, b: char) {
    a == '\U{C2}' && (b == '\U{85}' || b == '\U{A0}')
  }

  /** U+1680, U+2000 to U+200A, U+2028, U+2029, U+202F, U+205F and U+3000. */
  predicate ThreeByteSpace(a: char, b: char, c: char) {
    || (a == '\U{E1}' && b == '\U{9A}' && c == '\U{80}')
    || (a == '\U{E2}' && b == '\U{80}' && ('\U{80}' <= c <= '\U{8A}' || c == '\U{A8}' || c == '\U{A9}' || c == '\U{AF}'))
    || (a == '\U{E2}' && b == '\U{81}' && c == '\U{9F}')
    || (a == '\U{E3}' && b == '\U{80}' && c == '\U{80}')
  }

  /** Bytes of the white-space character that s starts with; 0 when it starts with none. */
  function SpaceFront(s: string): (n: nat)
    ensures n <= |s|
  {
    if |s| >= 1 && AsciiSpace(s[0]) then 1
    else if |s| >= 2 && TwoByteSpace(s[0], s[1]) then 2
    else if |s| >= 3 && ThreeByteSpace(s[0], s[1], s[2]) then 3
    else 0
  }

  /** Bytes of the white-space character that s ends with; 0 when it ends with none. */
  function SpaceBack(s: string): (n: nat)
    ensures n <= |s|
  {
    var k := |s|;
    if k >= 1 && AsciiSpace(s[k - 1]) then 1
    else if k >= 2 && TwoByteSpace(s[k - 2], s[k - 1]) then 2
    else if k >= 3 && ThreeByteSpace(s[k - 3], s[k - 2], s[k - 1]) then 3
    else 0
  }

  function TrimLeft(s: string): (t: string)
    ensures |t| <= |s| && t == s[|s| - |t|..] && SpaceFront(t) == 0
  {
    if SpaceFront(s) == 0 then s else TrimLeft(s[SpaceFront(s)..])
  }

  function TrimRight(s: string): (t: string)
    ensures t <= s && SpaceBack(t) == 0
  {
    if SpaceBack(s) == 0 then s else TrimRight(s[..|s| - SpaceBack(s)])
  }

  /** strings.TrimSpace. */
  function Trim(s: string): string {
    TrimRight(TrimLeft(s))
  }

  predicate Trimmed(s: string) {
    SpaceFront(s) == 0 && SpaceBack(s) == 0
  }

  /** A byte that never occurs inside a white-space character. */
  predicate Solid(c: char) {
    !AsciiSpace(c) && c < '\U{80}'
  }

  /** Position of the first c in s, or |s|. */
  function IndexOf(s: string, c: char): (i: nat)
    ensures i <= |s|
    ensures forall j :: 0 <= j < i ==> s[j] != c
    ensures i < |s| ==> s[i] == c
  {
    if s == "" || s[0] == c then 0 else
      var i := 1 + IndexOf(s[1..], c);
      assert forall j :: 1 <= j < i ==> s[j] == s[1..][j - 1];
      i
  }

  lemma TrimKeepsTrimmed(s: string)
    requires Trimmed(s)
    ensures Trim(s) == s
  {
  }

  /** The white space a text ends with does not depend on what stands before a solid byte. */
  lemma SpaceBehindSolid(p: string, c: char, s: string)
    requires Solid(c)
    ensures SpaceBack(p + [c] + s) == SpaceBack(s)
  {
    var whole := p + [c] + s;
    var k, n := |whole|, |s|;
    assert whole[|p|] == c;
    assert n >= 1 ==> whole[k - 1] == s[n - 1];
    assert n >= 2 ==> whole[k - 2] == s[n - 2];
    assert n >= 3 ==> whole[k - 3] == s[n - 3];
    assert n == 0 ==> whole[k - 1] == c;
    assert n == 1 ==> whole[k - 2] == c;
    assert n == 2 ==> whole[k - 3] == c;
  }

  lemma {:induction false} TrimRightBehindSolid(p: string, c: char, s: string)
    requires Solid(c)
    ensures TrimRight(p + [c] + s) == p + [c] + TrimRight(s)
    decreases |s|
  {
    hide SpaceBack, Solid;
    var whole := p + [c] + s;
    SpaceBehindSolid(p, c, s);
    if SpaceBack(s) > 0 {
      var t := s[..|s| - SpaceBack(s)];
      assert whole[..|whole| - SpaceBack(whole)] == p + [c] + t;
      TrimRightBehindSolid(p, c, t);
    }
  }

  /** Trimming on both sides is trimming the right side first and then the left. */
  lemma {:induction false} TrimOfTrimRight(s: string)
    ensures Trim(TrimRight(s)) == Trim(s)
    decreases |s|
  {
    if SpaceBack(s) > 0 {
      var cut := s[..|s| - SpaceBack(s)];
      TrimOfTrimRight(cut);
      TrimDropsBack(s);
    }
  }

  lemma FrontOfShorter(s: string, n: nat)
    requires n == SpaceBack(s) > 0 && SpaceFront(s) + n <= |s|
    ensures SpaceFront(s[..|s| - n]) == SpaceFront(s)
  {
    var cut := s[..|s| - n];
    assert forall i :: 0 <= i < |cut| ==> cut[i] == s[i];
  }

  lemma BackOfRest(s: string, f: nat)
    requires f <= |s| && f + SpaceBack(s) <= |s|
    requires SpaceBack(s) > 0
    ensures SpaceBack(s[f..]) == SpaceBack(s)
  {
    var rest := s[f..];
    assert forall i :: 0 <= i < |rest| ==> rest[i] == s[f + i];
  }

  lemma FrontOrWhole(s: string)
    requires SpaceFront(s) + SpaceBack(s) > |s|
    ensures SpaceFront(s) == |s| == SpaceBack(s)
  {
  }

  lemma {:induction false} TrimDropsBack(s: string)
    requires SpaceBack(s) > 0
    ensures Trim(s[..|s| - SpaceBack(s)]) == Trim(s)
    decreases |s|
  {
    hide SpaceFront, SpaceBack;
    var n := SpaceBack(s);
    var cut := s[..|s| - n];
    var f := SpaceFront(s);
    if f + n > |s| {
      FrontOrWhole(s);
      assert s[f..] == "" == cut;
    } else {
      FrontOfShorter(s, n);
      if f > 0 {
        var rest := s[f..];
        BackOfRest(s, f);
        assert rest[..|rest| - n] == cut[f..];
        TrimDropsBack(rest);
      }
    }
  }

  /** bytes.LastIndexByte: position of the last c in s, or -1. */
  function LastIndexOf(s: string, c: char): (i: int)
    ensures -1 <= i < |s|
    ensures i >= 0 ==> s[i] == c
    ensures forall j :: i < j < |s| ==> s[j] != c
  {
    if s == "" then -1 else if s[|s| - 1] == c then |s| - 1 else LastIndexOf(s[..|s| - 1], c)
  }

  lemma {:induction false} LastIndexBeforeTail(front: string, c: char, tail: string)
    requires c !in tail
    ensures LastIndexOf(front + [c] + tail, c) == |front|
    decreases |tail|
  {
    var s := front + [c] + tail;
    if tail == "" {
      assert s[|s| - 1] == c;
    } else {
      assert s[|s| - 1] == tail[|tail| - 1] && tail[|tail| - 1] in tail;
      var shorter := tail[..|tail| - 1];
      assert forall x :: x in shorter ==> x in tail;
      assert s[..|s| - 1] == front + [c] + shorter;
      LastIndexBeforeTail(front, c, shorter);
    }
  }

  // ---------------------------------------------------------------- which characters are white space

  /** The UTF-8 bytes of a character. */
  function Utf8(c: nat): (s: string)
    requires c < 0x11_0000
    ensures s != ""
  {
    if c < 0x80 then [c as char]
    else if c < 0x800 then [(0xC0 + c / 64) as char, (0x80 + c % 64) as char]
    else if c < 0x1_0000 then [(0xE0 + c / 4096) as char, (0x80 + c / 64 % 64) as char, (0x80 + c % 64) as char]
    else [(0xF0 + c / 262_144) as char, (0x80 + c / 4096 % 64) as char, (0x80 + c / 64 % 64) as char, (0x80 + c % 64) as char]
  }

  /** unicode.IsSpace. */
  predicate WhiteSpace(c: nat) {
    || 0x09 <= c <= 0x0D || c == 0x20 || c == 0x85 || c == 0xA0 || c == 0x1680
    || 0x2000 <= c <= 0x200A || c == 0x2028 || c == 0x2029 || c == 0x202F || c == 0x205F || c == 0x3000
  }

  /** A text is trimmed on the left exactly by the white-space character it starts with. */
  lemma SpaceFrontIsUnicode(c: nat, rest: string)
    requires c < 0x11_0000
    ensures SpaceFront(Utf8(c) + rest) == if WhiteSpace(c) then |Utf8(c)| else 0
  {
    var u := Utf8(c);
    var s := u + rest;
    assert s[0] == u[0];
    assert |u| >= 2 ==> s[1] == u[1];
    assert |u| >= 3 ==> s[2] == u[2];
  }

  /** And on the right exactly by the one it ends with. */
  lemma SpaceBackIsUnicode(front: string, c: nat)
    requires c < 0x11_0000
    ensures SpaceBack(front + Utf8(c)) == if WhiteSpace(c) then |Utf8(c)| else 0
  {
    var u := Utf8(c);
    var s := front + u;
    var k, n := |s|, |u|;
    assert s[k - 1] == u[n - 1];
    assert n >= 2 ==> s[k - 2] == u[n - 2];
    assert n >= 3 ==> s[k - 3] == u[n - 3];
    assert n == 1 && k >= 2 ==> s[k - 2] == front[|front| - 1];
  }
}
