// Decimal numerals as Go's fmt prints them with %d and strconv reads them back, and the wrap-around of int64.

module Decimal {
  import opened Wrappers

  const MAX_INT64: int := 0x7FFF_FFFF_FFFF_FFFF
  const MIN_INT64: int := -0x8000_0000_0000_0000
  const TWO_64: int := 0x1_0000_0000_0000_0000

  predicate IsDigit(c: char) {
    '0' <= c <= '9'
  }

  predicate AllDigits(s: string) {
    forall i :: 0 <= i < |s| ==> IsDigit(s[i])
  }

  function Digit(d: nat): (c: char)
    requires d < 10
    ensures IsDigit(c)
  {
    ('0' as int + d) as char
  }

  function DigitValue(c: char): (d: nat)
    requires IsDigit(c)
    ensures d < 10 && Digit(d) == c
  {
    c as int - '0' as int
  }

  /** The number a run of digits denotes; leading zeros are harmless. */
  function Value(s: string): nat
    requires AllDigits(s)
  {
    if s == "" then 0 else 10 * Value(s[..|s| - 1]) + DigitValue(s[|s| - 1])
  }

  function Pow10(k: nat): (p: nat)
    ensures p > 0
  {
    if k == 0 then 1 else 10 * Pow10(k - 1)
  }

  /** %d of a non-negative number. */
  function Dec(n: nat): (s: string)
    ensures s != "" && AllDigits(s) && Value(s) == n
  {
    if n < 10 then [Digit(n)] else
      var s := Dec(n / 10) + [Digit(n % 10)];
      assert s[..|s| - 1] == Dec(n / 10);
      s
  }

  /** %d of any number. */
  function DecInt(n: int): string {
    if n < 0 then "-" + Dec(-n) else Dec(n)
  }

  /** Exactly w digits, zero padded, as time.Format prints its fields. */
  function Pad(n: nat, w: nat): (s: string)
    requires n < Pow10(w)
    ensures |s| == w && AllDigits(s) && Value(s) == n
  {
    if w == 0 then "" else
      var s := Pad(n / 10, w - 1) + [Digit(n % 10)];
      assert s[..|s| - 1] == Pad(n / 10, w - 1);
      s
  }

  /** strconv.ParseUint(s, 10, 64). */
  function ParseUint64(s: string): Option<nat> {
    if s == "" || !AllDigits(s) || Value(s) >= TWO_64 then None else Some(Value(s))
  }

  /** strconv.Atoi and strconv.ParseInt(s, 10, 64): an optional sign, digits, and the range of int64. */
  function Atoi(s: string): Option<int> {
    var body := if s != "" && (s[0] == '-' || s[0] == '+') then s[1..] else s;
    if body == "" || !AllDigits(body) then None else
      var magnitude: int := Value(body);
      var n := if s[0] == '-' then -magnitude else magnitude;
      if MIN_INT64 <= n <= MAX_INT64 then Some(n) else None
  }

  lemma AtoiReadsDecInt(n: int)
    requires MIN_INT64 <= n <= MAX_INT64
    ensures Atoi(DecInt(n)) == Some(n)
  {
    var s := DecInt(n);
    if n < 0 {
      assert s[1..] == Dec(-n);
    } else {
      assert IsDigit(s[0]);
    }
  }

  /** Atoi reads exactly digits with an optional sign, within int64. */
  lemma AtoiOfDigits(d: string)
    requires d != "" && AllDigits(d)
    ensures Atoi(d) == Atoi("+" + d) == if Value(d) <= 0x7FFF_FFFF_FFFF_FFFF then Some(Value(d) as int) else None
    ensures Atoi("-" + d) == if Value(d) <= 0x8000_0000_0000_0000 then Some(-(Value(d) as int)) else None
  {
    hide Value;
    assert IsDigit(d[0]);
    assert ("+" + d)[1..] == d && ("-" + d)[1..] == d;
  }

  lemma AtoiOfOthers(s: string)
    requires s == "" || !(AllDigits(s) || ((s[0] == '-' || s[0] == '+') && |s| > 1 && AllDigits(s[1..])))
    ensures Atoi(s) == None
  {
    hide Value;
  }

  /** ParseUint reads exactly digits, within uint64. */
  lemma ParseUintExactly(s: string)
    ensures ParseUint64(s) == if s != "" && AllDigits(s) && Value(s) < 0x1_0000_0000_0000_0000 then Some(Value(s)) else None
  {
    hide Value;
  }

  lemma ParseUintReadsDec(n: nat)
    requires n < TWO_64
    ensures ParseUint64(Dec(n)) == Some(n)
  {
  }

  lemma {:induction false} DecLength(n: nat, k: nat)
    requires k > 0 && n < Pow10(k)
    ensures |Dec(n)| <= k
  {
    if n >= 10 {
      assert k > 1;
      DecLength(n / 10, k - 1);
    }
  }

  // ---------------------------------------------------------------- int64 arithmetic

  /** Two's complement wrap-around of int64. */
  function Wrap64(n: int): (r: int)
    ensures MIN_INT64 <= r <= MAX_INT64
  {
    (n + 0x8000_0000_0000_0000) % 0x1_0000_0000_0000_0000 - 0x8000_0000_0000_0000
  }

  lemma WrapTwice(x: int, y: int)
    ensures Wrap64(Wrap64(x) + y) == Wrap64(x + y)
  {
  }

  lemma WrapIsIdentity(n: int)
    requires MIN_INT64 <= n <= MAX_INT64
    ensures Wrap64(n) == n
  {
  }
}
