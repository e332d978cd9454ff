// The 64-bit advisory-lock keys of pglock (pglock/key.go, pglock/lock.go). FNV-1a is the hash of section 2 of the
// IETF draft "The FNV Non-Cryptographic Hash Algorithm".

module PgKey {
  import opened Decimal

  const FNV_PRIME: nat := 0x100_0000_01b3

  /** The inverse of the prime modulo 2^64. */
  const FNV_PRIME_INVERSE: nat := 0xce96_5057_aff6_957b

  function NumberByte(x: nat): bv8
    requires x < 256
  {
    x as bv8
  }

  function ByteNumber(b: bv8): (x: nat)
    ensures x < 256
  {
    b as int
  }

  /** The exclusive or of two bytes. */
  function XorBytes(x: nat, b: bv8): (y: nat)
    requires x < 256
    ensures y < 256
  {
    ByteNumber(NumberByte(x) ^ b)
  }

  /** The exclusive or of a state with a byte. */
  function Mix(h: nat, b: bv8): nat {
    256 * (h / 256) + XorBytes(h % 256, b)
  }

  /** One round of FNV-1a on a 64-bit state: first the byte goes in, then the state is multiplied. */
  function Round(h: nat, b: bv8): (r: nat)
    ensures r < TWO_64
  {
    Mix(h, b) * FNV_PRIME % TWO_64
  }

  /** The state after all bytes. */
  function Fold(h: nat, name: seq<bv8>): nat {
    if name == [] then h else Round(Fold(h, name[..|name| - 1]), name[|name| - 1])
  }

  /** The 64-bit FNV offset basis. */
  function Basis(): (h: nat)
    ensures h < TWO_64
  {
    0xcbf2_9ce4_8422_2325
  }

  /** int64(h.Sum64()) + offset. */
  function Key(name: seq<bv8>, offset: int): int {
    Wrap64(Wrap64(Fold(Basis(), name)) + offset)
  }

  lemma KeyIs(name: seq<bv8>, offset: int)
    ensures Key(name, offset) == Wrap64(Wrap64(Fold(Basis(), name)) + offset)
  {
  }

  /** baseKey + int64(slot). */
  function SlotKey(base: int, slot: nat): int {
    Wrap64(base + slot)
  }

  /** hashKey: folds the bytes into the state one by one. */
  method HashKey(name: seq<bv8>, offset: int) returns (key: int)
    ensures key == Key(name, offset)
    ensures name == [] && offset == 0 ==> key == -3_750_763_034_362_895_579
    ensures name == [97] && offset == 0 ==> key == -5_808_556_873_153_909_620
  {
    PublishedValues();
    hide Round, Key;
    var h := Basis();
    for i := 0 to |name|
      invariant h == Fold(Basis(), name[..i])
    {
      assert name[..i + 1][..i] == name[..i];
      h := Round(h, name[i]);
    }
    assert name[..|name|] == name;
    key := Wrap64(Wrap64(h) + offset);
    KeyIs(name, offset);
  }

  // ---------------------------------------------------------------- a round can be undone

  lemma NumberOfByte(b: bv8)
    ensures NumberByte(ByteNumber(b)) == b
  {
  }

  lemma {:induction false} ThereAndBack(x: int)
    requires 0 <= x < 256
    ensures x as bv8 as int == x
  {
    if x > 0 {
      ThereAndBack(x - 1);
      NextByte((x - 1) as bv8);
    }
  }

  lemma NextByte(b: bv8)
    ensures b < 255 ==> (b + 1) as int == b as int + 1
  {
  }

  lemma ByteOfNumber(x: nat)
    requires x < 256
    ensures ByteNumber(NumberByte(x)) == x
  {
    ThereAndBack(x);
  }

  lemma XorTwice(a: bv8, b: bv8)
    ensures a ^ b ^ b == a
  {
  }

  lemma ByteUndo(x: nat, b: bv8)
    requires x < 256
    ensures XorBytes(XorBytes(x, b), b) == x
  {
    hide NumberByte, ByteNumber;
    NumberOfByte(NumberByte(x) ^ b);
    XorTwice(NumberByte(x), b);
    ByteOfNumber(x);
  }

  lemma BytesTell(x: nat, b: bv8, c: bv8)
    requires x < 256 && XorBytes(x, b) == XorBytes(x, c)
    ensures b == c
  {
    hide NumberByte, ByteNumber;
    NumberOfByte(NumberByte(x) ^ b);
    NumberOfByte(NumberByte(x) ^ c);
  }

  /** The exclusive or touches the low byte alone. */
  lemma MixParts(h: nat, b: bv8)
    ensures Mix(h, b) / 256 == h / 256 && Mix(h, b) % 256 == XorBytes(h % 256, b)
    ensures h < TWO_64 ==> Mix(h, b) < TWO_64
  {
    hide XorBytes;
  }

  lemma MixUndo(h: nat, b: bv8)
    ensures Mix(Mix(h, b), b) == h
  {
    MixParts(h, b);
    ByteUndo(h % 256, b);
    hide XorBytes;
  }

  lemma ReduceMultiple(a: nat, k: int)
    requires a < TWO_64
    ensures (a + k * TWO_64) % TWO_64 == a
  {
  }

  /** Multiplication by the prime can be undone. */
  lemma MultiplyUndo(a: nat)
    requires a < TWO_64
    ensures a * FNV_PRIME % TWO_64 * FNV_PRIME_INVERSE % TWO_64 == a
  {
    var q, r := a * FNV_PRIME / TWO_64, a * FNV_PRIME % TWO_64;
    assert r == a * FNV_PRIME - q * TWO_64;
    var t := FNV_PRIME * FNV_PRIME_INVERSE / TWO_64;
    assert FNV_PRIME * FNV_PRIME_INVERSE == 1 + t * TWO_64;
    Rearrange(a, q, t);
    ReduceMultiple(a, a * t - q * FNV_PRIME_INVERSE);
  }

  lemma Rearrange(a: int, q: int, t: int)
    requires FNV_PRIME * FNV_PRIME_INVERSE == 1 + t * TWO_64
    ensures (a * FNV_PRIME - q * TWO_64) * FNV_PRIME_INVERSE == a + (a * t - q * FNV_PRIME_INVERSE) * TWO_64
  {
    var p, i, m: int := FNV_PRIME, FNV_PRIME_INVERSE, TWO_64;
    Distribute(a, q, t, p, i, m);
  }

  lemma Distribute(a: int, q: int, t: int, p: int, i: int, m: int)
    requires p * i == 1 + t * m
    ensures (a * p - q * m) * i == a + (a * t - q * i) * m
  {
    calc {
      (a * p - q * m) * i;
      a * p * i - q * m * i;
      { assert a * p * i == a * (p * i); }
      a * (p * i) - q * m * i;
      a * (1 + t * m) - q * m * i;
      { assert a * (1 + t * m) == a + a * (t * m); }
      a + a * (t * m) - q * m * i;
      { assert a * (t * m) == a * t * m; assert q * m * i == q * i * m; }
      a + a * t * m - q * i * m;
      a + (a * t - q * i) * m;
    }
  }

  /**
   * One more byte of a name: undoing the multiplication gives back the state before it, the byte having touched
   * nothing but its low byte, by exclusive or.
   */
  lemma RoundUndone(name: seq<bv8>, b: bv8)
    ensures var before := Fold(Basis(), name);
      var undone := Fold(Basis(), name + [b]) * FNV_PRIME_INVERSE % 0x1_0000_0000_0000_0000;
      undone / 256 == before / 256 && undone % 256 == (((before % 256) as bv8) ^ b) as int
  {
    var before := Fold(Basis(), name);
    FoldInRange(Basis(), name);
    FoldSnoc(Basis(), name, b);
    MixParts(before, b);
    MultiplyUndo(Mix(before, b));
    hide Fold, Mix;
  }

  /** A round is injective in the state. */
  lemma RoundIsInjective(h: nat, g: nat, b: bv8)
    requires h < TWO_64 && g < TWO_64 && Round(h, b) == Round(g, b)
    ensures h == g
  {
    hide Mix;
    MixParts(h, b);
    MixParts(g, b);
    MultiplyUndo(Mix(h, b));
    MultiplyUndo(Mix(g, b));
    MixUndo(h, b);
    MixUndo(g, b);
  }

  /** A round is injective in the byte. */
  lemma RoundTellsBytes(h: nat, b: bv8, c: bv8)
    requires h < TWO_64 && Round(h, b) == Round(h, c)
    ensures b == c
  {
    hide Mix, XorBytes;
    MixParts(h, b);
    MixParts(h, c);
    MultiplyUndo(Mix(h, b));
    MultiplyUndo(Mix(h, c));
    BytesTell(h % 256, b, c);
  }

  // ---------------------------------------------------------------- known values

  lemma FoldOne(h: nat, b: bv8)
    ensures Fold(h, [b]) == Round(h, b)
  {
    hide Round;
    assert [b][..0] == [];
  }

  lemma {:induction false} FoldInRange(h: nat, name: seq<bv8>)
    requires h < TWO_64
    ensures Fold(h, name) < TWO_64
  {
  }

  lemma {:induction false} FoldAppend(h: nat, a: seq<bv8>, b: seq<bv8>)
    ensures Fold(h, a + b) == Fold(Fold(h, a), b)
    decreases |b|
  {
    hide Round;
    if b == [] {
      assert a + b == a;
    } else {
      assert (a + b)[..|a + b| - 1] == a + b[..|b| - 1];
      FoldAppend(h, a, b[..|b| - 1]);
    }
  }

  lemma FoldSnoc(h: nat, name: seq<bv8>, b: bv8)
    ensures Fold(h, name + [b]) == Round(Fold(h, name), b)
  {
    hide Round, Fold;
    FoldAppend(h, name, [b]);
    FoldOne(Fold(h, name), b);
  }

  lemma KnownXors()
    ensures XorBytes(0x0a, 114) == 0x78
    ensures XorBytes(0x25, 97) == 0x44
    ensures XorBytes(0x25, 102) == 0x43
    ensures XorBytes(0x42, 111) == 0x2d
    ensures XorBytes(0x77, 98) == 0x15
    ensures XorBytes(0xaf, 97) == 0xce
    ensures XorBytes(0xd9, 111) == 0xb6
  {
  }

  /** A round from the state 256 * high + x, in numbers. */
  lemma KnownRound(name: seq<bv8>, high: nat, x: nat, b: bv8, y: nat, longer: seq<bv8>, q: nat, next: nat)
    requires Fold(Basis(), name) == 256 * high + x && longer == name + [b]
    requires x < 256 && XorBytes(x, b) == y
    requires (256 * high + y) * 0x100_0000_01b3 == q * 0x1_0000_0000_0000_0000 + next && next < 0x1_0000_0000_0000_0000
    ensures Fold(Basis(), longer) == next
  {
    hide Fold, XorBytes, Mix;
    FoldSnoc(Basis(), name, b);
    MixNumber(high, x, b);
    ReduceMultiple(next, q);
    assert next + q * TWO_64 == Mix(256 * high + x, b) * FNV_PRIME;
  }

  lemma MixNumber(high: nat, x: nat, b: bv8)
    requires x < 256
    ensures Mix(256 * high + x, b) == 256 * high + XorBytes(x, b)
  {
    hide XorBytes;
  }

  lemma FoldOfA()
    ensures Fold(Basis(), [97]) == 0xaf63_dc4c_8601_ec8c
  {
    assert Fold(Basis(), []) == 0xcbf2_9ce4_8422_2325;
    hide Fold, XorBytes;
    KnownXors();
    KnownRound([], 0xcb_f29c_e484_2223, 0x25, 97, 0x44, [97], 0xcb_f29c_e5de, 0xaf63_dc4c_8601_ec8c);
  }

  lemma FoldOfFoo()
    ensures Fold(Basis(), [102, 111, 111]) == 0xdcb2_7518_fed9_d577
  {
    assert Fold(Basis(), []) == 0xcbf2_9ce4_8422_2325;
    hide Fold, XorBytes;
    KnownXors();
    KnownRound([], 0xcb_f29c_e484_2223, 0x25, 102, 0x43, [102], 0xcb_f29c_e5de, 0xaf63_db4c_8601_ead9);
    KnownRound([102], 0xaf_63db_4c86_01ea, 0xd9, 111, 0xb6, [102, 111], 0xaf_63db_4db0, 0x898_5907_b541_d342);
    KnownRound([102, 111], 0x8_9859_07b5_41d3, 0x42, 111, 0x2d, [102, 111, 111], 0x8_9859_07c3, 0xdcb2_7518_fed9_d577);
  }

  lemma FoldOfFoobar()
    ensures Fold(Basis(), [102, 111, 111, 98, 97, 114]) == 0x8594_4171_f739_67e8
  {
    hide Fold, XorBytes;
    KnownXors();
    FoldOfFoo();
    KnownRound([102, 111, 111], 0xdc_b275_18fe_d9d5, 0x77, 98, 0x15, [102, 111, 111, 98], 0xdc_b275_1a75, 0xdd12_0e79_0c25_12af);
    KnownRound([102, 111, 111, 98], 0xdd_120e_790c_2512, 0xaf, 97, 0xce, [102, 111, 111, 98, 97], 0xdd_120e_7a83, 0xcac1_65af_a2fe_f40a);
    KnownRound([102, 111, 111, 98, 97], 0xca_c165_afa2_fef4, 0x0a, 114, 0x78, [102, 111, 111, 98, 97, 114], 0xca_c165_b0fb, 0x8594_4171_f739_67e8);
  }

  /** The hashes of "", "a" and "foobar" are those the FNV draft publishes, as signed numbers. */
  lemma PublishedValues()
    ensures Key([], 0) == 0xcbf2_9ce4_8422_2325 - 0x1_0000_0000_0000_0000
    ensures Key([97], 0) == 0xaf63_dc4c_8601_ec8c - 0x1_0000_0000_0000_0000
    ensures Key([102, 111, 111, 98, 97, 114], 0) == 0x8594_4171_f739_67e8 - 0x1_0000_0000_0000_0000
  {
    assert Fold(Basis(), []) == 0xcbf2_9ce4_8422_2325;
    hide Fold;
    FoldOfA();
    FoldOfFoobar();
  }

  // ---------------------------------------------------------------- names that differ in one byte

  /** Different states stay different whatever bytes follow. */
  lemma {:induction false} FoldKeepsApart(h: nat, g: nat, name: seq<bv8>)
    requires h < TWO_64 && g < TWO_64 && h != g
    ensures Fold(h, name) != Fold(g, name)
  {
    hide Round;
    if name != [] {
      var front, last := name[..|name| - 1], name[|name| - 1];
      FoldKeepsApart(h, g, front);
      FoldInRange(h, front);
      FoldInRange(g, front);
      if Fold(h, name) == Fold(g, name) {
        RoundIsInjective(Fold(h, front), Fold(g, front), last);
      }
    }
  }

  lemma WrapTellsApart(a: int, b: int, offset: int)
    requires 0 <= a < TWO_64 && 0 <= b < TWO_64
    ensures Wrap64(Wrap64(a) + offset) == Wrap64(Wrap64(b) + offset) <==> a == b
  {
    WrapTwice(a, offset);
    WrapTwice(b, offset);
    hide Wrap64;
    WrapCongruent(a + offset, b + offset);
  }

  /** Wrapped numbers agree exactly when their difference is a multiple of 2^64. */
  lemma WrapCongruent(a: int, b: int)
    ensures Wrap64(a) == Wrap64(b) <==> (a - b) % TWO_64 == 0
  {
  }

  /** The key offset keeps equal names equal and different hashes different. */
  lemma OffsetKeepsApart(name: seq<bv8>, other: seq<bv8>, offset: int)
    ensures Key(name, offset) == Key(other, offset) <==> Fold(Basis(), name) == Fold(Basis(), other)
  {
    hide Fold;
    FoldInRange(Basis(), name);
    FoldInRange(Basis(), other);
    WrapTellsApart(Fold(Basis(), name), Fold(Basis(), other), offset);
  }

  /** Two names that differ in exactly one byte never share a key. */
  lemma OneByteApart(before: seq<bv8>, b: bv8, c: bv8, after: seq<bv8>, offset: int)
    requires b != c
    ensures Key(before + [b] + after, offset) != Key(before + [c] + after, offset)
  {
    hide Fold, Round, Key;
    var h := Fold(Basis(), before);
    FoldInRange(Basis(), before);
    FoldAppend(Basis(), before + [b], after);
    FoldAppend(Basis(), before + [c], after);
    FoldSnoc(Basis(), before, b);
    FoldSnoc(Basis(), before, c);
    if Round(h, b) == Round(h, c) {
      RoundTellsBytes(h, b, c);
    }
    FoldKeepsApart(Round(h, b), Round(h, c), after);
    OffsetKeepsApart(before + [b] + after, before + [c] + after, offset);
  }

  // ---------------------------------------------------------------- offsets and slots

  /** The offset is added to the key without it, around the ends of int64. */
  lemma OffsetAdds(name: seq<bv8>, offset: int)
    ensures -0x8000_0000_0000_0000 <= Key(name, offset) <= 0x7FFF_FFFF_FFFF_FFFF
    ensures (Key(name, offset) - Key(name, 0) - offset) % 0x1_0000_0000_0000_0000 == 0
  {
    hide Fold, Wrap64;
    var h := Fold(Basis(), name);
    WrapTwice(h, offset);
    WrapTwice(h, 0);
    WrapMoves(h);
    WrapMoves(h + offset);
    MultiplesSubtract(Wrap64(h + offset) - (h + offset), Wrap64(h) - h);
  }

  lemma WrapMoves(n: int)
    ensures (Wrap64(n) - n) % TWO_64 == 0
  {
  }

  lemma MultiplesSubtract(x: int, y: int)
    requires x % TWO_64 == 0 && y % TWO_64 == 0
    ensures (x - y) % TWO_64 == 0
  {
  }

  /** Slot 0 has the key of the name, and each slot the key after that of the one before, around the end of int64. */
  lemma SlotKeysCount(name: seq<bv8>, offset: int, slot: nat)
    ensures SlotKey(Key(name, offset), 0) == Key(name, offset)
    ensures var k := SlotKey(Key(name, offset), slot);
      SlotKey(Key(name, offset), slot + 1) == if k == 0x7FFF_FFFF_FFFF_FFFF then -0x8000_0000_0000_0000 else k + 1
  {
    hide Fold;
    WrapIsIdentity(Key(name, offset));
  }

  /** Slot keys of one name are the same exactly when the slots differ by a multiple of 2^64. */
  lemma SlotKeysDiffer(base: int, slot: nat, other: nat)
    ensures SlotKey(base, slot) == SlotKey(base, other) <==> (slot as int - other as int) % TWO_64 == 0
    ensures slot < TWO_64 && other < TWO_64 && slot != other ==> SlotKey(base, slot) != SlotKey(base, other)
  {
    hide Wrap64;
    WrapCongruent(base + slot, base + other);
  }
}
