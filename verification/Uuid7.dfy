// The 128-bit layout of a UUIDv7 (section 5.7 of RFC 9562) by shifts and masks on unbounded integers, and its
// canonical text.
module Uuid7 {
  import opened TextOrder

  // ---- the integer operators ----

  function Pow2(k: nat): (r: nat)
    ensures r > 0
  {
    if k == 0 then 1 else 2 * Pow2(k - 1)
  }

  /** `a & b` */
  function And(a: nat, b: nat): nat {
    if a == 0 || b == 0 then 0 else 2 * And(a / 2, b / 2) + (if a % 2 == 1 && b % 2 == 1 then 1 else 0)
  }

  /** `a | b` */
  function Or(a: nat, b: nat): nat {
    if a == 0 && b == 0 then 0 else 2 * Or(a / 2, b / 2) + (if a % 2 + b % 2 > 0 then 1 else 0)
  }

  /** `a << k` */
  function Shl(a: nat, k: nat): nat { if k == 0 then a else 2 * Shl(a, k - 1) }

  lemma {:induction false} ShlMultiplies(a: nat, k: nat)
    ensures Shl(a, k) == a * Pow2(k)
  {
    if k > 0 { ShlMultiplies(a, k - 1); }
  }

  lemma {:induction false} MaskHalves(x: nat, p: nat)
    requires p > 0
    ensures And(x, 2 * p - 1) == 2 * And(x / 2, p - 1) + x % 2
  {
    assert (2 * p - 1) / 2 == p - 1 && (2 * p - 1) % 2 == 1;
  }

  lemma {:induction false} MaskIsRemainder(x: nat, k: nat)
    ensures And(x, Pow2(k) - 1) == x % Pow2(k)
  {
    if k > 0 {
      var p := Pow2(k - 1);
      MaskIsRemainder(x / 2, k - 1);
      MaskHalves(x, p);
      HalfRemainder(x, p);
    }
  }

  lemma HalfRemainder(x: nat, p: nat)
    requires p > 0
    ensures x % (2 * p) == 2 * (x / 2 % p) + x % 2
  {
    var q, r := x / 2 / p, x / 2 % p;
    assert x == q * (2 * p) + (2 * r + x % 2);
    RemainderIs(x, 2 * p, q, 2 * r + x % 2);
  }

  lemma RemainderIs(x: nat, d: nat, q: nat, r: nat)
    requires x == q * d + r && r < d
    ensures x % d == r && x / d == q
  {
    var e := x / d - q;
    assert x == (x / d) * d + x % d;
    assert (x / d) * d == q * d + e * d;
    MultipleBound(e, d);
  }

  lemma MultipleBound(e: int, d: nat)
    ensures e >= 1 ==> e * d >= d
    ensures e <= -1 ==> e * d <= 0 - d
  {}

  lemma {:induction false} OrHalves(p: nat, y: nat)
    ensures Or(2 * p, y) == 2 * Or(p, y / 2) + y % 2 && Or(y, 2 * p) == 2 * Or(y / 2, p) + y % 2
  {
    assert 2 * p / 2 == p && 2 * p % 2 == 0;
    if p == 0 && y == 0 { assert Or(0, 0) == 0; }
  }

  lemma {:induction false} OrOfApartIsSum(x: nat, y: nat, k: nat)
    requires y < Pow2(k)
    ensures Or(x * Pow2(k), y) == x * Pow2(k) + y && Or(y, x * Pow2(k)) == x * Pow2(k) + y
    decreases k
  {
    if k == 0 {
      OrZero(x);
    } else {
      var p := x * Pow2(k - 1);
      assert x * Pow2(k) == 2 * p;
      OrHalves(p, y);
      OrOfApartIsSum(x, y / 2, k - 1);
    }
  }

  lemma {:induction false} OrZero(x: nat)
    ensures Or(x, 0) == x && Or(0, x) == x
  {
    if x > 0 { OrZero(x / 2); }
  }

  // ---- the layout ----

  const LIMIT: nat := 0x1_0000_0000_0000_0000_0000_0000_0000_0000
  const TIME_MASK: nat := 0xFFFF_FFFF_FFFF
  const RAND_B_MASK: nat := 0x3FFF_FFFF_FFFF_FFFF

  /** The high half: 48 bits of time, the version, 12 random bits. */
  function High(time: nat, random: nat): nat {
    Or(Or(Shl(And(time, TIME_MASK), 16), 0x7000), And(random, 0x0FFF))
  }

  /** The low half: the variant and 62 random bits. */
  function Low(random: nat): nat { Or(And(random, RAND_B_MASK), 0x8000_0000_0000_0000) }

  /** `uuid7()`, given the clock in milliseconds and the two random draws. */
  function Uuid(time: nat, randomA: nat, randomB: nat): nat { Or(Shl(High(time, randomA), 64), Low(randomB)) }

  lemma {:induction false} PowerSum(a: nat, b: nat)
    ensures Pow2(a + b) == Pow2(a) * Pow2(b)
    decreases a
  {
    if a > 0 { PowerSum(a - 1, b); }
  }

  lemma Times(a: nat, b: nat, p: nat, q: nat)
    requires Pow2(a) == p && Pow2(b) == q
    ensures Pow2(a + b) == p * q
  {
    PowerSum(a, b);
  }

  lemma Power16()
    ensures Pow2(16) == 0x1_0000
  {
    assert Pow2(8) == 0x100;
    Times(8, 8, 0x100, 0x100);
  }

  lemma Power32()
    ensures Pow2(32) == 0x1_0000_0000
  {
    Power16();
    Times(16, 16, 0x1_0000, 0x1_0000);
  }

  lemma Power48()
    ensures Pow2(48) == 0x1_0000_0000_0000
  {
    Power16();
    Power32();
    Times(32, 16, 0x1_0000_0000, 0x1_0000);
  }

  lemma Power62()
    ensures Pow2(62) == 0x4000_0000_0000_0000
  {
    Power48();
    assert Pow2(14) == 0x4000;
    Times(48, 14, 0x1_0000_0000_0000, 0x4000);
  }

  lemma Power64()
    ensures Pow2(64) == 0x1_0000_0000_0000_0000
  {
    Power32();
    Times(32, 32, 0x1_0000_0000, 0x1_0000_0000);
  }

  lemma Power128()
    ensures Pow2(128) == LIMIT
  {
    Power64();
    Times(64, 64, 0x1_0000_0000_0000_0000, 0x1_0000_0000_0000_0000);
  }

  lemma {:induction false} TimePart(time: nat)
    ensures Or(Shl(And(time, TIME_MASK), 16), 0x7000) == time % 0x1_0000_0000_0000 * 0x1_0000 + 0x7000
  {
    Power48();
    MaskIsRemainder(time, 48);
    Power16();
    var t := time % 0x1_0000_0000_0000;
    ShlMultiplies(t, 16);
    OrOfApartIsSum(t, 0x7000, 16);
  }

  lemma {:induction false} RandomPart(h: nat, random: nat)
    ensures Or(h * 0x1000, And(random, 0x0FFF)) == h * 0x1000 + random % 0x1000
  {
    assert Pow2(12) == 0x1000;
    MaskIsRemainder(random, 12);
    OrOfApartIsSum(h, random % 0x1000, 12);
  }

  lemma HighIs(time: nat, random: nat)
    ensures High(time, random) == time % 0x1_0000_0000_0000 * 0x1_0000 + 0x7000 + random % 0x1000
  {
    TimePart(time);
    RandomPart(time % 0x1_0000_0000_0000 * 16 + 7, random);
  }

  lemma LowIs(random: nat)
    ensures Low(random) == 0x8000_0000_0000_0000 + random % 0x4000_0000_0000_0000
  {
    Power62();
    MaskIsRemainder(random, 62);
    OrOfApartIsSum(2, random % 0x4000_0000_0000_0000, 62);
  }

  lemma UuidIs(time: nat, randomA: nat, randomB: nat)
    ensures Uuid(time, randomA, randomB) == High(time, randomA) * 0x1_0000_0000_0000_0000 + Low(randomB)
    ensures High(time, randomA) < 0x1_0000_0000_0000_0000 && Low(randomB) < 0x1_0000_0000_0000_0000
  {
    Power64();
    HighIs(time, randomA);
    LowIs(randomB);
    ShlMultiplies(High(time, randomA), 64);
    OrOfApartIsSum(High(time, randomA), Low(randomB), 64);
  }

  // The fields of a 128-bit value, by division: bits 80 to 127, 76 to 79, 64 to 75, 62 to 63 and 0 to 61.
  function HighOf(v: nat): nat { v / 0x1_0000_0000_0000_0000 }
  function LowOf(v: nat): nat { v % 0x1_0000_0000_0000_0000 }
  function TimeOf(v: nat): nat { HighOf(v) / 0x1_0000 }
  function VersionOf(v: nat): nat { HighOf(v) / 0x1000 % 16 }
  function RandAOf(v: nat): nat { HighOf(v) % 0x1000 }
  function VariantOf(v: nat): nat { LowOf(v) / 0x4000_0000_0000_0000 }
  function RandBOf(v: nat): nat { LowOf(v) % 0x4000_0000_0000_0000 }

  lemma HalvesOf(v: nat, h: nat, l: nat)
    requires v == h * 0x1_0000_0000_0000_0000 + l && l < 0x1_0000_0000_0000_0000
    ensures HighOf(v) == h && LowOf(v) == l
  {
    RemainderIs(v, 0x1_0000_0000_0000_0000, h, l);
  }

  lemma HighFields(h: nat, t: nat, a: nat)
    requires h == t * 0x1_0000 + 0x7000 + a && a < 0x1000
    ensures h / 0x1_0000 == t && h / 0x1000 % 16 == 7 && h % 0x1000 == a
  {
    RemainderIs(h, 0x1_0000, t, 0x7000 + a);
    RemainderIs(h, 0x1000, t * 16 + 7, a);
  }

  lemma LowFields(l: nat, b: nat)
    requires l == 0x8000_0000_0000_0000 + b && b < 0x4000_0000_0000_0000
    ensures l / 0x4000_0000_0000_0000 == 2 && l % 0x4000_0000_0000_0000 == b
  {
    RemainderIs(l, 0x4000_0000_0000_0000, 2, b);
  }

  lemma HalvesOfUuid(time: nat, randomA: nat, randomB: nat)
    ensures HighOf(Uuid(time, randomA, randomB)) == High(time, randomA)
    ensures LowOf(Uuid(time, randomA, randomB)) == Low(randomB)
    ensures Uuid(time, randomA, randomB) < LIMIT
  {
    UuidIs(time, randomA, randomB);
    HalvesOf(Uuid(time, randomA, randomB), High(time, randomA), Low(randomB));
  }

  /** The value fits in 128 bits, and each field is where the standard puts it and holds what went in. */
  lemma FieldsAreRecovered(time: nat, randomA: nat, randomB: nat)
    ensures Uuid(time, randomA, randomB) < LIMIT
    ensures VersionOf(Uuid(time, randomA, randomB)) == 7 && VariantOf(Uuid(time, randomA, randomB)) == 2
    ensures TimeOf(Uuid(time, randomA, randomB)) == time % 0x1_0000_0000_0000
    ensures RandAOf(Uuid(time, randomA, randomB)) == randomA % 0x1000
    ensures RandBOf(Uuid(time, randomA, randomB)) == randomB % 0x4000_0000_0000_0000
  {
    HalvesOfUuid(time, randomA, randomB);
    HighIs(time, randomA);
    LowIs(randomB);
    HighFields(High(time, randomA), time % 0x1_0000_0000_0000, randomA % 0x1000);
    LowFields(Low(randomB), randomB % 0x4000_0000_0000_0000);
  }

  lemma HighOfSmall(t: nat, a: nat)
    requires t < 0x1_0000_0000_0000 && a < 0x1000
    ensures High(t, a) == t * 0x1_0000 + 0x7000 + a
  {
    HighIs(t, a);
  }

  lemma SameHigh(h: nat)
    requires h / 0x1000 % 16 == 7 && h < 0x1_0000_0000_0000_0000
    ensures High(h / 0x1_0000, h % 0x1000) == h
  {
    HighRebuilt(h);
    HighOfSmall(h / 0x1_0000, h % 0x1000);
  }

  lemma SameLow(l: nat)
    requires l / 0x4000_0000_0000_0000 == 2
    ensures Low(l % 0x4000_0000_0000_0000) == l
  {
    LowIs(l % 0x4000_0000_0000_0000);
  }

  lemma Rebuild(v: nat)
    requires v < LIMIT && VersionOf(v) == 7 && VariantOf(v) == 2
    ensures v == Uuid(TimeOf(v), RandAOf(v), RandBOf(v))
  {
    SameHigh(HighOf(v));
    SameLow(LowOf(v));
    UuidIs(TimeOf(v), RandAOf(v), RandBOf(v));
  }

  lemma HighRebuilt(h: nat)
    requires h / 0x1000 % 16 == 7 && h < 0x1_0000_0000_0000_0000
    ensures h == h / 0x1_0000 * 0x1_0000 + 0x7000 + h % 0x1000 && h / 0x1_0000 < 0x1_0000_0000_0000
  {
    RemainderIs(h, 0x1_0000, h / 0x1000 / 16, 7 * 0x1000 + h % 0x1000);
  }

  /** The values the generator can make are those with version 7 and variant binary 10, and no others. */
  lemma GeneratedExactly(v: nat)
    requires v < LIMIT
    ensures VersionOf(v) == 7 && VariantOf(v) == 2 <==> v == Uuid(TimeOf(v), RandAOf(v), RandBOf(v))
  {
    FieldsAreRecovered(TimeOf(v), RandAOf(v), RandBOf(v));
    if VersionOf(v) == 7 && VariantOf(v) == 2 { Rebuild(v); }
  }

  // ---- canonical text ----

  /** The last `n` hexadecimal digits. */
  function Hex(x: nat, n: nat): (r: string)
    ensures |r| == n
  {
    if n == 0 then "" else Hex(x / 16, n - 1) + [HexChar(x % 16)]
  }

  function Hyphen(s: string, k: nat): string
    requires k <= |s|
  {
    s[..k] + "-" + s[k..]
  }

  /** Groups of 8, 4, 4, 4 and 12 digits. */
  function Hyphens(s: string): string
    requires |s| == 32
  {
    Hyphen(Hyphen(Hyphen(Hyphen(s, 20), 16), 12), 8)
  }

  /** `str(UUID(int=v))` */
  function UuidText(v: nat): string { Hyphens(Hex(v, 32)) }

  // ---- what the text looks like ----

  lemma HyphenAt(s: string, k: nat, i: nat)
    requires k <= |s| && i < |s|
    ensures Hyphen(s, k)[k] == '-' && Hyphen(s, k)[if i < k then i else i + 1] == s[i]
  {}

  lemma HyphenBefore(s: string, k: nat, lo: nat, hi: nat)
    requires lo <= hi <= k <= |s|
    ensures Hyphen(s, k)[lo..hi] == s[lo..hi]
  {}

  lemma HyphenAfter(s: string, k: nat, lo: nat, hi: nat)
    requires k <= lo <= hi <= |s|
    ensures Hyphen(s, k)[lo + 1..hi + 1] == s[lo..hi]
  {}

  lemma FirstGroups(s: string)
    requires |s| == 32
    ensures var t := Hyphens(s); t[..8] == s[..8] && t[8] == '-' && t[9..13] == s[8..12] && t[13] == '-'
  {
    var t1 := Hyphen(s, 20);
    var t2 := Hyphen(t1, 16);
    var t3 := Hyphen(t2, 12);
    HyphenBefore(s, 20, 0, 12);
    HyphenBefore(t1, 16, 0, 12);
    HyphenBefore(t2, 12, 0, 12);
    assert t3[..12] == s[..12];
    HyphenAt(t2, 12, 0);
    HyphenAt(t3, 8, 12);
    HyphenBefore(t3, 8, 0, 8);
    HyphenAfter(t3, 8, 8, 12);
    assert t3[..8] == t3[..12][..8] && t3[8..12] == t3[..12][8..12];
  }

  lemma ThirdGroup(s: string)
    requires |s| == 32
    ensures Hyphens(s)[14..18] == s[12..16] && Hyphens(s)[18] == '-'
  {
    var t1 := Hyphen(s, 20);
    var t2 := Hyphen(t1, 16);
    var t3 := Hyphen(t2, 12);
    HyphenBefore(s, 20, 12, 16);
    HyphenBefore(t1, 16, 12, 16);
    HyphenAfter(t2, 12, 12, 16);
    HyphenAfter(t3, 8, 13, 17);
    HyphenAt(t1, 16, 0);
    HyphenAt(t2, 12, 16);
    HyphenAt(t3, 8, 17);
  }

  lemma LastGroups(s: string)
    requires |s| == 32
    ensures Hyphens(s)[19..23] == s[16..20] && Hyphens(s)[23] == '-' && Hyphens(s)[24..36] == s[20..]
  {
    var t1 := Hyphen(s, 20);
    var t2 := Hyphen(t1, 16);
    var t3 := Hyphen(t2, 12);
    HyphenBefore(s, 20, 16, 20);
    HyphenAfter(t1, 16, 16, 20);
    HyphenAfter(t2, 12, 17, 21);
    HyphenAfter(t3, 8, 18, 22);
    HyphenAt(s, 20, 0);
    HyphenAt(t1, 16, 20);
    HyphenAt(t2, 12, 21);
    HyphenAt(t3, 8, 22);
    HyphenAfter(s, 20, 20, 32);
    HyphenAfter(t1, 16, 21, 33);
    HyphenAfter(t2, 12, 22, 34);
    HyphenAfter(t3, 8, 23, 35);
  }

  predicate LowerHex(c: char) { '0' <= c <= '9' || 'a' <= c <= 'f' }

  function DigitOf(c: char): nat
    requires LowerHex(c)
  {
    if c <= '9' then c as int - '0' as int else c as int - 'a' as int + 10
  }

  predicate AllLowerHex(s: string) { forall i :: 0 <= i < |s| ==> LowerHex(s[i]) }

  /** `int(s, 16)` */
  function NumberOf(s: string): nat
    requires AllLowerHex(s)
  {
    if s == "" then 0 else NumberOf(s[..|s| - 1]) * 16 + DigitOf(s[|s| - 1])
  }

  lemma {:induction false} HexReads(x: nat, n: nat)
    requires x < Pow2(4 * n)
    ensures AllLowerHex(Hex(x, n)) && NumberOf(Hex(x, n)) == x
  {
    if n > 0 {
      var k := n - 1;
      Sixteenth(x, k);
      HexReads(x / 16, k);
      HexGrows(Hex(x / 16, k), x % 16);
      assert Hex(x, n) == Hex(x / 16, k) + [HexChar(x % 16)];
    }
  }

  lemma {:induction false} Sixteenth(x: nat, n: nat)
    requires x < Pow2(4 * (n + 1))
    ensures x / 16 < Pow2(4 * n)
  {
    PowerSum(4, 4 * n);
    assert Pow2(4) == 16;
  }

  lemma {:induction false} HexGrows(s: string, d: nat)
    requires AllLowerHex(s) && d < 16
    ensures AllLowerHex(s + [HexChar(d)]) && NumberOf(s + [HexChar(d)]) == NumberOf(s) * 16 + d
  {
    assert (s + [HexChar(d)])[..|s|] == s;
    assert DigitOf(HexChar(d)) == d;
  }

  /** The 36 characters of a text without those at the hyphens. */
  function WithoutHyphens(t: string): string
    requires |t| == 36
  {
    t[..8] + t[9..13] + t[14..18] + t[19..23] + t[24..]
  }

  lemma {:induction false} HyphensLayout(s: string)
    requires |s| == 32
    ensures var t := Hyphens(s);
      |t| == 36 && t[8] == '-' && t[13] == '-' && t[18] == '-' && t[23] == '-' && WithoutHyphens(t) == s
  {
    FirstGroups(s);
    ThirdGroup(s);
    LastGroups(s);
    assert s == s[..8] + s[8..12] + s[12..16] + s[16..20] + s[20..];
  }

  /** The text of an identifier is 36 characters: hyphens after 8, 12, 16 and 20 digits, and without them the 32
      lower-case hexadecimal digits of the number. */
  lemma {:induction false} TextLayout(v: nat)
    requires v < LIMIT
    ensures var t := UuidText(v);
      |t| == 36 && t[8] == '-' && t[13] == '-' && t[18] == '-' && t[23] == '-'
      && AllLowerHex(WithoutHyphens(t)) && NumberOf(WithoutHyphens(t)) == v
  {
    Power128();
    HexReads(v, 32);
    HyphensLayout(Hex(v, 32));
  }

  lemma DigitMoves(x: nat, hi: nat, lo: nat, p: nat)
    requires x == hi * (16 * p) + lo
    ensures x / 16 == hi * p + lo / 16 && x % 16 == lo % 16
  {
    assert hi * (16 * p) == 16 * (hi * p);
    RemainderIs(x, 16, hi * p + lo / 16, lo % 16);
  }

  /** The digits of a number in two parts are the digits of the parts. */
  lemma {:induction false} HexSplits(x: nat, hi: nat, lo: nat, m: nat, k: nat)
    requires x == hi * Pow2(4 * k) + lo && lo < Pow2(4 * k)
    ensures Hex(x, m + k) == Hex(hi, m) + Hex(lo, k)
    decreases k
  {
    if k > 0 {
      var j := k - 1;
      Sixteenth(lo, j);
      PowerSum(4, 4 * j);
      assert Pow2(4) == 16;
      DigitMoves(x, hi, lo, Pow2(4 * j));
      HexSplits(x / 16, hi, lo / 16, m, j);
      assert Hex(x, m + k) == Hex(x / 16, m + j) + [HexChar(x % 16)];
    }
  }

  lemma {:induction false} HighText(h: nat, t: nat, a: nat)
    requires h == t * 0x1_0000 + 0x7000 + a && a < 0x1000
    ensures Hex(h, 16)[12] == '7'
  {
    Power16();
    HexSplits(h, t, 0x7000 + a, 12, 4);
    assert Pow2(12) == 0x1000;
    HexSplits(0x7000 + a, 7, a, 1, 3);
    assert Hex(7, 1)[0] == '7';
  }

  lemma Power60()
    ensures Pow2(60) == 0x1000_0000_0000_0000
  {
    Power48();
    assert Pow2(12) == 0x1000;
    Times(48, 12, 0x1_0000_0000_0000, 0x1000);
  }

  lemma {:induction false} LowText(l: nat, b: nat)
    requires l == 0x8000_0000_0000_0000 + b && b < 0x4000_0000_0000_0000
    ensures Hex(l, 16)[0] in "89ab"
  {
    Power60();
    var top, rest := 8 + b / 0x1000_0000_0000_0000, b % 0x1000_0000_0000_0000;
    HexSplits(l, top, rest, 1, 15);
    assert Hex(top, 1)[0] == HexChar(top) && 8 <= top < 12;
    assert HexChar(top) == "89ab"[top - 8];
  }

  /** What is generated is a lower-case canonical version 7 text: the version is the character at 14, the variant shows
      in the one at 19. */
  lemma {:induction false} GeneratedText(time: nat, randomA: nat, randomB: nat)
    ensures var t := UuidText(Uuid(time, randomA, randomB)); |t| == 36 && t[14] == '7' && t[19] in "89ab"
  {
    var v := Uuid(time, randomA, randomB);
    var h, l := High(time, randomA), Low(randomB);
    UuidIs(time, randomA, randomB);
    Power64();
    HexSplits(v, h, l, 16, 16);
    HighIs(time, randomA);
    HighText(h, time % 0x1_0000_0000_0000, randomA % 0x1000);
    LowIs(randomB);
    LowText(l, randomB % 0x4000_0000_0000_0000);
    ThirdGroup(Hex(v, 32));
    LastGroups(Hex(v, 32));
    HyphensLayout(Hex(v, 32));
    assert Hyphens(Hex(v, 32))[14] == Hyphens(Hex(v, 32))[14..18][0] && Hyphens(Hex(v, 32))[19] == Hyphens(Hex(v, 32))[19..23][0];
  }

  // ---- the order of texts ----

  lemma {:induction false} HyphenKeepsLess(a: string, b: string, k: nat)
    requires |a| == |b| && k <= |a| && Less(a, b)
    ensures Less(Hyphen(a, k), Hyphen(b, k))
  {
    var i := LessHasDifference(a, b);
    var j := if i < k then i else i + 1;
    var s, t := Hyphen(a, k), Hyphen(b, k);
    if i < k {
      assert s[..j] == a[..i] && t[..j] == b[..i];
    } else {
      assert a[..k] == a[..i][..k] == b[..i][..k] == b[..k];
      assert s[..j] == a[..k] + "-" + a[..i][k..] && t[..j] == b[..k] + "-" + b[..i][k..];
    }
    LessAt(s, t, j);
  }

  // ---- text order is value order ----

  lemma {:induction false} HexKeepsOrder(x: nat, y: nat, n: nat)
    requires x < y < Pow2(4 * n)
    ensures Less(Hex(x, n), Hex(y, n))
  {
    if n > 0 {
      var k := n - 1;
      PowerSum(4, 4 * k);
      assert Pow2(4) == 16;
      if x / 16 < y / 16 {
        HexKeepsOrder(x / 16, y / 16, k);
        LessExtends(Hex(x / 16, k), Hex(y / 16, k), [HexChar(x % 16)], [HexChar(y % 16)]);
      } else {
        assert Hex(x, n)[..k] == Hex(x / 16, k) == Hex(y, n)[..k];
        LessAt(Hex(x, n), Hex(y, n), k);
      }
    }
  }

  lemma {:induction false} HyphensKeepLess(a: string, b: string)
    requires |a| == |b| == 32 && Less(a, b)
    ensures Less(Hyphens(a), Hyphens(b))
  {
    HyphenKeepsLess(a, b, 20);
    HyphenKeepsLess(Hyphen(a, 20), Hyphen(b, 20), 16);
    HyphenKeepsLess(Hyphen(Hyphen(a, 20), 16), Hyphen(Hyphen(b, 20), 16), 12);
    HyphenKeepsLess(Hyphen(Hyphen(Hyphen(a, 20), 16), 12), Hyphen(Hyphen(Hyphen(b, 20), 16), 12), 8);
  }

  lemma SmallerText(v: nat, w: nat)
    requires v < w < LIMIT
    ensures Less(UuidText(v), UuidText(w))
  {
    Power128();
    HexKeepsOrder(v, w, 32);
    HyphensKeepLess(Hex(v, 32), Hex(w, 32));
  }

  /** Identifiers sort as text exactly as they sort as numbers, and no two share a text. */
  lemma TextOrderIsValueOrder(v: nat, w: nat)
    requires v < LIMIT && w < LIMIT
    ensures Less(UuidText(v), UuidText(w)) <==> v < w
    ensures UuidText(v) == UuidText(w) <==> v == w
  {
    LessIsStrict(UuidText(v), UuidText(w));
    if v < w {
      SmallerText(v, w);
    } else if w < v {
      SmallerText(w, v);
    }
  }

  /** An identifier whose 48 bits of time are smaller is smaller, as a number and as text, whatever its random bits. */
  lemma EarlierIsSmaller(t: nat, u: nat, a: nat, b: nat, c: nat, d: nat)
    requires t % 0x1_0000_0000_0000 < u % 0x1_0000_0000_0000
    ensures Uuid(t, a, b) < Uuid(u, c, d)
    ensures Less(UuidText(Uuid(t, a, b)), UuidText(Uuid(u, c, d)))
  {
    LaterUuid(t, u, a, b, c, d);
    FieldsAreRecovered(t, a, b);
    FieldsAreRecovered(u, c, d);
    SmallerText(Uuid(t, a, b), Uuid(u, c, d));
  }

  lemma LaterHigh(t: nat, u: nat, a: nat, c: nat)
    requires t % 0x1_0000_0000_0000 < u % 0x1_0000_0000_0000
    ensures High(t, a) < High(u, c)
  {
    HighIs(t, a);
    HighIs(u, c);
    TimeDecides(High(t, a), High(u, c), t % 0x1_0000_0000_0000, u % 0x1_0000_0000_0000, a % 0x1000, c % 0x1000);
  }

  lemma TimeDecides(h: nat, k: nat, t: nat, u: nat, a: nat, c: nat)
    requires h == t * 0x1_0000 + 0x7000 + a && k == u * 0x1_0000 + 0x7000 + c
    requires t < u && a < 0x1000
    ensures h < k
  {}

  lemma HighDecides(v: nat, w: nat, h: nat, k: nat, l: nat, m: nat)
    requires v == h * 0x1_0000_0000_0000_0000 + l && w == k * 0x1_0000_0000_0000_0000 + m
    requires h < k && l < 0x1_0000_0000_0000_0000
    ensures v < w
  {}

  lemma LaterUuid(t: nat, u: nat, a: nat, b: nat, c: nat, d: nat)
    requires t % 0x1_0000_0000_0000 < u % 0x1_0000_0000_0000
    ensures Uuid(t, a, b) < Uuid(u, c, d)
  {
    LaterHigh(t, u, a, c);
    UuidIs(t, a, b);
    UuidIs(u, c, d);
    HighDecides(Uuid(t, a, b), Uuid(u, c, d), High(t, a), High(u, c), Low(b), Low(d));
  }
}
