// Unpadded base64url (section 5 of RFC 4648) the way the scripts build it: encode with padding and
// strip the '=' signs, or put the '=' signs back and decode.
module Base64Url {
  import opened Wrappers
  import opened Bytes

  type sextet = n: int | 0 <= n < 64

  function ToChar(n: sextet): char {
    if n < 26 then ('A' as int + n) as char
    else if n < 52 then ('a' as int + n - 26) as char
    else if n < 62 then ('0' as int + n - 52) as char
    else if n == 62 then '-' else '_'
  }

  predicate InAlphabet(c: char) {
    'A' <= c <= 'Z' || 'a' <= c <= 'z' || '0' <= c <= '9' || c == '-' || c == '_'
  }

  predicate AllInAlphabet(s: string) { forall i :: 0 <= i < |s| ==> InAlphabet(s[i]) }

  function FromChar(c: char): sextet
    requires InAlphabet(c)
  {
    if 'A' <= c <= 'Z' then c as int - 'A' as int
    else if 'a' <= c <= 'z' then c as int - 'a' as int + 26
    else if '0' <= c <= '9' then c as int - '0' as int + 52
    else if c == '-' then 62 else 63
  }

  function Chars(q: seq<sextet>): (s: string)
    ensures |s| == |q|
  {
    seq(|q|, i requires 0 <= i < |q| => ToChar(q[i]))
  }

  function Indices(s: string): (q: seq<sextet>)
    requires AllInAlphabet(s)
    ensures |q| == |s|
  {
    seq(|s|, i requires 0 <= i < |s| => FromChar(s[i]))
  }

  /** The 24 bits of three bytes in groups of six. */
  function Group(x: byte, y: byte, z: byte): (q: seq<sextet>)
    ensures |q| == 4
  {
    [x / 4, x % 4 * 16 + y / 16, y % 16 * 4 + z / 64, z % 64]
  }

  /** The bits of `b` in groups of six, the last group filled up with zeros. */
  function Split(b: seq<byte>): (q: seq<sextet>)
    ensures |q| == (4 * |b| + 2) / 3
  {
    if b == [] then []
    else if |b| == 1 then [b[0] / 4, b[0] % 4 * 16]
    else if |b| == 2 then [b[0] / 4, b[0] % 4 * 16 + b[1] / 16, b[1] % 16 * 4]
    else Group(b[0], b[1], b[2]) + Split(b[3..])
  }

  function First(a: sextet, b: sextet): byte { var n: int := a; n * 4 + b / 16 }
  function Second(b: sextet, c: sextet): byte { var n: int := b; n % 16 * 16 + c / 4 }
  function Third(c: sextet, d: sextet): byte { var n: int := c; n % 4 * 64 + d }

  /** The whole bytes among the bits of `q`; the bits left over are dropped. */
  function Join(q: seq<sextet>): (b: seq<byte>)
    ensures |b| == |q| * 3 / 4
  {
    if |q| < 2 then []
    else if |q| == 2 then [First(q[0], q[1])]
    else if |q| == 3 then [First(q[0], q[1]), Second(q[1], q[2])]
    else [First(q[0], q[1]), Second(q[1], q[2]), Third(q[2], q[3])] + Join(q[4..])
  }

  /** `'=' * (-n % 4)` */
  function Padding(n: nat): string { seq((4 - n % 4) % 4, _ => '=') }

  /** `base64.urlsafe_b64encode(b)` */
  function EncodePadded(b: seq<byte>): string { Chars(Split(b)) + Padding(|Split(b)|) }

  /** `s.rstrip('=')` */
  function Strip(s: string): string {
    if s != "" && s[|s| - 1] == '=' then Strip(s[..|s| - 1]) else s
  }

  function Encode(b: seq<byte>): string { Strip(EncodePadded(b)) }

  /** `base64.urlsafe_b64decode(s)` over the alphabet and '='; None is `binascii.Error`. */
  function DecodePadded(s: string): Option<seq<byte>> {
    var data := Strip(s);
    if AllInAlphabet(data) && |s| % 4 == 0 && |s| - |data| <= 2 then Some(Join(Indices(data))) else None
  }

  function Decode(s: string): Option<seq<byte>> { DecodePadded(s + Padding(|s|)) }

  /** The registered-key pattern `^[A-Za-z0-9_-]{43}$`. */
  predicate AcceptedKey(s: string) { |s| == 43 && AllInAlphabet(s) }

  // ---- padding on and off ----

  lemma {:induction false} StripPadding(s: string, k: nat)
    requires AllInAlphabet(s)
    ensures Strip(s + seq(k, _ => '=')) == s
  {
    var p := s + seq(k, _ => '=');
    if k == 0 {
      assert p == s;
      assert s != "" ==> InAlphabet(s[|s| - 1]);
    } else {
      assert p[..|p| - 1] == s + seq(k - 1, _ => '=');
      StripPadding(s, k - 1);
    }
  }

  lemma CharsInverse(q: seq<sextet>)
    ensures AllInAlphabet(Chars(q)) && Indices(Chars(q)) == q
  {}

  lemma IndicesInverse(s: string)
    requires AllInAlphabet(s)
    ensures Chars(Indices(s)) == s
  {}

  lemma {:induction false} StripPadded(s: string, n: nat)
    requires AllInAlphabet(s)
    ensures Strip(s + Padding(n)) == s
  {
    StripPadding(s, |Padding(n)|);
    assert Padding(n) == seq(|Padding(n)|, _ => '=');
  }

  lemma {:induction false} EncodeIsUnpadded(b: seq<byte>)
    ensures Encode(b) == Chars(Split(b))
  {
    CharsInverse(Split(b));
    StripPadded(Chars(Split(b)), |Split(b)|);
  }

  lemma PaddingFits(n: nat)
    requires n % 4 != 1
    ensures (n + |Padding(n)|) % 4 == 0 && |Padding(n)| <= 2
  {}

  lemma DecodePaddedIs(s: string, k: nat)
    requires AllInAlphabet(s) && k <= 2 && (|s| + k) % 4 == 0
    ensures DecodePadded(s + seq(k, _ => '=')) == Some(Join(Indices(s)))
  {
    StripPadding(s, k);
  }

  lemma DecodeIsUnpadded(s: string)
    requires AllInAlphabet(s) && |s| % 4 != 1
    ensures Decode(s) == Some(Join(Indices(s)))
  {
    PaddingFits(|s|);
    DecodePaddedIs(s, |Padding(|s|)|);
    assert Padding(|s|) == seq(|Padding(|s|)|, _ => '=');
  }

  // ---- round trip ----

  lemma FirstIs(x: byte, y: byte)
    ensures First(x / 4, x % 4 * 16 + y / 16) == x
  {
    assert (x % 4 * 16 + y / 16) / 16 == x % 4;
  }

  lemma SecondIs(x: byte, y: byte, z: byte)
    ensures Second(x % 4 * 16 + y / 16, y % 16 * 4 + z / 64) == y
  {
    assert (x % 4 * 16 + y / 16) % 16 == y / 16;
    assert (y % 16 * 4 + z / 64) / 4 == y % 16;
  }

  lemma ThirdIs(y: byte, z: byte)
    ensures Third(y % 16 * 4 + z / 64, z % 64) == z
  {
    assert (y % 16 * 4 + z / 64) % 4 == z / 64;
  }

  lemma UngroupOne(x: byte)
    ensures Join([x / 4, x % 4 * 16]) == [x]
  {
    FirstIs(x, 0);
  }

  lemma UngroupTwo(x: byte, y: byte)
    ensures Join([x / 4, x % 4 * 16 + y / 16, y % 16 * 4]) == [x, y]
  {
    FirstIs(x, y);
    SecondIs(x, y, 0);
  }

  lemma Ungroup(x: byte, y: byte, z: byte)
    ensures Join(Group(x, y, z)) == [x, y, z]
  {
    FirstIs(x, y);
    SecondIs(x, y, z);
    ThirdIs(y, z);
    assert Join(Group(x, y, z)[4..]) == [];
  }

  lemma {:induction false} JoinGroup(g: seq<sextet>, rest: seq<sextet>)
    requires |g| == 4
    ensures Join(g + rest) == [First(g[0], g[1]), Second(g[1], g[2]), Third(g[2], g[3])] + Join(rest)
  {
    assert (g + rest)[4..] == rest;
  }

  lemma {:induction false} JoinSplitGroup(x: byte, y: byte, z: byte, rest: seq<sextet>)
    ensures Join(Group(x, y, z) + rest) == [x, y, z] + Join(rest)
  {
    var g := Group(x, y, z);
    Ungroup(x, y, z);
    JoinGroup(g, rest);
    JoinGroup(g, []);
    assert g + [] == g;
  }

  lemma {:induction false} JoinSplitLonger(b: seq<byte>)
    requires |b| > 2
    ensures Join(Split(b)) == b[..3] + Join(Split(b[3..]))
  {
    JoinSplitGroup(b[0], b[1], b[2], Split(b[3..]));
    assert b[..3] == [b[0], b[1], b[2]];
  }

  lemma {:induction false} JoinSplitShort(b: seq<byte>)
    requires |b| < 3
    ensures Join(Split(b)) == b
  {
    if |b| == 1 {
      UngroupOne(b[0]);
    } else if |b| == 2 {
      UngroupTwo(b[0], b[1]);
    }
  }

  lemma {:induction false} JoinSplit(b: seq<byte>)
    ensures Join(Split(b)) == b
  {
    if |b| < 3 {
      JoinSplitShort(b);
    } else {
      JoinSplit(b[3..]);
      JoinSplitLonger(b);
      assert b == b[..3] + b[3..];
    }
  }

  lemma NeverOneMore(n: nat)
    ensures (4 * n + 2) / 3 % 4 != 1
  {
    var q, r := n / 3, n % 3;
    assert n == 3 * q + r;
    assert (4 * n + 2) / 3 == 4 * q + (4 * r + 2) / 3;
  }

  lemma EncodedLength(b: seq<byte>)
    ensures |Encode(b)| % 4 != 1 && |Encode(b)| == (4 * |b| + 2) / 3
  {
    EncodeIsUnpadded(b);
    NeverOneMore(|b|);
  }

  /** Stripping the padding and putting it back loses nothing. */
  lemma RoundTrip(b: seq<byte>)
    ensures Decode(Encode(b)) == Some(b)
    ensures |Encode(b)| % 4 != 1 && |Encode(b)| == (4 * |b| + 2) / 3
  {
    EncodedLength(b);
    EncodeIsUnpadded(b);
    CharsInverse(Split(b));
    DecodeIsUnpadded(Encode(b));
    JoinSplit(b);
  }

  // ---- the other direction ----

  /** The bits past the last whole byte. */
  predicate SpareBitsZero(q: seq<sextet>) {
    match |q| % 4
    case 2 => q[|q| - 1] % 16 == 0
    case 3 => q[|q| - 1] % 4 == 0
    case _ => true
  }

  lemma Regroup(a: sextet, b: sextet, c: sextet, d: sextet)
    ensures var x, y, z := First(a, b), Second(b, c), Third(c, d);
            x / 4 == a && x % 4 * 16 + y / 16 == b && y % 16 * 4 + z / 64 == c && z % 64 == d
  {}

  lemma GroupBack(a: sextet, b: sextet, c: sextet, d: sextet)
    ensures Group(First(a, b), Second(b, c), Third(c, d)) == [a, b, c, d]
  {
    Regroup(a, b, c, d);
  }

  lemma {:induction false} SplitGroup(a: sextet, b: sextet, c: sextet, d: sextet, rest: seq<byte>)
    ensures Split([First(a, b), Second(b, c), Third(c, d)] + rest) == [a, b, c, d] + Split(rest)
  {
    GroupBack(a, b, c, d);
    SplitThree(First(a, b), Second(b, c), Third(c, d), rest);
  }

  lemma {:induction false} SplitThree(x: byte, y: byte, z: byte, rest: seq<byte>)
    ensures Split([x, y, z] + rest) == Group(x, y, z) + Split(rest)
  {
    assert ([x, y, z] + rest)[3..] == rest;
  }

  lemma {:induction false} SplitJoinGroup(g: seq<sextet>, r: seq<sextet>)
    requires |g| == 4
    ensures Split(Join(g + r)) == g + Split(Join(r))
  {
    JoinGroup(g, r);
    SplitGroup(g[0], g[1], g[2], g[3], Join(r));
    assert g == [g[0], g[1], g[2], g[3]];
  }

  lemma {:induction false} SplitJoinLonger(q: seq<sextet>)
    requires |q| > 3 && (Split(Join(q[4..])) == q[4..] <==> SpareBitsZero(q[4..]))
    ensures Split(Join(q)) == q <==> SpareBitsZero(q)
  {
    var g, r := q[..4], q[4..];
    assert q == g + r;
    SplitJoinGroup(g, r);
    SameAfterGroup(g, Split(Join(r)), r);
  }

  lemma {:induction false} SplitJoinShort(q: seq<sextet>)
    requires |q| < 4 && |q| != 1
    ensures Split(Join(q)) == q <==> SpareBitsZero(q)
  {
    if |q| == 2 {
      ShortPair(q[0], q[1]);
      assert q == [q[0], q[1]];
    } else if |q| == 3 {
      ShortTriple(q[0], q[1], q[2]);
      assert q == [q[0], q[1], q[2]];
    }
  }

  lemma {:induction false} SplitJoin(q: seq<sextet>)
    requires |q| % 4 != 1
    ensures Split(Join(q)) == q <==> SpareBitsZero(q)
  {
    if |q| < 4 {
      SplitJoinShort(q);
    } else {
      SplitJoin(q[4..]);
      SplitJoinLonger(q);
    }
  }

  lemma SameAfterGroup(g: seq<sextet>, a: seq<sextet>, b: seq<sextet>)
    requires |g| == 4
    ensures g + a == g + b <==> a == b
    ensures SpareBitsZero(g + b) <==> SpareBitsZero(b)
  {
    assert (g + a)[4..] == a && (g + b)[4..] == b;
    assert |g + b| % 4 == |b| % 4;
  }

  lemma ShortPair(a: sextet, b: sextet)
    ensures Split(Join([a, b])) == [a, b] <==> b % 16 == 0
  {
    Regroup(a, b, 0, 0);
    assert Split(Join([a, b])) == [a, b / 16 * 16];
  }

  lemma ShortTriple(a: sextet, b: sextet, c: sextet)
    ensures Split(Join([a, b, c])) == [a, b, c] <==> c % 4 == 0
  {
    Regroup(a, b, c, 0);
    assert Split(Join([a, b, c])) == [a, b, c / 4 * 4];
  }

  /** Decoding succeeds on every string of the alphabet whose length is not 1 mod 4, and encoding the
      result gives the string back exactly when its spare bits are zero. */
  lemma CanonicalExactly(s: string)
    requires AllInAlphabet(s) && |s| % 4 != 1
    ensures Decode(s).Some? && |Decode(s).value| == |s| * 3 / 4
    ensures Encode(Decode(s).value) == s <==> SpareBitsZero(Indices(s))
  {
    var q := Indices(s);
    DecodeIsUnpadded(s);
    EncodeIsUnpadded(Join(q));
    SplitJoin(q);
    IndicesInverse(s);
    CharsInverse(Split(Join(q)));
  }

  /** The first four characters of an encoding are the 24 bits of the first three bytes in base 64. */
  lemma SameNumber(x: byte, y: byte, z: byte)
    ensures var q := Group(x, y, z);
      ((q[0] as int * 64 + q[1]) * 64 + q[2]) * 64 + q[3] == (x as int * 256 + y) * 256 + z
  {
    var a, b := x / 4, x % 4;
    var c, d := y / 16, y % 16;
    var e, f := z / 64, z % 64;
    assert x == 4 * a + b && y == 16 * c + d && z == 64 * e + f;
    assert Group(x, y, z) == [a, b * 16 + c, d * 4 + e, f];
  }

  lemma {:induction false} ThreeBytes(x: byte, y: byte, z: byte, p: char, q: char, r: char, s: char)
    requires ToChar(Group(x, y, z)[0]) == p && ToChar(Group(x, y, z)[1]) == q
    requires ToChar(Group(x, y, z)[2]) == r && ToChar(Group(x, y, z)[3]) == s
    ensures Encode([x, y, z]) == [p, q, r, s]
  {
    EncodeIsUnpadded([x, y, z]);
    assert Split([x, y, z][3..]) == [];
    assert Split([x, y, z]) == Group(x, y, z);
  }

  /** An example of section 10 of RFC 4648, and the two characters in which the alphabet differs from plain base64. */
  lemma {:induction false} PublishedExamples()
    ensures Encode([0x66, 0x6F, 0x6F]) == ['Z', 'm', '9', 'v']
    ensures Encode([0xFB, 0xEF, 0xBE]) == ['-', '-', '-', '-']
    ensures Encode([0xFF, 0xFF, 0xFF]) == ['_', '_', '_', '_']
  {
    ThreeBytes(0x66, 0x6F, 0x6F, 'Z', 'm', '9', 'v');
    ThreeBytes(0xFB, 0xEF, 0xBE, '-', '-', '-', '-');
    ThreeBytes(0xFF, 0xFF, 0xFF, '_', '_', '_', '_');
  }

  lemma {:induction false} PaddedDecodes(s: string, k: nat)
    requires AllInAlphabet(s)
    ensures DecodePadded(s + seq(k, _ => '=')).Some? <==> k <= 2 && (|s| + k) % 4 == 0
  {
    StripPadding(s, k);
  }

  /** A string of the alphabet decodes with its padding stripped unless its length is 1 mod 4, and with `k` '=' signs
      exactly when there are at most two of them and the length comes out a multiple of four. */
  lemma {:induction false} DecodesExactly(s: string, k: nat)
    requires AllInAlphabet(s)
    ensures Decode(s).Some? <==> |s| % 4 != 1
    ensures DecodePadded(s + seq(k, _ => '=')).Some? <==> k <= 2 && (|s| + k) % 4 == 0
  {
    PaddedDecodes(s, k);
    PaddedDecodes(s, |Padding(|s|)|);
    assert Padding(|s|) == seq(|Padding(|s|)|, _ => '=');
  }

  // ---- registered public keys ----

  /** Every 32-byte key is accepted, and every accepted string is some 32-byte key. */
  lemma KeysAreAccepted(b: seq<byte>)
    requires |b| == 32
    ensures AcceptedKey(Encode(b))
  {
    EncodeIsUnpadded(b);
    CharsInverse(Split(b));
  }

  lemma AcceptedKeysDecode(s: string)
    requires AcceptedKey(s)
    ensures Decode(s).Some? && |Decode(s).value| == 32
    ensures Encode(Decode(s).value) == s <==> FromChar(s[42]) % 4 == 0
  {
    CanonicalExactly(s);
    LastOf43(Indices(s));
  }

  lemma LastOf43(q: seq<sextet>)
    requires |q| == 43
    ensures SpareBitsZero(q) <==> q[42] % 4 == 0
  {}

  /** Only the upper four bits of the third index of a group reach its second byte. */
  lemma SameSecond(b: sextet, n: sextet, c: sextet)
    requires n / 4 == c / 4
    ensures Second(b, n) == Second(b, c)
  {}

  lemma {:induction false} SpareBitsIgnored(q: seq<sextet>, n: sextet)
    requires |q| % 4 == 3 && n / 4 == q[|q| - 1] / 4
    ensures Join(q[|q| - 1 := n]) == Join(q)
  {
    var r := q[|q| - 1 := n];
    if |q| == 3 {
      SameSecond(q[1], n, q[2]);
      assert Join(r) == [First(r[0], r[1]), Second(r[1], r[2])];
    } else {
      SpareBitsIgnored(q[4..], n);
      assert r[4..] == q[4..][|q| - 5 := n];
      assert r[..4] == q[..4];
    }
  }

  /** The pattern alone does not make a key canonical: every key has four accepted spellings, so
      comparing the strings does not compare the keys. */
  lemma FourSpellings(s: string, n: sextet)
    requires AcceptedKey(s) && n / 4 == FromChar(s[42]) / 4
    ensures AcceptedKey(s[42 := ToChar(n)])
    ensures Decode(s[42 := ToChar(n)]) == Decode(s)
  {
    var t := s[42 := ToChar(n)];
    assert InAlphabet(ToChar(n)) && FromChar(ToChar(n)) == n;
    assert Indices(t) == Indices(s)[42 := n];
    SpareBitsIgnored(Indices(s), n);
    DecodeIsUnpadded(s);
    DecodeIsUnpadded(t);
  }

  function Cleared(s: string): string
    requires AcceptedKey(s)
  {
    s[42 := ToChar(FromChar(s[42]) - FromChar(s[42]) % 4)]
  }

  lemma CharsInverseOf(n: sextet)
    ensures InAlphabet(ToChar(n)) && FromChar(ToChar(n)) == n
  {}

  /** The spelling with the spare bits cleared is the canonical one. */
  lemma ClearedIsCanonical(s: string)
    requires AcceptedKey(s)
    ensures Decode(s).Some? && Cleared(s) == Encode(Decode(s).value)
  {
    var n: sextet := FromChar(s[42]) - FromChar(s[42]) % 4;
    FourSpellings(s, n);
    CharsInverseOf(n);
    AcceptedKeysDecode(Cleared(s));
  }

  lemma ClearedAgree(s: string, t: string)
    requires AcceptedKey(s) && AcceptedKey(t) && Cleared(s) == Cleared(t)
    ensures s[..42] == t[..42] && FromChar(s[42]) / 4 == FromChar(t[42]) / 4
  {
    var m: sextet, n: sextet := FromChar(s[42]) - FromChar(s[42]) % 4, FromChar(t[42]) - FromChar(t[42]) % 4;
    assert Cleared(s)[42] == ToChar(m) && Cleared(t)[42] == ToChar(n);
    CharsDiffer(m, n);
    assert s[..42] == Cleared(s)[..42] && t[..42] == Cleared(t)[..42];
  }

  lemma CharsDiffer(m: sextet, n: sextet)
    requires ToChar(m) == ToChar(n)
    ensures m == n
  {
    assert FromChar(ToChar(m)) == m && FromChar(ToChar(n)) == n;
  }

  /** Two accepted strings are the same key exactly when they differ in the spare bits of the last character at most. */
  lemma SameKeyExactly(s: string, t: string)
    requires AcceptedKey(s) && AcceptedKey(t)
    ensures Decode(s) == Decode(t) <==> s[..42] == t[..42] && FromChar(s[42]) / 4 == FromChar(t[42]) / 4
  {
    if Decode(s) == Decode(t) { SameKeyAgrees(s, t); }
    if s[..42] == t[..42] && FromChar(s[42]) / 4 == FromChar(t[42]) / 4 { AgreeingIsSameKey(s, t); }
  }

  lemma SameKeyAgrees(s: string, t: string)
    requires AcceptedKey(s) && AcceptedKey(t) && Decode(s) == Decode(t)
    ensures s[..42] == t[..42] && FromChar(s[42]) / 4 == FromChar(t[42]) / 4
  {
    ClearedIsCanonical(s);
    ClearedIsCanonical(t);
    ClearedAgree(s, t);
  }

  lemma AgreeingIsSameKey(s: string, t: string)
    requires AcceptedKey(s) && AcceptedKey(t) && s[..42] == t[..42] && FromChar(s[42]) / 4 == FromChar(t[42]) / 4
    ensures Decode(s) == Decode(t)
  {
    var n := FromChar(t[42]);
    FourSpellings(s, n);
    assert ToChar(n) == t[42];
    assert t == s[42 := ToChar(n)] by {
      assert s == s[..42] + [s[42]] && t == t[..42] + [t[42]];
    }
  }

  lemma SameIndex(c: char, d: char)
    requires InAlphabet(c) && InAlphabet(d) && FromChar(c) == FromChar(d)
    ensures c == d
  {
    assert ToChar(FromChar(c)) == c && ToChar(FromChar(d)) == d;
  }

  /** So the key and the spare bits are the spelling. */
  lemma SameSpelling(s: string, t: string)
    requires AcceptedKey(s) && AcceptedKey(t) && Decode(s) == Decode(t) && FromChar(s[42]) % 4 == FromChar(t[42]) % 4
    ensures s == t
  {
    SameKeyAgrees(s, t);
    SameIndex(s[42], t[42]);
    assert s == s[..42] + [s[42]] && t == t[..42] + [t[42]];
  }
}
