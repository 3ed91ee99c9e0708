// The CBOR subset the WebAuthn fixtures write (section 3 of RFC 8949), with a strict decoder as its specification.
module Cbor {
  import opened Wrappers
  import opened Bytes

  /** `Nint(n)` is the integer -1 - n; `Text` holds UTF-8 bytes. */
  datatype Value =
    | Uint(n: nat)
    | Nint(n: nat)
    | ByteString(b: seq<byte>)
    | Text(b: seq<byte>)
    | Map(pairs: seq<Pair>)
  datatype Pair = Pair(key: Value, value: Value)

  type major = m: int | 0 <= m < 8

  function Initial(m: major, low: nat): byte
    requires low < 32
  {
    var high: int := m;
    high * 32 + low  // (major << 5) | low: the two parts share no bit
  }

  /** `cbor_uint(major, n)`; None is `OverflowError`. */
  function Head(m: major, n: nat): Option<seq<byte>> {
    if n < 24 then Some([Initial(m, n)])
    else if n < 256 then Some([Initial(m, 24), n])
    else if n < TWO_16 then Some([Initial(m, 25)] + BigEndian16(n))
    else if n < TWO_32 then Some([Initial(m, 26)] + BigEndian32(n))
    else None
  }

  /** `cbor_int(n)` */
  function IntValue(n: int): Value { if n >= 0 then Uint(n) else Nint(-n - 1) }

  function Append(a: Option<seq<byte>>, b: Option<seq<byte>>): Option<seq<byte>> {
    if a.None? || b.None? then None else Some(a.value + b.value)
  }

  function Encode(v: Value): Option<seq<byte>> {
    match v
    case Uint(n) => Head(0, n)
    case Nint(n) => Head(1, n)
    case ByteString(b) => Append(Head(2, |b|), Some(b))
    case Text(b) => Append(Head(3, |b|), Some(b))
    case Map(pairs) => Append(Head(5, |pairs|), EncodePairs(pairs))
  }

  function EncodePairs(pairs: seq<Pair>): Option<seq<byte>> {
    if pairs == [] then Some([])
    else Append(EncodePair(pairs[0]), EncodePairs(pairs[1..]))
  }

  function EncodePair(p: Pair): Option<seq<byte>> { Append(Encode(p.key), Encode(p.value)) }

  // ---- the decoder ----

  datatype Header = Header(m: major, n: nat, rest: seq<byte>)

  /** Any head, shortest or not; additional information 27 and above is outside the subset. */
  function AnyHead(s: seq<byte>): (r: Option<Header>)
    ensures r.Some? ==> |r.value.rest| < |s|
  {
    if s == [] then None
    else
      var first: int := s[0];
      var m, low := first / 32, first % 32;
      if low < 24 then Some(Header(m, low, s[1..]))
      else if low == 24 && |s| >= 2 then Some(Header(m, s[1], s[2..]))
      else if low == 25 && |s| >= 3 then Some(Header(m, Value16(s[1..3]), s[3..]))
      else if low == 26 && |s| >= 5 then Some(Header(m, Value32(s[1..5]), s[5..]))
      else None
  }

  /** A head in its shortest form. */
  function ShortHead(s: seq<byte>): (r: Option<Header>)
    ensures r.Some? ==> |r.value.rest| < |s|
  {
    var h := AnyHead(s);
    if h.Some? && Head(h.value.m, h.value.n).Some? && |Head(h.value.m, h.value.n).value| == |s| - |h.value.rest| then h else None
  }

  function Decode(s: seq<byte>): (r: Option<(Value, seq<byte>)>)
    ensures r.Some? ==> |r.value.1| < |s|
    decreases |s|, 0
  {
    var h := ShortHead(s);
    if h.None? then None
    else
      var Header(m, n, rest) := h.value;
      match m
      case 0 => Some((Uint(n), rest))
      case 1 => Some((Nint(n), rest))
      case 2 => if n <= |rest| then Some((ByteString(rest[..n]), rest[n..])) else None
      case 3 => if n <= |rest| then Some((Text(rest[..n]), rest[n..])) else None
      case 5 =>
        var pairs := DecodePairs(n, rest);
        if pairs.None? then None else Some((Map(pairs.value.0), pairs.value.1))
      case _ => None
  }

  function DecodePairs(n: nat, s: seq<byte>): (r: Option<(seq<Pair>, seq<byte>)>)
    ensures r.Some? ==> |r.value.0| == n && |r.value.1| <= |s|
    decreases |s|, 1
  {
    if n == 0 then Some(([], s))
    else
      var k := Decode(s);
      if k.None? then None
      else
        var v := Decode(k.value.1);
        if v.None? then None
        else
          var more := DecodePairs(n - 1, v.value.1);
          if more.None? then None else Some(([Pair(k.value.0, v.value.0)] + more.value.0, more.value.1))
  }

  // ---- heads ----

  /** The first byte holds the major type above five bits. */
  lemma FirstByte(m: major, low: nat)
    requires low < 32
    ensures (m * 32 + low) / 32 == m && (m * 32 + low) % 32 == low
  {}

  lemma HeadIsAny(m: major, n: nat, rest: seq<byte>)
    requires Head(m, n).Some?
    ensures AnyHead(Head(m, n).value + rest) == Some(Header(m, n, rest))
  {
    var b := Head(m, n).value;
    var s := b + rest;
    FirstByte(m, if n < 24 then n else if n < 256 then 24 else if n < 65536 then 25 else 26);
    BigEndianInverse(n);
    assert s[|b|..] == rest && s[1..|b|] == b[1..];
  }

  lemma HeadReads(m: major, n: nat, rest: seq<byte>)
    requires Head(m, n).Some?
    ensures ShortHead(Head(m, n).value + rest) == Some(Header(m, n, rest))
  {
    HeadIsAny(m, n, rest);
  }

  lemma InitialInverse(b: byte)
    ensures b / 32 < 8 && Initial(b / 32, b % 32) == b
  {}

  /** The bytes in front of what a head leaves are that head. */
  lemma HeadIsPrefix(s: seq<byte>)
    requires ShortHead(s).Some?
    ensures var h := ShortHead(s).value;
            Head(h.m, h.n).Some? && Head(h.m, h.n).value == s[..|s| - |h.rest|] && h.rest == s[|s| - |h.rest|..]
  {
    var h := ShortHead(s).value;
    var k := |s| - |h.rest|;
    InitialInverse(s[0]);
    assert s[..k] == [s[0]] + s[1..k];
    if k == 2 {
      assert s[1..k] == [s[1]];
    } else if k == 3 {
      ValueInverse(s[1..3]);
    } else if k == 5 {
      ValueInverse(s[1..5]);
    }
  }

  lemma HeadIsRead(s: seq<byte>)
    requires ShortHead(s).Some?
    ensures var h := ShortHead(s).value; Head(h.m, h.n).Some? && s == Head(h.m, h.n).value + h.rest
  {
    HeadIsPrefix(s);
  }

  /** No other head of the same major type and argument is shorter. */
  lemma HeadIsShortest(s: seq<byte>)
    requires AnyHead(s).Some?
    ensures var h := AnyHead(s).value; Head(h.m, h.n).Some? && |Head(h.m, h.n).value| <= |s| - |h.rest|
  {}

  // ---- round trip, both ways ----

  lemma {:induction false} StringReads(s: seq<byte>, m: major, b: seq<byte>, rest: seq<byte>)
    requires (m == 2 || m == 3) && ShortHead(s) == Some(Header(m, |b|, b + rest))
    ensures Decode(s) == Some((if m == 2 then ByteString(b) else Text(b), rest))
  {
    assert (b + rest)[..|b|] == b && (b + rest)[|b|..] == rest;
  }

  lemma {:induction false} MapReads(s: seq<byte>, pairs: seq<Pair>, body: seq<byte>, rest: seq<byte>)
    requires ShortHead(s) == Some(Header(5, |pairs|, body)) && DecodePairs(|pairs|, body) == Some((pairs, rest))
    ensures Decode(s) == Some((Map(pairs), rest))
  {}

  lemma AppendSplits(h: seq<byte>, body: seq<byte>, rest: seq<byte>)
    ensures h + body + rest == h + (body + rest)
  {}

  /** Decoding an encoding followed by anything gives back the value and what followed. */
  lemma {:induction false} RoundTrip(v: Value, rest: seq<byte>)
    requires Encode(v).Some?
    ensures Decode(Encode(v).value + rest) == Some((v, rest))
    decreases v, 0
  {
    match v
    case Uint(n) => HeadReads(0, n, rest);
    case Nint(n) => HeadReads(1, n, rest);
    case ByteString(b) =>
      HeadReads(2, |b|, b + rest);
      AppendSplits(Head(2, |b|).value, b, rest);
      StringReads(Encode(v).value + rest, 2, b, rest);
    case Text(b) =>
      HeadReads(3, |b|, b + rest);
      AppendSplits(Head(3, |b|).value, b, rest);
      StringReads(Encode(v).value + rest, 3, b, rest);
    case Map(pairs) =>
      var body := EncodePairs(pairs).value;
      HeadReads(5, |pairs|, body + rest);
      AppendSplits(Head(5, |pairs|).value, body, rest);
      PairsRoundTrip(pairs, rest);
      MapReads(Encode(v).value + rest, pairs, body + rest, rest);
  }

  lemma {:induction false} PairsSplit(pairs: seq<Pair>, rest: seq<byte>)
    requires pairs != [] && EncodePairs(pairs).Some?
    ensures EncodePair(pairs[0]).Some? && EncodePairs(pairs[1..]).Some? && [pairs[0]] + pairs[1..] == pairs
    ensures EncodePairs(pairs).value + rest == EncodePair(pairs[0]).value + (EncodePairs(pairs[1..]).value + rest)
  {}

  lemma {:induction false} PairsRoundTrip(pairs: seq<Pair>, rest: seq<byte>)
    requires EncodePairs(pairs).Some?
    ensures DecodePairs(|pairs|, EncodePairs(pairs).value + rest) == Some((pairs, rest))
    decreases pairs, 1
  {
    if pairs == [] {
      assert EncodePairs(pairs).value + rest == rest;
    } else {
      PairsSplit(pairs, rest);
      var more := EncodePairs(pairs[1..]).value + rest;
      PairRoundTrip(pairs[0], more);
      PairsRoundTrip(pairs[1..], rest);
      OnePairMore(pairs[0], pairs[1..], EncodePairs(pairs).value + rest, rest);
    }
  }

  lemma {:induction false} OnePairMore(p: Pair, pairs: seq<Pair>, s: seq<byte>, rest: seq<byte>)
    requires Decode(s).Some? && Decode(s).value.0 == p.key
    requires Decode(Decode(s).value.1).Some? && Decode(Decode(s).value.1).value.0 == p.value
    requires DecodePairs(|pairs|, Decode(Decode(s).value.1).value.1) == Some((pairs, rest))
    ensures DecodePairs(|pairs| + 1, s) == Some(([p] + pairs, rest))
  {}

  lemma {:induction false} PairRoundTrip(p: Pair, rest: seq<byte>)
    requires EncodePair(p).Some?
    ensures var s := EncodePair(p).value + rest;
            Decode(s).Some? && Decode(s).value.0 == p.key && Decode(Decode(s).value.1) == Some((p.value, rest))
    decreases p, 0
  {
    var k, v := Encode(p.key).value, Encode(p.value).value;
    RoundTrip(p.key, v + rest);
    RoundTrip(p.value, rest);
    AppendSplits(k, v, rest);
  }

  lemma InThree(h: seq<byte>, rest: seq<byte>, n: nat)
    requires n <= |rest|
    ensures h + rest == h + rest[..n] + rest[n..]
  {}

  /** The decoder accepts encodings only: whatever it reads, encoding the value gives those very bytes. */
  lemma {:induction false} DecodesEncodingsOnly(s: seq<byte>)
    requires Decode(s).Some?
    ensures Encode(Decode(s).value.0).Some? && s == Encode(Decode(s).value.0).value + Decode(s).value.1
    decreases |s|, 0
  {
    HeadIsRead(s);
    var Header(m, n, rest) := ShortHead(s).value;
    var h := Head(m, n).value;
    match m
    case 2 => InThree(h, rest, n);
    case 3 => InThree(h, rest, n);
    case 5 =>
      PairsAreEncodings(n, rest);
      var (pairs, tail) := DecodePairs(n, rest).value;
      assert h + (EncodePairs(pairs).value + tail) == h + EncodePairs(pairs).value + tail;
    case _ =>
  }

  lemma {:induction false} PairsAreEncodings(n: nat, s: seq<byte>)
    requires DecodePairs(n, s).Some?
    ensures var (pairs, rest) := DecodePairs(n, s).value; EncodePairs(pairs).Some? && s == EncodePairs(pairs).value + rest
    decreases |s|, 1
  {
    if n > 0 {
      var (k, afterKey) := Decode(s).value;
      var (v, afterValue) := Decode(afterKey).value;
      var (more, rest) := DecodePairs(n - 1, afterValue).value;
      DecodesEncodingsOnly(s);
      DecodesEncodingsOnly(afterKey);
      PairsAreEncodings(n - 1, afterValue);
      InFront(Encode(k).value, Encode(v).value, EncodePairs(more).value, s, afterKey, afterValue, rest);
      PairInFront(s, k, v, more, rest);
    }
  }

  lemma InFront(k: seq<byte>, v: seq<byte>, more: seq<byte>, s: seq<byte>, afterKey: seq<byte>, afterValue: seq<byte>,
                rest: seq<byte>)
    requires s == k + afterKey && afterKey == v + afterValue && afterValue == more + rest
    ensures s == k + (v + (more + rest))
  {}

  lemma {:induction false} PairInFront(s: seq<byte>, k: Value, v: Value, more: seq<Pair>, rest: seq<byte>)
    requires Encode(k).Some? && Encode(v).Some? && EncodePairs(more).Some?
    requires s == Encode(k).value + (Encode(v).value + (EncodePairs(more).value + rest))
    ensures var pairs := [Pair(k, v)] + more; EncodePairs(pairs).Some? && s == EncodePairs(pairs).value + rest
  {
    var pairs := [Pair(k, v)] + more;
    assert pairs[1..] == more;
    assert EncodePairs(pairs) == Append(EncodePair(pairs[0]), EncodePairs(more));
  }

  /** No encoding is a prefix of another. */
  lemma {:induction false} PrefixFree(v: Value, w: Value)
    requires Encode(v).Some? && Encode(w).Some? && Encode(v).value <= Encode(w).value
    ensures v == w
  {
    var a, b := Encode(v).value, Encode(w).value;
    RoundTrip(v, b[|a|..]);
    RoundTrip(w, []);
    assert a + b[|a|..] == b && b + [] == b;
  }

  // ---- the bytes themselves ----

  lemma SmallIntegers(n: nat)
    requires n < 24
    ensures Encode(IntValue(n)) == Some([n]) && Encode(IntValue(-1 - n)) == Some([0x20 + n])
  {}

  /** The integers among the examples of appendix A of RFC 8949 that fall in the subset. */
  lemma IntegerExamples()
    ensures Encode(IntValue(0)) == Some([0x00]) && Encode(IntValue(23)) == Some([0x17]) && Encode(IntValue(24)) == Some([0x18, 0x18])
    ensures Encode(IntValue(100)) == Some([0x18, 0x64]) && Encode(IntValue(1000)) == Some([0x19, 0x03, 0xE8])
    ensures Encode(IntValue(1000000)) == Some([0x1A, 0x00, 0x0F, 0x42, 0x40])
    ensures Encode(IntValue(-1)) == Some([0x20]) && Encode(IntValue(-10)) == Some([0x29])
    ensures Encode(IntValue(-100)) == Some([0x38, 0x63]) && Encode(IntValue(-1000)) == Some([0x39, 0x03, 0xE7])
  {
    assert [0x19] + BigEndian16(1000) == [0x19, 0x03, 0xE8];
    assert [0x39] + BigEndian16(999) == [0x39, 0x03, 0xE7];
    assert [0x1A] + BigEndian32(1000000) == [0x1A, 0x00, 0x0F, 0x42, 0x40];
  }

  lemma {:induction false} OnePair(k: Value, v: Value, pairs: seq<Pair>)
    requires Encode(k).Some? && Encode(v).Some? && EncodePairs(pairs).Some?
    ensures EncodePairs([Pair(k, v)] + pairs) == Some(Encode(k).value + (Encode(v).value + EncodePairs(pairs).value))
  {
    var all := [Pair(k, v)] + pairs;
    assert all[1..] == pairs;
    assert Encode(k).value + Encode(v).value + EncodePairs(pairs).value
        == Encode(k).value + (Encode(v).value + EncodePairs(pairs).value);
  }

  /** A pair of one-byte integers in front of others. */
  lemma {:induction false} ShortPair(k: int, v: int, kb: byte, vb: byte, pairs: seq<Pair>, rest: seq<byte>)
    requires Encode(IntValue(k)) == Some([kb]) && Encode(IntValue(v)) == Some([vb]) && EncodePairs(pairs) == Some(rest)
    ensures EncodePairs([Pair(IntValue(k), IntValue(v))] + pairs) == Some([kb, vb] + rest)
  {
    OnePair(IntValue(k), IntValue(v), pairs);
    assert [kb] + ([vb] + rest) == [kb, vb] + rest;
  }

  lemma {:induction false} TwoShortPairs()
    ensures EncodePairs([Pair(IntValue(1), IntValue(2)), Pair(IntValue(3), IntValue(4))]) == Some([1, 2, 3, 4])
  {
    var last := [Pair(IntValue(3), IntValue(4))];
    ShortPair(3, 4, 3, 4, [], []);
    assert last == last + [] && [3, 4] == [3, 4] + [];
    ShortPair(1, 2, 1, 2, last, [3, 4]);
    assert [1, 2] + [3, 4] == [1, 2, 3, 4];
    assert [Pair(IntValue(1), IntValue(2))] + last == [Pair(IntValue(1), IntValue(2)), Pair(IntValue(3), IntValue(4))];
  }

  /** The strings among them. */
  lemma {:induction false} StringExamples()
    ensures Encode(ByteString([1, 2, 3, 4])) == Some([0x44, 1, 2, 3, 4])
    ensures Encode(Text([0x49, 0x45, 0x54, 0x46])) == Some([0x64, 0x49, 0x45, 0x54, 0x46])
  {
    assert [0x44] + [1, 2, 3, 4] == [0x44, 1, 2, 3, 4];
    assert [0x64] + [0x49, 0x45, 0x54, 0x46] == [0x64, 0x49, 0x45, 0x54, 0x46];
  }

  /** And the maps. */
  lemma {:induction false} MapExamples()
    ensures Encode(Map([])) == Some([0xA0])
    ensures Encode(Map([Pair(IntValue(1), IntValue(2)), Pair(IntValue(3), IntValue(4))])) == Some([0xA2, 1, 2, 3, 4])
  {
    TwoShortPairs();
    assert [0xA0] + [] == [0xA0];
    assert [0xA2] + [1, 2, 3, 4] == [0xA2, 1, 2, 3, 4];
  }

  // ---- `cbor_map` appends to a buffer ----

  function Flat(pairs: seq<(seq<byte>, seq<byte>)>): seq<byte> {
    if pairs == [] then []
    else Flat(pairs[..|pairs| - 1]) + pairs[|pairs| - 1].0 + pairs[|pairs| - 1].1
  }

  method CborMap(pairs: seq<(seq<byte>, seq<byte>)>) returns (out: Option<seq<byte>>)
    ensures out == Append(Head(5, |pairs|), Some(Flat(pairs)))
  {
    var head := Head(5, |pairs|);
    if head.None? { return None; }
    var buffer := head.value;
    for i := 0 to |pairs|
      invariant buffer == head.value + Flat(pairs[..i])
    {
      var prefix := pairs[..i + 1];
      assert prefix[..i] == pairs[..i];
      assert buffer + (pairs[i].0 + pairs[i].1) == head.value + Flat(prefix);
      buffer := buffer + (pairs[i].0 + pairs[i].1);
    }
    assert pairs[..|pairs|] == pairs;
    return Some(buffer);
  }

  lemma {:induction false} FlatFront(k: seq<byte>, v: seq<byte>, pairs: seq<(seq<byte>, seq<byte>)>)
    ensures Flat([(k, v)] + pairs) == k + v + Flat(pairs)
  {
    var all := [(k, v)] + pairs;
    if pairs == [] {
      assert all[..0] == [];
      assert all == [(k, v)];
      assert Flat(all[..0]) + k + v == k + v;
    } else {
      assert all[..|all| - 1] == [(k, v)] + pairs[..|pairs| - 1];
      FlatFront(k, v, pairs[..|pairs| - 1]);
    }
  }

  /** What the loop writes for a list of encoded pairs is the encoding of the map. */
  lemma {:induction false} FlatIsEncodePairs(pairs: seq<Pair>, encoded: seq<(seq<byte>, seq<byte>)>)
    requires |encoded| == |pairs|
    requires forall i :: 0 <= i < |pairs| ==> Encode(pairs[i].key) == Some(encoded[i].0) && Encode(pairs[i].value) == Some(encoded[i].1)
    ensures EncodePairs(pairs) == Some(Flat(encoded))
  {
    if pairs != [] {
      FlatIsEncodePairs(pairs[1..], encoded[1..]);
      FlatFront(encoded[0].0, encoded[0].1, encoded[1..]);
      assert [(encoded[0].0, encoded[0].1)] + encoded[1..] == encoded;
    }
  }

  /** Every key is bytewise below every later key (section 4.2.1 of RFC 8949). */
  predicate KeysSorted(v: Value)
    requires v.Map?
  {
    forall i, j :: 0 <= i < j < |v.pairs| ==>
      var a, b := Encode(v.pairs[i].key), Encode(v.pairs[j].key);
      a.Some? && b.Some? && LexLess(a.value, b.value)
  }
}
