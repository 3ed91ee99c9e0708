// Bytes, big-endian integers and the bytewise order.
module Bytes {
  type byte = b: int | 0 <= b < 256

  const TWO_16 := 0x1_0000
  const TWO_32 := 0x1_0000_0000

  /** `n.to_bytes(2, 'big')` */
  function BigEndian16(n: nat): (r: seq<byte>)
    requires n < TWO_16
    ensures |r| == 2
  {
    [n / 256, n % 256]
  }

  /** `n.to_bytes(4, 'big')` */
  function BigEndian32(n: nat): (r: seq<byte>)
    requires n < TWO_32
    ensures |r| == 4
  {
    BigEndian16(n / TWO_16) + BigEndian16(n % TWO_16)
  }

  function Value16(b: seq<byte>): (n: nat)
    requires |b| == 2
    ensures n < TWO_16
  {
    (b[0] as int) * 256 + b[1]
  }

  function Value32(b: seq<byte>): (n: nat)
    requires |b| == 4
    ensures n < TWO_32
  {
    Value16(b[..2]) * TWO_16 + Value16(b[2..])
  }

  lemma BigEndianInverse(n: nat)
    ensures n < TWO_16 ==> Value16(BigEndian16(n)) == n
    ensures n < TWO_32 ==> Value32(BigEndian32(n)) == n
  {
    if n < TWO_32 {
      var b := BigEndian32(n);
      assert b[..2] == BigEndian16(n / TWO_16);
      assert b[2..] == BigEndian16(n % TWO_16);
    }
  }

  lemma ValueInverse(b: seq<byte>)
    ensures |b| == 2 ==> BigEndian16(Value16(b)) == b
    ensures |b| == 4 ==> BigEndian32(Value32(b)) == b
  {
    if |b| == 4 {
      var h, l := Value16(b[..2]), Value16(b[2..]);
      assert Value32(b) == h * TWO_16 + l;
      assert Value32(b) / TWO_16 == h && Value32(b) % TWO_16 == l;
      ValueInverse(b[..2]);
      ValueInverse(b[2..]);
      assert b == b[..2] + b[2..];
    }
  }

  /** Strict bytewise lexicographic order, a proper prefix being smaller. */
  predicate LexLess(a: seq<byte>, b: seq<byte>) {
    if b == [] then false
    else if a == [] then true
    else a[0] < b[0] || (a[0] == b[0] && LexLess(a[1..], b[1..]))
  }

  /** They agree up to `i`, where `a` ends or has the smaller byte. */
  ghost predicate SmallerAt(a: seq<byte>, b: seq<byte>, i: nat) {
    i <= |a| && i < |b| && a[..i] == b[..i] && (i < |a| ==> a[i] < b[i])
  }

  lemma SmallerInTail(a: seq<byte>, b: seq<byte>, i: nat)
    requires a != [] && b != [] && a[0] == b[0]
    ensures SmallerAt(a[1..], b[1..], i) <==> SmallerAt(a, b, i + 1)
  {
    if i + 1 <= |a| && i + 1 <= |b| {
      assert a[..i + 1] == [a[0]] + a[1..][..i] && b[..i + 1] == [b[0]] + b[1..][..i];
      if a[..i + 1] == b[..i + 1] { assert a[1..][..i] == a[..i + 1][1..] && b[1..][..i] == b[..i + 1][1..]; }
    }
  }

  lemma SmallerHeads(a: seq<byte>, b: seq<byte>, i: nat)
    requires SmallerAt(a, b, i)
    ensures b != [] && (a != [] ==> if i == 0 then a[0] < b[0] else a[0] == b[0])
  {
    if i > 0 { assert a[0] == a[..i][0] && b[0] == b[..i][0]; }
  }

  /** The order is decided by the first byte in which they differ, or by which one ends first. */
  lemma {:induction false} LexLessExactly(a: seq<byte>, b: seq<byte>)
    ensures LexLess(a, b) <==> exists i :: SmallerAt(a, b, i)
  {
    if a != [] && b != [] && a[0] == b[0] {
      LexLessExactly(a[1..], b[1..]);
      if i: nat :| SmallerAt(a[1..], b[1..], i) { SmallerInTail(a, b, i); }
    } else if LexLess(a, b) {
      assert SmallerAt(a, b, 0);
    }
    forall i: nat | SmallerAt(a, b, i) ensures LexLess(a, b) {
      SmallerHeads(a, b, i);
      if i > 0 && a != [] { SmallerInTail(a, b, i - 1); }
    }
  }
}
