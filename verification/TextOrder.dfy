// Hexadecimal digits, and the order of texts by code point, as Python compares strings.
module TextOrder {
  function HexChar(n: nat): char
    requires n < 16
  {
    if n < 10 then ('0' as int + n) as char else ('a' as int + n - 10) as char
  }

  predicate Less(a: string, b: string) {
    if b == "" then false
    else if a == "" then true
    else a[0] < b[0] || (a[0] == b[0] && Less(a[1..], b[1..]))
  }

  lemma {:induction false} LessTransitive(a: string, b: string, c: string)
    requires Less(a, b) && Less(b, c)
    ensures Less(a, c)
    decreases |b|
  {
    if a != "" && a[0] == b[0] == c[0] {
      LessTransitive(a[1..], b[1..], c[1..]);
    }
  }

  lemma {:induction false} LessIsStrict(a: string, b: string)
    ensures !Less(a, a) && !(Less(a, b) && Less(b, a))
    decreases |a|
  {
    if a != "" {
      LessIsStrict(a[1..], if b == "" then "" else b[1..]);
    }
  }

  lemma {:induction false} LessIsTotal(a: string, b: string)
    ensures a == b || Less(a, b) || Less(b, a)
    decreases |a|
  {
    if a != "" && b != "" && a[0] == b[0] {
      LessIsTotal(a[1..], b[1..]);
      if a[1..] == b[1..] {
        assert a == [a[0]] + a[1..] && b == [b[0]] + b[1..];
      }
    }
  }

  predicate FirstDifference(a: string, b: string, i: nat) {
    i < |a| && i < |b| && a[..i] == b[..i] && a[i] < b[i]
  }

  lemma {:induction false} LessAt(a: string, b: string, i: nat)
    requires FirstDifference(a, b, i)
    ensures Less(a, b)
    decreases i
  {
    if i > 0 {
      assert a[0] == a[..i][0] == b[..i][0] == b[0];
      var k := i - 1;
      assert a[1..][..k] == a[..i][1..] && b[1..][..k] == b[..i][1..];
      LessAt(a[1..], b[1..], k);
    }
  }

  lemma {:induction false} LessHasDifference(a: string, b: string) returns (i: nat)
    requires |a| == |b| && Less(a, b)
    ensures FirstDifference(a, b, i)
    decreases |a|
  {
    if a[0] < b[0] {
      i := 0;
    } else {
      var k := LessHasDifference(a[1..], b[1..]);
      i := k + 1;
      assert a[..i] == [a[0]] + a[1..][..k] && b[..i] == [b[0]] + b[1..][..k];
    }
  }

  lemma {:induction false} LessExtends(a: string, b: string, c: string, d: string)
    requires |a| == |b| && Less(a, b)
    ensures Less(a + c, b + d)
  {
    var i := LessHasDifference(a, b);
    assert (a + c)[..i] == a[..i] && (b + d)[..i] == b[..i];
    LessAt(a + c, b + d, i);
  }

  lemma {:induction false} LessAfter(p: string, a: string, b: string)
    requires |a| == |b| && Less(a, b)
    ensures Less(p + a, p + b)
  {
    var i := LessHasDifference(a, b);
    assert (p + a)[..|p| + i] == p + a[..i] && (p + b)[..|p| + i] == p + b[..i];
    LessAt(p + a, p + b, |p| + i);
  }
}
