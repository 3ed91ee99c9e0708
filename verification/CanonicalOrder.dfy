// Sorting by key makes the text of a value depend on nothing but the value, and the zero byte after the domain
// makes a signed message depend on exactly one domain and one value.
module CanonicalOrder {
  import opened Wrappers
  import opened TextOrder
  import opened CanonicalJson

  // ---- sorting ----

  predicate Sorted(ms: seq<Member>) {
    forall i, j :: 0 <= i < j < |ms| ==> Less(ms[i].key, ms[j].key)
  }

  predicate Has(ms: seq<Member>, m: Member) { exists i :: 0 <= i < |ms| && ms[i] == m }

  lemma {:induction false} InsertHas(m: Member, ms: seq<Member>, x: Member)
    ensures Has(Insert(m, ms), x) <==> x == m || Has(ms, x)
  {
    var r := Insert(m, ms);
    if ms == [] || Less(m.key, ms[0].key) {
      assert r[0] == m;
      if Has(ms, x) { var i :| 0 <= i < |ms| && ms[i] == x; assert r[i + 1] == x; }
    } else {
      var rest := Insert(m, ms[1..]);
      InsertHas(m, ms[1..], x);
      assert r[0] == ms[0];
      if Has(rest, x) { var i :| 0 <= i < |rest| && rest[i] == x; assert r[i + 1] == x; }
      if Has(ms[1..], x) { var i :| 0 <= i < |ms[1..]| && ms[1..][i] == x; assert ms[i + 1] == x; }
    }
  }

  lemma {:induction false} SortHas(ms: seq<Member>, x: Member)
    ensures Has(Sort(ms), x) <==> Has(ms, x)
  {
    if ms != [] {
      SortHas(ms[1..], x);
      InsertHas(ms[0], Sort(ms[1..]), x);
      if Has(ms[1..], x) { var i :| 0 <= i < |ms[1..]| && ms[1..][i] == x; assert ms[i + 1] == x; }
    }
  }

  predicate KeyFree(ms: seq<Member>, k: string) { forall i :: 0 <= i < |ms| ==> ms[i].key != k }

  lemma SortedCons(m: Member, ms: seq<Member>)
    requires Sorted(ms) && (ms == [] || Less(m.key, ms[0].key))
    ensures Sorted([m] + ms)
  {
    forall i | 0 <= i < |ms| ensures Less(m.key, ms[i].key) {
      if i > 0 { LessTransitive(m.key, ms[0].key, ms[i].key); }
    }
  }

  lemma {:induction false} InsertKeepsSorted(m: Member, ms: seq<Member>)
    requires Sorted(ms) && KeyFree(ms, m.key)
    ensures Sorted(Insert(m, ms))
  {
    if ms == [] || Less(m.key, ms[0].key) {
      SortedCons(m, ms);
    } else {
      InsertKeepsSorted(m, ms[1..]);
      LessIsTotal(m.key, ms[0].key);
      SortedCons(ms[0], Insert(m, ms[1..]));
    }
  }

  lemma {:induction false} SortSorts(ms: seq<Member>)
    requires DistinctKeys(ms)
    ensures Sorted(Sort(ms))
  {
    if ms != [] {
      SortSorts(ms[1..]);
      var rest := Sort(ms[1..]);
      forall i | 0 <= i < |rest| ensures rest[i].key != ms[0].key {
        assert Has(rest, rest[i]);
        SortHas(ms[1..], rest[i]);
      }
      InsertKeepsSorted(ms[0], rest);
    }
  }

  predicate SameMembers(a: seq<Member>, b: seq<Member>) {
    (forall i :: 0 <= i < |a| ==> Has(b, a[i])) && (forall i :: 0 <= i < |b| ==> Has(a, b[i]))
  }

  /** In a sorted list the first member is the least. */
  lemma FirstIsLeast(a: seq<Member>, m: Member)
    requires Sorted(a) && Has(a, m)
    ensures a[0] == m || Less(a[0].key, m.key)
  {}

  lemma TailsMatch(a: seq<Member>, b: seq<Member>)
    requires Sorted(a) && a != [] && b != [] && a[0] == b[0]
    requires forall i :: 0 <= i < |a| ==> Has(b, a[i])
    ensures forall i :: 0 <= i < |a[1..]| ==> Has(b[1..], a[1..][i])
  {
    forall i | 0 <= i < |a[1..]| ensures Has(b[1..], a[1..][i]) {
      var m := a[1..][i];
      var k := i + 1;
      assert a[k] == m && Less(a[0].key, m.key);
      LessIsStrict(m.key, m.key);
      var j :| 0 <= j < |b| && b[j] == m;
      assert b[1..][j - 1] == m;
    }
  }

  lemma BothEmpty(a: seq<Member>, b: seq<Member>)
    requires SameMembers(a, b)
    ensures a == [] <==> b == []
  {
    if a != [] { assert Has(b, a[0]); }
    if b != [] { assert Has(a, b[0]); }
  }

  lemma SameFirst(a: seq<Member>, b: seq<Member>)
    requires Sorted(a) && Sorted(b) && SameMembers(a, b) && a != [] && b != []
    ensures a[0] == b[0]
  {
    FirstIsLeast(a, b[0]);
    FirstIsLeast(b, a[0]);
    LessIsStrict(a[0].key, b[0].key);
  }

  lemma SortedTail(a: seq<Member>)
    requires Sorted(a) && a != []
    ensures Sorted(a[1..])
  {}

  /** One set of members has one sorted list. */
  lemma {:induction false} SortedIsUnique(a: seq<Member>, b: seq<Member>)
    requires Sorted(a) && Sorted(b) && SameMembers(a, b)
    ensures a == b
    decreases |a|
  {
    if a == [] || b == [] {
      BothEmpty(a, b);
    } else {
      SameFirst(a, b);
      TailsMatch(a, b);
      TailsMatch(b, a);
      SortedTail(a);
      SortedTail(b);
      SortedIsUnique(a[1..], b[1..]);
      assert a == [a[0]] + a[1..] && b == [b[0]] + b[1..];
    }
  }

  // ---- values and their canonical text ----

  lemma {:induction false} NormalizedKeys(ms: seq<Member>)
    requires DistinctKeys(ms)
    ensures DistinctKeys(NormalizeMembers(ms))
  {}

  lemma {:induction false} PairedWithNormal(a: seq<Member>, b: seq<Member>)
    requires SameMembers(NormalizeMembers(a), b)
    requires forall i :: 0 <= i < |a| ==> EqualMember(a[i], NormalizeMember(a[i]))
    ensures Paired(a, b)
  {
    var na := NormalizeMembers(a);
    forall i | 0 <= i < |a| ensures HasEqual(b, a[i]) {
      assert Has(b, na[i]);
      var j :| 0 <= j < |b| && b[j] == na[i];
      assert EqualMember(a[i], b[j]);
    }
    forall j | 0 <= j < |b| ensures HasSource(a, b[j]) {
      assert Has(na, b[j]);
      var i :| 0 <= i < |na| && na[i] == b[j];
      assert EqualMember(a[i], b[j]);
    }
  }

  lemma {:induction false} SortKeepsMembers(ms: seq<Member>)
    ensures SameMembers(ms, Sort(ms))
  {
    forall i | 0 <= i < |ms| ensures Has(Sort(ms), ms[i]) {
      assert Has(ms, ms[i]);
      SortHas(ms, ms[i]);
    }
    forall i | 0 <= i < |Sort(ms)| ensures Has(ms, Sort(ms)[i]) {
      assert Has(Sort(ms), Sort(ms)[i]);
      SortHas(ms, Sort(ms)[i]);
    }
  }

  lemma {:induction false} NormalizeIsEqual(v: Json)
    ensures Equal(v, Normalize(v))
    decreases v
  {
    match v
    case Arr(items) =>
      forall i | 0 <= i < |items| { NormalizeIsEqual(items[i]); }
    case Obj(ms) =>
      forall i | 0 <= i < |ms| ensures EqualMember(ms[i], NormalizeMember(ms[i])) { NormalizeIsEqual(ms[i].value); }
      SortKeepsMembers(NormalizeMembers(ms));
      PairedWithNormal(ms, Sort(NormalizeMembers(ms)));
    case _ =>
  }

  lemma {:induction false} SameSortSameMembers(a: seq<Member>, b: seq<Member>)
    requires Sort(a) == Sort(b)
    ensures SameMembers(a, b)
  {
    forall i | 0 <= i < |a| ensures Has(b, a[i]) {
      assert Has(a, a[i]);
      SortHas(a, a[i]);
      SortHas(b, a[i]);
    }
    forall i | 0 <= i < |b| ensures Has(a, b[i]) {
      assert Has(b, b[i]);
      SortHas(b, b[i]);
      SortHas(a, b[i]);
    }
  }

  ghost predicate Reflects(m: Member, n: Member) {
    NormalizeMember(m) == NormalizeMember(n) ==> EqualMember(m, n)
  }

  lemma {:induction false} PairsThroughNormalForm(a: seq<Member>, b: seq<Member>)
    requires Sort(NormalizeMembers(a)) == Sort(NormalizeMembers(b))
    requires forall i, j :: 0 <= i < |a| && 0 <= j < |b| ==> Reflects(a[i], b[j])
    ensures Paired(a, b)
  {
    var na, nb := NormalizeMembers(a), NormalizeMembers(b);
    SameSortSameMembers(na, nb);
    forall i | 0 <= i < |a| ensures HasEqual(b, a[i]) {
      assert Has(nb, na[i]);
      var j :| 0 <= j < |nb| && nb[j] == na[i];
      assert Reflects(a[i], b[j]);
      assert EqualMember(a[i], b[j]);
    }
    forall j | 0 <= j < |b| ensures HasSource(a, b[j]) {
      assert Has(na, nb[j]);
      var i :| 0 <= i < |na| && na[i] == nb[j];
      assert Reflects(a[i], b[j]);
      assert EqualMember(a[i], b[j]);
    }
  }

  lemma {:induction false} SameNormalForm(v: Json, w: Json)
    requires Normalize(v) == Normalize(w)
    ensures Equal(v, w)
    decreases v
  {
    match v
    case Arr(a) =>
      forall i | 0 <= i < |a| { SameNormalForm(a[i], w.items[i]); }
    case Obj(a) =>
      var b := w.members;
      forall i, j | 0 <= i < |a| && 0 <= j < |b| ensures Reflects(a[i], b[j]) {
        if NormalizeMember(a[i]) == NormalizeMember(b[j]) { SameNormalForm(a[i].value, b[j].value); }
      }
      PairsThroughNormalForm(a, b);
    case _ =>
  }

  lemma {:induction false} SameMembersSameSort(a: seq<Member>, b: seq<Member>)
    requires DistinctKeys(a) && DistinctKeys(b) && SameMembers(a, b)
    ensures Sort(a) == Sort(b)
  {
    SortSorts(a);
    SortSorts(b);
    SortKeepsMembers(a);
    SortKeepsMembers(b);
    forall i | 0 <= i < |Sort(a)| ensures Has(Sort(b), Sort(a)[i]) { SortHas(b, Sort(a)[i]); }
    forall i | 0 <= i < |Sort(b)| ensures Has(Sort(a), Sort(b)[i]) { SortHas(a, Sort(b)[i]); }
    SortedIsUnique(Sort(a), Sort(b));
  }

  lemma {:induction false} PairedSameNormalForm(a: seq<Member>, b: seq<Member>)
    requires DistinctKeys(a) && DistinctKeys(b) && Paired(a, b)
    requires forall i, j :: 0 <= i < |a| && 0 <= j < |b| && EqualMember(a[i], b[j]) ==> NormalizeMember(a[i]) == NormalizeMember(b[j])
    ensures Sort(NormalizeMembers(a)) == Sort(NormalizeMembers(b))
  {
    var na, nb := NormalizeMembers(a), NormalizeMembers(b);
    forall i | 0 <= i < |na| ensures Has(nb, na[i]) {
      assert HasEqual(b, a[i]);
      var j :| 0 <= j < |b| && EqualMember(a[i], b[j]);
      assert nb[j] == na[i];
    }
    forall j | 0 <= j < |nb| ensures Has(na, nb[j]) {
      assert HasSource(a, b[j]);
      var i :| 0 <= i < |a| && EqualMember(a[i], b[j]);
      assert na[i] == nb[j];
    }
    NormalizedKeys(a);
    NormalizedKeys(b);
    SameMembersSameSort(na, nb);
  }

  lemma {:induction false} EqualMeansSameNormalForm(v: Json, w: Json)
    requires Valid(v) && Valid(w) && Equal(v, w)
    ensures Normalize(v) == Normalize(w)
    decreases v
  {
    match v
    case Arr(a) =>
      forall i | 0 <= i < |a| { EqualMeansSameNormalForm(a[i], w.items[i]); }
      assert NormalizeAll(a) == NormalizeAll(w.items);
    case Obj(a) =>
      var b := w.members;
      forall i, j | 0 <= i < |a| && 0 <= j < |b| && EqualMember(a[i], b[j])
        ensures NormalizeMember(a[i]) == NormalizeMember(b[j])
      {
        assert ValidMember(a[i]) && ValidMember(b[j]);
        EqualMeansSameNormalForm(a[i].value, b[j].value);
      }
      PairedSameNormalForm(a, b);
    case _ =>
  }

  /** Two values have one canonical text exactly when they are equal as values, in whatever order built. */
  lemma {:induction false} CanonicalExactly(v: Json, w: Json)
    requires Valid(v) && Valid(w)
    ensures Canonical(v) == Canonical(w) <==> Equal(v, w)
  {
    if Canonical(v) == Canonical(w) {
      TextParses(Normalize(v), "");
      TextParses(Normalize(w), "");
      assert Canonical(v) + "" == Canonical(w) + "";
      SameNormalForm(v, w);
    }
    if Equal(v, w) {
      EqualMeansSameNormalForm(v, w);
    }
  }

  /** Reading a canonical text gives an equal value and uses the whole text. */
  lemma {:induction false} CanonicalParsesBack(v: Json)
    ensures Parse(Canonical(v)).Some?
    ensures Equal(v, Parse(Canonical(v)).value.0) && Parse(Canonical(v)).value.1 == ""
  {
    TextParses(Normalize(v), "");
    assert Canonical(v) + "" == Canonical(v);
    NormalizeIsEqual(v);
  }

  lemma InsertionOrderIsLost(ms: seq<Member>, ns: seq<Member>)
    requires DistinctKeys(ms) && DistinctKeys(ns) && SameMembers(ms, ns)
    ensures Canonical(Obj(ms)) == Canonical(Obj(ns))
  {
    var a, b := NormalizeMembers(ms), NormalizeMembers(ns);
    forall i | 0 <= i < |a| ensures Has(b, a[i]) {
      assert Has(ns, ms[i]);
      var j :| 0 <= j < |ns| && ns[j] == ms[i];
      assert b[j] == a[i];
    }
    forall i | 0 <= i < |b| ensures Has(a, b[i]) {
      assert Has(ms, ns[i]);
      var j :| 0 <= j < |ms| && ms[j] == ns[i];
      assert a[j] == b[i];
    }
    SameMembersSameSort(a, b);
  }

  // ---- domain separation ----

  /** `domain.encode() + b'\x00' + canonical(payload)` */
  function Message(domain: string, payload: Json): string { domain + [0 as char] + Canonical(payload) }

  predicate NoNul(s: string) { forall i :: 0 <= i < |s| ==> s[i] != 0 as char }

  lemma {:induction false} EscapedHasNoNul(s: string)
    ensures NoNul(Escaped(s))
  {
    if s != "" {
      assert NoNul(Escape(s[0]));
      EscapedHasNoNul(s[1..]);
    }
  }

  lemma {:induction false} DigitsHaveNoNul(n: nat)
    ensures NoNul(Digits(n))
  {
    if n >= 10 { DigitsHaveNoNul(n / 10); }
  }

  lemma {:induction false} TextHasNoNul(v: Json)
    ensures NoNul(Text(v))
    decreases v
  {
    match v
    case Bool(_) =>
    case Int(n) => DigitsHaveNoNul(if n < 0 then -n else n);
    case Str(s) => EscapedHasNoNul(s);
    case Arr(items) => ItemsHaveNoNul(items);
    case Obj(ms) => MembersHaveNoNul(ms);
  }

  lemma {:induction false} ItemsHaveNoNul(items: seq<Json>)
    ensures NoNul(Items(items))
    decreases items
  {
    if items != [] {
      TextHasNoNul(items[0]);
      ItemsHaveNoNul(items[1..]);
    }
  }

  lemma {:induction false} MemberHasNoNul(m: Member)
    ensures NoNul(MemberText(m))
    decreases m
  {
    EscapedHasNoNul(m.key);
    TextHasNoNul(m.value);
  }

  lemma {:induction false} MembersHaveNoNul(ms: seq<Member>)
    ensures NoNul(Members(ms))
    decreases ms
  {
    if ms != [] {
      MemberHasNoNul(ms[0]);
      MembersHaveNoNul(ms[1..]);
    }
  }

  lemma SeparatorNotLater(d: string, t: string, e: string, u: string)
    requires d + [0 as char] + t == e + [0 as char] + u && NoNul(t)
    ensures |d| >= |e|
  {
    var m := d + [0 as char] + t;
    assert m[|e|] == 0 as char;
    assert forall k :: |d| < k < |m| ==> m[k] == t[k - |d| - 1];
  }

  /** The last zero of a message is the separator. */
  lemma LastZeroSplits(d: string, t: string, e: string, u: string)
    requires d + [0 as char] + t == e + [0 as char] + u && NoNul(t) && NoNul(u)
    ensures d == e && t == u
  {
    SeparatorNotLater(d, t, e, u);
    SeparatorNotLater(e, u, d, t);
    var m := d + [0 as char] + t;
    assert m[..|d|] == d && m[..|e|] == e;
    assert m[|d| + 1..] == t && m[|e| + 1..] == u;
  }

  /** No signed message reads under two domains or as two values, whatever the domains are. */
  lemma {:induction false} DomainsSeparate(d: string, v: Json, e: string, w: Json)
    requires Valid(v) && Valid(w)
    ensures Message(d, v) == Message(e, w) <==> d == e && Equal(v, w)
  {
    CanonicalExactly(v, w);
    if Message(d, v) == Message(e, w) {
      TextHasNoNul(Normalize(v));
      TextHasNoNul(Normalize(w));
      LastZeroSplits(d, Canonical(v), e, Canonical(w));
    }
  }
}
