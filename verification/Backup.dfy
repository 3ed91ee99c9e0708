// Retention of backup runs by the name of their directory, which is the UTC time they began.
module Backup {
  import opened TextOrder

  // ---- names are times ----

  datatype Time = Time(year: nat, month: nat, day: nat, hour: nat, minute: nat, second: nat)

  predicate Proper(t: Time) {
    1000 <= t.year < 10000 && t.month < 100 && t.day < 100 && t.hour < 100 && t.minute < 100 && t.second < 100
  }

  /** `n` with leading zeros, in `width` digits. */
  function Fixed(n: nat, width: nat): (r: string)
    ensures |r| == width
  {
    if width == 0 then "" else Fixed(n / 10, width - 1) + [('0' as int + n % 10) as char]
  }

  /** `strftime('%Y%m%dT%H%M%SZ')` */
  function Stamp(t: Time): string {
    Fixed(t.year, 4) + (Fixed(t.month, 2) + (Fixed(t.day, 2) + ("T" + (Fixed(t.hour, 2) + (Fixed(t.minute, 2) + (Fixed(t.second, 2) + "Z"))))))
  }

  predicate Earlier(a: Time, b: Time) {
    a.year < b.year || (a.year == b.year
    && (a.month < b.month || (a.month == b.month
    && (a.day < b.day || (a.day == b.day
    && (a.hour < b.hour || (a.hour == b.hour
    && (a.minute < b.minute || (a.minute == b.minute
    && a.second < b.second)))))))))
  }

  function Pow10(n: nat): nat { if n == 0 then 1 else 10 * Pow10(n - 1) }

  lemma {:induction false} FixedOrder(x: nat, y: nat, width: nat)
    requires x < y < Pow10(width)
    ensures Less(Fixed(x, width), Fixed(y, width))
  {
    if width > 0 {
      var k := width - 1;
      if x / 10 < y / 10 {
        FixedOrder(x / 10, y / 10, k);
        LessExtends(Fixed(x / 10, k), Fixed(y / 10, k), [('0' as int + x % 10) as char], [('0' as int + y % 10) as char]);
      } else {
        assert Fixed(x, width)[..k] == Fixed(x / 10, k) == Fixed(y, width)[..k];
        LessAt(Fixed(x, width), Fixed(y, width), k);
      }
    }
  }

  /** A field decides, or hands over to what follows it. */
  lemma {:induction false} FieldThen(x: nat, y: nat, width: nat, a: string, b: string)
    requires x < Pow10(width) && y < Pow10(width) && |a| == |b|
    ensures x < y ==> Less(Fixed(x, width) + a, Fixed(y, width) + b)
    ensures x == y && Less(a, b) ==> Less(Fixed(x, width) + a, Fixed(y, width) + b)
  {
    if x < y {
      FixedOrder(x, y, width);
      LessExtends(Fixed(x, width), Fixed(y, width), a, b);
    }
    if x == y && Less(a, b) { LessAfter(Fixed(x, width), a, b); }
  }

  lemma EarlierIsLess(a: Time, b: Time)
    requires Proper(a) && Proper(b) && Earlier(a, b)
    ensures Less(Stamp(a), Stamp(b))
  {
    assert Pow10(2) == 100 && Pow10(4) == 10000;
    var a5, b5 := Fixed(a.second, 2) + "Z", Fixed(b.second, 2) + "Z";
    var a4, b4 := Fixed(a.minute, 2) + a5, Fixed(b.minute, 2) + b5;
    var a3, b3 := Fixed(a.hour, 2) + a4, Fixed(b.hour, 2) + b4;
    var a2, b2 := Fixed(a.day, 2) + ("T" + a3), Fixed(b.day, 2) + ("T" + b3);
    var a1, b1 := Fixed(a.month, 2) + a2, Fixed(b.month, 2) + b2;
    FieldThen(a.second, b.second, 2, "Z", "Z");
    FieldThen(a.minute, b.minute, 2, a5, b5);
    FieldThen(a.hour, b.hour, 2, a4, b4);
    if Less(a3, b3) { LessAfter("T", a3, b3); }
    FieldThen(a.day, b.day, 2, "T" + a3, "T" + b3);
    FieldThen(a.month, b.month, 2, a2, b2);
    FieldThen(a.year, b.year, 4, a1, b1);
  }

  lemma SameOrOrdered(a: Time, b: Time)
    ensures a == b || Earlier(a, b) || Earlier(b, a)
  {}

  /** Sorting by name is sorting by time, and no two times share a name. */
  lemma NameOrderIsTimeOrder(a: Time, b: Time)
    requires Proper(a) && Proper(b)
    ensures Less(Stamp(a), Stamp(b)) <==> Earlier(a, b)
    ensures Stamp(a) == Stamp(b) <==> a == b
  {
    LessIsStrict(Stamp(a), Stamp(b));
    LessIsStrict(Stamp(b), Stamp(a));
    SameOrOrdered(a, b);
    if Earlier(a, b) { EarlierIsLess(a, b); }
    if Earlier(b, a) { EarlierIsLess(b, a); }
  }

  predicate AllDigits(s: string) { forall i :: 0 <= i < |s| ==> '0' <= s[i] <= '9' }

  /** `int(s)` */
  function NumberOf(s: string): nat
    requires AllDigits(s)
  {
    if s == "" then 0 else NumberOf(s[..|s| - 1]) * 10 + (s[|s| - 1] as int - '0' as int)
  }

  predicate Reads(s: string, n: nat) { AllDigits(s) && NumberOf(s) == n }

  lemma {:induction false} FixedReads(n: nat, width: nat)
    requires n < Pow10(width)
    ensures Reads(Fixed(n, width), n)
  {
    if width > 0 {
      var k := width - 1;
      var front, last := Fixed(n / 10, k), ('0' as int + n % 10) as char;
      FixedReads(n / 10, k);
      assert (front + [last])[..k] == front;
    }
  }

  lemma StampParts(year: string, month: string, day: string, hour: string, minute: string, second: string)
    requires |year| == 4 && |month| == 2 && |day| == 2 && |hour| == 2 && |minute| == 2 && |second| == 2
    ensures var s := year + (month + (day + ("T" + (hour + (minute + (second + "Z"))))));
      |s| == 16 && s[..4] == year && s[4..6] == month && s[6..8] == day && s[8] == 'T'
      && s[9..11] == hour && s[11..13] == minute && s[13..15] == second && s[15] == 'Z'
  {}

  /** A stamp is YYYYMMDDTHHMMSSZ. */
  lemma StampLayout(t: Time)
    requires Proper(t)
    ensures var s := Stamp(t);
      |s| == 16 && s[8] == 'T' && s[15] == 'Z'
      && Reads(s[..4], t.year) && Reads(s[4..6], t.month) && Reads(s[6..8], t.day)
      && Reads(s[9..11], t.hour) && Reads(s[11..13], t.minute) && Reads(s[13..15], t.second)
  {
    assert Pow10(2) == 100 && Pow10(4) == 10000;
    StampParts(Fixed(t.year, 4), Fixed(t.month, 2), Fixed(t.day, 2), Fixed(t.hour, 2), Fixed(t.minute, 2), Fixed(t.second, 2));
    FixedReads(t.year, 4);
    FixedReads(t.month, 2);
    FixedReads(t.day, 2);
    FixedReads(t.hour, 2);
    FixedReads(t.minute, 2);
    FixedReads(t.second, 2);
  }

  // ---- sorted listings ----

  function Insert(x: string, names: seq<string>): seq<string> {
    if names == [] || Less(x, names[0]) then [x] + names else [names[0]] + Insert(x, names[1..])
  }

  function Sorted(names: seq<string>): seq<string> {
    if names == [] then [] else Insert(names[0], Sorted(names[1..]))
  }

  predicate Ascending(names: seq<string>) { forall i, j :: 0 <= i < j < |names| ==> Less(names[i], names[j]) }

  lemma {:induction false} InsertHolds(x: string, names: seq<string>)
    ensures multiset(Insert(x, names)) == multiset(names) + multiset{x}
  {
    if names != [] && !Less(x, names[0]) {
      InsertHolds(x, names[1..]);
      assert names == [names[0]] + names[1..];
    }
  }

  lemma {:induction false} InsertAscends(x: string, names: seq<string>)
    requires Ascending(names) && x !in names
    ensures Ascending(Insert(x, names))
  {
    var r := Insert(x, names);
    if names == [] {
    } else if Less(x, names[0]) {
      forall i | 0 < i < |names| ensures Less(x, names[i]) { LessTransitive(x, names[0], names[i]); }
    } else {
      var rest := Insert(x, names[1..]);
      InsertAscends(x, names[1..]);
      InsertHolds(x, names[1..]);
      LessIsTotal(x, names[0]);
      forall i | 0 <= i < |rest| ensures Less(names[0], rest[i]) {
        assert rest[i] in multiset(rest);
        if rest[i] != x { assert rest[i] in names[1..]; }
      }
    }
  }

  predicate Distinct(names: seq<string>) { forall i, j :: 0 <= i < j < |names| ==> names[i] != names[j] }

  lemma {:induction false} SortedHolds(names: seq<string>)
    ensures multiset(Sorted(names)) == multiset(names)
  {
    if names != [] {
      SortedHolds(names[1..]);
      InsertHolds(names[0], Sorted(names[1..]));
      assert names == [names[0]] + names[1..];
    }
  }

  lemma SameNames(a: seq<string>, b: seq<string>, x: string)
    requires multiset(a) == multiset(b)
    ensures x in a <==> x in b
  {
    assert x in a <==> x in multiset(a);
  }

  lemma {:induction false} SortedAscends(names: seq<string>)
    requires Distinct(names)
    ensures Ascending(Sorted(names))
  {
    if names != [] {
      SortedAscends(names[1..]);
      SortedHolds(names[1..]);
      SameNames(Sorted(names[1..]), names[1..], names[0]);
      InsertAscends(names[0], Sorted(names[1..]));
    }
  }

  lemma {:induction false} SortedIsSorted(names: seq<string>)
    ensures multiset(Sorted(names)) == multiset(names)
    ensures Distinct(names) ==> Ascending(Sorted(names))
  {
    SortedHolds(names);
    if Distinct(names) { SortedAscends(names); }
  }

  // ---- pruning ----

  function Names(s: seq<string>): set<string> { set x | x in s }

  /** `runs[:-keep] if keep > 0 else []` */
  function Stale(runs: seq<string>, keep: int): seq<string> {
    if keep <= 0 || keep >= |runs| then [] else runs[..|runs| - keep]
  }

  function Min(a: int, b: int): int { if a < b then a else b }

  lemma {:induction false} AscendingCounts(s: seq<string>)
    requires Ascending(s)
    ensures |Names(s)| == |s|
  {
    if s != [] {
      var n := |s| - 1;
      AscendingCounts(s[..n]);
      assert s == s[..n] + [s[n]];
      forall i | 0 <= i < n ensures s[i] != s[n] { LessIsStrict(s[i], s[n]); }
      assert Names(s) == Names(s[..n]) + {s[n]};
    }
  }

  lemma TailIsLeft(s: seq<string>, k: nat)
    requires Ascending(s) && k <= |s|
    ensures Names(s) - Names(s[..k]) == Names(s[k..])
  {
    forall x | x in s[..k] ensures x !in s[k..] {
      var i :| 0 <= i < k && s[i] == x;
      forall j | k <= j < |s| ensures s[j] != x { LessIsStrict(s[i], s[j]); }
    }
    assert s == s[..k] + s[k..];
  }

  lemma {:induction false} HeadIsOlder(s: seq<string>, k: nat, x: string, y: string)
    requires Ascending(s) && k <= |s| && x in s[..k] && y in s[k..]
    ensures Less(x, y)
  {
    var i :| 0 <= i < k && s[i] == x;
    var j :| 0 <= j < |s[k..]| && s[k..][j] == y;
    assert s[j + k] == y;
  }

  /** What is left of a sorted listing is its newest `keep`, and everything removed is older than everything left. */
  lemma NewestAreKept(runs: seq<string>, keep: int)
    requires Ascending(runs)
    ensures |Names(runs) - Names(Stale(runs, keep))| == if keep <= 0 then |runs| else Min(keep, |runs|)
    ensures forall x, y :: x in Stale(runs, keep) && y in Names(runs) - Names(Stale(runs, keep)) ==> Less(x, y)
  {
    var k := |Stale(runs, keep)|;
    assert Stale(runs, keep) == runs[..k];
    TailIsLeft(runs, k);
    AscendingCounts(runs[k..]);
    forall x, y | x in Stale(runs, keep) && y in Names(runs) - Names(Stale(runs, keep)) ensures Less(x, y) {
      assert y in Names(runs[k..]);
      HeadIsOlder(runs, k, x, y);
    }
  }

  lemma {:induction false} SortedListing(listing: seq<string>)
    requires Distinct(listing)
    ensures Ascending(Sorted(listing)) && Names(Sorted(listing)) == Names(listing) && |Names(listing)| == |Sorted(listing)|
  {
    SortedIsSorted(listing);
    AscendingCounts(Sorted(listing));
    forall x ensures x in listing <==> x in Sorted(listing) { SameNames(listing, Sorted(listing), x); }
  }

  class Backups {
    var runs: set<string>

    constructor (runs: set<string>)
      ensures this.runs == runs
    {
      this.runs := runs;
    }

    method RemoveAll(stale: seq<string>)
      modifies this
      ensures runs == old(runs) - Names(stale)
    {
      var i := 0;
      while i < |stale|
        invariant 0 <= i <= |stale|
        invariant runs == old(runs) - Names(stale[..i])
      {
        assert stale[..i + 1] == stale[..i] + [stale[i]];
        runs := runs - {stale[i]};
        i := i + 1;
      }
      assert stale[..i] == stale;
    }

    /** `prune(keep)`; the listing is the directory's, in whatever order it comes. */
    method Prune(listing: seq<string>, keep: int)
      requires Distinct(listing) && Names(listing) == runs
      modifies this
      ensures runs <= old(runs) && |runs| == (if keep <= 0 then |old(runs)| else Min(keep, |old(runs)|))
      ensures forall x, y :: x in old(runs) - runs && y in runs ==> Less(x, y)
    {
      var sorted := Sorted(listing);
      SortedListing(listing);
      NewestAreKept(sorted, keep);
      RemoveAll(Stale(sorted, keep));
    }
  }

  /** So the runs that go are earlier than the runs that stay. */
  lemma PrunedRunsAreOlder(runs: seq<string>, keep: int, a: Time, b: Time)
    requires Ascending(runs) && Proper(a) && Proper(b) && Stamp(a) in runs && Stamp(b) in runs
    requires Stamp(a) in Stale(runs, keep) && Stamp(b) !in Stale(runs, keep)
    ensures Earlier(a, b)
  {
    NewestAreKept(runs, keep);
    NameOrderIsTimeOrder(a, b);
  }
}
