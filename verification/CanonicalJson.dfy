// `json.dumps(value, sort_keys=True, separators=(',',':'), ensure_ascii=False)` over the values the drivers sign,
// which for them is canonical JSON (section 3.2 of RFC 8785), and the domain-separated message around it.
module CanonicalJson {
  import opened Wrappers
  import opened TextOrder

  datatype Json =
    | Bool(b: bool)
    | Int(n: int)
    | Str(s: string)
    | Arr(items: seq<Json>)
    | Obj(members: seq<Member>)  // in insertion order
  datatype Member = Member(key: string, value: Json)

  /** The keys of a dictionary are distinct, at every depth. */
  predicate Valid(v: Json) {
    match v
    case Arr(items) => forall i :: 0 <= i < |items| ==> Valid(items[i])
    case Obj(members) => DistinctKeys(members) && forall i :: 0 <= i < |members| ==> ValidMember(members[i])
    case _ => true
  }

  predicate ValidMember(m: Member) { Valid(m.value) }

  predicate DistinctKeys(ms: seq<Member>) {
    forall i, j :: 0 <= i < j < |ms| ==> ms[i].key != ms[j].key
  }

  /** Equality of JSON values: dictionaries by what they hold, whatever order it was put in, and a truth value is
      never a number, although Python's `==` has `True == 1`. */
  ghost predicate Equal(v: Json, w: Json)
    decreases v
  {
    match v
    case Arr(a) => w.Arr? && |a| == |w.items| && forall i :: 0 <= i < |a| ==> Equal(a[i], w.items[i])
    case Obj(a) => w.Obj? && Paired(a, w.members)
    case _ => v == w
  }

  ghost predicate Paired(a: seq<Member>, b: seq<Member>)
    decreases a, 1
  {
    (forall i :: 0 <= i < |a| ==> HasEqual(b, a[i])) && (forall j :: 0 <= j < |b| ==> HasSource(a, b[j]))
  }

  ghost predicate HasEqual(ns: seq<Member>, m: Member)
    decreases m, 1
  {
    exists j :: 0 <= j < |ns| && EqualMember(m, ns[j])
  }

  ghost predicate HasSource(ms: seq<Member>, n: Member)
    decreases ms, 0
  {
    exists i :: 0 <= i < |ms| && EqualMember(ms[i], n)
  }

  ghost predicate EqualMember(m: Member, n: Member)
    decreases m, 0
  {
    m.key == n.key && Equal(m.value, n.value)
  }

  // ---- sorting ----

  function Insert(m: Member, ms: seq<Member>): seq<Member> {
    if ms == [] || Less(m.key, ms[0].key) then [m] + ms else [ms[0]] + Insert(m, ms[1..])
  }

  function Sort(ms: seq<Member>): seq<Member> {
    if ms == [] then [] else Insert(ms[0], Sort(ms[1..]))
  }

  /** The value with the members of every dictionary sorted by key. */
  function Normalize(v: Json): Json {
    match v
    case Arr(items) => Arr(NormalizeAll(items))
    case Obj(members) => Obj(Sort(NormalizeMembers(members)))
    case _ => v
  }

  function NormalizeAll(items: seq<Json>): (r: seq<Json>)
    ensures |r| == |items| && forall i :: 0 <= i < |items| ==> r[i] == Normalize(items[i])
  {
    if items == [] then [] else [Normalize(items[0])] + NormalizeAll(items[1..])
  }

  function NormalizeMember(m: Member): Member { Member(m.key, Normalize(m.value)) }

  function NormalizeMembers(ms: seq<Member>): (r: seq<Member>)
    ensures |r| == |ms| && forall i :: 0 <= i < |ms| ==> r[i] == NormalizeMember(ms[i])
  {
    if ms == [] then [] else [NormalizeMember(ms[0])] + NormalizeMembers(ms[1..])
  }

  // ---- text ----

  function Escape(c: char): string {
    if c == '"' then "\\\""
    else if c == '\\' then "\\\\"
    else if c == '\n' then "\\n"
    else if c == '\r' then "\\r"
    else if c == '\t' then "\\t"
    else if c as int == 12 then "\\f"
    else if c as int == 8 then "\\b"
    else if c as int < 32 then "\\u00" + [HexChar(c as int / 16), HexChar(c as int % 16)]
    else [c]
  }

  function Escaped(s: string): string {
    if s == "" then "" else Escape(s[0]) + Escaped(s[1..])
  }

  function Quote(s: string): string { "\"" + Escaped(s) + "\"" }

  function Digits(n: nat): string {
    if n < 10 then [('0' as int + n) as char] else Digits(n / 10) + [('0' as int + n % 10) as char]
  }

  function Decimal(n: int): string { if n < 0 then "-" + Digits(-n) else Digits(n) }

  function Text(v: Json): string {
    match v
    case Bool(b) => if b then "true" else "false"
    case Int(n) => Decimal(n)
    case Str(s) => Quote(s)
    case Arr(items) => "[" + Items(items) + "]"
    case Obj(members) => "{" + Members(members) + "}"
  }

  function Items(items: seq<Json>): string {
    if items == [] then ""
    else if |items| == 1 then Text(items[0])
    else Text(items[0]) + "," + Items(items[1..])
  }

  function MemberText(m: Member): string { Quote(m.key) + ":" + Text(m.value) }

  function Members(ms: seq<Member>): string {
    if ms == [] then ""
    else if |ms| == 1 then MemberText(ms[0])
    else MemberText(ms[0]) + "," + Members(ms[1..])
  }

  /** `canonical(value)` */
  function Canonical(v: Json): string { Text(Normalize(v)) }

  // ---- the parser ----

  predicate IsDigit(c: char) { '0' <= c <= '9' }

  predicate StartsWithDigit(s: string) { s != "" && IsDigit(s[0]) }

  function HexValue(c: char): Option<nat> {
    if '0' <= c <= '9' then Some(c as int - '0' as int)
    else if 'a' <= c <= 'f' then Some(c as int - 'a' as int + 10)
    else None
  }

  function ParseEscape(s: string): (r: Option<(char, string)>)
    ensures r.Some? ==> |r.value.1| < |s|
  {
    if s == "" then None
    else if s[0] == '"' then Some(('"', s[1..]))
    else if s[0] == '\\' then Some(('\\', s[1..]))
    else if s[0] == 'n' then Some(('\n', s[1..]))
    else if s[0] == 'r' then Some(('\r', s[1..]))
    else if s[0] == 't' then Some(('\t', s[1..]))
    else if s[0] == 'f' then Some((12 as char, s[1..]))
    else if s[0] == 'b' then Some((8 as char, s[1..]))
    else if |s| >= 5 && s[..3] == "u00" && HexValue(s[3]).Some? && HexValue(s[4]).Some? then
      Some(((HexValue(s[3]).value * 16 + HexValue(s[4]).value) as char, s[5..]))
    else None
  }

  /** What follows an opening quote, up to and including the closing one. */
  function ParseString(s: string): (r: Option<(string, string)>)
    ensures r.Some? ==> |r.value.1| < |s|
    decreases |s|
  {
    if s == "" || (s[0] as int) < 32 then None
    else if s[0] == '"' then Some(("", s[1..]))
    else
      var first := if s[0] == '\\' then ParseEscape(s[1..]) else Some((s[0], s[1..]));
      if first.None? then None
      else
        var more := ParseString(first.value.1);
        if more.None? then None else Some(([first.value.0] + more.value.0, more.value.1))
  }

  /** Continues a number whose digits so far are worth `n`. */
  function ParseDigits(n: nat, s: string): (r: (nat, string))
    ensures |r.1| <= |s|
    decreases |s|
  {
    if StartsWithDigit(s) then ParseDigits(n * 10 + (s[0] as int - '0' as int), s[1..]) else (n, s)
  }

  function ParseNatural(s: string): (r: Option<(nat, string)>)
    ensures r.Some? ==> |r.value.1| < |s|
  {
    if StartsWithDigit(s) then Some(ParseDigits(s[0] as int - '0' as int, s[1..])) else None
  }

  function Parse(s: string): (r: Option<(Json, string)>)
    ensures r.Some? ==> |r.value.1| < |s|
    decreases |s|, 0
  {
    if s == "" then None
    else if s[0] == '"' then
      var t := ParseString(s[1..]);
      if t.None? then None else Some((Str(t.value.0), t.value.1))
    else if "true" <= s then Some((Bool(true), s[4..]))
    else if "false" <= s then Some((Bool(false), s[5..]))
    else if s[0] == '-' then
      var n := ParseNatural(s[1..]);
      if n.None? then None else Some((Int(0 - n.value.0), n.value.1))
    else if IsDigit(s[0]) then
      var n := ParseNatural(s);
      if n.None? then None else Some((Int(n.value.0), n.value.1))
    else if s[0] == '[' then
      if |s| >= 2 && s[1] == ']' then Some((Arr([]), s[2..]))
      else
        var items := ParseItems(s[1..]);
        if items.None? then None else Some((Arr(items.value.0), items.value.1))
    else if s[0] == '{' then
      if |s| >= 2 && s[1] == '}' then Some((Obj([]), s[2..]))
      else
        var members := ParseMembers(s[1..]);
        if members.None? then None else Some((Obj(members.value.0), members.value.1))
    else None
  }

  function ParseItems(s: string): (r: Option<(seq<Json>, string)>)
    ensures r.Some? ==> |r.value.1| < |s|
    decreases |s|, 1
  {
    var v := Parse(s);
    if v.None? || v.value.1 == "" then None
    else if v.value.1[0] == ']' then Some(([v.value.0], v.value.1[1..]))
    else if v.value.1[0] == ',' then
      var more := ParseItems(v.value.1[1..]);
      if more.None? then None else Some(([v.value.0] + more.value.0, more.value.1))
    else None
  }

  function ParseMember(s: string): (r: Option<(Member, string)>)
    ensures r.Some? ==> |r.value.1| < |s|
    decreases |s|, 0
  {
    if s == "" || s[0] != '"' then None
    else
      var k := ParseString(s[1..]);
      if k.None? || k.value.1 == "" || k.value.1[0] != ':' then None
      else
        var v := Parse(k.value.1[1..]);
        if v.None? then None else Some((Member(k.value.0, v.value.0), v.value.1))
  }

  function ParseMembers(s: string): (r: Option<(seq<Member>, string)>)
    ensures r.Some? ==> |r.value.1| < |s|
    decreases |s|, 1
  {
    var m := ParseMember(s);
    if m.None? || m.value.1 == "" then None
    else if m.value.1[0] == '}' then Some(([m.value.0], m.value.1[1..]))
    else if m.value.1[0] == ',' then
      var more := ParseMembers(m.value.1[1..]);
      if more.None? then None else Some(([m.value.0] + more.value.0, more.value.1))
    else None
  }

  // ---- every text parses back ----

  lemma Regroup3(a: string, b: string, c: string, d: string)
    ensures a + b + c + d == a + (b + c + d)
  {}

  lemma Regroup4(a: string, b: string, c: string, d: string, e: string)
    ensures a + b + c + d + e == a + (b + (c + d + e))
  {}

  lemma AfterFirst(c: char, t: string)
    ensures ([c] + t)[0] == c && ([c] + t)[1..] == t
  {}

  lemma HexInverse(n: nat)
    requires n < 16
    ensures HexValue(HexChar(n)) == Some(n)
  {}

  lemma HexEscapeParses(c: char, rest: string)
    requires c as int < 32
    ensures ParseEscape("u00" + [HexChar(c as int / 16), HexChar(c as int % 16)] + rest) == Some((c, rest))
  {
    var high, low := c as int / 16, c as int % 16;
    var s := "u00" + [HexChar(high), HexChar(low)] + rest;
    HexInverse(high);
    HexInverse(low);
    assert s[..3] == "u00" && s[3] == HexChar(high) && s[4] == HexChar(low) && s[5..] == rest;
    assert high * 16 + low == c as int;
  }

  lemma EscapeParses(c: char, rest: string)
    requires Escape(c) != [c]
    ensures Escape(c) != "" && Escape(c)[0] == '\\' && ParseEscape(Escape(c)[1..] + rest) == Some((c, rest))
  {
    var e := Escape(c);
    if |e| == 2 {
      assert e[1..] + rest == [e[1]] + rest;
      AfterFirst(e[1], rest);
    } else {
      assert e[1..] == "u00" + [HexChar(c as int / 16), HexChar(c as int % 16)];
      HexEscapeParses(c, rest);
    }
  }

  lemma PlainChar(c: char)
    requires Escape(c) == [c]
    ensures c != '"' && c != '\\' && c as int >= 32
  {}

  lemma {:induction false} NextChar(c: char, more: string, tail: string, rest: string)
    requires ParseString(more) == Some((tail, rest))
    ensures ParseString(Escape(c) + more) == Some(([c] + tail, rest))
  {
    var t := Escape(c) + more;
    if Escape(c) == [c] {
      PlainChar(c);
      assert t[1..] == more;
    } else {
      EscapeParses(c, more);
      assert t[0] == '\\' && t[1..] == Escape(c)[1..] + more;
    }
  }

  lemma {:induction false} EscapedSplits(s: string, rest: string)
    requires s != ""
    ensures Escaped(s) + "\"" + rest == Escape(s[0]) + (Escaped(s[1..]) + "\"" + rest) && [s[0]] + s[1..] == s
  {
    Regroup3(Escape(s[0]), Escaped(s[1..]), "\"", rest);
  }

  lemma {:induction false} StringParses(s: string, rest: string)
    ensures ParseString(Escaped(s) + "\"" + rest) == Some((s, rest))
  {
    var t := Escaped(s) + "\"" + rest;
    if s == "" {
      assert t == "\"" + rest;
      assert t[1..] == rest;
    } else {
      var more := Escaped(s[1..]) + "\"" + rest;
      StringParses(s[1..], rest);
      EscapedSplits(s, rest);
      NextChar(s[0], more, s[1..], rest);
    }
  }

  lemma {:induction false} DigitsParse(n: nat, rest: string)
    ensures Digits(n) != "" && IsDigit(Digits(n)[0])
    ensures !StartsWithDigit(rest) ==> ParseNatural(Digits(n) + rest) == Some((n, rest))
  {
    DigitsContinue(n, rest);
    if !StartsWithDigit(rest) {
      assert ParseDigits(n, rest) == (n, rest);
    }
  }

  lemma {:induction false} DigitsContinue(n: nat, rest: string)
    ensures Digits(n) != "" && IsDigit(Digits(n)[0])
    ensures ParseNatural(Digits(n) + rest) == Some(ParseDigits(n, rest))
  {
    var s := Digits(n) + rest;
    if n < 10 {
      assert s[1..] == rest;
    } else {
      var last := ('0' as int + n % 10) as char;
      DigitsContinue(n / 10, [last] + rest);
      assert s == Digits(n / 10) + ([last] + rest);
      assert ([last] + rest)[1..] == rest;
    }
  }

  lemma {:induction false} NoLeadingZero(n: nat)
    ensures Digits(n) != "" && IsDigit(Digits(n)[0]) && (n > 0 ==> Digits(n)[0] != '0') && (|Digits(n)| == 1 <==> n < 10)
  {
    if n >= 10 { NoLeadingZero(n / 10); }
  }

  /** A number is written without leading zeros, and with a sign exactly when it is negative. */
  lemma {:induction false} DecimalLayout(n: int)
    ensures Decimal(n) != "" && (Decimal(n)[0] == '-' <==> n < 0) && Decimal(0) == "0"
    ensures n > 0 ==> '1' <= Decimal(n)[0] <= '9'
    ensures n < 0 ==> |Decimal(n)| > 1 && '1' <= Decimal(n)[1] <= '9'
  {
    NoLeadingZero(if n < 0 then -n else n);
  }

  lemma {:induction false} SignParses(t: string, n: nat, rest: string)
    requires ParseNatural(t) == Some((n, rest))
    ensures Parse("-" + t) == Some((Int(0 - n), rest))
  {
    assert ("-" + t)[0] == '-' && ("-" + t)[1..] == t;
  }

  lemma {:induction false} NaturalParses(t: string, n: nat, rest: string)
    requires StartsWithDigit(t) && ParseNatural(t) == Some((n, rest))
    ensures Parse(t) == Some((Int(n), rest))
  {}

  lemma {:induction false} IntParses(n: int, rest: string)
    requires !StartsWithDigit(rest)
    ensures Parse(Decimal(n) + rest) == Some((Int(n), rest))
  {
    if n < 0 {
      DigitsParse(-n, rest);
      SignParses(Digits(-n) + rest, -n, rest);
      assert Decimal(n) + rest == "-" + (Digits(-n) + rest);
    } else {
      DigitsParse(n, rest);
      NaturalParses(Digits(n) + rest, n, rest);
    }
  }

  /** Which characters are written as themselves. */
  predicate PlainText(s: string) { forall i :: 0 <= i < |s| ==> 32 <= s[i] as int && s[i] != '"' && s[i] != '\\' }

  /** Seven characters have an escape of two characters, the other control characters one of six in lower-case
      hexadecimal, and every other character is written as itself. */
  lemma EscapesExactly(c: char)
    ensures Escape('"') == "\\\"" && Escape('\\') == "\\\\" && Escape('\n') == "\\n" && Escape('\r') == "\\r"
    ensures Escape('\t') == "\\t" && Escape(8 as char) == "\\b" && Escape(12 as char) == "\\f"
    ensures c as int < 32 && c as int !in {8, 9, 10, 12, 13} ==>
      Escape(c) == "\\u00" + ["01"[c as int / 16], "0123456789abcdef"[c as int % 16]]
    ensures Escape(c) == [c] <==> PlainText([c])
  {
    assert [c][0] == c;
    if c as int < 32 {
      assert HexChar(c as int / 16) == "01"[c as int / 16];
      assert HexChar(c as int % 16) == "0123456789abcdef"[c as int % 16];
    }
  }

  lemma PlainSplits(s: string)
    requires s != ""
    ensures PlainText(s) <==> PlainText([s[0]]) && PlainText(s[1..])
    ensures s == [s[0]] + s[1..]
  {
    if PlainText([s[0]]) && PlainText(s[1..]) {
      assert s[0] == [s[0]][0];
      forall i | 0 <= i < |s| ensures 32 <= s[i] as int && s[i] != '"' && s[i] != '\\' {
        if i > 0 { assert s[i] == s[1..][i - 1]; }
      }
    }
  }

  lemma {:induction false} NeverShorter(s: string)
    ensures |Escaped(s)| >= |s|
  {
    if s != "" { NeverShorter(s[1..]); }
  }

  lemma {:induction false} SameAfterFirst(e: string, c: char, t: string, u: string)
    requires e != "" && |t| >= |u|
    ensures e + t == [c] + u <==> e == [c] && t == u
  {
    if e + t == [c] + u {
      assert |e| == 1;
      assert e[0] == (e + t)[0] == c;
      assert (e + t)[1..] == t && ([c] + u)[1..] == u;
    }
  }

  /** A text is written as it is exactly when it has no quotation mark, backslash or control character. */
  lemma {:induction false} WrittenAsIs(s: string)
    ensures Escaped(s) == s <==> PlainText(s)
  {
    if s != "" {
      WrittenAsIs(s[1..]);
      NeverShorter(s[1..]);
      EscapesExactly(s[0]);
      PlainSplits(s);
      SameAfterFirst(Escape(s[0]), s[0], Escaped(s[1..]), s[1..]);
    }
  }

  predicate StartsValue(s: string) {
    s != "" && (s[0] in "\"tf-[{" || IsDigit(s[0]))
  }

  lemma {:induction false} TextStarts(v: Json)
    ensures StartsValue(Text(v))
  {
    if v.Int? {
      DigitsContinue(if v.n < 0 then -v.n else v.n, "");
    }
  }

  lemma {:induction false} BoolParses(b: bool, rest: string)
    ensures Parse(Text(Bool(b)) + rest) == Some((Bool(b), rest))
  {
    var s := Text(Bool(b)) + rest;
    if b {
      assert s[..4] == "true" && s[4..] == rest;
    } else {
      assert s[..5] == "false" && s[5..] == rest;
      assert s[0] != 't';
    }
  }

  lemma {:induction false} QuoteParses(t: string, rest: string)
    ensures Parse(Quote(t) + rest) == Some((Str(t), rest))
  {
    var body := Escaped(t) + "\"" + rest;
    StringParses(t, rest);
    Regroup3("\"", Escaped(t), "\"", rest);
    AfterFirst('"', body);
  }

  lemma {:induction false} BracketParses(body: string, items: seq<Json>, rest: string)
    requires body != "" && body[0] != ']' && ParseItems(body) == Some((items, rest))
    ensures Parse("[" + body) == Some((Arr(items), rest))
  {
    AfterFirst('[', body);
  }

  lemma {:induction false} ListParses(items: seq<Json>, rest: string)
    requires items != [] && ParseItems(Items(items) + "]" + rest) == Some((items, rest))
    ensures Parse(Text(Arr(items)) + rest) == Some((Arr(items), rest))
  {
    ItemsStart(items);
    Regroup3("[", Items(items), "]", rest);
    BracketParses(Items(items) + "]" + rest, items, rest);
  }

  lemma {:induction false} BraceParses(body: string, ms: seq<Member>, rest: string)
    requires body != "" && body[0] == '"' && ParseMembers(body) == Some((ms, rest))
    ensures Parse("{" + body) == Some((Obj(ms), rest))
  {
    AfterFirst('{', body);
  }

  lemma {:induction false} MapParses(ms: seq<Member>, rest: string)
    requires ms != [] && ParseMembers(Members(ms) + "}" + rest) == Some((ms, rest))
    ensures Parse(Text(Obj(ms)) + rest) == Some((Obj(ms), rest))
  {
    MembersStart(ms);
    Regroup3("{", Members(ms), "}", rest);
    BraceParses(Members(ms) + "}" + rest, ms, rest);
  }

  lemma {:induction false} EmptyParses(rest: string)
    ensures Parse("[]" + rest) == Some((Arr([]), rest))
    ensures Parse("{}" + rest) == Some((Obj([]), rest))
  {
    assert ("[]" + rest)[2..] == rest;
    assert ("{}" + rest)[2..] == rest;
  }

  /** The parser gives back the value whose text it was given, and what followed that text. */
  lemma {:induction false} TextParses(v: Json, rest: string)
    requires v.Int? ==> !StartsWithDigit(rest)
    ensures Parse(Text(v) + rest) == Some((v, rest))
    decreases v
  {
    match v
    case Bool(b) => BoolParses(b, rest);
    case Int(n) => IntParses(n, rest);
    case Str(t) => QuoteParses(t, rest);
    case Arr(items) =>
      if items == [] {
        EmptyParses(rest);
        assert Text(v) == "[]";
      } else {
        ItemsParse(items, rest);
        ListParses(items, rest);
      }
    case Obj(members) =>
      if members == [] {
        EmptyParses(rest);
        assert Text(v) == "{}";
      } else {
        MembersParse(members, rest);
        MapParses(members, rest);
      }
  }

  lemma {:induction false} ItemsStart(items: seq<Json>)
    requires items != []
    ensures StartsValue(Items(items))
  {
    TextStarts(items[0]);
  }

  lemma {:induction false} MembersStart(members: seq<Member>)
    requires members != []
    ensures Members(members) != "" && Members(members)[0] == '"'
  {}

  lemma {:induction false} LastItem(t: string, v: Json, rest: string)
    requires Parse(t) == Some((v, "]" + rest))
    ensures ParseItems(t) == Some(([v], rest))
  {
    assert ("]" + rest)[1..] == rest;
  }

  lemma {:induction false} NextItem(t: string, v: Json, more: string, tail: seq<Json>, rest: string)
    requires Parse(t) == Some((v, "," + more)) && ParseItems(more) == Some((tail, rest))
    ensures ParseItems(t) == Some(([v] + tail, rest))
  {
    assert ("," + more)[1..] == more;
  }

  lemma {:induction false} ItemsSplit(items: seq<Json>, rest: string)
    requires |items| > 1
    ensures Items(items) + "]" + rest == Text(items[0]) + ("," + (Items(items[1..]) + "]" + rest))
  {
    Regroup4(Text(items[0]), ",", Items(items[1..]), "]", rest);
  }

  lemma {:induction false} OneItem(items: seq<Json>, rest: string)
    requires |items| == 1 && Parse(Text(items[0]) + ("]" + rest)) == Some((items[0], "]" + rest))
    ensures ParseItems(Items(items) + "]" + rest) == Some((items, rest))
  {
    assert Items(items) + "]" + rest == Text(items[0]) + ("]" + rest);
    LastItem(Items(items) + "]" + rest, items[0], rest);
    assert items == [items[0]];
  }

  lemma {:induction false} MoreItems(items: seq<Json>, more: string, rest: string)
    requires |items| > 1 && more == Items(items[1..]) + "]" + rest
    requires Parse(Text(items[0]) + ("," + more)) == Some((items[0], "," + more))
    requires ParseItems(more) == Some((items[1..], rest))
    ensures ParseItems(Items(items) + "]" + rest) == Some((items, rest))
  {
    ItemsSplit(items, rest);
    NextItem(Items(items) + "]" + rest, items[0], more, items[1..], rest);
    assert items == [items[0]] + items[1..];
  }

  lemma {:induction false} ItemsParse(items: seq<Json>, rest: string)
    requires items != []
    ensures ParseItems(Items(items) + "]" + rest) == Some((items, rest))
    decreases items
  {
    if |items| == 1 {
      TextParses(items[0], "]" + rest);
      OneItem(items, rest);
    } else {
      var more := Items(items[1..]) + "]" + rest;
      TextParses(items[0], "," + more);
      ItemsParse(items[1..], rest);
      MoreItems(items, more, rest);
    }
  }

  lemma KeyParses(key: string, after: string)
    ensures ParseString((Quote(key) + after)[1..]) == Some((key, after))
  {
    StringParses(key, after);
    assert (Quote(key) + after)[1..] == Escaped(key) + "\"" + after;
  }

  lemma {:induction false} MemberFromParts(s: string, key: string, t: string, v: Json, rest: string)
    requires s != "" && s[0] == '"' && ParseString(s[1..]) == Some((key, ":" + t)) && Parse(t) == Some((v, rest))
    ensures ParseMember(s) == Some((Member(key, v), rest))
  {
    assert (":" + t)[1..] == t;
  }

  lemma {:induction false} MemberSplits(m: Member, rest: string)
    ensures MemberText(m) + rest == Quote(m.key) + (":" + (Text(m.value) + rest))
    ensures (Quote(m.key) + (":" + (Text(m.value) + rest)))[0] == '"'
  {}

  lemma {:induction false} MemberFrom(m: Member, rest: string)
    requires Parse(Text(m.value) + rest) == Some((m.value, rest))
    ensures ParseMember(MemberText(m) + rest) == Some((m, rest))
  {
    var t := Text(m.value) + rest;
    MemberSplits(m, rest);
    KeyParses(m.key, ":" + t);
    MemberFromParts(MemberText(m) + rest, m.key, t, m.value, rest);
  }

  lemma {:induction false} MemberParses(m: Member, rest: string)
    requires !StartsWithDigit(rest)
    ensures ParseMember(MemberText(m) + rest) == Some((m, rest))
    decreases m
  {
    TextParses(m.value, rest);
    MemberFrom(m, rest);
  }

  lemma {:induction false} LastMember(t: string, m: Member, rest: string)
    requires ParseMember(t) == Some((m, "}" + rest))
    ensures ParseMembers(t) == Some(([m], rest))
  {
    assert ("}" + rest)[1..] == rest;
  }

  lemma {:induction false} NextMember(t: string, m: Member, more: string, tail: seq<Member>, rest: string)
    requires ParseMember(t) == Some((m, "," + more)) && ParseMembers(more) == Some((tail, rest))
    ensures ParseMembers(t) == Some(([m] + tail, rest))
  {
    assert ("," + more)[1..] == more;
  }

  lemma {:induction false} MembersSplit(ms: seq<Member>, rest: string)
    requires |ms| > 1
    ensures Members(ms) + "}" + rest == MemberText(ms[0]) + ("," + (Members(ms[1..]) + "}" + rest))
  {
    Regroup4(MemberText(ms[0]), ",", Members(ms[1..]), "}", rest);
  }

  lemma {:induction false} OneMember(ms: seq<Member>, rest: string)
    requires |ms| == 1 && ParseMember(MemberText(ms[0]) + ("}" + rest)) == Some((ms[0], "}" + rest))
    ensures ParseMembers(Members(ms) + "}" + rest) == Some((ms, rest))
  {
    assert Members(ms) + "}" + rest == MemberText(ms[0]) + ("}" + rest);
    LastMember(Members(ms) + "}" + rest, ms[0], rest);
    assert ms == [ms[0]];
  }

  lemma {:induction false} MoreMembers(ms: seq<Member>, more: string, rest: string)
    requires |ms| > 1 && more == Members(ms[1..]) + "}" + rest
    requires ParseMember(MemberText(ms[0]) + ("," + more)) == Some((ms[0], "," + more))
    requires ParseMembers(more) == Some((ms[1..], rest))
    ensures ParseMembers(Members(ms) + "}" + rest) == Some((ms, rest))
  {
    MembersSplit(ms, rest);
    NextMember(Members(ms) + "}" + rest, ms[0], more, ms[1..], rest);
    assert ms == [ms[0]] + ms[1..];
  }

  lemma {:induction false} MembersParse(ms: seq<Member>, rest: string)
    requires ms != []
    ensures ParseMembers(Members(ms) + "}" + rest) == Some((ms, rest))
    decreases ms
  {
    if |ms| == 1 {
      MemberParses(ms[0], "}" + rest);
      OneMember(ms, rest);
    } else {
      var more := Members(ms[1..]) + "}" + rest;
      MemberParses(ms[0], "," + more);
      MembersParse(ms[1..], rest);
      MoreMembers(ms, more, rest);
    }
  }
}
