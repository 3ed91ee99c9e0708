// The proxy's reader of chunked request bodies (section 7.1 of RFC 9112).
module ChunkedBody {
  import opened Wrappers
  import opened Bytes

  const LF: byte := 10
  const CRLF: seq<byte> := [13, 10]
  const SEMICOLON: byte := 59

  predicate Space(b: byte) { b == 32 || 9 <= b <= 13 }

  /** `bytes.strip()` */
  function Strip(s: seq<byte>): seq<byte> {
    if s == [] then []
    else if Space(s[0]) then Strip(s[1..])
    else if Space(s[|s| - 1]) then Strip(s[..|s| - 1])
    else s
  }

  /** `s.split(b";", 1)[0]` */
  function BeforeSemicolon(s: seq<byte>): seq<byte> {
    if s == [] || s[0] == SEMICOLON then [] else [s[0]] + BeforeSemicolon(s[1..])
  }

  function Digit(b: byte): Option<nat> {
    if 48 <= b <= 57 then Some(b - 48)
    else if 65 <= b <= 70 then Some(b - 55)
    else if 97 <= b <= 102 then Some(b - 87)
    else None
  }

  function Digits(s: seq<byte>): Option<nat> {
    if s == [] then Some(0)
    else
      var front, last := Digits(s[..|s| - 1]), Digit(s[|s| - 1]);
      if front.None? || last.None? then None else Some(front.value * 16 + last.value)
  }

  /** `int(s, 16)` on plain hexadecimal digits; None is `ValueError`. */
  function HexValue(s: seq<byte>): Option<nat> { if s == [] then None else Digits(s) }

  /** How much `readline()` takes: up to and including the first LF, or everything. */
  function LineLength(s: seq<byte>): (n: nat)
    ensures n <= |s| && (s != [] ==> n > 0)
  {
    if s == [] then 0 else if s[0] == LF then 1 else 1 + LineLength(s[1..])
  }

  function Min(a: nat, b: nat): nat { if a < b then a else b }

  function ChunkSize(line: seq<byte>): Option<nat> { HexValue(Strip(BeforeSemicolon(line))) }

  function SkipTrailers(s: seq<byte>): seq<byte>
    decreases |s|
  {
    var n := LineLength(s);
    if Strip(s[..n]) == [] then s[n..] else SkipTrailers(s[n..])
  }

  /** `s` without what `read(n)` takes. */
  function Drop(s: seq<byte>, n: nat): seq<byte> { s[Min(n, |s|)..] }

  function Taken(s: seq<byte>, n: nat): seq<byte> { s[..Min(n, |s|)] }

  function After(head: seq<byte>, r: Option<(seq<byte>, seq<byte>)>): Option<(seq<byte>, seq<byte>)> {
    if r.None? then None else Some((head + r.value.0, r.value.1))
  }

  /** The body at the front of `s`, and what is left; None is `ValueError`. */
  function ReadBody(s: seq<byte>): Option<(seq<byte>, seq<byte>)>
    decreases |s|
  {
    var n := LineLength(s);
    var size := ChunkSize(s[..n]);
    if size.None? then None
    else if size.value == 0 then Some(([], SkipTrailers(s[n..])))
    else
      assert s[..n] != [];
      After(Taken(s[n..], size.value), ReadBody(Drop(Drop(s[n..], size.value), 2)))
  }

  // ---- the loop over the stream ----

  class Stream {
    var rest: seq<byte>

    constructor (data: seq<byte>)
      ensures rest == data
    {
      rest := data;
    }

    method ReadLine() returns (line: seq<byte>)
      modifies this
      ensures line == old(rest)[..LineLength(old(rest))] && rest == old(rest)[LineLength(old(rest))..]
    {
      line := [];
      var done := false;
      while !done && rest != []
        invariant old(rest) == line + rest
        invariant if done then |line| == LineLength(old(rest)) else LineLength(old(rest)) == |line| + LineLength(rest)
        decreases |rest|
      {
        var b := rest[0];
        line, rest := line + [b], rest[1..];
        done := b == LF;
      }
    }

    method Read(size: nat) returns (data: seq<byte>)
      modifies this
      ensures data == Taken(old(rest), size) && rest == Drop(old(rest), size)
    {
      var k := Min(size, |rest|);
      data, rest := rest[..k], rest[k..];
    }
  }

  function Join(chunks: seq<seq<byte>>): seq<byte> {
    if chunks == [] then [] else Join(chunks[..|chunks| - 1]) + chunks[|chunks| - 1]
  }

  lemma {:induction false} JoinLast(chunks: seq<seq<byte>>, data: seq<byte>, r: Option<(seq<byte>, seq<byte>)>)
    ensures After(Join(chunks + [data]), r) == After(Join(chunks), After(data, r))
  {
    assert (chunks + [data])[..|chunks|] == chunks;
    if r.Some? {
      assert Join(chunks) + (data + r.value.0) == (Join(chunks) + data) + r.value.0;
    }
  }

  lemma AfterNothing(r: Option<(seq<byte>, seq<byte>)>)
    ensures After([], r) == r
  {
    if r.Some? { assert [] + r.value.0 == r.value.0; }
  }

  lemma {:induction false} OneStep(s: seq<byte>, size: nat)
    requires ChunkSize(s[..LineLength(s)]) == Some(size) && size != 0
    ensures s[..LineLength(s)] != []
    ensures ReadBody(s) == After(Taken(s[LineLength(s)..], size), ReadBody(Drop(Drop(s[LineLength(s)..], size), 2)))
  {}

  lemma {:induction false} LastStep(s: seq<byte>, chunks: seq<seq<byte>>)
    requires ChunkSize(s[..LineLength(s)]) == Some(0)
    ensures After(Join(chunks), ReadBody(s)) == Some((Join(chunks), SkipTrailers(s[LineLength(s)..])))
  {
    assert Join(chunks) + [] == Join(chunks);
  }

  /** Reads lines up to and including a blank one. */
  method ReadTrailers(rfile: Stream)
    modifies rfile
    ensures rfile.rest == SkipTrailers(old(rfile.rest))
  {
    var line := rfile.ReadLine();
    while Strip(line) != []
      invariant SkipTrailers(old(rfile.rest)) == if Strip(line) == [] then rfile.rest else SkipTrailers(rfile.rest)
      decreases |rfile.rest| + |line|
    {
      line := rfile.ReadLine();
    }
  }

  /** `Handler.forward`, the chunked branch. It ends on every input, well formed or not. */
  method Forward(rfile: Stream) returns (body: Option<seq<byte>>)
    modifies rfile
    ensures var r := ReadBody(old(rfile.rest));
            if r.None? then body.None? else body == Some(r.value.0) && rfile.rest == r.value.1
  {
    var chunks: seq<seq<byte>> := [];
    AfterNothing(ReadBody(rfile.rest));
    while true
      invariant ReadBody(old(rfile.rest)) == After(Join(chunks), ReadBody(rfile.rest))
      decreases |rfile.rest|
    {
      ghost var was := rfile.rest;
      var line := rfile.ReadLine();
      var size := ChunkSize(line);
      if size.None? { return None; }
      if size.value == 0 {
        LastStep(was, chunks);
        ReadTrailers(rfile);
        break;
      }
      OneStep(was, size.value);
      var data := rfile.Read(size.value);
      var crlf := rfile.Read(2);
      JoinLast(chunks, data, ReadBody(rfile.rest));
      chunks := chunks + [data];
    }
    return Some(Join(chunks));
  }

  // ---- what a well-formed message looks like ----

  /** One chunk as sent: its size in hexadecimal, whatever extensions, its bytes. */
  datatype Chunk = Chunk(size: seq<byte>, extensions: seq<byte>, data: seq<byte>)

  predicate OneLine(s: seq<byte>) { forall i :: 0 <= i < |s| ==> s[i] != LF }

  /** Blanks: tab, vertical tab, form feed, carriage return and space. */
  predicate Blank(s: seq<byte>) { forall i :: 0 <= i < |s| ==> s[i] in {9, 11, 12, 13, 32} }

  /** Nothing but blanks before the first ';'. */
  predicate Extensions(s: seq<byte>) {
    OneLine(s) && exists k :: 0 <= k <= |s| && Blank(s[..k]) && (k < |s| ==> s[k] == 0x3B)
  }

  /** The hexadecimal digits of `n`, in capitals or not. */
  function Hexadecimal(n: nat, capitals: bool): (r: seq<byte>)
    ensures r != []
  {
    var last := if n % 16 < 10 then 0x30 + n % 16 else if capitals then 0x41 + (n % 16 - 10) else 0x61 + (n % 16 - 10);
    if n < 16 then [last] else Hexadecimal(n / 16, capitals) + [last]
  }

  /** A size, with any number of leading zeros. */
  ghost predicate SizeIs(s: seq<byte>, n: nat) { exists k: nat, capitals: bool :: Written(s, n, k, capitals) }

  predicate Written(s: seq<byte>, n: nat, k: nat, capitals: bool) { s == seq(k, _ => 0x30) + Hexadecimal(n, capitals) }

  ghost predicate GoodChunk(c: Chunk) { c.data != [] && SizeIs(c.size, |c.data|) && Extensions(c.extensions) }

  predicate Trailer(s: seq<byte>) { OneLine(s) && Strip(s) != [] }

  function Sent(chunks: seq<Chunk>): seq<byte> {
    if chunks == [] then []
    else chunks[0].size + chunks[0].extensions + CRLF + chunks[0].data + CRLF + Sent(chunks[1..])
  }

  function SentTrailers(trailers: seq<seq<byte>>): seq<byte> {
    if trailers == [] then CRLF else trailers[0] + CRLF + SentTrailers(trailers[1..])
  }

  function Message(chunks: seq<Chunk>, last: Chunk, trailers: seq<seq<byte>>): seq<byte> {
    Sent(chunks) + (last.size + last.extensions + CRLF + SentTrailers(trailers))
  }

  function Body(chunks: seq<Chunk>): seq<byte> {
    if chunks == [] then [] else chunks[0].data + Body(chunks[1..])
  }

  // ---- reading it back ----

  lemma {:induction false} LineEnds(l: seq<byte>, rest: seq<byte>)
    requires OneLine(l)
    ensures LineLength(l + CRLF + rest) == |l| + 2
  {
    var s := l + CRLF + rest;
    if l == [] {
      assert s[1] == LF;
      assert LineLength(s[1..]) == 1;
    } else {
      assert s[1..] == l[1..] + CRLF + rest;
      LineEnds(l[1..], rest);
    }
  }

  lemma {:induction false} StripSpaces(s: seq<byte>)
    requires forall i :: 0 <= i < |s| ==> Space(s[i])
    ensures Strip(s) == []
  {
    if s != [] { StripSpaces(s[1..]); }
  }

  lemma {:induction false} StripTail(s: seq<byte>, spaces: seq<byte>)
    requires s != [] && !Space(s[0]) && !Space(s[|s| - 1]) && forall i :: 0 <= i < |spaces| ==> Space(spaces[i])
    ensures Strip(s + spaces) == s
  {
    if spaces == [] {
      assert s + spaces == s;
    } else {
      var t := s + spaces;
      assert t[..|t| - 1] == s + spaces[..|spaces| - 1];
      StripTail(s, spaces[..|spaces| - 1]);
    }
  }

  lemma {:induction false} BeforeSkips(s: seq<byte>, t: seq<byte>)
    requires forall i :: 0 <= i < |s| ==> s[i] != SEMICOLON
    ensures BeforeSemicolon(s + t) == s + BeforeSemicolon(t)
  {
    if s == [] {
      assert s + t == t;
    } else {
      assert (s + t)[1..] == s[1..] + t;
      BeforeSkips(s[1..], t);
    }
  }

  lemma {:induction false} BeforeWithEnd(s: seq<byte>)
    ensures BeforeSemicolon(s + CRLF) == BeforeSemicolon(s) || BeforeSemicolon(s + CRLF) == BeforeSemicolon(s) + CRLF
  {
    if s == [] {
      assert s + CRLF == CRLF;
      assert BeforeSemicolon(CRLF[1..]) == [10] by { assert CRLF[1..][1..] == []; }
    } else if s[0] != SEMICOLON {
      assert (s + CRLF)[1..] == s[1..] + CRLF;
      BeforeWithEnd(s[1..]);
    }
  }

  lemma {:induction false} DigitsArePlain(s: seq<byte>, i: nat)
    requires Digits(s).Some? && i < |s|
    ensures Digit(s[i]).Some? && s[i] != LF && s[i] != SEMICOLON && !Space(s[i])
  {
    if i < |s| - 1 { DigitsArePlain(s[..|s| - 1], i); }
  }

  lemma {:induction false} OneMoreDigit(s: seq<byte>, last: byte, n: nat)
    requires Digits(s) == Some(n) && Digit(last).Some?
    ensures Digits(s + [last]) == Some(n * 16 + Digit(last).value)
  {
    assert (s + [last])[..|s|] == s;
  }

  lemma {:induction false} LastDigit(n: nat, capitals: bool)
    requires n < 16
    ensures |Hexadecimal(n, capitals)| == 1 && Digit(Hexadecimal(n, capitals)[0]) == Some(n)
  {}

  lemma {:induction false} LongHexadecimal(n: nat, capitals: bool)
    requires n >= 16
    ensures Hexadecimal(n, capitals) == Hexadecimal(n / 16, capitals) + Hexadecimal(n % 16, capitals)
  {}

  lemma {:induction false} HexadecimalReads(n: nat, capitals: bool)
    ensures Digits(Hexadecimal(n, capitals)) == Some(n)
  {
    var last := Hexadecimal(n % 16, capitals);
    LastDigit(n % 16, capitals);
    assert last == [last[0]] && [] + last == last;
    if n < 16 {
      OneMoreDigit([], last[0], 0);
    } else {
      LongHexadecimal(n, capitals);
      HexadecimalReads(n / 16, capitals);
      OneMoreDigit(Hexadecimal(n / 16, capitals), last[0], n / 16);
    }
  }

  lemma {:induction false} LeadingZeros(k: nat, s: seq<byte>)
    requires Digits(s).Some?
    ensures Digits(seq(k, _ => 0x30) + s) == Digits(s)
  {
    var z := seq(k, _ => 0x30);
    if s != [] {
      var m := |s| - 1;
      LeadingZeros(k, s[..m]);
      assert (z + s)[..k + m] == z + s[..m];
    } else if k > 0 {
      LeadingZeros(k - 1, []);
      assert (z + s)[..k - 1] == seq(k - 1, _ => 0x30) + [];
    }
  }

  /** A size is read whatever its case and however many zeros lead it. */
  lemma {:induction false} SizeReads(s: seq<byte>, n: nat)
    requires SizeIs(s, n)
    ensures s != [] && HexValue(s) == Some(n)
  {
    var k: nat, capitals: bool :| Written(s, n, k, capitals);
    HexadecimalReads(n, capitals);
    LeadingZeros(k, Hexadecimal(n, capitals));
  }

  lemma {:induction false} BeforeIsPrefix(s: seq<byte>, k: nat)
    requires k <= |s| && (forall i :: 0 <= i < k ==> s[i] != SEMICOLON) && (k < |s| ==> s[k] == SEMICOLON)
    ensures BeforeSemicolon(s) == s[..k]
  {
    if k > 0 {
      BeforeIsPrefix(s[1..], k - 1);
      assert s[..k] == [s[0]] + s[1..][..k - 1];
    }
  }

  lemma {:induction false} BlanksBefore(s: seq<byte>)
    requires Extensions(s)
    ensures forall i :: 0 <= i < |BeforeSemicolon(s)| ==> Space(BeforeSemicolon(s)[i])
  {
    var k :| 0 <= k <= |s| && Blank(s[..k]) && (k < |s| ==> s[k] == 0x3B);
    forall i | 0 <= i < k ensures s[i] != SEMICOLON { assert s[..k][i] == s[i]; }
    BeforeIsPrefix(s, k);
  }

  /** A size line is read back as its size, whatever extensions follow. */
  lemma SizeLineReads(size: seq<byte>, extensions: seq<byte>, n: nat)
    requires SizeIs(size, n) && Extensions(extensions)
    ensures OneLine(size + extensions)
    ensures ChunkSize(size + extensions + CRLF) == Some(n)
  {
    SizeReads(size, n);
    BlanksBefore(extensions);
    forall i | 0 <= i < |size| ensures size[i] != LF && size[i] != SEMICOLON && !Space(size[i]) { DigitsArePlain(size, i); }
    assert size + extensions + CRLF == size + (extensions + CRLF);
    BeforeSkips(size, extensions + CRLF);
    BeforeWithEnd(extensions);
    StripTail(size, BeforeSemicolon(extensions + CRLF));
  }

  lemma {:induction false} TrailersSkip(trailers: seq<seq<byte>>, rest: seq<byte>)
    requires forall i :: 0 <= i < |trailers| ==> Trailer(trailers[i])
    ensures SkipTrailers(SentTrailers(trailers) + rest) == rest
  {
    var s := SentTrailers(trailers) + rest;
    if trailers == [] {
      assert s == [] + CRLF + rest;
      LineEnds([], rest);
      assert s[..2] == CRLF && s[2..] == rest;
      StripSpaces(CRLF);
    } else {
      var t, more := trailers[0], SentTrailers(trailers[1..]) + rest;
      assert s == t + CRLF + more;
      LineEnds(t, more);
      assert s[..|t| + 2] == t + CRLF && s[|t| + 2..] == more;
      StripKeeps(t, CRLF);
      TrailersSkip(trailers[1..], rest);
    }
  }

  lemma {:induction false} StripBlank(s: seq<byte>)
    ensures Strip(s) == [] <==> forall i :: 0 <= i < |s| ==> Space(s[i])
  {
    if s != [] {
      if Space(s[0]) { StripBlank(s[1..]); } else if Space(s[|s| - 1]) { StripBlank(s[..|s| - 1]); }
    }
  }

  lemma {:induction false} StripKeeps(s: seq<byte>, t: seq<byte>)
    requires Strip(s) != []
    ensures Strip(s + t) != []
  {
    StripBlank(s);
    StripBlank(s + t);
    var i :| 0 <= i < |s| && !Space(s[i]);
    assert (s + t)[i] == s[i];
  }

  // ---- and what is refused ----

  predicate BlankByte(b: byte) { b in {9, 10, 11, 12, 13, 32} }

  predicate HexByte(b: byte) { 0x30 <= b <= 0x39 || 0x41 <= b <= 0x46 || 0x61 <= b <= 0x66 }

  /** Blanks, then at least one hexadecimal digit up to `j`, then blanks. */
  predicate SizeField(f: seq<byte>, i: nat, j: nat) {
    i < j <= |f| && (forall k :: 0 <= k < i ==> BlankByte(f[k])) && (forall k :: j <= k < |f| ==> BlankByte(f[k]))
    && forall k :: i <= k < j ==> HexByte(f[k])
  }

  lemma {:induction false} DigitsExactly(s: seq<byte>)
    ensures Digits(s).Some? <==> forall k :: 0 <= k < |s| ==> HexByte(s[k])
  {
    if s != [] {
      DigitsExactly(s[..|s| - 1]);
      assert HexByte(s[|s| - 1]) <==> Digit(s[|s| - 1]).Some?;
      assert forall k :: 0 <= k < |s| - 1 ==> s[..|s| - 1][k] == s[k];
    }
  }

  /** Stripping takes blanks off both ends and leaves nothing or something that has none at its ends. */
  lemma {:induction false} StripLeaves(f: seq<byte>) returns (i: nat, j: nat)
    ensures i <= j <= |f| && Strip(f) == f[i..j]
    ensures (forall k :: 0 <= k < i ==> BlankByte(f[k])) && (forall k :: j <= k < |f| ==> BlankByte(f[k]))
    decreases |f|
  {
    if f == [] {
      i, j := 0, 0;
    } else if Space(f[0]) {
      var m, n := StripLeaves(f[1..]);
      i, j := m + 1, n + 1;
      assert f[1..][m..n] == f[i..j];
      forall k | 0 <= k < i ensures BlankByte(f[k]) { if k > 0 { assert f[k] == f[1..][k - 1]; } }
      forall k | j <= k < |f| ensures BlankByte(f[k]) { assert f[k] == f[1..][k - 1]; }
    } else if Space(f[|f| - 1]) {
      i, j := StripLeaves(f[..|f| - 1]);
      assert f[..|f| - 1][i..j] == f[i..j];
      forall k | j <= k < |f| ensures BlankByte(f[k]) { if k < |f| - 1 { assert f[k] == f[..|f| - 1][k]; } }
    } else {
      i, j := 0, |f|;
    }
  }

  lemma {:induction false} StripFront(blanks: seq<byte>, s: seq<byte>)
    requires forall k :: 0 <= k < |blanks| ==> Space(blanks[k])
    ensures Strip(blanks + s) == Strip(s)
  {
    if blanks == [] {
      assert blanks + s == s;
    } else {
      assert (blanks + s)[1..] == blanks[1..] + s;
      StripFront(blanks[1..], s);
    }
  }

  lemma {:induction false} FieldIsStripped(f: seq<byte>, i: nat, j: nat)
    requires SizeField(f, i, j)
    ensures Strip(f) == f[i..j]
  {
    assert f == f[..i] + (f[i..j] + f[j..]);
    StripFront(f[..i], f[i..j] + f[j..]);
    assert HexByte(f[i]) && HexByte(f[j - 1]);
    StripTail(f[i..j], f[j..]);
  }

  /** A size line is read exactly when what stands before its first ';' is blanks, hexadecimal digits and blanks. */
  lemma {:induction false} SizeLineExactly(line: seq<byte>)
    ensures ChunkSize(line).Some? <==> exists i, j :: SizeField(BeforeSemicolon(line), i, j)
  {
    var f := BeforeSemicolon(line);
    if ChunkSize(line).Some? {
      var i, j := StripLeaves(f);
      DigitsExactly(f[i..j]);
      forall k | i <= k < j ensures HexByte(f[k]) { assert f[i..j][k - i] == f[k]; }
      assert SizeField(f, i, j);
    }
    if i: nat, j: nat :| SizeField(f, i, j) {
      FieldIsStripped(f, i, j);
      DigitsExactly(f[i..j]);
    }
  }

  /** Any body, cut into non-empty chunks in any way, with any extensions and trailer lines, and followed by
      anything, is returned exactly, and the stream is left just after the final blank line. */
  lemma {:induction false} ReadsWhatWasSent(chunks: seq<Chunk>, last: Chunk, trailers: seq<seq<byte>>, rest: seq<byte>)
    requires forall i :: 0 <= i < |chunks| ==> GoodChunk(chunks[i])
    requires SizeIs(last.size, 0) && Extensions(last.extensions)
    requires forall i :: 0 <= i < |trailers| ==> Trailer(trailers[i])
    ensures ReadBody(Message(chunks, last, trailers) + rest) == Some((Body(chunks), rest))
  {
    if chunks == [] {
      ReadsTheEnd(last, trailers, rest);
      assert Message(chunks, last, trailers) == last.size + last.extensions + CRLF + SentTrailers(trailers);
    } else {
      ReadsWhatWasSent(chunks[1..], last, trailers, rest);
      ReadsOneChunk(chunks[0], Message(chunks[1..], last, trailers) + rest);
      FirstChunk(chunks, last, trailers, rest);
    }
  }

  lemma FirstChunk(chunks: seq<Chunk>, last: Chunk, trailers: seq<seq<byte>>, rest: seq<byte>)
    requires chunks != []
    ensures var c := chunks[0];
            Message(chunks, last, trailers) + rest
            == c.size + c.extensions + CRLF + c.data + CRLF + (Message(chunks[1..], last, trailers) + rest)
  {
    var head := chunks[0].size + chunks[0].extensions + CRLF + chunks[0].data + CRLF;
    var end := last.size + last.extensions + CRLF + SentTrailers(trailers);
    assert Sent(chunks) == head + Sent(chunks[1..]);
    assert head + Sent(chunks[1..]) + end + rest == head + (Sent(chunks[1..]) + end + rest);
  }

  lemma {:induction false} ReadsTheEnd(last: Chunk, trailers: seq<seq<byte>>, rest: seq<byte>)
    requires SizeIs(last.size, 0) && Extensions(last.extensions)
    requires forall i :: 0 <= i < |trailers| ==> Trailer(trailers[i])
    ensures ReadBody(last.size + last.extensions + CRLF + SentTrailers(trailers) + rest) == Some(([], rest))
  {
    var line, more := last.size + last.extensions, SentTrailers(trailers) + rest;
    var s := line + CRLF + more;
    assert line + CRLF + SentTrailers(trailers) + rest == s;
    SizeLineReads(last.size, last.extensions, 0);
    LineEnds(line, more);
    assert s[..|line| + 2] == line + CRLF && s[|line| + 2..] == more;
    TrailersSkip(trailers, rest);
  }

  lemma {:induction false} ReadsOneChunk(c: Chunk, more: seq<byte>)
    requires GoodChunk(c)
    ensures ReadBody(c.size + c.extensions + CRLF + c.data + CRLF + more) == After(c.data, ReadBody(more))
  {
    var line := c.size + c.extensions;
    var tail := c.data + CRLF + more;
    var s := line + CRLF + tail;
    var n := |line| + 2;
    assert c.size + c.extensions + CRLF + c.data + CRLF + more == s;
    SizeLineReads(c.size, c.extensions, |c.data|);
    LineEnds(line, tail);
    assert s[..n] == line + CRLF;
    assert s[n..] == c.data + (CRLF + more);
    assert Taken(s[n..], |c.data|) == c.data && Drop(s[n..], |c.data|) == CRLF + more;
    assert Drop(CRLF + more, 2) == more;
  }
}
