// COSE keys, authenticator data and attestation objects (sections 6.1 and 6.5 of WebAuthn Level 2) as the
// fixtures print them, and the reading that undoes it.
module WebAuthn {
  import opened Wrappers
  import opened Bytes
  import Cbor
  import Base64Url

  type Hash = h: seq<byte> | |h| == 32 witness seq(32, _ => 0)

  /** The bytes of an ASCII text. */
  function Ascii(s: string): (r: seq<byte>)
    requires forall i :: 0 <= i < |s| ==> s[i] as int < 128
    ensures |r| == |s| && forall i :: 0 <= i < |s| ==> r[i] == s[i] as int
  {
    seq(|s|, i requires 0 <= i < |s| => s[i] as int)
  }

  // ---- COSE ----

  /** An ES256 public key by its two 32-byte coordinates. */
  function CoseKey(x: Hash, y: Hash): Cbor.Value {
    Cbor.Map([
      Cbor.Pair(Cbor.IntValue(1), Cbor.IntValue(2)),
      Cbor.Pair(Cbor.IntValue(3), Cbor.IntValue(-7)),
      Cbor.Pair(Cbor.IntValue(-1), Cbor.IntValue(1)),
      Cbor.Pair(Cbor.IntValue(-2), Cbor.ByteString(x)),
      Cbor.Pair(Cbor.IntValue(-3), Cbor.ByteString(y))])
  }

  lemma {:induction false} EncodesPairs(pairs: seq<Cbor.Pair>)
    requires forall i :: 0 <= i < |pairs| ==> Cbor.EncodePair(pairs[i]).Some?
    ensures Cbor.EncodePairs(pairs).Some?
  {
    if pairs != [] { EncodesPairs(pairs[1..]); }
  }

  lemma CoseKeysAscend(x: Hash, y: Hash)
    ensures Cbor.KeysSorted(CoseKey(x, y))
  {
    var pairs := CoseKey(x, y).pairs;
    assert Cbor.Encode(pairs[0].key) == Some([1]) && Cbor.Encode(pairs[1].key) == Some([3]);
    assert Cbor.Encode(pairs[2].key) == Some([32]) && Cbor.Encode(pairs[3].key) == Some([33]);
    assert Cbor.Encode(pairs[4].key) == Some([34]);
  }

  /** Every key can be encoded, with its map keys in bytewise order. */
  lemma CoseKeyEncodes(x: Hash, y: Hash)
    ensures Cbor.Encode(CoseKey(x, y)).Some? && Cbor.KeysSorted(CoseKey(x, y))
  {
    EncodesPairs(CoseKey(x, y).pairs);
    CoseKeysAscend(x, y);
  }

  function CoseBytes(x: Hash, y: Hash): seq<byte> {
    CoseKeyEncodes(x, y);
    Cbor.Encode(CoseKey(x, y)).value
  }

  lemma {:induction false} CoordinatePairs(x: Hash, y: Hash)
    ensures Cbor.EncodePairs([Cbor.Pair(Cbor.IntValue(-2), Cbor.ByteString(x)), Cbor.Pair(Cbor.IntValue(-3), Cbor.ByteString(y))])
         == Some([0x21] + ([0x58, 0x20] + x + ([0x22] + ([0x58, 0x20] + y))))
  {
    var first, second := Cbor.Pair(Cbor.IntValue(-2), Cbor.ByteString(x)), Cbor.Pair(Cbor.IntValue(-3), Cbor.ByteString(y));
    Cbor.SmallIntegers(1);
    Cbor.SmallIntegers(2);
    Cbor.OnePair(second.key, second.value, []);
    assert [second] + [] == [second];
    assert [0x58, 0x20] + y + [] == [0x58, 0x20] + y;
    Cbor.OnePair(first.key, first.value, [second]);
    assert [first] + [second] == [first, second];
  }

  lemma {:induction false} FixedPairs(ps: seq<Cbor.Pair>, rest: seq<byte>)
    requires Cbor.EncodePairs(ps) == Some(rest)
    ensures Cbor.EncodePairs([Cbor.Pair(Cbor.IntValue(1), Cbor.IntValue(2))]
              + ([Cbor.Pair(Cbor.IntValue(3), Cbor.IntValue(-7))] + ([Cbor.Pair(Cbor.IntValue(-1), Cbor.IntValue(1))] + ps)))
         == Some([1, 2] + ([3, 0x26] + ([0x20, 1] + rest)))
  {
    var last := [Cbor.Pair(Cbor.IntValue(-1), Cbor.IntValue(1))] + ps;
    Cbor.ShortPair(-1, 1, 0x20, 1, ps, rest);
    Cbor.ShortPair(3, -7, 3, 0x26, last, [0x20, 1] + rest);
    Cbor.ShortPair(1, 2, 1, 2, [Cbor.Pair(Cbor.IntValue(3), Cbor.IntValue(-7))] + last, [3, 0x26] + ([0x20, 1] + rest));
  }

  lemma FivePairs(x: Hash, y: Hash)
    ensures CoseKey(x, y).pairs == [Cbor.Pair(Cbor.IntValue(1), Cbor.IntValue(2))]
              + ([Cbor.Pair(Cbor.IntValue(3), Cbor.IntValue(-7))] + ([Cbor.Pair(Cbor.IntValue(-1), Cbor.IntValue(1))]
                 + [Cbor.Pair(Cbor.IntValue(-2), Cbor.ByteString(x)), Cbor.Pair(Cbor.IntValue(-3), Cbor.ByteString(y))]))
  {}

  /** The bytes of a key: an elliptic-curve key (1: 2) for ES256 (3: -7) on P-256 (-1: 1) with its coordinates
      (sections 7, 8.1 and 13.1 of RFC 8152). */
  lemma {:induction false} CoseBytesExactly(x: Hash, y: Hash)
    ensures CoseBytes(x, y) == [0xA5, 1, 2, 3, 0x26, 0x20, 1, 0x21, 0x58, 0x20] + x + [0x22, 0x58, 0x20] + y
  {
    CoordinatePairs(x, y);
    var rest := [0x21] + ([0x58, 0x20] + x + ([0x22] + ([0x58, 0x20] + y)));
    FivePairs(x, y);
    FixedPairs([Cbor.Pair(Cbor.IntValue(-2), Cbor.ByteString(x)), Cbor.Pair(Cbor.IntValue(-3), Cbor.ByteString(y))], rest);
    assert Cbor.Head(5, 5) == Some([0xA5]);
    assert CoseBytes(x, y) == [0xA5] + ([1, 2] + ([3, 0x26] + ([0x20, 1] + rest)));
  }

  /** 77 bytes. */
  lemma CoseLength(x: Hash, y: Hash)
    ensures |CoseBytes(x, y)| == 77
  {
    CoseBytesExactly(x, y);
  }

  function ReadCoseKey(v: Cbor.Value): Option<(Hash, Hash)> {
    if v.Map? && |v.pairs| == 5 && v.pairs[3].value.ByteString? && v.pairs[4].value.ByteString?
       && |v.pairs[3].value.b| == 32 && |v.pairs[4].value.b| == 32
       && v == CoseKey(v.pairs[3].value.b, v.pairs[4].value.b)
    then Some((v.pairs[3].value.b, v.pairs[4].value.b))
    else None
  }

  /** Whatever follows it, the bytes of a key read back to its coordinates. */
  lemma {:induction false} CoseKeyRoundTrip(x: Hash, y: Hash, rest: seq<byte>)
    ensures Cbor.Decode(CoseBytes(x, y) + rest) == Some((CoseKey(x, y), rest))
    ensures ReadCoseKey(CoseKey(x, y)) == Some((x, y))
  {
    CoseKeyEncodes(x, y);
    Cbor.RoundTrip(CoseKey(x, y), rest);
  }

  // ---- authenticator data ----

  datatype Attested = Attested(credentialId: seq<byte>, x: Hash, y: Hash)
  datatype AuthData = AuthData(rpIdHash: Hash, verified: bool, signCount: nat, attested: Option<Attested>)

  const AAGUID: seq<byte> := [0, 0, 0, 0, 0, 0, 0, 0, 0, 0, 0, 0, 0, 0, 0, 0]

  function Flags(verified: bool, attested: bool): byte {
    1 + (if verified then 4 else 0) + (if attested then 64 else 0)
  }

  /** None is `OverflowError`. */
  function Print(d: AuthData): Option<seq<byte>> {
    if d.signCount >= TWO_32 then None
    else
      var fixed := d.rpIdHash + [Flags(d.verified, d.attested.Some?)] + BigEndian32(d.signCount);
      match d.attested
      case None => Some(fixed)
      case Some(a) =>
        if |a.credentialId| >= TWO_16 then None
        else Some(fixed + (AAGUID + BigEndian16(|a.credentialId|) + a.credentialId + CoseBytes(a.x, a.y)))
  }

  /** `authenticator_data`, appending to `out`. */
  method PrintAuthenticatorData(rpIdHash: Hash, signCount: nat, attested: Option<Attested>, uv: bool) returns (out: Option<seq<byte>>)
    ensures out == Print(AuthData(rpIdHash, uv, signCount, attested))
  {
    var buffer: seq<byte> := rpIdHash;
    var flags := 1;
    if uv { flags := flags + 4; }
    if attested.Some? { flags := flags + 64; }
    if signCount >= TWO_32 { return None; }
    buffer := buffer + [flags];
    buffer := buffer + BigEndian32(signCount);
    if attested.Some? {
      var a := attested.value;
      if |a.credentialId| >= TWO_16 { return None; }
      buffer := buffer + (AAGUID + BigEndian16(|a.credentialId|) + a.credentialId + CoseBytes(a.x, a.y));
    }
    return Some(buffer);
  }

  /** The credential id's length is at offset 53, the id at 55, the key right behind it. */
  function ReadAttested(s: seq<byte>): Option<Attested> {
    if |s| < 18 then None
    else
      var n := Value16(s[16..18]);
      if |s| < 18 + n then None
      else
        var key := Cbor.Decode(s[18 + n..]);
        if key.None? || key.value.1 != [] then None
        else
          var xy := ReadCoseKey(key.value.0);
          if xy.None? then None else Some(Attested(s[18..18 + n], xy.value.0, xy.value.1))
  }

  function Read(s: seq<byte>): Option<AuthData> {
    if |s| < 37 then None
    else
      var flags: int := s[32];
      var verified, attested := flags / 4 % 2 == 1, flags / 64 % 2 == 1;
      var count := Value32(s[33..37]);
      if flags % 2 == 0 then None
      else if !attested then if |s| == 37 then Some(AuthData(s[..32], verified, count, None)) else None
      else
        var a := ReadAttested(s[37..]);
        if a.None? then None else Some(AuthData(s[..32], verified, count, a))
  }

  lemma AttestedReadsBack(a: Attested)
    requires |a.credentialId| < TWO_16
    ensures ReadAttested(AAGUID + BigEndian16(|a.credentialId|) + a.credentialId + CoseBytes(a.x, a.y)) == Some(a)
  {
    var n := |a.credentialId|;
    var key := CoseBytes(a.x, a.y);
    var s := AAGUID + BigEndian16(n) + a.credentialId + key;
    BigEndianInverse(n);
    assert s[16..18] == BigEndian16(n) && s[18..18 + n] == a.credentialId && s[18 + n..] == key;
    CoseKeyEncodes(a.x, a.y);
    Cbor.RoundTrip(CoseKey(a.x, a.y), []);
    assert key + [] == key;
  }

  lemma FlagsReadBack(verified: bool, attested: bool)
    ensures var f: int := Flags(verified, attested); f % 2 == 1 && (f / 4 % 2 == 1 <==> verified) && (f / 64 % 2 == 1 <==> attested)
  {}

  /** Reading undoes printing, for every hash, flag, counter, credential id and key that can be printed; without
      attested data the length is exactly 37. */
  lemma AuthDataRoundTrip(d: AuthData)
    requires Print(d).Some?
    ensures Read(Print(d).value) == Some(d)
    ensures d.attested.None? <==> |Print(d).value| == 37
  {
    var s := Print(d).value;
    var flag := Flags(d.verified, d.attested.Some?);
    FlagsReadBack(d.verified, d.attested.Some?);
    BigEndianInverse(d.signCount);
    assert s[..32] == d.rpIdHash && s[32] == flag && s[33..37] == BigEndian32(d.signCount);
    if d.attested.Some? {
      var a := d.attested.value;
      var tail := AAGUID + BigEndian16(|a.credentialId|) + a.credentialId + CoseBytes(a.x, a.y);
      assert s[37..] == tail;
      AttestedReadsBack(a);
    }
  }

  /** The bytes of authenticator data: user presence is bit 0, user verification bit 2, attested data bit 6, and the
      identifier of the authenticator's model is sixteen zeros. */
  lemma PrintedBytes(d: AuthData)
    requires Print(d).Some?
    ensures d.attested.None? ==>
      Print(d).value == d.rpIdHash + [if d.verified then 0x05 else 0x01] + BigEndian32(d.signCount)
    ensures d.attested.Some? ==>
      var a := d.attested.value;
      Print(d).value == d.rpIdHash + [if d.verified then 0x45 else 0x41] + BigEndian32(d.signCount)
        + ([0, 0, 0, 0, 0, 0, 0, 0, 0, 0, 0, 0, 0, 0, 0, 0] + BigEndian16(|a.credentialId|) + a.credentialId
           + CoseBytes(a.x, a.y))
  {}

  /** The same bytes but for the model of the authenticator and the flags that are not read. */
  ghost predicate SameButUnread(s: seq<byte>, t: seq<byte>) {
    |s| == |t| && forall i :: 0 <= i < |s| && i != 32 && !(37 <= i < 53) ==> s[i] == t[i]
  }

  lemma {:induction false} CoseKeyReadsOnly(s: seq<byte>)
    requires Cbor.Decode(s).Some? && Cbor.Decode(s).value.1 == [] && ReadCoseKey(Cbor.Decode(s).value.0).Some?
    ensures var (x, y) := ReadCoseKey(Cbor.Decode(s).value.0).value; s == CoseBytes(x, y)
  {
    Cbor.DecodesEncodingsOnly(s);
  }

  lemma AttestedReadsOnly(s: seq<byte>)
    requires ReadAttested(s).Some?
    ensures var a := ReadAttested(s).value; var n := |a.credentialId|;
      n < TWO_16 && |s| >= 18 + n && s[16..18] == BigEndian16(n) && s[18..18 + n] == a.credentialId
      && s[18 + n..] == CoseBytes(a.x, a.y)
  {
    var n := Value16(s[16..18]);
    ValueInverse(s[16..18]);
    CoseKeyReadsOnly(s[18 + n..]);
  }

  lemma FixedReadsOnly(s: seq<byte>)
    requires Read(s).Some?
    ensures var d := Read(s).value; var flags: int := s[32];
      |s| >= 37 && d.rpIdHash == s[..32] && d.signCount < TWO_32 && s[33..37] == BigEndian32(d.signCount)
      && flags % 2 == 1 && (d.verified <==> flags / 4 % 2 == 1) && (d.attested.Some? <==> flags / 64 % 2 == 1)
      && (if d.attested.None? then |s| == 37 else ReadAttested(s[37..]) == d.attested)
  {
    ValueInverse(s[33..37]);
  }

  lemma SameFixedPart(s: seq<byte>, t: seq<byte>, hash: Hash, f: byte, count: seq<byte>, tail: seq<byte>)
    requires |s| >= 37 && |count| == 4 && s[..32] == hash && s[33..37] == count && t == hash + [f] + count + tail
    ensures |t| == 37 + |tail| && forall i :: 0 <= i < 37 && i != 32 ==> s[i] == t[i]
  {
    forall i | 0 <= i < 37 && i != 32 ensures s[i] == t[i] {
      if i < 32 { assert s[i] == s[..32][i]; } else { assert s[i] == s[33..37][i - 33]; }
    }
  }

  lemma SameTail(s: seq<byte>, a: Attested, tail: seq<byte>)
    requires |a.credentialId| < TWO_16 && |s| >= 18 + |a.credentialId|
    requires s[16..18] == BigEndian16(|a.credentialId|) && s[18..18 + |a.credentialId|] == a.credentialId
    requires s[18 + |a.credentialId|..] == CoseBytes(a.x, a.y)
    requires tail == AAGUID + BigEndian16(|a.credentialId|) + a.credentialId + CoseBytes(a.x, a.y)
    ensures |s| == |tail| && s[16..] == tail[16..]
  {
    var n := |a.credentialId|;
    assert s[16..] == s[16..18] + s[18..18 + n] + s[18 + n..];
    assert tail[16..] == BigEndian16(n) + a.credentialId + CoseBytes(a.x, a.y);
  }

  /** Reading accepts printed data only, up to the sixteen bytes and the flags it does not read: the user is present, and
      bits 2 and 6 say what is returned. */
  lemma ReadsPrintedOnly(s: seq<byte>)
    requires Read(s).Some?
    ensures var d := Read(s).value; var flags: int := s[32];
      Print(d).Some? && SameButUnread(s, Print(d).value)
      && flags % 2 == 1 && (d.verified <==> flags / 4 % 2 == 1) && (d.attested.Some? <==> flags / 64 % 2 == 1)
  {
    FixedReadsOnly(s);
    var d := Read(s).value;
    var flag, count := Flags(d.verified, d.attested.Some?), BigEndian32(d.signCount);
    if d.attested.None? {
      assert d.rpIdHash + [flag] + count == d.rpIdHash + [flag] + count + [];
      SameFixedPart(s, Print(d).value, d.rpIdHash, flag, count, []);
    } else {
      var a := d.attested.value;
      AttestedReadsOnly(s[37..]);
      var tail := AAGUID + BigEndian16(|a.credentialId|) + a.credentialId + CoseBytes(a.x, a.y);
      SameFixedPart(s, Print(d).value, d.rpIdHash, flag, count, tail);
      SameTail(s[37..], a, tail);
      var t := Print(d).value;
      assert t[37..] == tail;
      forall i | 53 <= i < |s| ensures s[i] == t[i] { assert s[37..][16..][i - 53] == tail[16..][i - 53]; }
    }
  }

  /** What is printed overflows exactly when the counter or the id's length does not fit its field. */
  lemma PrintsExactly(d: AuthData)
    ensures Print(d).Some? <==> d.signCount < TWO_32 && (d.attested.Some? ==> |d.attested.value.credentialId| < TWO_16)
  {}

  /** The bytes an assertion signs split one way only into authenticator data and client-data hash. */
  lemma SignedBytesSplit(d: AuthData, h: Hash, e: AuthData, g: Hash)
    requires Print(d).Some? && Print(e).Some? && Print(d).value + h == Print(e).value + g
    ensures d == e && h == g
  {
    var a, b := Print(d).value, Print(e).value;
    assert |a| == |b|;
    assert (a + h)[..|a|] == a && (b + g)[..|b|] == b && (a + h)[|a|..] == h && (b + g)[|b|..] == g;
    AuthDataRoundTrip(d);
    AuthDataRoundTrip(e);
  }

  // ---- attestation objects ----

  function Attestation(authData: seq<byte>): Cbor.Value {
    Cbor.Map([
      Cbor.Pair(Cbor.Text(Ascii("fmt")), Cbor.Text(Ascii("none"))),
      Cbor.Pair(Cbor.Text(Ascii("attStmt")), Cbor.Map([])),
      Cbor.Pair(Cbor.Text(Ascii("authData")), Cbor.ByteString(authData))])
  }

  /** It encodes exactly when its authenticator data is shorter than 2^32, and its keys are in bytewise order. */
  lemma AttestationEncodes(authData: seq<byte>)
    ensures Cbor.Encode(Attestation(authData)).Some? <==> |authData| < TWO_32
    ensures Cbor.KeysSorted(Attestation(authData))
  {
    var pairs := Attestation(authData).pairs;
    var fmt, stmt, data := Cbor.Encode(pairs[0].key), Cbor.Encode(pairs[1].key), Cbor.Encode(pairs[2].key);
    assert fmt == Some([99] + Ascii("fmt")) && fmt.value[0] == 99;
    assert stmt == Some([103] + Ascii("attStmt")) && stmt.value[0] == 103;
    assert data == Some([104] + Ascii("authData")) && data.value[0] == 104;
    assert Cbor.EncodePair(pairs[2]).Some? <==> |authData| < TWO_32;
    assert Cbor.EncodePairs(pairs[2..]).Some? <==> Cbor.EncodePair(pairs[2]).Some? by { assert pairs[2..][1..] == []; }
    assert Cbor.EncodePair(pairs[0]).Some? && Cbor.EncodePair(pairs[1]).Some?;
    assert pairs[1..][1..] == pairs[2..];
    assert Cbor.EncodePairs(pairs[1..]).Some? <==> Cbor.EncodePairs(pairs[2..]).Some?;
  }

  lemma AsciiNames()
    ensures Ascii("fmt") == [0x66, 0x6D, 0x74] && Ascii("none") == [0x6E, 0x6F, 0x6E, 0x65]
    ensures Ascii("attStmt") == [0x61, 0x74, 0x74, 0x53, 0x74, 0x6D, 0x74]
    ensures Ascii("authData") == [0x61, 0x75, 0x74, 0x68, 0x44, 0x61, 0x74, 0x61]
  {}

  lemma {:induction false} NamedText(name: seq<byte>)
    requires |name| < 24
    ensures Cbor.Encode(Cbor.Text(name)) == Some([0x60 + |name|] + name)
  {}

  lemma {:induction false} NamedPair(name: seq<byte>, value: Cbor.Value, encoded: seq<byte>, ps: seq<Cbor.Pair>, rest: seq<byte>)
    requires |name| < 24 && Cbor.Encode(value) == Some(encoded) && Cbor.EncodePairs(ps) == Some(rest)
    ensures Cbor.EncodePairs([Cbor.Pair(Cbor.Text(name), value)] + ps) == Some([0x60 + |name|] + name + (encoded + rest))
  {
    NamedText(name);
    Cbor.OnePair(Cbor.Text(name), value, ps);
  }

  lemma {:induction false} ThreePairs(fmt: seq<byte>, none: seq<byte>, stmt: seq<byte>, auth: seq<byte>, data: seq<byte>,
                                      length: seq<byte>)
    requires |fmt| < 24 && |none| < 24 && |stmt| < 24 && |auth| < 24 && Cbor.Head(2, |data|) == Some(length)
    ensures Cbor.EncodePairs([Cbor.Pair(Cbor.Text(fmt), Cbor.Text(none))]
              + ([Cbor.Pair(Cbor.Text(stmt), Cbor.Map([]))] + ([Cbor.Pair(Cbor.Text(auth), Cbor.ByteString(data))] + [])))
         == Some([0x60 + |fmt|] + fmt + ([0x60 + |none|] + none
              + ([0x60 + |stmt|] + stmt + ([0xA0] + ([0x60 + |auth|] + auth + (length + data + []))))))
  {
    var last := [Cbor.Pair(Cbor.Text(auth), Cbor.ByteString(data))] + [];
    NamedPair(auth, Cbor.ByteString(data), length + data, [], []);
    Cbor.MapExamples();
    NamedPair(stmt, Cbor.Map([]), [0xA0], last, [0x60 + |auth|] + auth + (length + data + []));
    NamedText(none);
    NamedPair(fmt, Cbor.Text(none), [0x60 + |none|] + none, [Cbor.Pair(Cbor.Text(stmt), Cbor.Map([]))] + last,
              [0x60 + |stmt|] + stmt + ([0xA0] + ([0x60 + |auth|] + auth + (length + data + []))));
  }

  lemma AttestationPairs(data: seq<byte>)
    ensures Attestation(data).pairs ==
      [Cbor.Pair(Cbor.Text(Ascii("fmt")), Cbor.Text(Ascii("none")))]
      + ([Cbor.Pair(Cbor.Text(Ascii("attStmt")), Cbor.Map([]))]
         + ([Cbor.Pair(Cbor.Text(Ascii("authData")), Cbor.ByteString(data))] + []))
  {}

  lemma FlatAttestation(length: seq<byte>, data: seq<byte>)
    ensures [0xA3] + ([0x63] + [0x66, 0x6D, 0x74] + ([0x64] + [0x6E, 0x6F, 0x6E, 0x65]
             + ([0x67] + [0x61, 0x74, 0x74, 0x53, 0x74, 0x6D, 0x74]
                + ([0xA0] + ([0x68] + [0x61, 0x75, 0x74, 0x68, 0x44, 0x61, 0x74, 0x61] + (length + data + []))))))
      == [0xA3, 0x63, 0x66, 0x6D, 0x74, 0x64, 0x6E, 0x6F, 0x6E, 0x65, 0x67, 0x61, 0x74, 0x74, 0x53, 0x74, 0x6D, 0x74, 0xA0,
          0x68, 0x61, 0x75, 0x74, 0x68, 0x44, 0x61, 0x74, 0x61] + length + data
  {}

  /** The bytes of an attestation object: {"fmt": "none", "attStmt": {}, "authData": the data behind its length}. */
  lemma {:induction false} AttestationBytes(data: seq<byte>)
    requires |data| < TWO_32
    ensures Cbor.Head(2, |data|).Some?
    ensures Cbor.Encode(Attestation(data)) ==
      Some([0xA3, 0x63, 0x66, 0x6D, 0x74, 0x64, 0x6E, 0x6F, 0x6E, 0x65, 0x67, 0x61, 0x74, 0x74, 0x53, 0x74, 0x6D, 0x74, 0xA0,
            0x68, 0x61, 0x75, 0x74, 0x68, 0x44, 0x61, 0x74, 0x61] + Cbor.Head(2, |data|).value + data)
  {
    var length := Cbor.Head(2, |data|).value;
    AsciiNames();
    ThreePairs(Ascii("fmt"), Ascii("none"), Ascii("attStmt"), Ascii("authData"), data, length);
    AttestationPairs(data);
    assert Cbor.Head(5, 3) == Some([0xA3]);
    assert Cbor.Encode(Attestation(data)) ==
      Some([0xA3] + ([0x63] + Ascii("fmt") + ([0x64] + Ascii("none") + ([0x67] + Ascii("attStmt")
             + ([0xA0] + ([0x68] + Ascii("authData") + (length + data + [])))))));
    FlatAttestation(length, data);
  }

  function ReadAttestation(s: seq<byte>): Option<AuthData> {
    var v := Cbor.Decode(s);
    if v.Some? && v.value.1 == [] && v.value.0.Map? && |v.value.0.pairs| == 3 && v.value.0.pairs[2].value.ByteString?
       && v.value.0 == Attestation(v.value.0.pairs[2].value.b)
    then Read(v.value.0.pairs[2].value.b)
    else None
  }

  /** Whatever its flags and counter, printed authenticator data comes back out of its attestation object. */
  lemma AttestationRoundTrip(d: AuthData)
    requires Print(d).Some?
    ensures var encoded := Cbor.Encode(Attestation(Print(d).value));
      encoded.Some? && ReadAttestation(encoded.value) == Some(d)
  {
    var data := Print(d).value;
    if d.attested.Some? { CoseLength(d.attested.value.x, d.attested.value.y); }
    AttestationEncodes(data);
    AuthDataRoundTrip(d);
    var encoded := Cbor.Encode(Attestation(data)).value;
    Cbor.RoundTrip(Attestation(data), []);
    assert encoded + [] == encoded;
  }

  /** And only attestation objects of such data are read. */
  lemma AttestationReadsOnly(s: seq<byte>)
    requires ReadAttestation(s).Some?
    ensures exists data :: Cbor.Encode(Attestation(data)) == Some(s) && Read(data) == ReadAttestation(s)
  {
    Cbor.DecodesEncodingsOnly(s);
    var v := Cbor.Decode(s).value.0;
    var data := v.pairs[2].value.b;
    assert Cbor.Encode(v).value + [] == Cbor.Encode(v).value;
    assert Cbor.Encode(Attestation(data)) == Some(s);
  }

  // ---- the registration ceremony ----

  /** `webauthn_registration`'s attestationObject: authenticator data, CBOR, base64url. */
  function Registration(rpIdHash: Hash, a: Attested, uv: bool): Option<string> {
    var data := Print(AuthData(rpIdHash, uv, 0, Some(a)));
    if data.None? then None
    else
      var encoded := Cbor.Encode(Attestation(data.value));
      if encoded.None? then None else Some(Base64Url.Encode(encoded.value))
  }

  function ReadRegistration(s: string): Option<AuthData> {
    var encoded := Base64Url.Decode(s);
    if encoded.None? then None else ReadAttestation(encoded.value)
  }

  /** What the registering side put in comes out on the other side of all three layers, and nothing but an
      overlong credential id stands in the way. */
  lemma RegistrationRoundTrip(rpIdHash: Hash, a: Attested, uv: bool)
    ensures Registration(rpIdHash, a, uv).Some? <==> |a.credentialId| < TWO_16
    ensures |a.credentialId| < TWO_16 ==>
              ReadRegistration(Registration(rpIdHash, a, uv).value) == Some(AuthData(rpIdHash, uv, 0, Some(a)))
  {
    var d := AuthData(rpIdHash, uv, 0, Some(a));
    if |a.credentialId| < TWO_16 {
      AttestationRoundTrip(d);
      Base64Url.RoundTrip(Cbor.Encode(Attestation(Print(d).value)).value);
    }
  }
}
