// The bytes that seats and the Guardian sign, spelled out: the member names, their order, the separators and the domain.
module SevenKeysTexts {
  import opened TextOrder
  import opened CanonicalJson
  import opened CanonicalOrder
  import opened SevenKeys
  import opened SevenKeysTheorems

  // ---- sorted lists of members ----

  lemma {:induction false} SortsTo(ms: seq<Member>, list: seq<Member>)
    requires DistinctKeys(ms) && Sorted(list) && SameMembers(ms, list)
    ensures Sort(ms) == list
  {
    SortSorts(ms);
    SortKeepsMembers(ms);
    forall i | 0 <= i < |Sort(ms)| ensures Has(list, Sort(ms)[i]) { SortHas(ms, Sort(ms)[i]); }
    forall i | 0 <= i < |list| ensures Has(Sort(ms), list[i]) { SortHas(ms, list[i]); }
    SortedIsUnique(Sort(ms), list);
  }

  /** The members of `ms` taken in the order `at`, which takes each once. */
  function Taken(ms: seq<Member>, at: seq<nat>): (r: seq<Member>)
    requires forall i :: 0 <= i < |at| ==> at[i] < |ms|
    ensures |r| == |at| && forall i :: 0 <= i < |at| ==> r[i] == ms[at[i]]
  {
    seq(|at|, i requires 0 <= i < |at| => ms[at[i]])
  }

  ghost predicate Ascending(ms: seq<Member>) { forall i :: 0 <= i < |ms| - 1 ==> Less(ms[i].key, ms[i + 1].key) }

  lemma {:induction false} AscendingIsSorted(ms: seq<Member>)
    requires Ascending(ms)
    ensures Sorted(ms)
  {
    if ms != [] {
      assert Ascending(ms[1..]) by {
        forall i | 0 <= i < |ms[1..]| - 1 ensures Less(ms[1..][i].key, ms[1..][i + 1].key) {
          var k := i + 1;
          assert Less(ms[k].key, ms[k + 1].key);
        }
      }
      AscendingIsSorted(ms[1..]);
      if |ms| > 1 { assert Less(ms[0].key, ms[0 + 1].key); }
      SortedCons(ms[0], ms[1..]);
      assert ms == [ms[0]] + ms[1..];
    }
  }

  /** The members at these places are in ascending order of their keys, and there are no others. */
  ghost predicate SortedBy(ms: seq<Member>, at: seq<nat>) {
    && (forall i :: 0 <= i < |at| ==> at[i] < |ms|)
    && (forall k: nat :: k < |ms| ==> k in at)
    && Ascending(Taken(ms, at))
  }

  lemma {:induction false} OrderedKeysDiffer(ms: seq<Member>, at: seq<nat>, k: nat, l: nat)
    requires SortedBy(ms, at) && Sorted(Taken(ms, at)) && k < |ms| && l < |ms| && k != l
    ensures ms[k].key != ms[l].key
  {
    assert k in at && l in at;
    var i, j :| 0 <= i < |at| && at[i] == k && 0 <= j < |at| && at[j] == l;
    assert Taken(ms, at)[i] == ms[k] && Taken(ms, at)[j] == ms[l];
    LessIsStrict(ms[k].key, ms[l].key);
  }

  /** A dictionary is sorted by putting its members in the order of their keys. */
  lemma {:induction false} SortsInOrder(ms: seq<Member>, at: seq<nat>)
    requires SortedBy(ms, at)
    ensures Sort(ms) == Taken(ms, at)
  {
    var list := Taken(ms, at);
    AscendingIsSorted(list);
    forall k: nat | k < |ms| ensures Has(list, ms[k]) {
      assert k in at;
      var i :| 0 <= i < |at| && at[i] == k;
      assert list[i] == ms[k];
    }
    forall i | 0 <= i < |list| ensures Has(ms, list[i]) { assert ms[at[i]] == list[i]; }
    forall k, l | 0 <= k < l < |ms| ensures ms[k].key != ms[l].key { OrderedKeysDiffer(ms, at, k, l); }
    SortsTo(ms, list);
  }

  // ---- texts ----

  /** `",".join(parts)` */
  function Joined(parts: seq<string>): string {
    if parts == [] then "" else if |parts| == 1 then parts[0] else parts[0] + "," + Joined(parts[1..])
  }

  /** A member of an object, its name written as it is. */
  function Field(name: string, value: string): string { "\"" + name + "\":" + value }

  function Fields(ms: seq<Member>): (r: seq<string>)
    ensures |r| == |ms| && forall i :: 0 <= i < |ms| ==> r[i] == Field(ms[i].key, Text(ms[i].value))
  {
    seq(|ms|, i requires 0 <= i < |ms| => Field(ms[i].key, Text(ms[i].value)))
  }

  lemma {:induction false} OwnName(m: Member)
    requires PlainText(m.key)
    ensures MemberText(m) == Field(m.key, Text(m.value))
  {
    WrittenAsIs(m.key);
    assert Quote(m.key) + ":" == "\"" + m.key + "\":";
  }

  lemma {:induction false} OwnString(s: string)
    requires PlainText(s)
    ensures Text(Str(s)) == "\"" + s + "\""
  {
    WrittenAsIs(s);
  }

  ghost predicate PlainNames(ms: seq<Member>) { forall i :: 0 <= i < |ms| ==> PlainText(ms[i].key) }

  lemma {:induction false} MembersJoined(ms: seq<Member>)
    requires PlainNames(ms)
    ensures Members(ms) == Joined(Fields(ms))
  {
    if ms != [] {
      OwnName(ms[0]);
      MembersJoined(ms[1..]);
      assert Fields(ms)[1..] == Fields(ms[1..]);
    }
  }

  /** The members of a dictionary as they are written, in the order `at`. */
  function FieldsAt(ms: seq<Member>, at: seq<nat>): (r: seq<string>)
    requires forall i :: 0 <= i < |at| ==> at[i] < |ms|
    ensures |r| == |at| && forall i :: 0 <= i < |at| ==> r[i] == Field(ms[at[i]].key, Canonical(ms[at[i]].value))
  {
    seq(|at|, i requires 0 <= i < |at| => Field(ms[at[i]].key, Canonical(ms[at[i]].value)))
  }

  lemma {:induction false} NormalizedOrder(ms: seq<Member>, at: seq<nat>)
    requires SortedBy(ms, at)
    ensures SortedBy(NormalizeMembers(ms), at)
    ensures Fields(Taken(NormalizeMembers(ms), at)) == FieldsAt(ms, at)
  {
    var ns := NormalizeMembers(ms);
    assert forall i :: 0 <= i < |at| ==> Taken(ns, at)[i].key == Taken(ms, at)[i].key;
  }

  /** The canonical text of a dictionary is its members in the order of their keys, with commas between. */
  lemma {:induction false} ObjectText(ms: seq<Member>, at: seq<nat>)
    requires SortedBy(ms, at) && PlainNames(ms)
    ensures Canonical(Obj(ms)) == "{" + Joined(FieldsAt(ms, at)) + "}"
  {
    var ns := NormalizeMembers(ms);
    NormalizedOrder(ms, at);
    SortsInOrder(ns, at);
    forall i | 0 <= i < |at| ensures PlainText(Taken(ns, at)[i].key) { assert ns[at[i]].key == ms[at[i]].key; }
    MembersJoined(Taken(ns, at));
  }

  // ---- a proposal ----

  lemma PayloadKeysAscend()
    ensures Less("actionType", "after") && Less("after", "communityId") && Less("communityId", "proposalId")
  {
    LessAt("actionType", "after", 1);
    LessAt("after", "communityId", 0);
    LessAt("communityId", "proposalId", 0);
  }

  lemma PayloadKeysArePlain()
    ensures PlainText("communityId") && PlainText("proposalId")
    ensures PlainText("actionType") && PlainText("after")
  {}

  /** The name of an action in what is signed for it. */
  function NameOf(action: Action): string {
    if action.Amend? then "AMEND_CONSTITUTION"
    else if action.Rotate? then "ROTATE_CREDENTIAL"
    else if action.RemoveGuardian? then "REMOVE_GUARDIAN"
    else "REPLACE_CONTROLLER"
  }

  lemma NamesArePlain()
    ensures PlainText("AMEND_CONSTITUTION") && PlainText("ROTATE_CREDENTIAL")
    ensures PlainText("REMOVE_GUARDIAN") && PlainText("REPLACE_CONTROLLER")
  {}

  lemma FourPlain(a: Member, b: Member, c: Member, d: Member)
    requires PlainText(a.key) && PlainText(b.key) && PlainText(c.key) && PlainText(d.key)
    ensures PlainNames([a, b, c, d])
  {}

  lemma FourInOrder(a: Member, b: Member, c: Member, d: Member)
    requires Less(c.key, d.key) && Less(d.key, a.key) && Less(a.key, b.key)
    ensures SortedBy([a, b, c, d], [2, 3, 0, 1])
  {
    assert Taken([a, b, c, d], [2, 3, 0, 1]) == [c, d, a, b];
  }

  lemma {:induction false} FourFields(a: Member, b: Member, c: Member, d: Member)
    requires PlainText(a.key) && PlainText(b.key) && PlainText(c.key) && PlainText(d.key)
    requires Less(c.key, d.key) && Less(d.key, a.key) && Less(a.key, b.key)
    ensures Canonical(Obj([a, b, c, d])) ==
      "{" + Joined([Field(c.key, Canonical(c.value)), Field(d.key, Canonical(d.value)),
                    Field(a.key, Canonical(a.value)), Field(b.key, Canonical(b.value))]) + "}"
  {
    var ms := [a, b, c, d];
    FourPlain(a, b, c, d);
    FourInOrder(a, b, c, d);
    ObjectText(ms, [2, 3, 0, 1]);
    assert FieldsAt(ms, [2, 3, 0, 1]) ==
      [Field(c.key, Canonical(c.value)), Field(d.key, Canonical(d.value)),
       Field(a.key, Canonical(a.value)), Field(b.key, Canonical(b.value))];
  }

  lemma {:induction false} PayloadFields(c: Id, p: Id, name: string, after: Json)
    requires PlainText(name)
    ensures Canonical(Obj([Member("communityId", Int(c)), Member("proposalId", Int(p)), Member("actionType", Str(name)),
                           Member("after", after)])) ==
      "{" + Joined([Field("actionType", "\"" + name + "\""), Field("after", Canonical(after)),
                    Field("communityId", Decimal(c)), Field("proposalId", Decimal(p))]) + "}"
  {
    PayloadKeysAscend();
    PayloadKeysArePlain();
    OwnString(name);
    FourFields(Member("communityId", Int(c)), Member("proposalId", Int(p)), Member("actionType", Str(name)), Member("after", after));
  }

  lemma PayloadIs(c: Id, p: Id, x: Action)
    ensures Payload(c, p, x) ==
      Obj([Member("communityId", Int(c)), Member("proposalId", Int(p)), Member("actionType", Str(NameOf(x))),
           Member("after", After(x))])
  {}

  /** What a seat signs for a proposal, byte for byte. */
  lemma {:induction false} SignedText(c: Id, p: Id, x: Action)
    ensures Message(DOMAIN, Payload(c, p, x)) ==
      "STIR:MARKET:CONSTITUTION:V1" + [0 as char]
      + ("{" + Joined([Field("actionType", "\"" + NameOf(x) + "\""), Field("after", Canonical(After(x))),
                       Field("communityId", Decimal(c)), Field("proposalId", Decimal(p))]) + "}")
  {
    PayloadIs(c, p, x);
    NamesArePlain();
    PayloadFields(c, p, NameOf(x), After(x));
  }

  // ---- a suspension ----

  lemma SuspensionKeysAscend()
    ensures Less("communityId", "credentialId") && Less("credentialId", "format")
    ensures Less("format", "seat") && Less("seat", "sequence")
  {
    LessAt("communityId", "credentialId", 1);
    LessAt("credentialId", "format", 0);
    LessAt("format", "seat", 0);
    LessAt("seat", "sequence", 2);
  }

  lemma SuspensionKeysArePlain()
    ensures PlainText("communityId") && PlainText("credentialId") && PlainText("format")
    ensures PlainText("seat") && PlainText("sequence") && PlainText("STIR-KEY-SUSPENSION-1")
  {}

  lemma FivePlain(a: Member, b: Member, c: Member, d: Member, e: Member)
    requires PlainText(a.key) && PlainText(b.key) && PlainText(c.key) && PlainText(d.key) && PlainText(e.key)
    ensures PlainNames([a, b, c, d, e])
  {}

  lemma FiveInOrder(a: Member, b: Member, c: Member, d: Member, e: Member)
    requires Less(b.key, d.key) && Less(d.key, a.key) && Less(a.key, c.key) && Less(c.key, e.key)
    ensures SortedBy([a, b, c, d, e], [1, 3, 0, 2, 4])
  {
    assert Taken([a, b, c, d, e], [1, 3, 0, 2, 4]) == [b, d, a, c, e];
  }

  lemma {:induction false} FiveFields(a: Member, b: Member, c: Member, d: Member, e: Member)
    requires PlainText(a.key) && PlainText(b.key) && PlainText(c.key) && PlainText(d.key) && PlainText(e.key)
    requires Less(b.key, d.key) && Less(d.key, a.key) && Less(a.key, c.key) && Less(c.key, e.key)
    ensures Canonical(Obj([a, b, c, d, e])) ==
      "{" + Joined([Field(b.key, Canonical(b.value)), Field(d.key, Canonical(d.value)), Field(a.key, Canonical(a.value)),
                    Field(c.key, Canonical(c.value)), Field(e.key, Canonical(e.value))]) + "}"
  {
    var ms := [a, b, c, d, e];
    FivePlain(a, b, c, d, e);
    FiveInOrder(a, b, c, d, e);
    ObjectText(ms, [1, 3, 0, 2, 4]);
    assert FieldsAt(ms, [1, 3, 0, 2, 4]) ==
      [Field(b.key, Canonical(b.value)), Field(d.key, Canonical(d.value)), Field(a.key, Canonical(a.value)),
       Field(c.key, Canonical(c.value)), Field(e.key, Canonical(e.value))];
  }

  lemma {:induction false} SuspensionFields(c: Id, seat: nat, id: Id, n: nat, format: string)
    requires PlainText(format)
    ensures Canonical(Obj([Member("format", Str(format)), Member("communityId", Int(c)), Member("seat", Int(seat)),
                           Member("credentialId", Int(id)), Member("sequence", Int(n))])) ==
      "{" + Joined([Field("communityId", Decimal(c)), Field("credentialId", Decimal(id)), Field("format", "\"" + format + "\""),
                    Field("seat", Decimal(seat)), Field("sequence", Decimal(n))]) + "}"
  {
    SuspensionKeysAscend();
    SuspensionKeysArePlain();
    OwnString(format);
    FiveFields(Member("format", Str(format)), Member("communityId", Int(c)), Member("seat", Int(seat)),
               Member("credentialId", Int(id)), Member("sequence", Int(n)));
  }

  /** What the Guardian signs to suspend a seat, byte for byte. */
  lemma {:induction false} SuspensionText(c: Id, seat: nat, id: Id, n: nat)
    ensures Message(GUARDIAN, SuspensionPayload(c, seat, id, n)) ==
      "STIR:MARKET:GUARDIAN:V1" + [0 as char]
      + ("{" + Joined([Field("communityId", Decimal(c)), Field("credentialId", Decimal(id)),
                       Field("format", "\"" + "STIR-KEY-SUSPENSION-1" + "\""), Field("seat", Decimal(seat)),
                       Field("sequence", Decimal(n))]) + "}")
  {
    SuspensionKeysArePlain();
    SuspensionFields(c, seat, id, n, "STIR-KEY-SUSPENSION-1");
  }

  // ---- a rotation ----

  lemma RotationKeysAscend()
    ensures Less("affectedSeat", "controllerId") && Less("controllerId", "hardware") && Less("hardware", "newCredentialId")
    ensures Less("newCredentialId", "newPublicKey") && Less("newPublicKey", "oldCredentialId")
  {
    LessAt("affectedSeat", "controllerId", 0);
    LessAt("controllerId", "hardware", 0);
    LessAt("hardware", "newCredentialId", 0);
    LessAt("newCredentialId", "newPublicKey", 3);
    LessAt("newPublicKey", "oldCredentialId", 0);
  }

  lemma RotationKeysArePlain()
    ensures PlainText("affectedSeat") && PlainText("controllerId") && PlainText("hardware")
    ensures PlainText("newCredentialId") && PlainText("newPublicKey") && PlainText("oldCredentialId")
  {}

  lemma SixPlain(a: Member, b: Member, c: Member, d: Member, e: Member, f: Member)
    requires PlainText(a.key) && PlainText(b.key) && PlainText(c.key) && PlainText(d.key) && PlainText(e.key) && PlainText(f.key)
    ensures PlainNames([a, b, c, d, e, f])
  {}

  lemma SixInOrder(a: Member, b: Member, c: Member, d: Member, e: Member, f: Member)
    requires Less(a.key, e.key) && Less(e.key, f.key) && Less(f.key, c.key) && Less(c.key, d.key) && Less(d.key, b.key)
    ensures SortedBy([a, b, c, d, e, f], [0, 4, 5, 2, 3, 1])
  {
    assert Taken([a, b, c, d, e, f], [0, 4, 5, 2, 3, 1]) == [a, e, f, c, d, b];
  }

  lemma {:induction false} SixFields(a: Member, b: Member, c: Member, d: Member, e: Member, f: Member)
    requires PlainText(a.key) && PlainText(b.key) && PlainText(c.key) && PlainText(d.key) && PlainText(e.key) && PlainText(f.key)
    requires Less(a.key, e.key) && Less(e.key, f.key) && Less(f.key, c.key) && Less(c.key, d.key) && Less(d.key, b.key)
    ensures Canonical(Obj([a, b, c, d, e, f])) ==
      "{" + Joined([Field(a.key, Canonical(a.value)), Field(e.key, Canonical(e.value)), Field(f.key, Canonical(f.value)),
                    Field(c.key, Canonical(c.value)), Field(d.key, Canonical(d.value)), Field(b.key, Canonical(b.value))]) + "}"
  {
    var ms := [a, b, c, d, e, f];
    SixPlain(a, b, c, d, e, f);
    SixInOrder(a, b, c, d, e, f);
    ObjectText(ms, [0, 4, 5, 2, 3, 1]);
    assert FieldsAt(ms, [0, 4, 5, 2, 3, 1]) ==
      [Field(a.key, Canonical(a.value)), Field(e.key, Canonical(e.value)), Field(f.key, Canonical(f.value)),
       Field(c.key, Canonical(c.value)), Field(d.key, Canonical(d.value)), Field(b.key, Canonical(b.value))];
  }

  /** What a rotation says of itself, to the seats, to the Guardian and to the incoming key. */
  lemma {:induction false} RotationText(r: Action)
    requires r.Rotate?
    ensures Canonical(After(r)) ==
      "{" + Joined([Field("affectedSeat", Decimal(r.seat)), Field("controllerId", Decimal(r.controller)),
                    Field("hardware", if r.hardware then "true" else "false"), Field("newCredentialId", Decimal(r.incoming)),
                    Field("newPublicKey", Decimal(r.key)), Field("oldCredentialId", Decimal(r.outgoing))]) + "}"
  {
    RotationKeysAscend();
    RotationKeysArePlain();
    SixFields(Member("affectedSeat", Int(r.seat)), Member("oldCredentialId", Int(r.outgoing)),
              Member("newCredentialId", Int(r.incoming)), Member("newPublicKey", Int(r.key)),
              Member("controllerId", Int(r.controller)), Member("hardware", Bool(r.hardware)));
  }

  // ---- the other actions ----

  lemma {:induction false} OneField(a: Member)
    requires PlainText(a.key)
    ensures Canonical(Obj([a])) == "{" + Field(a.key, Canonical(a.value)) + "}"
  {
    ObjectText([a], [0]);
    assert FieldsAt([a], [0]) == [Field(a.key, Canonical(a.value))];
  }

  lemma {:induction false} TwoFields(a: Member, b: Member)
    requires PlainText(a.key) && PlainText(b.key) && Less(a.key, b.key)
    ensures Canonical(Obj([a, b])) == "{" + Joined([Field(a.key, Canonical(a.value)), Field(b.key, Canonical(b.value))]) + "}"
  {
    assert Taken([a, b], [0, 1]) == [a, b];
    ObjectText([a, b], [0, 1]);
    assert FieldsAt([a, b], [0, 1]) == [Field(a.key, Canonical(a.value)), Field(b.key, Canonical(b.value))];
  }

  lemma OtherKeys()
    ensures PlainText("status") && PlainText("REMOVED") && PlainText("affectedSeat") && PlainText("controllerId")
    ensures Less("affectedSeat", "controllerId")
  {
    LessAt("affectedSeat", "controllerId", 0);
  }

  /** What a removal and a change of controller say of themselves. */
  lemma {:induction false} OtherTexts(x: Action)
    ensures Canonical(After(RemoveGuardian)) == "{" + Field("status", "\"" + "REMOVED" + "\"") + "}"
    ensures x.ReplaceController? ==>
      Canonical(After(x)) ==
        "{" + Joined([Field("affectedSeat", Decimal(x.seat)), Field("controllerId", Decimal(x.controller))]) + "}"
  {
    OtherKeys();
    OwnString("REMOVED");
    OneField(Member("status", Str("REMOVED")));
    if x.ReplaceController? { TwoFields(Member("affectedSeat", Int(x.seat)), Member("controllerId", Int(x.controller))); }
  }

  // ---- the bootstrap ----

  function Texts(vs: seq<Json>): (r: seq<string>)
    ensures |r| == |vs| && forall i :: 0 <= i < |vs| ==> r[i] == Canonical(vs[i])
  {
    seq(|vs|, i requires 0 <= i < |vs| => Canonical(vs[i]))
  }

  /** The canonical text of a list is its items in their order, with commas between. */
  lemma {:induction false} ItemsJoined(vs: seq<Json>)
    ensures Items(NormalizeAll(vs)) == Joined(Texts(vs))
  {
    if vs != [] {
      ItemsJoined(vs[1..]);
      assert Texts(vs)[1..] == Texts(vs[1..]);
      assert NormalizeAll(vs)[1..] == NormalizeAll(vs[1..]);
    }
  }

  lemma SeatKeys()
    ensures PlainText("controllerId") && PlainText("credentialId") && PlainText("publicKey")
    ensures Less("controllerId", "credentialId") && Less("credentialId", "publicKey")
  {
    LessAt("controllerId", "credentialId", 1);
    LessAt("credentialId", "publicKey", 0);
  }

  lemma ThreePlain(a: Member, b: Member, c: Member)
    requires PlainText(a.key) && PlainText(b.key) && PlainText(c.key)
    ensures PlainNames([a, b, c])
  {}

  lemma ThreeInOrder(a: Member, b: Member, c: Member)
    requires Less(a.key, b.key) && Less(b.key, c.key)
    ensures SortedBy([a, b, c], [0, 1, 2])
  {
    assert Taken([a, b, c], [0, 1, 2]) == [a, b, c];
  }

  lemma {:induction false} SeatText(o: Opening)
    ensures Canonical(SeatJson(o)) ==
      "{" + Joined([Field("controllerId", Decimal(o.controller)), Field("credentialId", Decimal(o.credential)),
                    Field("publicKey", Decimal(o.key))]) + "}"
  {
    var a, b := Member("controllerId", Int(o.controller)), Member("credentialId", Int(o.credential));
    var c := Member("publicKey", Int(o.key));
    SeatKeys();
    ThreePlain(a, b, c);
    ThreeInOrder(a, b, c);
    ObjectText([a, b, c], [0, 1, 2]);
    assert FieldsAt([a, b, c], [0, 1, 2]) ==
      [Field("controllerId", Decimal(o.controller)), Field("credentialId", Decimal(o.credential)), Field("publicKey", Decimal(o.key))];
  }

  lemma CommunityBeforeFormat()
    ensures Less("communityId", "constitutionDigest") && Less("constitutionDigest", "format")
  {
    LessAt("communityId", "constitutionDigest", 2);
    LessAt("constitutionDigest", "format", 0);
  }

  lemma FormatBeforeSeats()
    ensures Less("format", "guardianCredentialId") && Less("guardianPublicKey", "seats")
  {
    LessAt("format", "guardianCredentialId", 0);
    LessAt("guardianPublicKey", "seats", 0);
  }

  lemma CredentialBeforeKey()
    ensures Less("guardianCredentialId", "guardianPublicKey")
  {
    LessAt("guardianCredentialId", "guardianPublicKey", 8);
  }

  lemma BootstrapKeysArePlain()
    ensures PlainText("communityId") && PlainText("format") && PlainText("seats")
    ensures PlainText("guardianCredentialId") && PlainText("guardianPublicKey") && PlainText("constitutionDigest")
  {}

  lemma FormatIsPlain()
    ensures PlainText("STIR-SEVEN-KEYS-BOOTSTRAP-1")
  {}

  lemma BootstrapInOrder(a: Member, b: Member, c: Member, d: Member, e: Member, f: Member)
    requires Less(b.key, f.key) && Less(f.key, a.key) && Less(a.key, d.key) && Less(d.key, e.key) && Less(e.key, c.key)
    ensures SortedBy([a, b, c, d, e, f], [1, 5, 0, 3, 4, 2])
  {
    assert Taken([a, b, c, d, e, f], [1, 5, 0, 3, 4, 2]) == [b, f, a, d, e, c];
  }

  lemma {:induction false} BootstrapFields(a: Member, b: Member, c: Member, d: Member, e: Member, f: Member)
    requires PlainText(a.key) && PlainText(b.key) && PlainText(c.key) && PlainText(d.key) && PlainText(e.key) && PlainText(f.key)
    requires Less(b.key, f.key) && Less(f.key, a.key) && Less(a.key, d.key) && Less(d.key, e.key) && Less(e.key, c.key)
    ensures Canonical(Obj([a, b, c, d, e, f])) ==
      "{" + Joined([Field(b.key, Canonical(b.value)), Field(f.key, Canonical(f.value)), Field(a.key, Canonical(a.value)),
                    Field(d.key, Canonical(d.value)), Field(e.key, Canonical(e.value)), Field(c.key, Canonical(c.value))]) + "}"
  {
    var ms := [a, b, c, d, e, f];
    SixPlain(a, b, c, d, e, f);
    BootstrapInOrder(a, b, c, d, e, f);
    ObjectText(ms, [1, 5, 0, 3, 4, 2]);
    assert FieldsAt(ms, [1, 5, 0, 3, 4, 2]) ==
      [Field(b.key, Canonical(b.value)), Field(f.key, Canonical(f.value)), Field(a.key, Canonical(a.value)),
       Field(d.key, Canonical(d.value)), Field(e.key, Canonical(e.value)), Field(c.key, Canonical(c.value))];
  }

  lemma {:induction false} RequestFields(c: Id, seats: Json, g: Id, k: Key, first: Json, format: string)
    requires PlainText(format)
    ensures Canonical(Obj([Member("format", Str(format)), Member("communityId", Int(c)), Member("seats", seats),
                           Member("guardianCredentialId", Int(g)), Member("guardianPublicKey", Int(k)),
                           Member("constitutionDigest", first)])) ==
      "{" + Joined([Field("communityId", Decimal(c)), Field("constitutionDigest", Canonical(first)),
                    Field("format", "\"" + format + "\""), Field("guardianCredentialId", Decimal(g)),
                    Field("guardianPublicKey", Decimal(k)), Field("seats", Canonical(seats))]) + "}"
  {
    CommunityBeforeFormat();
    FormatBeforeSeats();
    CredentialBeforeKey();
    BootstrapKeysArePlain();
    OwnString(format);
    BootstrapFields(Member("format", Str(format)), Member("communityId", Int(c)), Member("seats", seats),
                    Member("guardianCredentialId", Int(g)), Member("guardianPublicKey", Int(k)), Member("constitutionDigest", first));
  }

  /** What the seven seats and the Guardian sign to prove their keys, byte for byte. */
  lemma {:induction false} BootstrapText(c: Id, os: seq<Opening>, g: Id, k: Key, first: Document)
    ensures Message(BOOTSTRAP, BootstrapPayload(c, os, g, k, first)) ==
      "STIR:MARKET:BOOTSTRAP:V1" + [0 as char]
      + ("{" + Joined([Field("communityId", Decimal(c)), Field("constitutionDigest", Canonical(first)),
                       Field("format", "\"" + "STIR-SEVEN-KEYS-BOOTSTRAP-1" + "\""), Field("guardianCredentialId", Decimal(g)),
                       Field("guardianPublicKey", Decimal(k)), Field("seats", "[" + Joined(Texts(SeatList(os))) + "]")]) + "}")
  {
    ItemsJoined(SeatList(os));
    FormatIsPlain();
    RequestFields(c, Arr(SeatList(os)), g, k, first, "STIR-SEVEN-KEYS-BOOTSTRAP-1");
  }
}
