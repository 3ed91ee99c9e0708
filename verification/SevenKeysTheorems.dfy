// Seven Keys over whole runs: what a version of the constitution took, what a suspension stops and what ends it,
// what a replaced credential or a used assertion can still do, and what the Guardian cannot.
module SevenKeysTheorems {
  import opened Wrappers
  import opened CanonicalJson
  import opened CanonicalOrder
  import opened SevenKeys
  import opened SevenKeysProofs

  // ---- versions ----

  lemma SeatsAreSeven(s: set<nat>)
    requires forall x :: x in s ==> x < SEATS
    ensures |s| <= SEATS
    ensures |s| >= SEATS <==> forall x :: 0 <= x < SEATS ==> x in s
  {
    var all := {0, 1, 2, 3, 4, 5, 6};
    assert |all| == 7;
    SubsetSize(s, all);
    if all <= s { SubsetSize(all, s); }
    forall x | 0 <= x < SEATS && x !in s ensures |s| < SEATS {
      SubsetSize(s, all - {x});
    }
  }

  /** Seat `s` signed `p` with its own credential of the time, by that credential's key, over this very proposal. */
  ghost predicate SignedWhileActive(a: Authority, p: Id, s: nat) {
    p in a.proposals && s in a.proposals[p].signatures
    && var g := a.proposals[p].signatures[s];
       g.credential in a.credentials && g.credential != a.guardian.id
       && var c := a.credentials[g.credential];
          c.seat == s && c.since <= g.at && (c.until.Some? ==> g.at < c.until.value)
          && g.at < |a.events| && a.events[g.at] == Signed(p, s, g.credential)
          && g.evidence.key == c.key
          && g.evidence.message == Message(DOMAIN, Payload(a.community, p, a.proposals[p].action))
  }

  lemma SignersAreSeats(a: Authority, p: Id)
    requires Inv(a) && p in a.proposals
    ensures forall s :: s in a.proposals[p].signatures.Keys ==> s < SEATS && SignedWhileActive(a, p, s)
  {
    assert ProposalOk(a, p);
    forall s | s in a.proposals[p].signatures.Keys ensures s < SEATS && SignedWhileActive(a, p, s) {
      assert SigningOk(a, p, s);
      assert CredentialOk(a, a.proposals[p].signatures[s].credential);
    }
  }

  /** Every version after the first is one activated amendment, its own, signed by all seven seats and no one else. */
  lemma VersionsAreUnanimous(a: Authority, k: nat)
    requires Reachable(a) && 1 <= k < |a.versions|
    ensures a.versions[k].proposal.Some?
    ensures var p := a.versions[k].proposal.value;
      p in a.proposals && a.proposals[p].activated && a.proposals[p].action == Amend(a.versions[k].document)
      && (forall s :: 0 <= s < SEATS ==> SignedWhileActive(a, p, s))
      && (forall s :: s in a.proposals[p].signatures ==> s < SEATS)
      && (forall j :: 1 <= j < |a.versions| && j != k ==> a.versions[j].proposal != Some(p))
  {
    ReachableInv(a);
    assert VersionOk(a, k);
    var p := a.versions[k].proposal.value;
    SignersAreSeats(a, p);
    var q := a.proposals[p];
    assert |q.signatures.Keys| == |q.signatures|;
    SeatsAreSeven(q.signatures.Keys);
    forall s | 0 <= s < SEATS ensures SignedWhileActive(a, p, s) { assert s in q.signatures.Keys; }
  }

  /** And every activated amendment is exactly one version. */
  lemma AmendmentsBecomeVersions(a: Authority, p: Id) returns (k: nat)
    requires Reachable(a) && p in a.proposals && a.proposals[p].activated && a.proposals[p].action.Amend?
    ensures 1 <= k < |a.versions| && a.versions[k] == Version(a.proposals[p].action.after, Some(p))
    ensures forall j :: 1 <= j < |a.versions| && a.versions[j].proposal == Some(p) ==> j == k
  {
    ReachableInv(a);
    assert ProposalOk(a, p);
    k :| 1 <= k < |a.versions| && a.versions[k].proposal == Some(p);
    assert VersionOk(a, k);
  }

  lemma SevenMeansAll(a: Authority, p: Id)
    requires Inv(a) && p in a.proposals
    ensures |a.proposals[p].signatures| >= CONSTITUTIONAL_THRESHOLD
      <==> forall s :: 0 <= s < SEATS ==> s in a.proposals[p].signatures
  {
    SignersAreSeats(a, p);
    var keys := a.proposals[p].signatures.Keys;
    assert |keys| == |a.proposals[p].signatures|;
    SeatsAreSeven(keys);
    assert forall s :: s in keys <==> s in a.proposals[p].signatures;
  }

  /** In a reachable state an amendment is activated exactly when it is open, all seats signed and none is suspended. */
  lemma AmendmentExactly(a: Authority, p: Id, g: Option<Evidence>, n: Option<Evidence>)
    requires Reachable(a) && p in a.proposals && a.proposals[p].action.Amend?
    ensures ActivateStep(a, p, g, n).0.Ok?
      <==> !a.proposals[p].activated && (forall s :: 0 <= s < SEATS ==> s in a.proposals[p].signatures) && !a.Frozen()
    ensures ActivateStep(a, p, g, n).0.Ok? ==>
      ActivateStep(a, p, g, n).1.versions == a.versions + [Version(a.proposals[p].action.after, Some(p))]
  {
    ReachableInv(a);
    SevenMeansAll(a, p);
  }

  ghost predicate AreFive(five: set<nat>, signers: set<nat>) { |five| == 5 && five <= signers }

  /** Five different seats are among the signers. */
  ghost predicate FiveSigned(signers: set<nat>) { exists five: set<nat> :: AreFive(five, signers) }

  lemma FiveMeansFive(signers: set<nat>)
    ensures |signers| >= REMOVAL_THRESHOLD <==> FiveSigned(signers)
  {
    if |signers| >= REMOVAL_THRESHOLD {
      var five := SomeOf(signers, 5);
      assert AreFive(five, signers);
    }
    if FiveSigned(signers) {
      var five: set<nat> :| AreFive(five, signers);
      SubsetSize(five, signers);
    }
  }

  lemma RemovalBranches(a: Authority, p: Id, g: Option<Evidence>, n: Option<Evidence>)
    requires p in a.proposals && a.proposals[p].action.RemoveGuardian?
    ensures ActivateStep(a, p, g, n).0.Ok?
      <==> !a.proposals[p].activated && a.guardian.active && |a.proposals[p].signatures.Keys| >= REMOVAL_THRESHOLD
    ensures ActivateStep(a, p, g, n).0.Ok? ==> !ActivateStep(a, p, g, n).1.guardian.active
  {
    assert |a.proposals[p].signatures.Keys| == |a.proposals[p].signatures|;
  }

  /** A removal is activated exactly when it is open, five seats signed, suspended or not, and a Guardian is there. */
  lemma RemovalExactly(a: Authority, p: Id, g: Option<Evidence>, n: Option<Evidence>)
    requires Reachable(a) && p in a.proposals && a.proposals[p].action.RemoveGuardian?
    ensures ActivateStep(a, p, g, n).0.Ok?
      <==> !a.proposals[p].activated && a.guardian.active && FiveSigned(a.proposals[p].signatures.Keys)
    ensures ActivateStep(a, p, g, n).0.Ok? ==> !ActivateStep(a, p, g, n).1.guardian.active
    ensures forall s :: s in a.proposals[p].signatures.Keys ==> s < SEATS
  {
    ReachableInv(a);
    SignersAreSeats(a, p);
    FiveMeansFive(a.proposals[p].signatures.Keys);
    RemovalBranches(a, p, g, n);
  }

  lemma {:induction false} SomeOf(s: set<nat>, n: nat) returns (r: set<nat>)
    requires n <= |s|
    ensures r <= s && |r| == n
  {
    if n == |s| {
      r := s;
    } else {
      var e :| e in s;
      r := SomeOf(s - {e}, n);
    }
  }

  // ---- suspension and recovery ----

  /** The one command that lifts the suspension of seat `s`. */
  ghost predicate Recovers(a: Authority, c: Command, s: nat) {
    c.Activate? && c.p in a.proposals && s < |a.seats|
    && var q := a.proposals[c.p];
       q.action.Rotate? && q.action.seat == s && q.action.outgoing == a.seats[s].credential
       && q.action.controller == a.seats[s].controller
       && OthersSigned(q, s) && a.guardian.active && RotationSigned(a, c.p, q.action, c.guardian, c.possession)
       && Step(a, c).0.Ok?
  }

  ghost predicate StillSuspended(a: Authority, b: Authority, s: nat) {
    s < |a.seats| && s < |b.seats| && b.IsSuspended(s) && b.seats[s] == a.seats[s] && b.versions == a.versions
  }

  lemma SuspendedThroughSigning(a: Authority, p: Id, seat: nat, credential: Id, e: Evidence, s: nat)
    requires a.IsSuspended(s)
    ensures StillSuspended(a, SignStep(a, p, seat, credential, e).1, s)
  {}

  lemma SuspendedThroughRotation(a: Authority, p: Id, g: Option<Evidence>, n: Option<Evidence>, s: nat)
    requires OneSuspended(a) && a.IsSuspended(s) && p in a.proposals && !a.proposals[p].activated && a.proposals[p].action.Rotate?
    ensures RotateStep(a, p, g, n).1.versions == a.versions
    ensures RotateStep(a, p, g, n) == (Conflict, a) || RotateStep(a, p, g, n) == (BadRequest, a)
      || Recovers(a, Activate(p, g, n), s)
  {
    var q := a.proposals[p];
    if RotationReady(a, q) { assert a.IsSuspended(q.action.seat) && s == q.action.seat; }
  }

  lemma SuspendedThroughRemoval(a: Authority, p: Id, s: nat)
    requires a.IsSuspended(s) && p in a.proposals
    ensures StillSuspended(a, RemoveStep(a, p).1, s)
  {}

  lemma SuspendedThroughActivation(a: Authority, p: Id, g: Option<Evidence>, n: Option<Evidence>, s: nat)
    requires OneSuspended(a) && a.IsSuspended(s)
    ensures StillSuspended(a, ActivateStep(a, p, g, n).1, s) || Recovers(a, Activate(p, g, n), s)
    ensures ActivateStep(a, p, g, n).1.versions == a.versions
  {
    assert a.Frozen();
    if p in a.proposals && !a.proposals[p].activated {
      if a.proposals[p].action.Rotate? {
        SuspendedThroughRotation(a, p, g, n, s);
      } else if a.proposals[p].action.RemoveGuardian? {
        SuspendedThroughRemoval(a, p, s);
      } else {
        assert ActivateStep(a, p, g, n) == (Conflict, a);
      }
    }
  }

  lemma FrozenStep(a: Authority, c: Command, s: nat)
    requires OneSuspended(a) && a.IsSuspended(s)
    ensures StillSuspended(a, Step(a, c).1, s) || Recovers(a, c, s)
    ensures Step(a, c).1.versions == a.versions
  {
    match c
    case Propose(p, action) =>
    case Sign(p, seat, credential, e) => SuspendedThroughSigning(a, p, seat, credential, e, s);
    case Suspend(seat, credential, expected, e) => assert a.Frozen();
    case Activate(p, g, n) => SuspendedThroughActivation(a, p, g, n, s);
  }

  /** Command `i` recovered seat `s`, and until then nothing had. */
  ghost predicate RecoveredAt(a: Authority, cs: seq<Command>, s: nat, i: nat) {
    i < |cs| && StillSuspended(a, Run(a, cs[..i]), s) && Recovers(Run(a, cs[..i]), cs[i], s)
  }

  lemma RecoveredEarlier(a: Authority, cs: seq<Command>, s: nat, i: nat)
    requires cs != [] && RecoveredAt(a, cs[..|cs| - 1], s, i)
    ensures RecoveredAt(a, cs, s, i)
  {
    assert cs[..|cs| - 1][..i] == cs[..i];
  }

  /**
   * Over any run from a state where seat `s` is suspended: either it is suspended to the end, and the constitution is
   * the one it was, or at some point the other six seats, the Guardian and the new key rotated its credential, and up
   * to there the constitution had not moved.
   */
  lemma {:induction false} SuspensionHolds(a: Authority, cs: seq<Command>, s: nat)
    requires Inv(a) && a.IsSuspended(s)
    ensures StillSuspended(a, Run(a, cs), s)
      || exists i :: RecoveredAt(a, cs, s, i)
    decreases |cs|
  {
    if cs != [] {
      var m := |cs| - 1;
      SuspensionHolds(a, cs[..m], s);
      RunKeepsInv(a, cs[..m]);
      var b := Run(a, cs[..m]);
      if StillSuspended(a, b, s) {
        FrozenStep(b, cs[m], s);
        if Recovers(b, cs[m], s) { assert RecoveredAt(a, cs, s, m); }
      } else {
        var i :| RecoveredAt(a, cs[..m], s, i);
        RecoveredEarlier(a, cs, s, i);
      }
    }
  }

  /** At most one seat is ever suspended. */
  lemma OneSuspensionAtATime(a: Authority, s: nat, t: nat)
    requires Reachable(a) && a.IsSuspended(s) && a.IsSuspended(t)
    ensures s == t
  {
    ReachableInv(a);
  }

  /** A suspended or replaced credential stays in the history and never signs again, in any continuation. */
  lemma {:induction false} StoodDownNeverSigns(a: Authority, id: Id, cs: seq<Command>, p: Id, seat: nat, e: Evidence)
    requires Reachable(a) && id in a.credentials && !a.credentials[id].status.Active?
    ensures var b := Run(a, cs);
      id in b.credentials && LaterCredential(a.credentials[id], b.credentials[id], |a.events|)
      && (p in b.proposals ==> SignStep(b, p, seat, id, e) == (Conflict, b))
  {
    ReachableInv(a);
    RunKeepsInv(a, cs);
    var b := Run(a, cs);
    assert LaterCredential(a.credentials[id], b.credentials[id], |a.events|);
  }

  lemma RotationEffect(a: Authority, p: Id, g: Option<Evidence>, n: Option<Evidence>)
    requires Inv(a) && p in a.proposals && a.proposals[p].action.Rotate? && ActivateStep(a, p, g, n).0.Ok?
    ensures var b, r := ActivateStep(a, p, g, n).1, a.proposals[p].action;
      b.IsActiveFor(r.seat, r.incoming) && b.credentials[r.incoming].key == r.key
      && b.credentials[r.incoming].hardware == r.hardware && !b.Frozen()
      && b.credentials[r.outgoing].status.Revoked? && b.seats[r.seat].controller == a.seats[r.seat].controller
  {
    RotateKeepsInv(a, p, g, n);
    RotateThaws(a, p, g, n);
  }

  /** The rotated-in credential can sign at once, with the key and the kind of key it was proposed with, the one it replaced
      stays as revoked, and the seat keeps its controller. */
  lemma RotationSeatsTheNewKey(a: Authority, p: Id, g: Option<Evidence>, n: Option<Evidence>)
    requires Reachable(a) && p in a.proposals && a.proposals[p].action.Rotate? && ActivateStep(a, p, g, n).0.Ok?
    ensures var b, r := ActivateStep(a, p, g, n).1, a.proposals[p].action;
      b.IsActiveFor(r.seat, r.incoming) && b.credentials[r.incoming].key == r.key
      && b.credentials[r.incoming].hardware == r.hardware && !b.Frozen()
      && b.credentials[r.outgoing].status.Revoked? && b.seats[r.seat].controller == a.seats[r.seat].controller
  {
    ReachableInv(a);
    RotationEffect(a, p, g, n);
  }

  // ---- nothing is used twice ----

  lemma AfterIsValid(action: Action)
    ensures Valid(After(action))
  {
    if !action.Amend? {
      forall i | 0 <= i < |After(action).members| ensures ValidMember(After(action).members[i]) {}
    }
  }

  lemma PayloadIsValid(community: Id, p: Id, action: Action)
    ensures Valid(Payload(community, p, action))
  {
    var v := Payload(community, p, action);
    AfterIsValid(action);
    forall i | 0 <= i < |v.members| ensures ValidMember(v.members[i]) {}
  }

  lemma SuspensionPayloadIsValid(community: Id, seat: nat, credential: Id, sequence: nat)
    ensures Valid(SuspensionPayload(community, seat, credential, sequence))
  {
    var v := SuspensionPayload(community, seat, credential, sequence);
    forall i | 0 <= i < |v.members| ensures ValidMember(v.members[i]) {}
  }

  /** Equal dictionaries hold equal values under a key. */
  lemma {:induction false} SameUnderKey(a: seq<Member>, b: seq<Member>, i: nat, j: nat)
    requires Paired(a, b) && DistinctKeys(b) && i < |a| && j < |b| && a[i].key == b[j].key
    ensures Equal(a[i].value, b[j].value)
  {
    assert HasEqual(b, a[i]);
    var k :| 0 <= k < |b| && EqualMember(a[i], b[k]);
    assert k == j;
  }

  /** The same action, with every seat, credential, key and controller it names; of a document, the same content. */
  ghost predicate SameAction(x: Action, y: Action) {
    if x.Amend? then y.Amend? && Equal(x.after, y.after) else x == y
  }

  lemma {:induction false} SameMember(v: Json, w: Json, i: nat)
    requires v.Obj? && w.Obj? && Equal(v, w) && Valid(w) && i < |v.members| && i < |w.members|
    requires v.members[i].key == w.members[i].key
    ensures Equal(v.members[i].value, w.members[i].value)
  {
    SameUnderKey(v.members, w.members, i, i);
  }

  lemma NamesDiffer(x: Action, y: Action)
    requires ActionName(x) == ActionName(y)
    ensures x.Amend? <==> y.Amend?
    ensures x.ReplaceController? <==> y.ReplaceController?
    ensures x.Rotate? <==> y.Rotate?
    ensures x.RemoveGuardian? <==> y.RemoveGuardian?
  {
    assert "AMEND_CONSTITUTION"[0] == 'A' && "ROTATE_CREDENTIAL"[1] == 'O';
    assert "REPLACE_CONTROLLER"[2] == 'P' && "REMOVE_GUARDIAN"[2] == 'M';
    assert "REPLACE_CONTROLLER"[1] == 'E' && "REMOVE_GUARDIAN"[1] == 'E';
    assert "REPLACE_CONTROLLER"[0] == 'R' && "REMOVE_GUARDIAN"[0] == 'R' && "ROTATE_CREDENTIAL"[0] == 'R';
  }

  lemma SameReplacement(x: Action, y: Action)
    requires x.ReplaceController? && y.ReplaceController? && Equal(After(x), After(y))
    ensures x == y
  {
    AfterIsValid(y);
    SameMember(After(x), After(y), 0);
    SameMember(After(x), After(y), 1);
  }

  lemma SameRotation(x: Action, y: Action)
    requires x.Rotate? && y.Rotate? && Equal(After(x), After(y))
    ensures x == y
  {
    AfterIsValid(y);
    SameMember(After(x), After(y), 0);
    SameMember(After(x), After(y), 1);
    SameMember(After(x), After(y), 2);
    SameMember(After(x), After(y), 3);
    SameMember(After(x), After(y), 4);
    SameMember(After(x), After(y), 5);
  }

  lemma AfterNamesTheAction(x: Action, y: Action)
    requires ActionName(x) == ActionName(y) && Equal(After(x), After(y))
    ensures SameAction(x, y)
  {
    NamesDiffer(x, y);
    if x.ReplaceController? { SameReplacement(x, y); }
    if x.Rotate? { SameRotation(x, y); }
  }

  /** A message signed for one action proposed in one community is not the message of any other. */
  lemma MessageNamesTheProposal(c: Id, d: Id, p: Id, q: Id, x: Action, y: Action)
    requires Message(DOMAIN, Payload(c, p, x)) == Message(DOMAIN, Payload(d, q, y))
    ensures c == d && p == q && SameAction(x, y)
  {
    PayloadIsValid(c, p, x);
    PayloadIsValid(d, q, y);
    DomainsSeparate(DOMAIN, Payload(c, p, x), DOMAIN, Payload(d, q, y));
    var a, b := Payload(c, p, x).members, Payload(d, q, y).members;
    SameUnderKey(a, b, 0, 0);
    SameUnderKey(a, b, 1, 1);
    SameUnderKey(a, b, 2, 2);
    SameUnderKey(a, b, 3, 3);
    AfterNamesTheAction(x, y);
  }

  /** `e` is on proposal `p` as the seat's signature by credential `id`, which sits in no other seat. */
  ghost predicate Used(b: Authority, p: Id, seat: nat, id: Id, e: Evidence) {
    && p in b.proposals && seat in b.proposals[p].signatures && id in b.credentials && b.credentials[id].key == e.key
    && b.credentials[id].seat == seat && (forall other :: b.IsActiveFor(other, id) ==> other == seat)
    && (e.WebAuthn? ==> e.count <= b.credentials[id].count)
    && e.message == Message(DOMAIN, Payload(b.community, p, b.proposals[p].action))
  }

  lemma AcceptedIsUsed(a: Authority, p: Id, seat: nat, id: Id, e: Evidence)
    requires RosterOk(a) && SignStep(a, p, seat, id, e).0.Ok?
    ensures Used(SignStep(a, p, seat, id, e).1, p, seat, id, e)
  {
    var s := SignStep(a, p, seat, id, e).1;
    assert SeatOk(a, seat);
    forall other | s.IsActiveFor(other, id) ensures other == seat { assert SeatOk(a, seat) && SeatOk(a, other); }
  }

  lemma UsedStays(s: Authority, b: Authority, p: Id, seat: nat, id: Id, e: Evidence)
    requires Used(s, p, seat, id, e) && Later(s, b) && RosterOk(b)
    ensures Used(b, p, seat, id, e)
  {
    assert LaterProposal(s.proposals[p], b.proposals[p]);
    assert LaterCredential(s.credentials[id], b.credentials[id], |s.events|);
    forall other | b.IsActiveFor(other, id) ensures other == seat { assert SeatOk(b, other); }
  }

  lemma {:induction false} AcceptedStaysUsed(a: Authority, p: Id, seat: nat, id: Id, e: Evidence, cs: seq<Command>)
    requires Inv(a) && SignStep(a, p, seat, id, e).0.Ok?
    ensures Used(Run(SignStep(a, p, seat, id, e).1, cs), p, seat, id, e)
  {
    var s := SignStep(a, p, seat, id, e).1;
    SignKeepsInv(a, p, seat, id, e);
    RunKeepsInv(s, cs);
    AcceptedIsUsed(a, p, seat, id, e);
    UsedStays(s, Run(s, cs), p, seat, id, e);
  }

  /** Where used evidence is accepted once more, whoever presents it. */
  lemma UsedElsewhere(b: Authority, p: Id, seat: nat, id: Id, e: Evidence, q: Id, other: nat, jd: Id)
    requires Used(b, p, seat, id, e)
    ensures SignStep(b, q, other, jd, e).0.Ok? <==>
              q == p && !b.proposals[p].activated && other !in b.proposals[p].signatures
              && b.IsActiveFor(other, jd) && b.credentials[jd].key == b.credentials[id].key
              && (b.credentials[jd].hardware <==> e.WebAuthn?)
              && (e.WebAuthn? ==> (e.count == 0 && b.credentials[jd].count == 0) || e.count > b.credentials[jd].count)
  {
    if q in b.proposals && q != p && e.message == Message(DOMAIN, Payload(b.community, q, b.proposals[q].action)) {
      MessageNamesTheProposal(b.community, b.community, p, q, b.proposals[p].action, b.proposals[q].action);
    }
  }

  lemma CounterIsUsedUp(b: Authority, p: Id, seat: nat, id: Id, e: Evidence, q: Id, other: nat, f: Evidence)
    requires Used(b, p, seat, id, e) && e.WebAuthn? && f.WebAuthn? && 0 < e.count && f.count <= e.count
    ensures !SignStep(b, q, other, id, f).0.Ok?
  {}

  /** Evidence that a credential has signed with is never accepted from it again, for this proposal or any other. */
  lemma {:induction false} EvidenceSignsOnce(
      a: Authority, p: Id, seat: nat, id: Id, e: Evidence, cs: seq<Command>, q: Id, other: nat)
    requires Reachable(a) && SignStep(a, p, seat, id, e).0.Ok?
    ensures !SignStep(Run(SignStep(a, p, seat, id, e).1, cs), q, other, id, e).0.Ok?
  {
    ReachableInv(a);
    AcceptedStaysUsed(a, p, seat, id, e, cs);
    UsedElsewhere(Run(SignStep(a, p, seat, id, e).1, cs), p, seat, id, e, q, other, id);
  }

  /** No nonzero counter value is accepted twice from one credential, nor any smaller one after it. */
  lemma {:induction false} CountersOnlyRise(
      a: Authority, p: Id, seat: nat, id: Id, e: Evidence, cs: seq<Command>, q: Id, other: nat, f: Evidence)
    requires Reachable(a) && SignStep(a, p, seat, id, e).0.Ok?
    requires e.WebAuthn? && f.WebAuthn? && 0 < e.count && f.count <= e.count
    ensures !SignStep(Run(SignStep(a, p, seat, id, e).1, cs), q, other, id, f).0.Ok?
  {
    ReachableInv(a);
    AcceptedStaysUsed(a, p, seat, id, e, cs);
    CounterIsUsedUp(Run(SignStep(a, p, seat, id, e).1, cs), p, seat, id, e, q, other, f);
  }

  /** A seat that has signed a proposal signs it no second time, whatever is presented, in any continuation: fresh
      evidence that would be accepted is a conflict, and nothing is added. */
  lemma {:induction false} SignedSeatIsRefused(a: Authority, p: Id, seat: nat, cs: seq<Command>, id: Id, e: Evidence)
    requires Reachable(a) && p in a.proposals && seat in a.proposals[p].signatures
    ensures var b := Run(a, cs);
      p in b.proposals && seat in b.proposals[p].signatures && b.proposals[p].signatures[seat] == a.proposals[p].signatures[seat]
      && (SignStep(b, p, seat, id, e) == (Conflict, b) || SignStep(b, p, seat, id, e) == (BadRequest, b))
      && (b.IsActiveFor(seat, id) && Accepts(b.credentials[id].key, b.credentials[id].hardware, b.credentials[id].count, DOMAIN,
                                            Payload(b.community, p, b.proposals[p].action), e)
          ==> SignStep(b, p, seat, id, e) == (Conflict, b))
  {
    ReachableInv(a);
    RunKeepsInv(a, cs);
    assert LaterProposal(a.proposals[p], Run(a, cs).proposals[p]);
  }

  // ---- one key in two seats ----

  /** Used evidence is accepted once more exactly for the same open proposal, from another seat that has not signed and
      whose active credential has the very same key; for an authenticator its counter must also be new there. */
  lemma {:induction false} SharedKeyExactly(
      a: Authority, p: Id, seat: nat, id: Id, e: Evidence, cs: seq<Command>, q: Id, other: nat, jd: Id)
    requires Reachable(a) && SignStep(a, p, seat, id, e).0.Ok?
    ensures var b := Run(SignStep(a, p, seat, id, e).1, cs);
      id in b.credentials && p in b.proposals
      && (SignStep(b, q, other, jd, e).0.Ok? <==>
            q == p && !b.proposals[p].activated && other !in b.proposals[p].signatures
            && b.IsActiveFor(other, jd) && b.credentials[jd].key == b.credentials[id].key
            && (b.credentials[jd].hardware <==> e.WebAuthn?)
            && (e.WebAuthn? ==> (e.count == 0 && b.credentials[jd].count == 0) || e.count > b.credentials[jd].count))
  {
    ReachableInv(a);
    AcceptedStaysUsed(a, p, seat, id, e, cs);
    UsedElsewhere(Run(SignStep(a, p, seat, id, e).1, cs), p, seat, id, e, q, other, jd);
  }

  /** Seven seats that present one key. */
  function OneKeySeats(m: string): seq<Opening> { seq(SEATS, i requires 0 <= i < SEATS => Opening(i, i, 0, false, Ed25519(0, m))) }

  lemma SeatListIgnoresEvidence(m: string, n: string)
    ensures SeatList(OneKeySeats(m)) == SeatList(OneKeySeats(n))
  {}

  lemma OneKeyProves(m: string, first: Document)
    requires m == Message(BOOTSTRAP, BootstrapPayload(0, OneKeySeats(m), 7, 1, first))
    ensures Bootstrappable(0, OneKeySeats(m), Guardian(7, 1, false, 0, true), Ed25519(1, m), first)
  {}

  lemma OneKeyBootstrappable(first: Document) returns (m: string)
    ensures Bootstrappable(0, OneKeySeats(m), Guardian(7, 1, false, 0, true), Ed25519(1, m), first)
  {
    m := Message(BOOTSTRAP, BootstrapPayload(0, OneKeySeats(""), 7, 1, first));
    SeatListIgnoresEvidence(m, "");
    OneKeyProves(m, first);
  }

  /** The bootstrap does not refuse seats that share a key, so that case is reachable. */
  lemma OneKeyBootstraps(first: Document) returns (a: Authority)
    ensures Started(a) && Inv(a) && a.proposals == map[]
    ensures forall s :: 0 <= s < SEATS ==>
      a.IsActiveFor(s, s) && a.credentials[s].key == 0 && !a.credentials[s].hardware
  {
    var m := OneKeyBootstrappable(first);
    BootstrapInv(0, OneKeySeats(m), Guardian(7, 1, false, 0, true), Ed25519(1, m), first);
    a := Bootstrap(0, OneKeySeats(m), Guardian(7, 1, false, 0, true), Ed25519(1, m), first).value;
  }

  lemma SignsForBoth(a: Authority, p: Id, e: Evidence)
    requires a.IsActiveFor(0, 0) && a.IsActiveFor(1, 1)
    requires a.credentials[0].key == a.credentials[1].key == e.key && !a.credentials[0].hardware && !a.credentials[1].hardware
    requires p in a.proposals && !a.proposals[p].activated && a.proposals[p].signatures == map[]
    requires e.Ed25519? && e.message == Message(DOMAIN, Payload(a.community, p, a.proposals[p].action))
    ensures SignStep(a, p, 0, 0, e).0.Ok? && SignStep(SignStep(a, p, 0, 0, e).1, p, 1, 1, e).0.Ok?
  {}

  /** And there one signature of that key signs for two seats. */
  lemma OneSignatureTwoSeats(first: Document) returns (a: Authority, p: Id, e: Evidence)
    ensures Reachable(a) && SignStep(a, p, 0, 0, e).0.Ok? && SignStep(SignStep(a, p, 0, 0, e).1, p, 1, 1, e).0.Ok?
  {
    var start := OneKeyBootstraps(first);
    p := 0;
    a := ProposeStep(start, p, RemoveGuardian).1;
    OneCommand(start, Propose(p, RemoveGuardian));
    assert a.proposals[p] == Proposal(RemoveGuardian, false, map[]);
    assert a.credentials == start.credentials && a.seats == start.seats;
    e := Ed25519(0, Message(DOMAIN, Payload(a.community, p, RemoveGuardian)));
    assert a.IsActiveFor(0, 0) && a.IsActiveFor(1, 1) by { assert start.IsActiveFor(0, 0) && start.IsActiveFor(1, 1); }
    SignsForBoth(a, p, e);
  }

  lemma OneCommand(start: Authority, c: Command)
    requires Started(start)
    ensures Reachable(Step(start, c).1)
  {
    var cs := [c];
    assert cs[..0] == [];
    assert Run(start, cs) == Step(start, c).1;
  }

  // ---- the Guardian's evidence ----

  /** The command was carried out on the strength of this evidence of the Guardian's. */
  ghost predicate GuardianUsed(a: Authority, c: Command, e: Evidence) {
    Step(a, c).0.Ok?
    && match c
       case Suspend(_, _, _, f) => f == e
       case Activate(p, g, _) => p in a.proposals && a.proposals[p].action.Rotate? && g == Some(e)
       case _ => false
  }

  lemma SuspensionIsNoProposal(c: Id, seat: nat, id: Id, sequence: nat, d: Id, p: Id, action: Action)
    ensures Message(GUARDIAN, SuspensionPayload(c, seat, id, sequence)) != Message(GUARDIAN, Payload(d, p, action))
  {
    var x, y := SuspensionPayload(c, seat, id, sequence), Payload(d, p, action);
    SuspensionPayloadIsValid(c, seat, id, sequence);
    PayloadIsValid(d, p, action);
    DomainsSeparate(GUARDIAN, x, GUARDIAN, y);
    if Equal(x, y) { EqualHas(x.members, y.members, 0); }
    forall j | 0 <= j < |y.members| ensures !EqualMember(x.members[0], y.members[j]) { NoFormat(d, p, action, j); }
    assert !HasEqual(y.members, x.members[0]);
  }

  lemma {:induction false} EqualHas(a: seq<Member>, b: seq<Member>, i: nat)
    requires Equal(Obj(a), Obj(b)) && i < |a|
    ensures HasEqual(b, a[i])
  {}

  lemma NoFormat(c: Id, p: Id, action: Action, j: nat)
    requires j < |Payload(c, p, action).members|
    ensures Payload(c, p, action).members[j].key != "format"
  {
    assert "format"[0] == 'f' && "communityId"[0] == 'c' && "proposalId"[0] == 'p' && "actionType"[0] == 'a' && "after"[0] == 'a';
  }

  /** What the Guardian signs to suspend says the community, the seat, its credential and the sequence number. */
  lemma OneSuspension(c: Id, seat: nat, id: Id, n: nat, d: Id, other: nat, jd: Id, m: nat)
    requires Message(GUARDIAN, SuspensionPayload(c, seat, id, n)) == Message(GUARDIAN, SuspensionPayload(d, other, jd, m))
    ensures c == d && seat == other && id == jd && n == m
  {
    var x, y := SuspensionPayload(c, seat, id, n), SuspensionPayload(d, other, jd, m);
    SuspensionPayloadIsValid(c, seat, id, n);
    SuspensionPayloadIsValid(d, other, jd, m);
    DomainsSeparate(GUARDIAN, x, GUARDIAN, y);
    SameUnderKey(x.members, y.members, 1, 1);
    SameUnderKey(x.members, y.members, 2, 2);
    SameUnderKey(x.members, y.members, 3, 3);
    SameUnderKey(x.members, y.members, 4, 4);
  }

  lemma OneRotation(c: Id, p: Id, x: Action, d: Id, q: Id, y: Action)
    requires Message(GUARDIAN, Payload(c, p, x)) == Message(GUARDIAN, Payload(d, q, y))
    ensures p == q
  {
    PayloadIsValid(c, p, x);
    PayloadIsValid(d, q, y);
    DomainsSeparate(GUARDIAN, Payload(c, p, x), GUARDIAN, Payload(d, q, y));
    SameUnderKey(Payload(c, p, x).members, Payload(d, q, y).members, 1, 1);
  }

  /** What evidence the Guardian's part of a command accepted says, and that its use shows afterwards. */
  lemma GuardianUseShows(a: Authority, c: Command, e: Evidence)
    requires GuardianUsed(a, c, e)
    ensures c.Suspend? ==> e.message == Message(GUARDIAN, SuspensionPayload(a.community, c.seat, c.credential, |a.events|))
    ensures c.Activate? ==>
      e.message == Message(GUARDIAN, Payload(a.community, c.p, a.proposals[c.p].action))
      && !a.proposals[c.p].activated && c.p in Step(a, c).1.proposals && Step(a, c).1.proposals[c.p].activated
    ensures Step(a, c).1.community == a.community && |Step(a, c).1.events| > |a.events|
    ensures e.WebAuthn? ==>
      Step(a, c).1.guardian.count == e.count && (e.count > a.guardian.count || (e.count == 0 && a.guardian.count == 0))
  {}

  lemma GuardianCounterIsUsedUp(s: Authority, b: Authority, d: Command, f: Evidence)
    requires Later(s, b) && f.WebAuthn? && 0 < s.guardian.count && f.count <= s.guardian.count
    ensures !GuardianUsed(b, d, f)
  {
    if GuardianUsed(b, d, f) { GuardianUseShows(b, d, f); }
  }

  /** Evidence of the Guardian's is used once: not for a second suspension, nor a second rotation, nor for one of each. */
  lemma {:induction false} GuardianEvidenceUsedOnce(a: Authority, c: Command, e: Evidence, cs: seq<Command>, d: Command)
    requires Reachable(a) && GuardianUsed(a, c, e)
    ensures !GuardianUsed(Run(Step(a, c).1, cs), d, e)
  {
    ReachableInv(a);
    var s := Step(a, c).1;
    StepKeepsInv(a, c);
    RunKeepsInv(s, cs);
    var b := Run(s, cs);
    GuardianUseShows(a, c, e);
    if c.Activate? { assert LaterProposal(s.proposals[c.p], b.proposals[c.p]); }
    if GuardianUsed(b, d, e) {
      GuardianUseShows(b, d, e);
      if c.Suspend? && d.Suspend? {
        OneSuspension(a.community, c.seat, c.credential, |a.events|, b.community, d.seat, d.credential, |b.events|);
      } else if c.Suspend? {
        SuspensionIsNoProposal(a.community, c.seat, c.credential, |a.events|, b.community, d.p, b.proposals[d.p].action);
      } else if d.Suspend? {
        SuspensionIsNoProposal(b.community, d.seat, d.credential, |b.events|, a.community, c.p, a.proposals[c.p].action);
      } else {
        OneRotation(a.community, c.p, a.proposals[c.p].action, b.community, d.p, b.proposals[d.p].action);
      }
    }
  }

  /** In particular one suspension's evidence is accepted for no later suspension. */
  lemma {:induction false} SuspensionSignedOnce(
      a: Authority, seat: nat, id: Id, n: nat, e: Evidence, cs: seq<Command>, other: nat, jd: Id, m: nat)
    requires Reachable(a) && SuspendStep(a, seat, id, n, e).0.Ok?
    ensures !SuspendStep(Run(SuspendStep(a, seat, id, n, e).1, cs), other, jd, m, e).0.Ok?
  {
    var c, d := Suspend(seat, id, n, e), Suspend(other, jd, m, e);
    assert Step(a, c) == SuspendStep(a, seat, id, n, e);
    GuardianEvidenceUsedOnce(a, c, e, cs, d);
    assert Step(Run(Step(a, c).1, cs), d) == SuspendStep(Run(Step(a, c).1, cs), other, jd, m, e);
  }

  /** Nor is any other assertion of the Guardian's authenticator with that counter or a smaller one, for either use. */
  lemma {:induction false} GuardianCountersOnlyRise(
      a: Authority, c: Command, e: Evidence, cs: seq<Command>, d: Command, f: Evidence)
    requires Reachable(a) && GuardianUsed(a, c, e)
    requires e.WebAuthn? && f.WebAuthn? && 0 < e.count && f.count <= e.count
    ensures !GuardianUsed(Run(Step(a, c).1, cs), d, f)
  {
    ReachableInv(a);
    StepKeepsInv(a, c);
    RunKeepsInv(Step(a, c).1, cs);
    GuardianUseShows(a, c, e);
    GuardianCounterIsUsedUp(Step(a, c).1, Run(Step(a, c).1, cs), d, f);
  }

  // ---- domains ----

  lemma DomainsDiffer()
    ensures DOMAIN != GUARDIAN && DOMAIN != POSSESSION && DOMAIN != BOOTSTRAP
    ensures GUARDIAN != POSSESSION && GUARDIAN != BOOTSTRAP && POSSESSION != BOOTSTRAP
    ensures TRANSACTION !in {DOMAIN, GUARDIAN, POSSESSION, BOOTSTRAP}
  {
    assert TRANSACTION[0] == 'O' && DOMAIN[0] == GUARDIAN[0] == POSSESSION[0] == BOOTSTRAP[0] == 'S';
    assert DOMAIN[12] == 'C' && GUARDIAN[12] == 'G' && POSSESSION[12] == 'P' && BOOTSTRAP[12] == 'B';
  }

  /** What was signed as the Guardian, as a new key, at the bootstrap or for a trade is never a seat's signature,
      whoever's key it is: from the seat's own credential, on an open proposal, it is a bad request. */
  lemma OtherDomainsNeverSign(a: Authority, p: Id, seat: nat, id: Id, e: Evidence, domain: string, payload: Document)
    requires e.message == Message(domain, payload) && domain in {GUARDIAN, POSSESSION, BOOTSTRAP, TRANSACTION}
    ensures !SignStep(a, p, seat, id, e).0.Ok?
    ensures p in a.proposals && !a.proposals[p].activated && a.IsActiveFor(seat, id)
      ==> SignStep(a, p, seat, id, e) == (BadRequest, a)
  {
    DomainsDiffer();
    if p in a.proposals {
      var own := Payload(a.community, p, a.proposals[p].action);
      PayloadIsValid(a.community, p, a.proposals[p].action);
      DomainsSeparate(domain, payload, DOMAIN, own);
    }
  }

  /** The Guardian's credential signs for no seat: not now and not after any run. */
  lemma {:induction false} GuardianNeverSigns(a: Authority, cs: seq<Command>, p: Id, seat: nat, e: Evidence)
    requires Reachable(a)
    ensures var b := Run(a, cs); SignStep(b, p, seat, a.guardian.id, e) == (if p in b.proposals then Conflict else NotFound, b)
  {
    ReachableInv(a);
    RunKeepsInv(a, cs);
    var b := Run(a, cs);
    forall id | id in b.credentials ensures id != b.guardian.id { assert CredentialOk(b, id); }
  }

  /** An executed proposal is closed for good: no further signature, no further activation. */
  lemma {:induction false} ExecutedIsClosed(
      a: Authority, p: Id, cs: seq<Command>, seat: nat, id: Id, e: Evidence, g: Option<Evidence>, n: Option<Evidence>)
    requires Reachable(a) && p in a.proposals && a.proposals[p].activated
    ensures var b := Run(a, cs); SignStep(b, p, seat, id, e) == (Conflict, b) && ActivateStep(b, p, g, n) == (Conflict, b)
  {
    ReachableInv(a);
    RunKeepsInv(a, cs);
    assert LaterProposal(a.proposals[p], Run(a, cs).proposals[p]);
  }

  /** Controllers are for ever: no proposal to replace one is activated, and no command changes one. */
  lemma {:induction false} ControllersNeverChange(a: Authority, cs: seq<Command>, s: nat, p: Id)
    requires Reachable(a) && s < SEATS
    ensures var b := Run(a, cs);
      |a.seats| == |b.seats| == SEATS && b.seats[s].controller == a.seats[s].controller
      && (p in b.proposals && b.proposals[p].action.ReplaceController? ==> !b.proposals[p].activated)
  {
    ReachableInv(a);
    RunKeepsInv(a, cs);
    if p in Run(a, cs).proposals { assert ProposalOk(Run(a, cs), p); }
  }

  // ---- what it took ----

  /** `p` is the rotation that replaced credential `id`, signed by the six other seats. */
  ghost predicate Replaced(a: Authority, p: Id, id: Id) {
    p in a.proposals && a.proposals[p].activated && a.proposals[p].action.Rotate?
    && a.proposals[p].action.outgoing == id && OthersSigned(a.proposals[p], a.proposals[p].action.seat)
  }

  ghost predicate RemovedBy(a: Authority, p: Id) {
    p in a.proposals && a.proposals[p].activated && a.proposals[p].action.RemoveGuardian?
    && |a.proposals[p].signatures| >= 5
  }

  ghost predicate IsRevoked(a: Authority, id: Id) { id in a.credentials && a.credentials[id].status.Revoked? }

  ghost predicate Causes(a: Authority) {
    (forall id :: IsRevoked(a, id) ==> exists p :: Replaced(a, p, id))
    && (!a.guardian.active ==> exists p :: RemovedBy(a, p))
  }

  lemma CauseKept(a: Authority, b: Authority, p: Id, id: Id)
    requires Later(a, b)
    ensures Replaced(a, p, id) ==> Replaced(b, p, id)
    ensures RemovedBy(a, p) ==> RemovedBy(b, p)
  {
    if p in a.proposals {
      assert LaterProposal(a.proposals[p], b.proposals[p]);
      SignaturesGrow(a.proposals[p], b.proposals[p]);
    }
  }

  lemma RotationRevokes(a: Authority, p: Id, g: Option<Evidence>, n: Option<Evidence>, id: Id)
    requires p in a.proposals && a.proposals[p].action.Rotate? && !IsRevoked(a, id) && IsRevoked(RotateStep(a, p, g, n).1, id)
    ensures Replaced(RotateStep(a, p, g, n).1, p, id)
  {}

  lemma NewlyRevoked(a: Authority, c: Command, id: Id)
    requires !IsRevoked(a, id) && IsRevoked(Step(a, c).1, id)
    ensures c.Activate? && Replaced(Step(a, c).1, c.p, id)
  {
    match c
    case Propose(_, _) =>
    case Sign(_, _, _, _) =>
    case Suspend(_, _, _, _) =>
    case Activate(p, g, n) =>
      if p in a.proposals && a.proposals[p].action.Rotate? { RotationRevokes(a, p, g, n, id); }
  }

  lemma NewlyRemoved(a: Authority, c: Command)
    requires a.guardian.active && !Step(a, c).1.guardian.active
    ensures c.Activate? && RemovedBy(Step(a, c).1, c.p)
  {}

  lemma StepKeepsCauses(a: Authority, c: Command)
    requires Inv(a) && Causes(a)
    ensures Causes(Step(a, c).1)
  {
    var b := Step(a, c).1;
    StepIsLater(a, c);
    forall id | IsRevoked(b, id) ensures exists p :: Replaced(b, p, id) {
      if IsRevoked(a, id) {
        var p :| Replaced(a, p, id);
        CauseKept(a, b, p, id);
      } else {
        NewlyRevoked(a, c, id);
      }
    }
    if !b.guardian.active {
      if a.guardian.active {
        NewlyRemoved(a, c);
      } else {
        var p :| RemovedBy(a, p);
        CauseKept(a, b, p, 0);
      }
    }
  }

  lemma {:induction false} RunKeepsCauses(a: Authority, cs: seq<Command>)
    requires Inv(a) && Causes(a)
    ensures Causes(Run(a, cs))
    decreases |cs|
  {
    if cs != [] {
      RunKeepsCauses(a, cs[..|cs| - 1]);
      RunKeepsInv(a, cs[..|cs| - 1]);
      StepKeepsCauses(Run(a, cs[..|cs| - 1]), cs[|cs| - 1]);
    }
  }

  lemma ReachableCauses(a: Authority)
    requires Reachable(a)
    ensures Causes(a)
  {
    var start, cs :| Started(start) && a == Run(start, cs);
    var community, os, g, possession, first :| Bootstrap(community, os, g, possession, first) == Some(start);
    BootstrapInv(community, os, g, possession, first);
    forall id | id in start.credentials ensures !IsRevoked(start, id) { EnrolShape(os, SEATS, id); }
    RunKeepsCauses(start, cs);
  }

  /** No credential was ever replaced but by a rotation that the six other seats signed, each while it was active. */
  lemma ReplacementTookSixSeats(a: Authority, id: Id) returns (p: Id)
    requires Reachable(a) && IsRevoked(a, id)
    ensures Replaced(a, p, id)
    ensures forall s :: 0 <= s < SEATS && s != a.proposals[p].action.seat ==> SignedWhileActive(a, p, s)
  {
    ReachableCauses(a);
    ReachableInv(a);
    p :| Replaced(a, p, id);
    SignersAreSeats(a, p);
  }

  /** The Guardian was removed only by a proposal that at least five distinct seats signed. */
  lemma RemovalTookFiveSeats(a: Authority) returns (p: Id)
    requires Reachable(a) && !a.guardian.active
    ensures RemovedBy(a, p)
    ensures forall s :: s in a.proposals[p].signatures.Keys ==> s < SEATS && SignedWhileActive(a, p, s)
  {
    ReachableCauses(a);
    ReachableInv(a);
    p :| RemovedBy(a, p);
    SignersAreSeats(a, p);
  }

  // ---- what a bootstrap binds ----

  lemma BootstrapPayloadIsValid(c: Id, os: seq<Opening>, g: Id, k: Key, first: Document)
    ensures Valid(BootstrapPayload(c, os, g, k, first))
  {
    var v := BootstrapPayload(c, os, g, k, first);
    forall i | 0 <= i < |os| ensures Valid(SeatList(os)[i]) { SeatIsValid(os[i]); }
    assert Valid(Arr(SeatList(os)));
    forall i | 0 <= i < |v.members| ensures ValidMember(v.members[i]) {}
  }

  lemma SeatIsValid(o: Opening)
    ensures Valid(SeatJson(o))
  {
    forall i | 0 <= i < |SeatJson(o).members| ensures ValidMember(SeatJson(o).members[i]) {}
  }

  lemma SameSeat(o: Opening, p: Opening)
    requires Equal(SeatJson(o), SeatJson(p))
    ensures o.controller == p.controller && o.credential == p.credential && o.key == p.key
  {
    var a, b := SeatJson(o).members, SeatJson(p).members;
    SameUnderKey(a, b, 0, 0);
    SameUnderKey(a, b, 1, 1);
    SameUnderKey(a, b, 2, 2);
  }

  /** A proof of possession is for one community, one list of seats, one Guardian and one first constitution. */
  lemma {:induction false} BootstrapBindsEverything(c: Id, os: seq<Opening>, g: Id, k: Key, first: Document,
                                 d: Id, ps: seq<Opening>, h: Id, l: Key, second: Document)
    requires Message(BOOTSTRAP, BootstrapPayload(c, os, g, k, first)) == Message(BOOTSTRAP, BootstrapPayload(d, ps, h, l, second))
    ensures c == d && g == h && k == l && Equal(first, second) && |os| == |ps|
    ensures forall i :: 0 <= i < |os| ==>
      os[i].controller == ps[i].controller && os[i].credential == ps[i].credential && os[i].key == ps[i].key
  {
    var x, y := BootstrapPayload(c, os, g, k, first), BootstrapPayload(d, ps, h, l, second);
    BootstrapPayloadIsValid(c, os, g, k, first);
    BootstrapPayloadIsValid(d, ps, h, l, second);
    DomainsSeparate(BOOTSTRAP, x, BOOTSTRAP, y);
    SameUnderKey(x.members, y.members, 1, 1);
    SameUnderKey(x.members, y.members, 2, 2);
    SameUnderKey(x.members, y.members, 3, 3);
    SameUnderKey(x.members, y.members, 4, 4);
    SameUnderKey(x.members, y.members, 5, 5);
    assert Equal(Arr(SeatList(os)), Arr(SeatList(ps)));
    forall i | 0 <= i < |os|
      ensures os[i].controller == ps[i].controller && os[i].credential == ps[i].credential && os[i].key == ps[i].key
    {
      assert Equal(SeatList(os)[i], SeatList(ps)[i]);
      SameSeat(os[i], ps[i]);
    }
  }
}
