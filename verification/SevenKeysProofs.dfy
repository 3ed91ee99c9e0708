// What every step of Seven Keys governance keeps, and how a later state relates to an earlier one.
module SevenKeysProofs {
  import opened Wrappers
  import opened CanonicalJson
  import opened CanonicalOrder
  import opened SevenKeys

  // ---- the invariant ----

  ghost predicate SeatOk(a: Authority, s: nat)
    requires s < |a.seats|
  {
    var id := a.seats[s].credential;
    id in a.credentials && a.credentials[id].seat == s && !a.credentials[id].status.Revoked?
  }

  ghost predicate CredentialOk(a: Authority, id: Id)
    requires id in a.credentials
  {
    var c := a.credentials[id];
    c.seat < SEATS && c.since < |a.events| && id != a.guardian.id
    && (c.status.Active? <==> c.until.None?)
    && (c.until.Some? ==> c.since <= c.until.value < |a.events|)
    && (!c.status.Revoked? ==> c.seat < |a.seats| && a.seats[c.seat].credential == id)
  }

  /** The signature was made by its credential's key over this proposal, while that was the seat's active credential. */
  ghost predicate SigningOk(a: Authority, p: Id, s: nat)
    requires p in a.proposals && s in a.proposals[p].signatures
  {
    var g := a.proposals[p].signatures[s];
    s < SEATS && g.credential in a.credentials && g.at < |a.events|
    && a.events[g.at] == Signed(p, s, g.credential)
    && var c := a.credentials[g.credential];
       c.seat == s && c.since <= g.at && (c.until.Some? ==> g.at < c.until.value)
       && g.evidence.key == c.key && g.evidence.message == Message(DOMAIN, Payload(a.community, p, a.proposals[p].action))
  }

  ghost predicate HasVersion(a: Authority, p: Id) {
    exists k :: 1 <= k < |a.versions| && a.versions[k].proposal == Some(p)
  }

  ghost predicate ProposalOk(a: Authority, p: Id)
    requires p in a.proposals
  {
    var q := a.proposals[p];
    (forall s :: s in q.signatures ==> SigningOk(a, p, s))
    && (q.activated ==> !q.action.ReplaceController?)
    && (q.activated && q.action.Amend? ==> HasVersion(a, p))
  }

  ghost predicate VersionOk(a: Authority, k: nat)
    requires k < |a.versions|
  {
    if k == 0 then a.versions[k].proposal.None?
    else
      a.versions[k].proposal.Some? && a.versions[k].proposal.value in a.proposals
      && var q := a.proposals[a.versions[k].proposal.value];
         q.activated && q.action == Amend(a.versions[k].document) && |q.signatures| >= CONSTITUTIONAL_THRESHOLD
  }

  ghost predicate OneSuspended(a: Authority) {
    forall s, t :: 0 <= s < |a.seats| && 0 <= t < |a.seats| && a.IsSuspended(s) && a.IsSuspended(t) ==> s == t
  }

  ghost predicate DistinctSources(a: Authority) {
    forall j, k :: 1 <= j < k < |a.versions| ==> a.versions[j].proposal != a.versions[k].proposal
  }

  ghost predicate RosterOk(a: Authority) {
    |a.seats| == SEATS && |a.versions| >= 1 && |a.events| >= 1
    && (forall s :: 0 <= s < |a.seats| ==> SeatOk(a, s))
    && (forall id :: id in a.credentials ==> CredentialOk(a, id))
    && OneSuspended(a)
  }

  ghost predicate ProposalsOk(a: Authority) { forall p :: p in a.proposals ==> ProposalOk(a, p) }

  ghost predicate VersionsOk(a: Authority) {
    (forall k :: 0 <= k < |a.versions| ==> VersionOk(a, k)) && DistinctSources(a)
  }

  ghost predicate Inv(a: Authority) { RosterOk(a) && ProposalsOk(a) && VersionsOk(a) }

  // ---- time passing ----

  /** `now` is the sequence number at which the time between the two began. */
  predicate LaterCredential(c: Credential, d: Credential, now: nat) {
    d.seat == c.seat && d.key == c.key && d.hardware == c.hardware && d.since == c.since && c.count <= d.count
    && (c.status.Revoked? ==> d.status.Revoked?) && (c.status.Suspended? ==> !d.status.Active?)
    && (c.until.Some? ==> d.until == c.until)
    && (c.until.None? && d.until.Some? ==> d.until.value >= now)
  }

  predicate LaterProposal(q: Proposal, r: Proposal) {
    r.action == q.action && (q.activated ==> r.activated)
    && forall s :: s in q.signatures ==> s in r.signatures && r.signatures[s] == q.signatures[s]
  }

  predicate LaterGuardian(g: Guardian, h: Guardian) {
    h.id == g.id && h.key == g.key && h.hardware == g.hardware && g.count <= h.count && (h.active ==> g.active)
  }

  /** Nothing that was recorded is lost or altered: controllers, keys, counters, signatures, versions, events. */
  ghost predicate Later(a: Authority, b: Authority) {
    b.community == a.community && |b.seats| == |a.seats| && LaterGuardian(a.guardian, b.guardian)
    && (forall s :: 0 <= s < |a.seats| ==> b.seats[s].controller == a.seats[s].controller)
    && (forall id :: id in a.credentials ==> id in b.credentials && LaterCredential(a.credentials[id], b.credentials[id], |a.events|))
    && (forall p :: p in a.proposals ==> p in b.proposals && LaterProposal(a.proposals[p], b.proposals[p]))
    && a.versions <= b.versions && a.events <= b.events
  }

  lemma LaterIsReflexive(a: Authority)
    ensures Later(a, a)
  {}

  lemma ProposeIsLater(a: Authority, p: Id, action: Action)
    ensures Later(a, ProposeStep(a, p, action).1)
  {
    LaterIsReflexive(a);
  }

  lemma SignIsLater(a: Authority, p: Id, seat: nat, credential: Id, e: Evidence)
    requires SignStep(a, p, seat, credential, e).0.Ok?
    ensures Later(a, SignStep(a, p, seat, credential, e).1)
  {
    var b := SignStep(a, p, seat, credential, e).1;
    forall id | id in a.credentials ensures LaterCredential(a.credentials[id], b.credentials[id], |a.events|) {}
    forall r | r in a.proposals ensures LaterProposal(a.proposals[r], b.proposals[r]) {}
  }

  lemma SuspendIsLater(a: Authority, seat: nat, credential: Id, expected: nat, e: Evidence)
    requires SuspendStep(a, seat, credential, expected, e).0.Ok?
    requires credential in a.credentials && CredentialOk(a, credential)
    ensures Later(a, SuspendStep(a, seat, credential, expected, e).1)
  {
    var b := SuspendStep(a, seat, credential, expected, e).1;
    forall id | id in a.credentials ensures LaterCredential(a.credentials[id], b.credentials[id], |a.events|) {}
  }

  lemma RotateIsLater(a: Authority, p: Id, g: Option<Evidence>, n: Option<Evidence>)
    requires p in a.proposals && a.proposals[p].action.Rotate? && RotateStep(a, p, g, n).0.Ok?
    ensures Later(a, RotateStep(a, p, g, n).1)
  {
    var b := RotateStep(a, p, g, n).1;
    forall id | id in a.credentials ensures LaterCredential(a.credentials[id], b.credentials[id], |a.events|) {}
    forall r | r in a.proposals ensures LaterProposal(a.proposals[r], b.proposals[r]) {}
  }

  lemma AmendIsLater(a: Authority, p: Id, after: Document)
    requires p in a.proposals && AmendStep(a, p, after).0.Ok?
    ensures Later(a, AmendStep(a, p, after).1)
  {
    LaterIsReflexive(a);
  }

  lemma RemoveIsLater(a: Authority, p: Id)
    requires p in a.proposals && RemoveStep(a, p).0.Ok?
    ensures Later(a, RemoveStep(a, p).1)
  {
    LaterIsReflexive(a);
  }

  /** A command that is not accepted changes nothing. */
  lemma RefusedChangesNothing(a: Authority, c: Command)
    ensures !Step(a, c).0.Ok? ==> Step(a, c).1 == a
  {}

  lemma ActivateIsLater(a: Authority, p: Id, g: Option<Evidence>, n: Option<Evidence>)
    requires ActivateStep(a, p, g, n).0.Ok?
    ensures Later(a, ActivateStep(a, p, g, n).1)
  {
    match a.proposals[p].action
    case Amend(after) => AmendIsLater(a, p, after);
    case Rotate(_, _, _, _, _, _) => RotateIsLater(a, p, g, n);
    case RemoveGuardian => RemoveIsLater(a, p);
  }

  lemma StepIsLater(a: Authority, c: Command)
    requires Inv(a)
    ensures Later(a, Step(a, c).1)
  {
    RefusedChangesNothing(a, c);
    if Step(a, c).0.Ok? {
      match c
      case Propose(p, action) => ProposeIsLater(a, p, action);
      case Sign(p, seat, credential, e) => SignIsLater(a, p, seat, credential, e);
      case Suspend(seat, credential, expected, e) =>
        assert CredentialOk(a, credential);
        SuspendIsLater(a, seat, credential, expected, e);
      case Activate(p, g, n) => ActivateIsLater(a, p, g, n);
    } else {
      LaterIsReflexive(a);
    }
  }

  lemma LaterIsTransitive(a: Authority, b: Authority, c: Authority)
    requires Later(a, b) && Later(b, c)
    ensures Later(a, c)
  {}

  // ---- every step keeps the invariant ----

  lemma SigningKept(a: Authority, b: Authority, p: Id, s: nat)
    requires Later(a, b) && p in a.proposals && s in a.proposals[p].signatures && SigningOk(a, p, s)
    ensures p in b.proposals && s in b.proposals[p].signatures && SigningOk(b, p, s)
  {
    var g := a.proposals[p].signatures[s];
    assert LaterProposal(a.proposals[p], b.proposals[p]);
    assert LaterCredential(a.credentials[g.credential], b.credentials[g.credential], |a.events|);
    assert b.events[g.at] == a.events[g.at];
  }

  lemma SignaturesGrow(q: Proposal, r: Proposal)
    requires LaterProposal(q, r)
    ensures |q.signatures| <= |r.signatures|
  {
    SubsetSize(q.signatures.Keys, r.signatures.Keys);
  }

  lemma {:induction false} SubsetSize<T>(x: set<T>, y: set<T>)
    requires x <= y
    ensures |x| <= |y|
  {
    if x != {} {
      var e :| e in x;
      SubsetSize(x - {e}, y - {e});
    }
  }

  lemma VersionKept(a: Authority, b: Authority, k: nat)
    requires Later(a, b) && k < |a.versions| && VersionOk(a, k)
    ensures VersionOk(b, k)
  {
    assert b.versions[k] == a.versions[k];
    if k > 0 {
      var p := a.versions[k].proposal.value;
      assert LaterProposal(a.proposals[p], b.proposals[p]);
      SignaturesGrow(a.proposals[p], b.proposals[p]);
    }
  }

  lemma HasVersionKept(a: Authority, b: Authority, p: Id)
    requires Later(a, b) && HasVersion(a, p)
    ensures HasVersion(b, p)
  {
    var k :| 1 <= k < |a.versions| && a.versions[k].proposal == Some(p);
    assert b.versions[k] == a.versions[k];
  }

  /** A proposal as some step may leave it: nothing new on it but what the step checked. */
  ghost predicate ProposalStepOk(a: Authority, b: Authority, p: Id)
    requires p in b.proposals
  {
    var r := b.proposals[p];
    (p !in a.proposals ==> r.signatures == map[] && !r.activated)
    && (forall s :: s in r.signatures ==> (p in a.proposals && s in a.proposals[p].signatures) || SigningOk(b, p, s))
    && (r.activated && !(p in a.proposals && a.proposals[p].activated)
        ==> !r.action.ReplaceController? && (r.action.Amend? ==> HasVersion(b, p)))
  }

  lemma ProposalStepKeeps(a: Authority, b: Authority, p: Id)
    requires Later(a, b) && p in b.proposals && ProposalStepOk(a, b, p)
    requires p in a.proposals ==> ProposalOk(a, p)
    ensures ProposalOk(b, p)
  {
    var r := b.proposals[p];
    forall s | s in r.signatures ensures SigningOk(b, p, s) {
      if p in a.proposals && s in a.proposals[p].signatures {
        assert SigningOk(a, p, s);
        SigningKept(a, b, p, s);
      }
    }
    if p in a.proposals {
      assert LaterProposal(a.proposals[p], b.proposals[p]);
      if HasVersion(a, p) { HasVersionKept(a, b, p); }
    }
  }

  /** Only an amendment adds a version, and it is one not activated before. */
  ghost predicate VersionsStepOk(a: Authority, b: Authority) {
    b.versions == a.versions
    || (|b.versions| == |a.versions| + 1 && VersionOk(b, |a.versions|)
        && var p := b.versions[|a.versions|].proposal; p.Some? && p.value in a.proposals && !a.proposals[p.value].activated)
  }

  lemma VersionsKept(a: Authority, b: Authority)
    requires Later(a, b) && VersionsStepOk(a, b) && VersionsOk(a)
    ensures forall k :: 0 <= k < |b.versions| ==> VersionOk(b, k)
  {
    forall k | 0 <= k < |b.versions| ensures VersionOk(b, k) {
      if k < |a.versions| {
        assert VersionOk(a, k);
        VersionKept(a, b, k);
      }
    }
  }

  lemma SourcesStayDistinct(a: Authority, b: Authority)
    requires Later(a, b) && VersionsStepOk(a, b) && VersionsOk(a)
    ensures DistinctSources(b)
  {
    forall j, k | 1 <= j < k < |b.versions| ensures b.versions[j].proposal != b.versions[k].proposal {
      assert b.versions[j] == a.versions[j] && VersionOk(a, j);
      if k < |a.versions| { assert b.versions[k] == a.versions[k]; }
    }
  }

  ghost predicate ProposalsStepOk(a: Authority, b: Authority) {
    forall p :: p in b.proposals ==> ProposalStepOk(a, b, p)
  }

  lemma ProposalsKept(a: Authority, b: Authority)
    requires ProposalsOk(a) && Later(a, b) && ProposalsStepOk(a, b)
    ensures ProposalsOk(b)
  {
    forall p | p in b.proposals ensures ProposalOk(b, p) {
      assert ProposalStepOk(a, b, p);
      ProposalStepKeeps(a, b, p);
    }
  }

  lemma StepKeeps(a: Authority, b: Authority)
    requires Inv(a) && Later(a, b) && RosterOk(b) && VersionsStepOk(a, b) && ProposalsStepOk(a, b)
    ensures Inv(b)
  {
    ProposalsKept(a, b);
    VersionsKept(a, b);
    SourcesStayDistinct(a, b);
  }

  lemma ProposeMoves(a: Authority, p: Id, action: Action)
    requires ProposeStep(a, p, action).0.Ok?
    ensures var b := ProposeStep(a, p, action).1;
            VersionsStepOk(a, b) && ProposalsStepOk(a, b) && SameSeats(a, b)
  {}

  lemma ProposeKeepsInv(a: Authority, p: Id, action: Action)
    requires Inv(a) && ProposeStep(a, p, action).0.Ok?
    ensures Inv(ProposeStep(a, p, action).1)
  {
    var b := ProposeStep(a, p, action).1;
    ProposeIsLater(a, p, action);
    ProposeMoves(a, p, action);
    SameRoster(a, b);
    StepKeeps(a, b);
  }

  /** Credentials may be used, but stand as they stood. */
  predicate SameStanding(c: Credential, d: Credential) {
    d.(count := c.count) == c
  }

  /** Every seat has the credential it had, and every credential its standing. */
  ghost predicate SameSeats(a: Authority, b: Authority) {
    b.seats == a.seats && b.guardian.id == a.guardian.id && b.credentials.Keys == a.credentials.Keys
    && (forall id :: id in a.credentials ==> SameStanding(a.credentials[id], b.credentials[id]))
    && |b.events| >= |a.events| && |b.versions| >= |a.versions|
  }

  lemma SameRoster(a: Authority, b: Authority)
    requires RosterOk(a) && SameSeats(a, b)
    ensures RosterOk(b)
  {
    forall s | 0 <= s < |b.seats| ensures SeatOk(b, s) {
      assert SeatOk(a, s);
      assert SameStanding(a.credentials[a.seats[s].credential], b.credentials[a.seats[s].credential]);
    }
    forall id | id in b.credentials ensures CredentialOk(b, id) {
      assert CredentialOk(a, id) && SameStanding(a.credentials[id], b.credentials[id]);
    }
    forall s, t | 0 <= s < |b.seats| && 0 <= t < |b.seats| && b.IsSuspended(s) && b.IsSuspended(t) ensures s == t {
      assert SeatOk(a, s) && SeatOk(a, t);
      assert SameStanding(a.credentials[a.seats[s].credential], b.credentials[a.seats[s].credential]);
      assert SameStanding(a.credentials[a.seats[t].credential], b.credentials[a.seats[t].credential]);
      assert a.IsSuspended(s) && a.IsSuspended(t);
    }
  }

  lemma SignMoves(a: Authority, p: Id, seat: nat, credential: Id, e: Evidence)
    requires RosterOk(a) && SignStep(a, p, seat, credential, e).0.Ok?
    ensures var b := SignStep(a, p, seat, credential, e).1;
            VersionsStepOk(a, b) && ProposalsStepOk(a, b) && SameSeats(a, b)
  {
    var b := SignStep(a, p, seat, credential, e).1;
    assert CredentialOk(a, credential) && SeatOk(a, seat);
    assert b.events[|a.events|] == Signed(p, seat, credential);
    assert SigningOk(b, p, seat);
    forall r | r in b.proposals ensures ProposalStepOk(a, b, r) {}
  }

  lemma SignKeepsInv(a: Authority, p: Id, seat: nat, credential: Id, e: Evidence)
    requires Inv(a) && SignStep(a, p, seat, credential, e).0.Ok?
    ensures Inv(SignStep(a, p, seat, credential, e).1)
  {
    var b := SignStep(a, p, seat, credential, e).1;
    SignIsLater(a, p, seat, credential, e);
    SignMoves(a, p, seat, credential, e);
    SameRoster(a, b);
    StepKeeps(a, b);
  }

  lemma SuspendRoster(a: Authority, seat: nat, credential: Id, expected: nat, e: Evidence)
    requires RosterOk(a) && SuspendStep(a, seat, credential, expected, e).0.Ok?
    ensures RosterOk(SuspendStep(a, seat, credential, expected, e).1)
  {
    var b := SuspendStep(a, seat, credential, expected, e).1;
    forall s | 0 <= s < |b.seats| ensures SeatOk(b, s) { assert SeatOk(a, s); }
    forall id | id in b.credentials ensures CredentialOk(b, id) { assert CredentialOk(a, id); }
    forall s | 0 <= s < |b.seats| && b.IsSuspended(s) ensures s == seat {
      assert SeatOk(a, s) && SeatOk(a, seat);
      if a.seats[s].credential != credential { assert a.IsSuspended(s) && a.Frozen(); }
    }
  }

  lemma SuspendMoves(a: Authority, seat: nat, credential: Id, expected: nat, e: Evidence)
    requires RosterOk(a) && SuspendStep(a, seat, credential, expected, e).0.Ok?
    ensures var b := SuspendStep(a, seat, credential, expected, e).1;
            Later(a, b) && VersionsStepOk(a, b) && ProposalsStepOk(a, b)
  {
    assert CredentialOk(a, credential);
    SuspendIsLater(a, seat, credential, expected, e);
  }

  lemma SuspendKeepsInv(a: Authority, seat: nat, credential: Id, expected: nat, e: Evidence)
    requires Inv(a) && SuspendStep(a, seat, credential, expected, e).0.Ok?
    ensures Inv(SuspendStep(a, seat, credential, expected, e).1)
  {
    SuspendMoves(a, seat, credential, expected, e);
    SuspendRoster(a, seat, credential, expected, e);
    StepKeeps(a, SuspendStep(a, seat, credential, expected, e).1);
  }

  lemma MarkedProposals(a: Authority, b: Authority, p: Id)
    requires p in a.proposals && b.proposals == a.proposals[p := a.proposals[p].(activated := true)]
    requires !a.proposals[p].action.ReplaceController? && (a.proposals[p].action.Amend? ==> HasVersion(b, p))
    ensures ProposalsStepOk(a, b)
  {}

  lemma AmendMoves(a: Authority, p: Id, after: Document)
    requires p in a.proposals && !a.proposals[p].activated && a.proposals[p].action == Amend(after)
    requires |a.versions| >= 1 && AmendStep(a, p, after).0.Ok?
    ensures var b := AmendStep(a, p, after).1; VersionsStepOk(a, b) && ProposalsStepOk(a, b) && SameSeats(a, b)
  {
    var b := AmendStep(a, p, after).1;
    assert b.versions[|a.versions|] == Version(after, Some(p));
    MarkedProposals(a, b, p);
  }

  lemma AmendKeepsInv(a: Authority, p: Id, after: Document)
    requires Inv(a) && p in a.proposals && !a.proposals[p].activated && a.proposals[p].action == Amend(after)
    requires AmendStep(a, p, after).0.Ok?
    ensures Inv(AmendStep(a, p, after).1)
  {
    var b := AmendStep(a, p, after).1;
    AmendIsLater(a, p, after);
    AmendMoves(a, p, after);
    SameRoster(a, b);
    StepKeeps(a, b);
  }

  lemma RotateSeats(a: Authority, p: Id, g: Option<Evidence>, n: Option<Evidence>)
    requires RosterOk(a) && p in a.proposals && a.proposals[p].action.Rotate? && RotateStep(a, p, g, n).0.Ok?
    ensures var b := RotateStep(a, p, g, n).1;
            (forall s :: 0 <= s < |b.seats| ==> SeatOk(b, s)) && forall id :: id in b.credentials ==> CredentialOk(b, id)
  {
    var b := RotateStep(a, p, g, n).1;
    var r := a.proposals[p].action;
    assert SeatOk(a, r.seat) && CredentialOk(a, r.outgoing);
    forall s | 0 <= s < |b.seats| ensures SeatOk(b, s) { assert SeatOk(a, s); }
    forall id | id in b.credentials ensures CredentialOk(b, id) {
      if id in a.credentials { assert CredentialOk(a, id); }
    }
  }

  /** The seat that was suspended was the only one. */
  lemma RotateThaws(a: Authority, p: Id, g: Option<Evidence>, n: Option<Evidence>)
    requires RosterOk(a) && p in a.proposals && a.proposals[p].action.Rotate? && RotateStep(a, p, g, n).0.Ok?
    ensures !RotateStep(a, p, g, n).1.Frozen()
  {
    var b := RotateStep(a, p, g, n).1;
    var r := a.proposals[p].action;
    assert a.IsSuspended(r.seat);
    forall s | 0 <= s < |b.seats| ensures !b.IsSuspended(s) {
      assert SeatOk(a, s) && SeatOk(a, r.seat);
      if s != r.seat { assert !a.IsSuspended(s); }
    }
  }

  lemma RotateRoster(a: Authority, p: Id, g: Option<Evidence>, n: Option<Evidence>)
    requires RosterOk(a) && p in a.proposals && a.proposals[p].action.Rotate? && RotateStep(a, p, g, n).0.Ok?
    ensures RosterOk(RotateStep(a, p, g, n).1)
  {
    RotateSeats(a, p, g, n);
    RotateThaws(a, p, g, n);
  }

  lemma RotateMoves(a: Authority, p: Id, g: Option<Evidence>, n: Option<Evidence>)
    requires p in a.proposals && a.proposals[p].action.Rotate? && RotateStep(a, p, g, n).0.Ok?
    ensures var b := RotateStep(a, p, g, n).1; VersionsStepOk(a, b) && ProposalsStepOk(a, b)
  {
    MarkedProposals(a, RotateStep(a, p, g, n).1, p);
  }

  lemma RotateKeepsInv(a: Authority, p: Id, g: Option<Evidence>, n: Option<Evidence>)
    requires Inv(a) && p in a.proposals && a.proposals[p].action.Rotate? && RotateStep(a, p, g, n).0.Ok?
    ensures Inv(RotateStep(a, p, g, n).1)
  {
    RotateIsLater(a, p, g, n);
    RotateRoster(a, p, g, n);
    RotateMoves(a, p, g, n);
    StepKeeps(a, RotateStep(a, p, g, n).1);
  }

  lemma RemoveMoves(a: Authority, p: Id)
    requires p in a.proposals && a.proposals[p].action.RemoveGuardian? && RemoveStep(a, p).0.Ok?
    ensures var b := RemoveStep(a, p).1; VersionsStepOk(a, b) && ProposalsStepOk(a, b) && SameSeats(a, b)
  {
    MarkedProposals(a, RemoveStep(a, p).1, p);
  }

  lemma RemoveKeepsInv(a: Authority, p: Id)
    requires Inv(a) && p in a.proposals && a.proposals[p].action.RemoveGuardian? && RemoveStep(a, p).0.Ok?
    ensures Inv(RemoveStep(a, p).1)
  {
    var b := RemoveStep(a, p).1;
    RemoveIsLater(a, p);
    RemoveMoves(a, p);
    SameRoster(a, b);
    StepKeeps(a, b);
  }

  lemma ActivateKeepsInv(a: Authority, p: Id, g: Option<Evidence>, n: Option<Evidence>)
    requires Inv(a) && ActivateStep(a, p, g, n).0.Ok?
    ensures Inv(ActivateStep(a, p, g, n).1)
  {
    match a.proposals[p].action
    case Amend(after) => AmendKeepsInv(a, p, after);
    case Rotate(_, _, _, _, _, _) => RotateKeepsInv(a, p, g, n);
    case RemoveGuardian => RemoveKeepsInv(a, p);
  }

  lemma StepKeepsInv(a: Authority, c: Command)
    requires Inv(a)
    ensures Inv(Step(a, c).1)
  {
    RefusedChangesNothing(a, c);
    if Step(a, c).0.Ok? {
      match c
      case Propose(p, action) => ProposeKeepsInv(a, p, action);
      case Sign(p, seat, credential, e) => SignKeepsInv(a, p, seat, credential, e);
      case Suspend(seat, credential, expected, e) => SuspendKeepsInv(a, seat, credential, expected, e);
      case Activate(p, g, n) => ActivateKeepsInv(a, p, g, n);
    }
  }

  lemma {:induction false} RunKeepsInv(a: Authority, cs: seq<Command>)
    requires Inv(a)
    ensures Inv(Run(a, cs)) && Later(a, Run(a, cs))
    decreases |cs|
  {
    if cs != [] {
      var before, c := Run(a, cs[..|cs| - 1]), cs[|cs| - 1];
      RunKeepsInv(a, cs[..|cs| - 1]);
      StepKeepsInv(before, c);
      StepIsLater(before, c);
      LaterIsTransitive(a, before, Step(before, c).1);
    }
  }

  // ---- the bootstrap ----

  lemma {:induction false} EnrolShape(os: seq<Opening>, n: nat, id: Id)
    requires n <= |os|
    ensures id in Enrol(os, n) <==> exists i :: 0 <= i < n && os[i].credential == id
    ensures id in Enrol(os, n) ==>
      var c := Enrol(os, n)[id];
      c.seat < n && os[c.seat].credential == id && c.status.Active? && c.until.None? && c.since == 0
  {
    if n > 0 {
      var m := n - 1;
      EnrolShape(os, m, id);
      if id == os[m].credential {
        assert exists i :: 0 <= i < n && os[i].credential == id;
      }
    }
  }

  lemma {:induction false} EnrolHolds(os: seq<Opening>, n: nat, i: nat)
    requires i < n <= |os| && forall j, k :: 0 <= j < k < |os| ==> os[j].credential != os[k].credential
    ensures os[i].credential in Enrol(os, n) && Enrol(os, n)[os[i].credential].key == os[i].key
    ensures Enrol(os, n)[os[i].credential].hardware == os[i].hardware
  {
    if i < n - 1 { EnrolHolds(os, n - 1, i); }
  }

  /** An accepted bootstrap is sound, with each seat active under the key it proved, and the first document in force. */
  lemma BootstrapInv(community: Id, os: seq<Opening>, g: Guardian, possession: Evidence, first: Document)
    ensures var r := Bootstrap(community, os, g, possession, first);
      r.Some? ==>
        Inv(r.value) && |os| == SEATS && !r.value.Frozen() && r.value.versions == [Version(first, None)]
        && (forall s :: 0 <= s < SEATS ==>
              r.value.IsActiveFor(s, os[s].credential) && r.value.credentials[os[s].credential].key == os[s].key
              && r.value.credentials[os[s].credential].hardware == os[s].hardware
              && r.value.seats[s].controller == os[s].controller && os[s].credential != r.value.guardian.id)
        && (forall s, t :: 0 <= s < t < SEATS ==> os[s].credential != os[t].credential)
  {
    var r := Bootstrap(community, os, g, possession, first);
    if r.Some? {
      var a := r.value;
      forall s | 0 <= s < |a.seats| ensures SeatOk(a, s) && !a.IsSuspended(s) && a.IsActiveFor(s, os[s].credential) {
        EnrolShape(os, SEATS, os[s].credential);
      }
      forall s | 0 <= s < SEATS ensures a.credentials[os[s].credential].key == os[s].key
        && a.credentials[os[s].credential].hardware == os[s].hardware { EnrolHolds(os, SEATS, s); }
      forall id | id in a.credentials ensures CredentialOk(a, id) { EnrolShape(os, SEATS, id); }
    }
  }

  /** Some community was bootstrapped and then received some commands. */
  ghost predicate Reachable(a: Authority) {
    exists start: Authority, cs: seq<Command> :: Started(start) && a == Run(start, cs)
  }

  ghost predicate Started(a: Authority) {
    exists community, os, g, possession, first :: Bootstrap(community, os, g, possession, first) == Some(a)
  }

  lemma ReachableInv(a: Authority)
    requires Reachable(a)
    ensures Inv(a)
  {
    var start, cs :| Started(start) && a == Run(start, cs);
    var community, os, g, possession, first :| Bootstrap(community, os, g, possession, first) == Some(start);
    BootstrapInv(community, os, g, possession, first);
    RunKeepsInv(start, cs);
  }
}
