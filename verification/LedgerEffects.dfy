// What each provisioning request achieves: who can sign from then on, up to what debt, and for how long.
module LedgerEffects {
  import opened Wrappers
  import opened Ledger
  import opened LedgerProofs
  import opened LedgerTheorems
  import Base64Url

  // ---- revocation ----

  /** `k` is a credential of the community that has not been revoked. */
  ghost predicate Live(s: State, community: Id, k: Id) {
    k in s.credentials && s.credentials[k].community == community && s.credentials[k].revocation.None?
  }

  /** All but the revocation of `k` is as it was, and that is the next sequence of the community. */
  ghost predicate RevokedOnly(s: State, t: State, community: Id, k: Id) {
    && community in s.communities && k in s.credentials && t.credentials.Keys == s.credentials.Keys
    && t.credentials[k].revocation == Some(s.communities[community])
    && t.credentials[k].(revocation := None) == s.credentials[k]
    && (forall d :: d in s.credentials && d != k ==> t.credentials[d] == s.credentials[d])
    && t.(credentials := s.credentials) == s
  }

  lemma RevocationExactly(s: State, community: Id, k: Id)
    requires Inv(s)
    ensures var (t, o) := RevokeStep(s, community, k);
            && (o == Accepted <==> Live(s, community, k))
            && (o == Accepted ==> RevokedOnly(s, t, community, k))
            && (k in s.credentials && s.credentials[k].community == community && s.credentials[k].revocation.Some?
                ==> o == Refused(CredentialAlreadyRevoked))
  {
    if k in s.credentials { assert CredentialOk(s, k); }
  }

  /** A revocation stands in every later state. */
  lemma RevocationStays(t: State, u: State, community: Id, k: Id, q: int)
    requires Later(t, u) && CredentialsOk(u)
    requires k in t.credentials && t.credentials[k].community == community && t.credentials[k].revocation == Some(q)
    ensures k in u.credentials && u.credentials[k].community == community && u.credentials[k].revocation == Some(q)
    ensures RevokeStep(u, community, k) == (u, Refused(CredentialAlreadyRevoked))
  {
    assert SameDevice(t.credentials[k], u.credentials[k]);
    assert CredentialOk(u, k);
  }

  /** No row of the journal from index `n` on was signed by `k`. */
  ghost predicate SignsNothingFrom(u: State, k: Id, n: nat) {
    forall i, e :: n <= i < |u.journal| && e in u.journal[i].evidence ==> e.credential != k
  }

  lemma RowsAfterRevocation(t: State, u: State, community: Id, k: Id)
    requires Inv(t) && Inv(u) && Later(t, u) && community in t.communities
    requires k in u.credentials && u.credentials[k].community == community
    requires u.credentials[k].revocation == Some(t.communities[community])
    ensures SignsNothingFrom(u, k, |t.journal|)
  {
    forall i, e | |t.journal| <= i < |u.journal| && e in u.journal[i].evidence ensures e.credential != k {
      if e.credential == k {
        SignedIsLocal(u, i, e);
        OlderIsBelow(t, u, community, i);
        InvGivesWindows(u);
      }
    }
  }

  /**
   * After an accepted revocation, whatever is requested from then on: no further row holds evidence of that device,
   * and revoking it again is refused as already done.
   */
  lemma {:induction false} RevokedForGood(before: seq<Operation>, community: Id, k: Id, ops: seq<Operation>)
    requires RevokeStep(Run(EMPTY, before), community, k).1 == Accepted
    ensures var s := Run(EMPTY, before); var u := Run(RevokeStep(s, community, k).0, ops);
            && SignsNothingFrom(u, k, |s.journal|)
            && RevokeStep(u, community, k) == (u, Refused(CredentialAlreadyRevoked))
  {
    var s := Run(EMPTY, before);
    var t := RevokeStep(s, community, k).0;
    ReachableInv(before);
    RevocationExactly(s, community, k);
    RevokeKeepsInv(s, community, k);
    RunGrows(t, ops);
    RevocationStays(t, Run(t, ops), community, k, s.communities[community]);
    RowsAfterRevocation(t, Run(t, ops), community, k);
  }

  /** Evidence short of an account is refused before evidence that does not count, and both before the floors. */
  lemma RefusedForEvidence(s: State, tx: Id)
    requires tx in s.proposals && ProposalOk(s, tx) && s.proposals[tx].committedSequence.None?
    ensures var p := s.proposals[tx]; var o := CommitStep(s, tx).1;
            && (o == Refused(AuthorizationIncomplete) <==>
                  exists x :: x in p.payload.entries && forall e :: e in p.evidence ==> e.account != x.account)
            && (o == Refused(CredentialNotEligible) <==>
                  && (forall x :: x in p.payload.entries ==> exists e :: e in p.evidence && e.account == x.account)
                  && exists e :: e in p.evidence && !Eligible(s, p.payload, e, s.communities[p.payload.community]))
  {
    var p := s.proposals[tx];
    assert Covered(p.payload, p.evidence) <==>
           forall x :: x in p.payload.entries ==> exists e :: e in p.evidence && e.account == x.account;
  }

  lemma RevokedIsOutside(u: State, payload: Payload, e: Evidence)
    requires payload.community in u.communities
    requires e.credential in u.credentials ==> CredentialOk(u, e.credential) && u.credentials[e.credential].revocation.Some?
    ensures !Eligible(u, payload, e, u.communities[payload.community])
  {}

  /** So with evidence of a device revoked in the meantime, an otherwise complete commit is refused as not eligible, now
      and after any further requests, more evidence included. */
  lemma {:induction false} RevokedIsNotEligible(
      before: seq<Operation>, community: Id, k: Id, ops: seq<Operation>, tx: Id, e: Evidence)
    requires RevokeStep(Run(EMPTY, before), community, k).1 == Accepted
    requires var u := Run(RevokeStep(Run(EMPTY, before), community, k).0, ops);
      tx in u.proposals && u.proposals[tx].committedSequence.None? && Covered(u.proposals[tx].payload, u.proposals[tx].evidence)
      && e in u.proposals[tx].evidence && e.credential == k
    ensures var u := Run(RevokeStep(Run(EMPTY, before), community, k).0, ops);
      CommitStep(u, tx) == (u, Refused(CredentialNotEligible))
  {
    var s := Run(EMPTY, before);
    var t := RevokeStep(s, community, k).0;
    var u := Run(t, ops);
    ReachableInv(before);
    RevocationExactly(s, community, k);
    RevokeKeepsInv(s, community, k);
    RunGrows(t, ops);
    RevocationStays(t, u, community, k, s.communities[community]);
    NotEligibleNow(u, tx, e);
  }

  lemma NotEligibleNow(u: State, tx: Id, e: Evidence)
    requires CredentialsOk(u) && ProposalsOk(u) && tx in u.proposals && u.proposals[tx].committedSequence.None?
    requires Covered(u.proposals[tx].payload, u.proposals[tx].evidence) && e in u.proposals[tx].evidence
    requires e.credential in u.credentials && u.credentials[e.credential].revocation.Some?
    ensures CommitStep(u, tx) == (u, Refused(CredentialNotEligible))
  {
    assert ProposalOk(u, tx) && CredentialOk(u, e.credential);
    RevokedIsOutside(u, u.proposals[tx].payload, e);
    RefusedForEvidence(u, tx);
  }

  // ---- activation ----

  /** The credit floor an activation asks for. */
  function Requested(floor: Option<int>): int { if floor.Some? then floor.value else -100000 }

  /** One account more, with this floor and nothing on it, under a new controller whose one device holds the key. */
  ghost predicate Opened(s: State, t: State, o: Outcome, community: Id, unit: Id, key: string, floor: int)
    requires o.Activated?
  {
    && o.account !in s.accounts && o.controller !in s.controllers && o.credential !in s.credentials
    && t.accounts == s.accounts[o.account := Account(community, unit, o.controller, floor, 0)]
    && t.controllers == s.controllers[o.controller := community]
    && o.credential in t.credentials && t.credentials.Keys == s.credentials.Keys + {o.credential}
    && (forall d :: d in s.credentials ==> t.credentials[d] == s.credentials[d] && t.credentials[d].controller != o.controller)
    && t.credentials[o.credential].controller == o.controller && t.credentials[o.credential].key == key
    && t.credentials[o.credential].community == community && t.credentials[o.credential].revocation.None?
    && t.communities == s.communities && t.units == s.units && t.proposals == s.proposals && t.journal == s.journal
  }

  lemma ActivationOpens(s: State, community: Id, name: string, unit: Id, key: string, floor: Option<int>)
    requires IdsBelow(s) && CredentialsOk(s)
    ensures var (t, o) := ActivateStep(s, community, name, unit, key, floor);
            o.Activated? ==> Opened(s, t, o, community, unit, key, Requested(floor)) && Requested(floor) <= 0
  {
    forall d | d in s.credentials ensures s.credentials[d].controller in s.controllers { assert CredentialOk(s, d); }
  }

  /** `a` is an account of the community in the unit, with this floor and at or above it, and its controller's `device`
      counts at the community's next sequence exactly until it is revoked. */
  ghost predicate Serviceable(u: State, a: Id, device: Id, community: Id, unit: Id, key: string, floor: int) {
    && a in u.accounts && u.accounts[a].community == community && u.accounts[a].unit == unit
    && u.accounts[a].floor == floor <= u.accounts[a].balance
    && device in u.credentials && u.credentials[device].controller == u.accounts[a].controller
    && u.credentials[device].key == key && community in u.communities
    && (InWindow(u.credentials[device], u.communities[community]) <==> u.credentials[device].revocation.None?)
  }

  lemma OpenedServes(s: State, t: State, u: State, o: Outcome, community: Id, unit: Id, key: string, floor: int)
    requires o.Activated? && Opened(s, t, o, community, unit, key, floor) && Later(t, u) && AccountsOk(u) && CredentialsOk(u)
    ensures Serviceable(u, o.account, o.credential, community, unit, key, floor)
  {
    assert SameAccount(t.accounts[o.account], u.accounts[o.account]);
    assert AccountOk(u, o.account);
    DeviceStays(t, u, o.credential);
  }

  /**
   * An accepted activation opens an account with the floor it asked for, -100000 when it asked for none; and whatever
   * is requested from then on, the balance never falls below that number.
   */
  lemma {:induction false} FloorIsTheRequestedOne(before: seq<Operation>, community: Id, name: string, unit: Id, key: string,
                                                  floor: Option<int>, ops: seq<Operation>)
    requires ActivateStep(Run(EMPTY, before), community, name, unit, key, floor).1.Activated?
    ensures var s := Run(EMPTY, before); var (t, o) := ActivateStep(s, community, name, unit, key, floor);
            && Opened(s, t, o, community, unit, key, Requested(floor))
            && Serviceable(Run(t, ops), o.account, o.credential, community, unit, key, Requested(floor))
  {
    var s := Run(EMPTY, before);
    var (t, o) := ActivateStep(s, community, name, unit, key, floor);
    ReachableInv(before);
    ActivationOpens(s, community, name, unit, key, floor);
    ActivateKeepsInv(s, community, name, unit, key, floor);
    RunGrows(t, ops);
    OpenedServes(s, t, Run(t, ops), o, community, unit, key, Requested(floor));
  }

  // ---- communities and units ----

  lemma StepKeepsUnit(s: State, op: Operation, u: Id)
    requires IdsBelow(s) && u in s.units
    ensures var t := Step(s, op).0; u in t.units && t.units[u] == s.units[u]
  {}

  lemma {:induction false} RunKeepsUnit(s: State, ops: seq<Operation>, u: Id)
    requires IdsBelow(s) && u in s.units
    ensures var t := Run(s, ops); u in t.units && t.units[u] == s.units[u]
    decreases |ops|
  {
    if ops != [] {
      StepKeepsUnit(s, ops[0], u);
      StepKeepsIds(s, ops[0]);
      RunKeepsUnit(Step(s, ops[0]).0, ops[1..], u);
    }
  }

  /** A unit is created when its community exists, its code is well formed and not yet used there and its scale is
      between 0 and 18; and it keeps that code and scale whatever is requested from then on. */
  lemma {:induction false} UnitIsTheRequestedOne(before: seq<Operation>, community: Id, code: string, scale: int, ops: seq<Operation>)
    ensures var s := Run(EMPTY, before); var (t, o) := CreateUnitStep(s, community, code, scale);
            && (o.Created? <==>
                  && community in s.communities && UnitCode(code) && 0 <= scale <= 18
                  && forall u :: u in s.units && s.units[u].community == community ==> s.units[u].code != code)
            && (o.Created? ==>
                  && o.id !in s.units && t.units.Keys == s.units.Keys + {o.id}
                  && o.id in Run(t, ops).units && Run(t, ops).units[o.id] == Unit(community, code, scale))
  {
    var s := Run(EMPTY, before);
    var (t, o) := CreateUnitStep(s, community, code, scale);
    ReachableInv(before);
    if o.Created? {
      CreateUnitKeepsInv(s, community, code, scale);
      RunKeepsUnit(t, ops, o.id);
    }
  }

  /** A community begins with sequence 1 still to be given out, and none of its own to begin with. */
  lemma {:induction false} CommunityBegins(before: seq<Operation>, name: string)
    ensures var s := Run(EMPTY, before); var (t, o) := CreateCommunityStep(s, name);
            if Blank(name) then (t, o) == (s, Refused(InvalidRequest))
            else
              && o.Created? && o.id !in s.communities && t.communities == s.communities[o.id := 1]
              && (forall u :: u in t.units ==> t.units[u].community != o.id)
              && (forall i :: 0 <= i < |t.journal| ==> t.journal[i].payload.community != o.id)
  {
    var s := Run(EMPTY, before);
    ReachableInv(before);
    if !Blank(name) {
      forall i | 0 <= i < |s.journal| ensures s.journal[i].payload.community != s.nextId { assert RowOk(s, i); }
    }
  }

  // ---- from proposal to receipt ----

  /** A proposal is taken when its accounts are of its community and unit and its transaction is new; it then waits with
      no evidence, and a commit is refused for missing authorization if it moves anything. */
  lemma {:induction false} ProposalWaits(before: seq<Operation>, p: Payload)
    ensures var s := Run(EMPTY, before); var (t, o) := ProposeStep(s, p);
            && (o == Accepted <==>
                  && p.tx !in s.proposals && p.community in s.communities
                  && p.unit in s.units && s.units[p.unit].community == p.community
                  && forall x :: x in p.entries ==>
                       x.account in s.accounts && s.accounts[x.account].unit == p.unit
                       && s.accounts[x.account].community == p.community)
            && (o == Accepted ==>
                  && t == s.(proposals := s.proposals[p.tx := Proposal(p, [], None)])
                  && (p.entries != [] ==> CommitStep(t, p.tx) == (t, Refused(AuthorizationIncomplete))))
  {
    var s := Run(EMPTY, before);
    var (t, o) := ProposeStep(s, p);
    if o == Accepted && p.entries != [] { assert p.entries[0] in p.entries; }
  }

  /** Evidence for a proposal there is shows at once in its status, behind what was there, and changes nothing else. */
  lemma EvidenceShows(s: State, tx: Id, e: Evidence)
    requires tx in s.proposals
    ensures var (t, o) := AddEvidenceStep(s, tx, e);
            && o == Accepted && t.proposals.Keys == s.proposals.Keys
            && (forall p :: p in s.proposals && p != tx ==> t.proposals[p] == s.proposals[p])
            && t.proposals[tx].(evidence := s.proposals[tx].evidence) == s.proposals[tx]
            && t.(proposals := s.proposals) == s
            && Transaction(t, tx).Some? && Transaction(s, tx).Some?
            && Transaction(t, tx).value == Transaction(s, tx).value.(authorized := Transaction(s, tx).value.authorized + [e.account])
  {
    var t := AddEvidenceStep(s, tx, e).0;
    assert AccountsOf(t.proposals[tx].evidence) == AccountsOf(s.proposals[tx].evidence) + [e.account];
  }

  // ---- why a request is refused ----

  function CommunityOf(op: Operation): Option<Id> {
    match op
    case CreateUnit(community, _, _) => Some(community)
    case ActivateParticipant(community, _, _, _, _) => Some(community)
    case AddCredential(community, _, _) => Some(community)
    case RevokeCredential(community, _) => Some(community)
    case _ => None
  }

  function KeyOf(op: Operation): Option<string> {
    match op
    case ActivateParticipant(_, _, _, key, _) => Some(key)
    case AddCredential(_, _, key) => Some(key)
    case _ => None
  }

  function ProposalOf(op: Operation): Option<Id> {
    match op
    case AddEvidence(tx, _) => Some(tx)
    case Commit(tx) => Some(tx)
    case _ => None
  }

  /** The request names something that is not there. */
  ghost predicate Missing(s: State, op: Operation, e: Error) {
    match e
    case UnknownCommunity => CommunityOf(op).Some? && CommunityOf(op).value !in s.communities
    case UnknownUnit =>
      op.ActivateParticipant? && !(op.unit in s.units && s.units[op.unit].community == op.community)
    case UnknownController =>
      op.AddCredential? && !(op.controller in s.controllers && s.controllers[op.controller] == op.community)
    case UnknownCredential =>
      op.RevokeCredential? && !(op.credential in s.credentials && s.credentials[op.credential].community == op.community)
    case UnknownProposal => ProposalOf(op).Some? && ProposalOf(op).value !in s.proposals
    case _ => false
  }

  /** The request is not well formed. */
  ghost predicate Malformed(s: State, op: Operation, e: Error) {
    match e
    case InvalidRequest => (op.CreateCommunity? || op.ActivateParticipant?) && Blank(op.name)
    case InvalidUnitCode => op.CreateUnit? && !UnitCode(op.code)
    case InvalidUnitScale => op.CreateUnit? && !(0 <= op.scale <= 18)
    case InvalidBase64Url => KeyOf(op).Some? && !Base64Url.AcceptedKey(KeyOf(op).value)
    case InvalidCreditFloor => op.ActivateParticipant? && op.floor.Some? && op.floor.value > 0
    case InvalidProposal => op.Propose? && !ProposalValid(s, op.payload)
    case _ => false
  }

  /** What the request would put there is there already. */
  ghost predicate Duplicate(s: State, op: Operation, e: Error) {
    match e
    case UnitCodeTaken =>
      op.CreateUnit? && exists u :: u in s.units && s.units[u].community == op.community && s.units[u].code == op.code
    case CredentialKeyTaken =>
      CommunityOf(op).Some? && KeyOf(op).Some?
      && exists k :: k in s.credentials
                     && s.credentials[k].community == CommunityOf(op).value && s.credentials[k].key == KeyOf(op).value
    case CredentialAlreadyRevoked =>
      op.RevokeCredential? && op.credential in s.credentials && s.credentials[op.credential].revocation.Some?
    case ProposalExists => op.Propose? && op.payload.tx in s.proposals
    case _ => false
  }

  ghost predicate Cause(s: State, op: Operation, e: Error) {
    Missing(s, op, e) || Malformed(s, op, e) || Duplicate(s, op, e)
  }

  lemma MissingComesFirst(s: State, op: Operation, e: Error)
    requires !op.Commit? && Missing(s, op, e)
    ensures Step(s, op).1.Refused? && Missing(s, op, Step(s, op).1.error)
  {}

  lemma MalformedComesNext(s: State, op: Operation, e: Error)
    requires !op.Commit? && Malformed(s, op, e)
    ensures Step(s, op).1.Refused?
    ensures Missing(s, op, Step(s, op).1.error) || Malformed(s, op, Step(s, op).1.error)
  {}

  lemma DuplicateComesLast(s: State, op: Operation, e: Error)
    requires !op.Commit? && Duplicate(s, op, e)
    ensures Step(s, op).1.Refused? && Cause(s, op, Step(s, op).1.error)
  {}

  lemma RefusedForCause(s: State, op: Operation)
    requires !op.Commit? && Step(s, op).1.Refused?
    ensures Cause(s, op, Step(s, op).1.error)
  {}

  /**
   * A request other than a commit is refused exactly when something speaks against it, and what the answer says is
   * true; whatever is missing is reported before anything malformed, and that before a duplicate. A commit of an unknown
   * proposal is refused as such.
   */
  lemma RefusalsAreTrue(s: State, op: Operation)
    ensures var o := Step(s, op).1;
            if op.Commit? then o == Refused(UnknownProposal) <==> op.tx !in s.proposals
            else
              && (o.Refused? <==> exists e :: Cause(s, op, e))
              && (o.Refused? ==> Cause(s, op, o.error))
              && ((exists e :: Missing(s, op, e)) ==> Missing(s, op, o.error))
              && ((exists e :: Malformed(s, op, e)) ==> Missing(s, op, o.error) || Malformed(s, op, o.error))
  {
    if !op.Commit? {
      if e :| Missing(s, op, e) { MissingComesFirst(s, op, e); }
      if e :| Malformed(s, op, e) { MalformedComesNext(s, op, e); }
      if e :| Duplicate(s, op, e) { DuplicateComesLast(s, op, e); }
      if Step(s, op).1.Refused? { RefusedForCause(s, op); }
    }
  }

  // ---- the patterns ----

  /** A unit code is 1 to 16 of A-Z, 0-9, '_' and '-', a letter first: some that are and some that are not. */
  lemma UnitCodes(n: nat)
    ensures UnitCode(seq(n, _ => 'A')) <==> 1 <= n <= 16
    ensures UnitCode("Z_9-") && !UnitCode("9Z") && !UnitCode("-Z") && !UnitCode("Zz") && !UnitCode("Z Z") && !UnitCode("lowercase")
  {
    if n > 0 { assert seq(n, _ => 'A')[0] == 'A'; }
    assert 'z' in "Zz"[1..] by { assert "Zz"[1..][0] == 'z'; }
    assert ' ' in "Z Z"[1..] by { assert "Z Z"[1..][0] == ' '; }
  }

  /** Which characters may lead, and which may follow. */
  lemma UnitCodeChars(c: char)
    ensures UnitCode([c]) <==> 65 <= c as int <= 90
    ensures UnitCode(['A', c]) <==> 65 <= c as int <= 90 || 48 <= c as int <= 57 || c as int in {45, 95}
  {
    assert [c][1..] == [] && ['A', c][1..] == [c];
    assert c in [c];
  }

  /** Blank are the empty name and names of white space; the no-break space is none. */
  lemma Blanks()
    ensures Blank("") && Blank(" \t\n") && !Blank("Ana") && !Blank([0xA0 as char]) && Blank([0x2003 as char])
  {
    assert 'A' in "Ana" by { assert "Ana"[0] == 'A'; }
    assert 0xA0 as char in [0xA0 as char];
  }
}
