// What an accepted command of Seven Keys governance leaves behind for the commands that come after it: which evidence
// a seat's credential signs with, that every key was proved, and what nobody can do any more once the Guardian is gone.
module SevenKeysEffects {
  import opened Wrappers
  import opened CanonicalJson
  import opened CanonicalOrder
  import opened SevenKeys
  import opened SevenKeysProofs
  import opened SevenKeysTheorems

  // ---- which evidence a credential signs with ----

  /** An authenticator's counter is above the one last seen, or it keeps none. */
  predicate Advances(seen: nat, count: nat) { count > seen || (count == 0 && seen == 0) }

  /** `e` is by this key over proposal `q`, and of the kind the key was enrolled as. */
  ghost predicate SignsWith(a: Authority, q: Id, key: Key, hardware: bool, seen: nat, e: Evidence)
    requires q in a.proposals
  {
    && e.key == key
    && e.message == "STIR:MARKET:CONSTITUTION:V1" + [0 as char] + Canonical(Payload(a.community, q, a.proposals[q].action))
    && match e
       case Ed25519(_, _) => !hardware
       case WebAuthn(_, _, count) => hardware && Advances(seen, count)
  }

  function Presented(e: Evidence): nat { if e.WebAuthn? then e.count else 0 }

  /** Each of the four answers to a signature, and when it is given. */
  lemma SigningExactly(a: Authority, q: Id, seat: nat, id: Id, e: Evidence)
    ensures var status := SignStep(a, q, seat, id, e).0;
      if q !in a.proposals then status == NotFound
      else if a.proposals[q].activated || !a.IsActiveFor(seat, id) then status == Conflict
      else
        var c := a.credentials[id];
        if !SignsWith(a, q, c.key, c.hardware, c.count, e) then status == BadRequest
        else if seat in a.proposals[q].signatures then status == Conflict
        else status == Ok
  {}

  /** An accepted signature is on its proposal and in the log, the credential's counter has moved up to it, and nothing
      else has changed. */
  lemma SigningLeaves(a: Authority, q: Id, seat: nat, id: Id, e: Evidence)
    requires SignStep(a, q, seat, id, e).0.Ok?
    ensures var b := SignStep(a, q, seat, id, e).1;
      b.proposals.Keys == a.proposals.Keys && b.proposals[q].action == a.proposals[q].action && !b.proposals[q].activated
      && b.proposals[q].signatures == a.proposals[q].signatures[seat := Signing(id, e, |a.events|)]
      && (forall p :: p in a.proposals && p != q ==> b.proposals[p] == a.proposals[p])
      && b.credentials.Keys == a.credentials.Keys
      && (forall k :: k in a.credentials && k != id ==> b.credentials[k] == a.credentials[k])
      && SameStanding(a.credentials[id], b.credentials[id])
      && b.credentials[id].count == (if e.WebAuthn? then e.count else a.credentials[id].count)
      && b.seats == a.seats && b.guardian == a.guardian && b.versions == a.versions && b.community == a.community
      && b.events == a.events + [Signed(q, seat, id)]
  {}

  /** `e` is the Guardian's, over this payload in the Guardian's domain, of the Guardian's kind and with a counter that
      advances. */
  ghost predicate GuardianSigns(a: Authority, payload: Json, e: Evidence) {
    && e.key == a.guardian.key && e.message == "STIR:MARKET:GUARDIAN:V1" + [0 as char] + Canonical(payload)
    && match e
       case Ed25519(_, _) => !a.guardian.hardware
       case WebAuthn(_, _, count) => a.guardian.hardware && Advances(a.guardian.count, count)
  }

  /** A suspension is a conflict without a Guardian, at any sequence but the next, while a seat is suspended and for a
      credential that is not the seat's active one; a bad request if the Guardian did not sign it; and else accepted. */
  lemma SuspendingExactly(a: Authority, seat: nat, id: Id, n: nat, e: Evidence)
    ensures var status := SuspendStep(a, seat, id, n, e).0;
      if !(a.guardian.active && n == |a.events| && a.IsActiveFor(seat, id)
           && forall s :: 0 <= s < |a.seats| ==> !a.IsSuspended(s))
      then status == Conflict
      else if !GuardianSigns(a, SuspensionPayload(a.community, seat, id, n), e) then status == BadRequest
      else status == Ok
  {}

  /** An accepted suspension stands that credential down, moves the Guardian's counter, is in the log, and changes
      nothing else. */
  lemma SuspendingLeaves(a: Authority, seat: nat, id: Id, n: nat, e: Evidence)
    requires SuspendStep(a, seat, id, n, e).0.Ok?
    ensures var b := SuspendStep(a, seat, id, n, e).1;
      id in a.credentials
      && b.credentials == a.credentials[id := a.credentials[id].(status := Suspended, until := Some(|a.events|))]
      && b.guardian == a.guardian.(count := if e.WebAuthn? then e.count else a.guardian.count)
      && b.seats == a.seats && b.proposals == a.proposals && b.versions == a.versions && b.community == a.community
      && b.events == a.events + [SeatSuspended(seat, id)]
  {}

  /** A proposal under an identifier in use is a conflict; any other waits, open and unsigned, and only it is new. */
  lemma ProposingExactly(a: Authority, p: Id, action: Action)
    ensures var (status, b) := ProposeStep(a, p, action);
      if p in a.proposals then status == Conflict && b == a
      else
        status == Ok && b.proposals == a.proposals[p := Proposal(action, false, map[])]
        && b.events == a.events + [Proposed(p)]
        && b.(proposals := a.proposals, events := a.events) == a
  {}

  /** What an activation is answered but for rotations: not found if unknown, a conflict if executed before, if seven
      signatures on an amendment or five on a removal are not there, while a seat is suspended or without a Guardian, and
      always for a change of controller. */
  lemma ActivatingExactly(a: Authority, p: Id, g: Option<Evidence>, n: Option<Evidence>)
    requires p in a.proposals ==> !a.proposals[p].action.Rotate?
    ensures var status := ActivateStep(a, p, g, n).0;
      if p !in a.proposals then status == NotFound
      else
        var q := a.proposals[p];
        if !q.activated && ((q.action.Amend? && |q.signatures| >= 7 && forall s :: 0 <= s < |a.seats| ==> !a.IsSuspended(s))
                            || (q.action.RemoveGuardian? && |q.signatures| >= 5 && a.guardian.active))
        then status == Ok
        else status == Conflict
  {}

  /** What a rotation needs before any signature that comes with the request is looked at. */
  ghost predicate MayRotate(a: Authority, q: Proposal) {
    && q.action.Rotate? && !q.activated && a.guardian.active && a.IsSuspended(q.action.seat)
    && a.seats[q.action.seat] == Seat(q.action.controller, q.action.outgoing)
    && (forall s :: 0 <= s < 7 && s != q.action.seat ==> s in q.signatures)
    && q.action.incoming !in a.credentials && q.action.incoming != a.guardian.id
  }

  /** The incoming key signs, as the kind of key it is proposed as. */
  ghost predicate IncomingSigns(a: Authority, p: Id, r: Action, e: Evidence)
    requires r.Rotate?
  {
    e.key == r.key && e.message == "STIR:MARKET:POSSESSION:V1" + [0 as char] + Canonical(Payload(a.community, p, r))
    && (e.WebAuthn? <==> r.hardware)
  }

  /** A rotation is a conflict unless the other six seats signed it while open, its seat is suspended, it names the seat's
      own credential and controller, a Guardian is there and the new credential's identifier is unused; a bad request
      unless the Guardian and the incoming key signed it; and else accepted. */
  lemma RotatingExactly(a: Authority, p: Id, g: Option<Evidence>, n: Option<Evidence>)
    requires p in a.proposals && a.proposals[p].action.Rotate?
    ensures var q := a.proposals[p]; var status := ActivateStep(a, p, g, n).0;
      if !MayRotate(a, q) then status == Conflict
      else if g.Some? && n.Some? && GuardianSigns(a, Payload(a.community, p, q.action), g.value)
              && IncomingSigns(a, p, q.action, n.value)
      then status == Ok
      else status == BadRequest
  {
    assert OthersSigned(a.proposals[p], a.proposals[p].action.seat) <==>
      forall s :: 0 <= s < 7 && s != a.proposals[p].action.seat ==> s in a.proposals[p].signatures;
  }

  /** An accepted rotation seats the new credential, revokes the old one, moves the Guardian's counter, closes the proposal
      and is in the log; nothing else has changed. */
  lemma RotatingLeaves(a: Authority, p: Id, g: Option<Evidence>, n: Option<Evidence>)
    requires p in a.proposals && a.proposals[p].action.Rotate? && ActivateStep(a, p, g, n).0.Ok?
    ensures var b, r := ActivateStep(a, p, g, n).1, a.proposals[p].action;
      g.Some? && n.Some? && r.seat < |a.seats| && r.outgoing in a.credentials && r.incoming != r.outgoing
      && b.seats == a.seats[r.seat := Seat(r.controller, r.incoming)]
      && b.credentials == a.credentials[r.outgoing := a.credentials[r.outgoing].(status := Revoked)]
           [r.incoming := Credential(r.seat, r.key, r.hardware, Presented(n.value), Active, |a.events|, None)]
      && b.guardian == a.guardian.(count := if g.value.WebAuthn? then g.value.count else a.guardian.count)
      && b.proposals == a.proposals[p := a.proposals[p].(activated := true)]
      && b.versions == a.versions && b.community == a.community && b.events == a.events + [Activated(p)]
  {}

  /** Once a rotation stands, the seat signs any open proposal it has not signed with exactly the key the rotation named,
      as the kind of key it named, from the counter its possession proof showed. */
  lemma RotatedKeySigns(a: Authority, p: Id, g: Option<Evidence>, n: Option<Evidence>, q: Id, e: Evidence)
    requires Reachable(a) && p in a.proposals && a.proposals[p].action.Rotate? && ActivateStep(a, p, g, n).0.Ok?
    requires q in a.proposals
    ensures var b, r := ActivateStep(a, p, g, n).1, a.proposals[p].action;
      n.Some? && q in b.proposals
      && (SignStep(b, q, r.seat, r.incoming, e).0.Ok? <==>
            q != p && !a.proposals[q].activated && r.seat !in a.proposals[q].signatures
            && SignsWith(a, q, r.key, r.hardware, Presented(n.value), e))
  {
    ReachableInv(a);
    RotatedIs(a, p, g, n);
    var b, r := ActivateStep(a, p, g, n).1, a.proposals[p].action;
    SigningExactly(b, q, r.seat, r.incoming, e);
  }

  lemma RotatedIs(a: Authority, p: Id, g: Option<Evidence>, n: Option<Evidence>)
    requires RosterOk(a) && p in a.proposals && a.proposals[p].action.Rotate? && ActivateStep(a, p, g, n).0.Ok?
    ensures var b, r := ActivateStep(a, p, g, n).1, a.proposals[p].action;
      n.Some? && b.IsActiveFor(r.seat, r.incoming) && b.community == a.community
      && b.credentials[r.incoming].key == r.key && b.credentials[r.incoming].hardware == r.hardware
      && b.credentials[r.incoming].count == Presented(n.value)
      && b.proposals == a.proposals[p := a.proposals[p].(activated := true)]
  {}

  // ---- counters shown before a credential signs ----

  /** A counter that a credential has already shown is never accepted from it again. */
  lemma {:induction false} ShownCounterIsRefused(a: Authority, id: Id, cs: seq<Command>, q: Id, seat: nat, f: Evidence)
    requires Inv(a) && id in a.credentials && f.WebAuthn? && 0 < a.credentials[id].count && f.count <= a.credentials[id].count
    ensures !SignStep(Run(a, cs), q, seat, id, f).0.Ok?
  {
    RunKeepsInv(a, cs);
    var b := Run(a, cs);
    assert LaterCredential(a.credentials[id], b.credentials[id], |a.events|);
    SigningExactly(b, q, seat, id, f);
  }

  /** So a counter used to prove possession in a rotation is used up for the new credential's signatures. */
  lemma {:induction false} PossessionCounterIsUsedUp(
      a: Authority, p: Id, g: Option<Evidence>, n: Option<Evidence>, cs: seq<Command>, q: Id, f: Evidence)
    requires Reachable(a) && p in a.proposals && a.proposals[p].action.Rotate? && ActivateStep(a, p, g, n).0.Ok?
    requires n.Some? && n.value.WebAuthn? && f.WebAuthn? && 0 < n.value.count && f.count <= n.value.count
    ensures var r := a.proposals[p].action;
      !SignStep(Run(ActivateStep(a, p, g, n).1, cs), q, r.seat, r.incoming, f).0.Ok?
  {
    ReachableInv(a);
    RotatedIs(a, p, g, n);
    RotateKeepsInv(a, p, g, n);
    var r := a.proposals[p].action;
    ShownCounterIsRefused(ActivateStep(a, p, g, n).1, r.incoming, cs, q, r.seat, f);
  }

  // ---- the first seven keys ----

  lemma {:induction false} EnrolledAs(os: seq<Opening>, n: nat, i: nat)
    requires i < n <= |os| && forall j, k :: 0 <= j < k < |os| ==> os[j].credential != os[k].credential
    ensures os[i].credential in Enrol(os, n)
    ensures Enrol(os, n)[os[i].credential]
      == Credential(i, os[i].key, os[i].hardware, Presented(os[i].possession), Active, 0, None)
  {
    if i < n - 1 { EnrolledAs(os, n - 1, i); }
  }

  /** A bootstrapped seat signs a proposal with exactly the key it proved at the bootstrap, as the kind it was, from the
      counter it showed there. */
  lemma FirstKeysSign(community: Id, os: seq<Opening>, g: Guardian, possession: Evidence, first: Document,
                      s: nat, q: Id, action: Action, e: Evidence)
    requires Bootstrap(community, os, g, possession, first).Some? && s < SEATS
    ensures var start := Bootstrap(community, os, g, possession, first).value;
      |os| == SEATS && q !in start.proposals
      && var b := ProposeStep(start, q, action).1;
         b.community == community && q in b.proposals && b.proposals[q].action == action
         && (SignStep(b, q, s, os[s].credential, e).0.Ok? <==>
               SignsWith(b, q, os[s].key, os[s].hardware, Presented(os[s].possession), e))
  {
    EnrolledAs(os, SEATS, s);
    var b := ProposeStep(Bootstrap(community, os, g, possession, first).value, q, action).1;
    SigningExactly(b, q, s, os[s].credential, e);
  }

  /** And no counter shown at the bootstrap, by a seat or by the Guardian, is accepted afterwards. */
  lemma {:induction false} BootstrapCountersAreUsedUp(
      community: Id, os: seq<Opening>, g: Guardian, possession: Evidence, first: Document,
      cs: seq<Command>, s: nat, q: Id, d: Command, f: Evidence)
    requires Bootstrap(community, os, g, possession, first).Some? && s < SEATS && f.WebAuthn?
    ensures var b := Run(Bootstrap(community, os, g, possession, first).value, cs);
      |os| == SEATS
      && (0 < Presented(os[s].possession) && f.count <= Presented(os[s].possession)
          ==> !SignStep(b, q, s, os[s].credential, f).0.Ok?)
      && (0 < Presented(possession) && f.count <= Presented(possession) ==> !GuardianUsed(b, d, f))
  {
    var start := Bootstrap(community, os, g, possession, first).value;
    BootstrapInv(community, os, g, possession, first);
    EnrolledAs(os, SEATS, s);
    if 0 < Presented(os[s].possession) && f.count <= Presented(os[s].possession) {
      ShownCounterIsRefused(start, os[s].credential, cs, q, s, f);
    }
    RunKeepsInv(start, cs);
    if 0 < Presented(possession) && f.count <= Presented(possession) {
      GuardianCounterIsUsedUp(start, Run(start, cs), d, f);
    }
  }

  /** `e` is by this key, of this kind, over the bootstrap request in its domain. */
  ghost predicate ProvesKey(community: Id, os: seq<Opening>, g: Guardian, first: Document, key: Key, hardware: bool, e: Evidence) {
    && e.key == key && (e.WebAuthn? <==> hardware)
    && e.message == "STIR:MARKET:BOOTSTRAP:V1" + [0 as char] + Canonical(BootstrapPayload(community, os, g.id, g.key, first))
  }

  /** A bootstrap is accepted exactly with seven seats under different credentials, none of them the Guardian's, a new
      active Guardian, and eight proofs over the whole request, each by the key it is for. */
  lemma BootstrapExactly(community: Id, os: seq<Opening>, g: Guardian, possession: Evidence, first: Document)
    ensures Bootstrap(community, os, g, possession, first).Some? <==>
      && |os| == 7
      && (forall i, j :: 0 <= i < j < 7 ==> os[i].credential != os[j].credential)
      && (forall i :: 0 <= i < 7 ==>
            os[i].credential != g.id && ProvesKey(community, os, g, first, os[i].key, os[i].hardware, os[i].possession))
      && g.active && g.count == 0 && ProvesKey(community, os, g, first, g.key, g.hardware, possession)
  {
    if |os| == 7 {
      forall i | 0 <= i < 7
        ensures Accepts(os[i].key, os[i].hardware, 0, BOOTSTRAP, BootstrapPayload(community, os, g.id, g.key, first), os[i].possession)
           <==> ProvesKey(community, os, g, first, os[i].key, os[i].hardware, os[i].possession) {}
    }
  }

  /** And what it begins: each seat with its controller and credential, active from the first event with the counter its
      proof showed, the Guardian likewise, the first version and nothing proposed. */
  lemma BootstrapLeaves(community: Id, os: seq<Opening>, g: Guardian, possession: Evidence, first: Document)
    requires Bootstrap(community, os, g, possession, first).Some?
    ensures var a := Bootstrap(community, os, g, possession, first).value;
      |os| == 7 == |a.seats| && a.community == community
      && (forall i :: 0 <= i < 7 ==>
            a.seats[i] == Seat(os[i].controller, os[i].credential) && os[i].credential in a.credentials
            && a.credentials[os[i].credential]
               == Credential(i, os[i].key, os[i].hardware, Presented(os[i].possession), Active, 0, None))
      && (forall id :: id in a.credentials ==> exists i :: 0 <= i < 7 && os[i].credential == id)
      && a.guardian == g.(count := Presented(possession))
      && a.proposals == map[] && a.versions == [Version(first, None)] && a.events == [Bootstrapped]
  {
    forall i | 0 <= i < 7
      ensures os[i].credential in Enrol(os, SEATS)
      ensures Enrol(os, SEATS)[os[i].credential]
           == Credential(i, os[i].key, os[i].hardware, Presented(os[i].possession), Active, 0, None)
    {
      EnrolledAs(os, SEATS, i);
    }
    forall id | id in Enrol(os, SEATS) ensures exists i :: 0 <= i < 7 && os[i].credential == id { EnrolShape(os, SEATS, id); }
  }

  // ---- every key was proved ----

  /** `n` is by the credential's own key, of its own kind, over this payload in the domain of a proof of possession. */
  ghost predicate Proves(c: Credential, domain: string, payload: Json, n: Evidence) {
    n.key == c.key && (n.WebAuthn? <==> c.hardware) && n.message == domain + [0 as char] + Canonical(payload)
  }

  ghost predicate ProvedAtBootstrap(community: Id, os: seq<Opening>, g: Guardian, first: Document, id: Id, c: Credential, i: nat) {
    i < |os| && i == c.seat && os[i].credential == id && c.since == 0
    && Proves(c, "STIR:MARKET:BOOTSTRAP:V1", BootstrapPayload(community, os, g.id, g.key, first), os[i].possession)
  }

  /** Command `i` of the run was an accepted rotation to this credential, with a proof of possession by its key. */
  ghost predicate ProvedByRotation(start: Authority, cs: seq<Command>, id: Id, c: Credential, i: nat) {
    i < |cs| && cs[i].Activate?
    && var a := Run(start, cs[..i]);
       Step(a, cs[i]).0.Ok? && cs[i].p in a.proposals && c.since == |a.events|
       && var r := a.proposals[cs[i].p].action;
          r.Rotate? && r.incoming == id && r.seat == c.seat && cs[i].possession.Some?
          && Proves(c, "STIR:MARKET:POSSESSION:V1", Payload(a.community, cs[i].p, r), cs[i].possession.value)
  }

  ghost predicate WasProved(community: Id, os: seq<Opening>, g: Guardian, first: Document,
                            start: Authority, cs: seq<Command>, id: Id, c: Credential) {
    (exists i :: ProvedAtBootstrap(community, os, g, first, id, c, i)) || (exists i :: ProvedByRotation(start, cs, id, c, i))
  }

  /** What a proof says of a credential is nothing that a later state alters. */
  lemma ProofStays(community: Id, os: seq<Opening>, g: Guardian, first: Document, start: Authority,
                   cs: seq<Command>, more: seq<Command>, id: Id, c: Credential, d: Credential, now: nat)
    requires WasProved(community, os, g, first, start, cs, id, c) && LaterCredential(c, d, now) && cs <= more
    ensures WasProved(community, os, g, first, start, more, id, d)
  {
    if i: nat :| ProvedAtBootstrap(community, os, g, first, id, c, i) {
      assert ProvedAtBootstrap(community, os, g, first, id, d, i);
    } else {
      var i: nat :| ProvedByRotation(start, cs, id, c, i);
      assert more[..i] == cs[..i];
      assert ProvedByRotation(start, more, id, d, i);
    }
  }

  lemma NewcomerIsRotated(a: Authority, c: Command, id: Id)
    requires id !in a.credentials && id in Step(a, c).1.credentials
    ensures c.Activate? && Step(a, c).0.Ok? && c.p in a.proposals && a.proposals[c.p].action.Rotate?
    ensures var r, k := a.proposals[c.p].action, Step(a, c).1.credentials[id];
      r.incoming == id && r.seat == k.seat && k.since == |a.events| && c.possession.Some?
      && Proves(k, "STIR:MARKET:POSSESSION:V1", Payload(a.community, c.p, r), c.possession.value)
  {}

  /** Every credential there ever is was proved by its own key: at the bootstrap, over the whole bootstrap request, or by
      the rotation that enrolled it, over that very rotation. */
  lemma {:induction false} EveryKeyWasProved(
      community: Id, os: seq<Opening>, g: Guardian, possession: Evidence, first: Document, cs: seq<Command>, id: Id)
    requires Bootstrap(community, os, g, possession, first).Some?
    requires id in Run(Bootstrap(community, os, g, possession, first).value, cs).credentials
    ensures var start := Bootstrap(community, os, g, possession, first).value;
      WasProved(community, os, g, first, start, cs, id, Run(start, cs).credentials[id])
    decreases |cs|
  {
    var start := Bootstrap(community, os, g, possession, first).value;
    if cs == [] {
      EnrolShape(os, SEATS, id);
      var i := start.credentials[id].seat;
      EnrolledAs(os, SEATS, i);
      assert ProvedAtBootstrap(community, os, g, first, id, start.credentials[id], i);
    } else {
      var m := |cs| - 1;
      var a, c := Run(start, cs[..m]), cs[m];
      var b := Step(a, c).1;
      BootstrapInv(community, os, g, possession, first);
      RunKeepsInv(start, cs[..m]);
      StepIsLater(a, c);
      if id in a.credentials {
        EveryKeyWasProved(community, os, g, possession, first, cs[..m], id);
        ProofStays(community, os, g, first, start, cs[..m], cs, id, a.credentials[id], b.credentials[id], |a.events|);
      } else {
        NewcomerIsRotated(a, c, id);
        assert ProvedByRotation(start, cs, id, b.credentials[id], m);
      }
    }
  }

  // ---- after the Guardian ----

  ghost predicate NoGuardian(a: Authority) { !a.guardian.active }

  lemma PowerlessNow(b: Authority, seat: nat, id: Id, expected: nat, e: Evidence, q: Id, g: Option<Evidence>, n: Option<Evidence>)
    requires NoGuardian(b)
    ensures SuspendStep(b, seat, id, expected, e) == (Conflict, b)
    ensures q in b.proposals && b.proposals[q].action.Rotate? ==> ActivateStep(b, q, g, n) == (Conflict, b)
  {}

  lemma NothingRecovers(a: Authority, cs: seq<Command>, s: nat, i: nat)
    requires Inv(a) && NoGuardian(a)
    ensures !RecoveredAt(a, cs, s, i)
  {
    if RecoveredAt(a, cs, s, i) { RunKeepsInv(a, cs[..i]); }
  }

  /** A removed Guardian suspends no seat and no rotation goes through again, so a seat that was suspended at the removal
      stays suspended and the constitution is the one it was. */
  lemma {:induction false} RemovedGuardianIsPowerless(
      a: Authority, cs: seq<Command>, seat: nat, id: Id, expected: nat, e: Evidence,
      q: Id, g: Option<Evidence>, n: Option<Evidence>, s: nat)
    requires Reachable(a) && NoGuardian(a)
    ensures var b := Run(a, cs);
      NoGuardian(b) && SuspendStep(b, seat, id, expected, e) == (Conflict, b)
      && (q in b.proposals && b.proposals[q].action.Rotate? ==> ActivateStep(b, q, g, n) == (Conflict, b))
      && (a.IsSuspended(s) ==> b.IsSuspended(s) && b.versions == a.versions)
  {
    ReachableInv(a);
    RunKeepsInv(a, cs);
    PowerlessNow(Run(a, cs), seat, id, expected, e, q, g, n);
    if a.IsSuspended(s) {
      SuspensionHolds(a, cs, s);
      forall i: nat ensures !RecoveredAt(a, cs, s, i) { NothingRecovers(a, cs, s, i); }
    }
  }
}
