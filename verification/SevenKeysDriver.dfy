// The drivers' own part: authenticators with their counters, and the signing loops that carry an amendment and a
// recovery through, checked against the status each request must answer with.
module SevenKeysDriver {
  import opened Wrappers
  import opened CanonicalJson
  import opened CanonicalOrder
  import opened SevenKeys
  import opened SevenKeysProofs
  import opened SevenKeysTheorems

  /** The governance API: each request is one step of the authority behind it. */
  class Api {
    var authority: Authority

    constructor (a: Authority)
      ensures authority == a
    {
      authority := a;
    }

    method Request(c: Command) returns (status: Status)
      modifies this
      ensures (status, authority) == Step(old(authority), c)
    {
      var reply := Step(authority, c);
      status := reply.0;
      authority := reply.1;
    }
  }

  /** `execute(p, ...)` */
  method Execute(api: Api, p: Id, g: Option<Evidence>, n: Option<Evidence>) returns (status: Status)
    modifies api
    ensures (status, api.authority) == ActivateStep(old(api.authority), p, g, n)
  {
    status := api.Request(Activate(p, g, n));
  }

  /** A signing key; a hardware one counts its uses. */
  class Authenticator {
    const key: Key
    const hardware: bool
    var count: nat

    constructor (key: Key, hardware: bool)
      ensures this.key == key && this.hardware == hardware && count == 0
    {
      this.key := key;
      this.hardware := hardware;
      count := 0;
    }

    ghost predicate Ahead(k: Key, h: bool, stored: nat)
      reads this
    {
      key == k && hardware == h && stored <= count
    }

    /** Counts the use first, so that the server sees a number it has not seen. */
    method Produce(domain: string, payload: Json) returns (e: Evidence)
      modifies this
      ensures forall stored: nat :: stored <= old(count) ==> Accepts(key, hardware, stored, domain, payload, e)
      ensures e.WebAuthn? ==> e.count == count
      ensures count == if hardware then old(count) + 1 else old(count)
    {
      if hardware {
        count := count + 1;
        e := WebAuthn(key, Message(domain, payload), count);
      } else {
        e := Ed25519(key, Message(domain, payload));
      }
    }
  }

  // ---- what one signature changes ----

  /** Each of the seven seats has a credential of its own that is not revoked; true of every reachable state. */
  ghost predicate Seated(a: Authority) { |a.seats| == SEATS && forall s :: 0 <= s < SEATS ==> SeatOk(a, s) }

  /** Discharges the `Seated` that the drivers below ask for, in whatever reachable state they start. */
  lemma ReachableSeated(a: Authority)
    requires Reachable(a)
    ensures Seated(a)
  {
    ReachableInv(a);
  }

  ghost function CredentialOf(a: Authority, seat: nat): Credential
    requires Seated(a) && seat < SEATS
  {
    assert SeatOk(a, seat);
    a.credentials[a.seats[seat].credential]
  }

  /** `b` differs from `a` by signatures on the open proposal `p`, their events and their counters. */
  ghost predicate OnlySigned(a: Authority, b: Authority, p: Id) {
    b.seats == a.seats && b.guardian == a.guardian && b.versions == a.versions && b.community == a.community
    && p in a.proposals && p in b.proposals && !b.proposals[p].activated && b.proposals[p].action == a.proposals[p].action
    && b.credentials.Keys == a.credentials.Keys
    && (forall id :: id in a.credentials ==> SameStanding(a.credentials[id], b.credentials[id]))
    && (forall q :: q != p ==> (q in b.proposals <==> q in a.proposals))
    && (forall q :: q != p && q in a.proposals ==> b.proposals[q] == a.proposals[q])
    && a.events <= b.events
  }

  lemma SignOne(a: Authority, p: Id, seat: nat, e: Evidence)
    requires Seated(a) && p in a.proposals && !a.proposals[p].activated
    requires seat < SEATS && !a.IsSuspended(seat) && seat !in a.proposals[p].signatures
    requires var c := CredentialOf(a, seat);
      Accepts(c.key, c.hardware, c.count, DOMAIN, Payload(a.community, p, a.proposals[p].action), e)
    ensures var r := SignStep(a, p, seat, a.seats[seat].credential, e);
      r.0.Ok? && Seated(r.1) && OnlySigned(a, r.1, p)
      && r.1.proposals[p].signatures.Keys == a.proposals[p].signatures.Keys + {seat}
      && CredentialOf(r.1, seat) == CredentialOf(a, seat).(count := NextCount(CredentialOf(a, seat).count, e))
      && forall s :: 0 <= s < SEATS && s != seat ==> CredentialOf(r.1, s) == CredentialOf(a, s)
  {
    assert SeatOk(a, seat);
    var b := SignStep(a, p, seat, a.seats[seat].credential, e).1;
    forall s | 0 <= s < SEATS ensures SeatOk(b, s) { assert SeatOk(a, s); }
    forall s | 0 <= s < SEATS && s != seat ensures CredentialOf(b, s) == CredentialOf(a, s) { assert SeatOk(a, s); }
  }

  lemma OnlySignedStacks(a: Authority, b: Authority, c: Authority, p: Id)
    requires OnlySigned(a, b, p) && OnlySigned(b, c, p)
    ensures OnlySigned(a, c, p)
  {
    forall id | id in a.credentials ensures SameStanding(a.credentials[id], c.credentials[id]) {
      assert SameStanding(a.credentials[id], b.credentials[id]) && SameStanding(b.credentials[id], c.credentials[id]);
    }
  }

  lemma SuspensionsKept(a: Authority, b: Authority, p: Id)
    requires OnlySigned(a, b, p)
    ensures forall s :: 0 <= s < |a.seats| ==> (b.IsSuspended(s) <==> a.IsSuspended(s))
    ensures b.Frozen() <==> a.Frozen()
  {
    forall s | 0 <= s < |a.seats| ensures b.IsSuspended(s) <==> a.IsSuspended(s) {
      var id := a.seats[s].credential;
      if id in a.credentials { assert SameStanding(a.credentials[id], b.credentials[id]); }
    }
    if a.Frozen() { var s :| 0 <= s < |a.seats| && a.IsSuspended(s); assert b.IsSuspended(s); }
    if b.Frozen() { var s :| 0 <= s < |b.seats| && b.IsSuspended(s); assert a.IsSuspended(s); }
  }

  // ---- the loops ----

  ghost predicate Fits(a: Authority, keys: seq<Authenticator>)
    reads keys
  {
    Seated(a) && |keys| == SEATS
    && (forall i, j :: 0 <= i < j < SEATS ==> keys[i] != keys[j])
    && (forall s :: 0 <= s < SEATS ==>
          keys[s].Ahead(CredentialOf(a, s).key, CredentialOf(a, s).hardware, CredentialOf(a, s).count))
  }

  function Set(seats: seq<nat>): set<nat> { set s | s in seats }

  /** `sign_seat(p, seat)` */
  method SignSeat(api: Api, p: Id, seat: nat, keys: seq<Authenticator>) returns (status: Status)
    requires Fits(api.authority, keys) && p in api.authority.proposals && !api.authority.proposals[p].activated
    requires seat < SEATS && !api.authority.IsSuspended(seat) && seat !in api.authority.proposals[p].signatures
    modifies api, keys[seat]
    ensures status.Ok? && Fits(api.authority, keys) && OnlySigned(old(api.authority), api.authority, p)
    ensures api.authority.proposals[p].signatures.Keys == old(api.authority.proposals[p].signatures.Keys) + {seat}
  {
    ghost var before := api.authority;
    ghost var c := CredentialOf(before, seat);
    assert keys[seat].Ahead(c.key, c.hardware, c.count);
    var e := keys[seat].Produce(DOMAIN, Payload(api.authority.community, p, api.authority.proposals[p].action));
    SignOne(before, p, seat, e);
    status := api.Request(Sign(p, seat, api.authority.seats[seat].credential, e));
    ghost var after := api.authority;
    forall s | 0 <= s < SEATS
      ensures keys[s].Ahead(CredentialOf(after, s).key, CredentialOf(after, s).hardware, CredentialOf(after, s).count)
    {
      if s != seat { assert keys[s] != keys[seat]; }
    }
  }

  /** These different seats, none of them suspended, have yet to sign the open proposal. */
  ghost predicate Signable(a: Authority, p: Id, seats: seq<nat>) {
    && p in a.proposals && !a.proposals[p].activated
    && (forall i :: 0 <= i < |seats| ==>
          seats[i] < SEATS && !a.IsSuspended(seats[i]) && seats[i] !in a.proposals[p].signatures.Keys)
    && (forall i, j :: 0 <= i < j < |seats| ==> seats[i] != seats[j])
  }

  lemma NextIsSignable(start: Authority, now: Authority, p: Id, seats: seq<nat>, i: nat)
    requires |start.seats| == SEATS && Signable(start, p, seats) && OnlySigned(start, now, p) && i < |seats|
    requires now.proposals[p].signatures.Keys == start.proposals[p].signatures.Keys + Set(seats[..i])
    ensures seats[i] < SEATS && !now.IsSuspended(seats[i]) && seats[i] !in now.proposals[p].signatures
    ensures Set(seats[..i + 1]) == Set(seats[..i]) + {seats[i]}
  {
    SuspensionsKept(start, now, p);
    assert seats[i] !in Set(seats[..i]);
    assert seats[i] !in now.proposals[p].signatures.Keys;
    assert seats[..i + 1] == seats[..i] + [seats[i]];
  }

  /** `for seat in seats: sign_seat(p, seat)`: every request is accepted. */
  method SignSeats(api: Api, p: Id, seats: seq<nat>, keys: seq<Authenticator>)
    requires Fits(api.authority, keys) && Signable(api.authority, p, seats)
    modifies api, keys
    ensures Fits(api.authority, keys) && OnlySigned(old(api.authority), api.authority, p)
    ensures api.authority.proposals[p].signatures.Keys == old(api.authority.proposals[p].signatures.Keys) + Set(seats)
  {
    ghost var start := api.authority;
    var i := 0;
    while i < |seats|
      invariant 0 <= i <= |seats|
      invariant Fits(api.authority, keys) && OnlySigned(start, api.authority, p)
      invariant api.authority.proposals[p].signatures.Keys == start.proposals[p].signatures.Keys + Set(seats[..i])
    {
      ghost var before := api.authority;
      NextIsSignable(start, before, p, seats, i);
      var status := SignSeat(api, p, seats[i], keys);
      assert status.Ok?;
      OnlySignedStacks(start, before, api.authority, p);
      i := i + 1;
    }
    assert seats[..i] == seats;
  }

  // ---- the amendment: six signatures are refused, the seventh carries it ----

  lemma ProposeFits(a: Authority, p: Id, action: Action)
    requires Seated(a) && p !in a.proposals
    ensures var b := ProposeStep(a, p, action).1;
      Seated(b) && b.seats == a.seats && b.credentials == a.credentials && b.guardian == a.guardian && b.versions == a.versions
      && b.community == a.community && b.proposals[p] == Proposal(action, false, map[])
      && (forall s :: 0 <= s < SEATS ==> CredentialOf(b, s) == CredentialOf(a, s) && b.IsSuspended(s) == a.IsSuspended(s))
      && (b.Frozen() <==> a.Frozen())
  {
    var b := ProposeStep(a, p, action).1;
    forall s | 0 <= s < SEATS ensures SeatOk(b, s) { assert SeatOk(a, s); }
    if a.Frozen() { var s :| 0 <= s < |a.seats| && a.IsSuspended(s); assert b.IsSuspended(s); }
    if b.Frozen() { var s :| 0 <= s < |b.seats| && b.IsSuspended(s); assert a.IsSuspended(s); }
  }

  method ProposeTo(api: Api, p: Id, action: Action, keys: seq<Authenticator>)
    requires Fits(api.authority, keys) && p !in api.authority.proposals
    modifies api
    ensures api.authority == ProposeStep(old(api.authority), p, action).1 && Fits(api.authority, keys)
    ensures api.authority.Frozen() <==> old(api.authority).Frozen()
    ensures forall s :: 0 <= s < SEATS ==> api.authority.IsSuspended(s) == old(api.authority).IsSuspended(s)
  {
    ProposeFits(api.authority, p, action);
    var status := api.Request(Propose(p, action));
  }

  function FirstSix(): seq<nat> { [0, 1, 2, 3, 4, 5] }

  lemma SixSeats()
    ensures Set(FirstSix()) == {0, 1, 2, 3, 4, 5}
  {}

  lemma SixAreTooFew(a: Authority, p: Id)
    requires p in a.proposals && a.proposals[p].action.Amend? && a.proposals[p].signatures.Keys == {0, 1, 2, 3, 4, 5}
    ensures ActivateStep(a, p, None, None) == (Conflict, a) && |a.proposals[p].signatures| == 6
  {
    assert |a.proposals[p].signatures| == |a.proposals[p].signatures.Keys|;
    assert |{0, 1, 2, 3, 4, 5}| == 6;
  }

  lemma SevenSuffice(a: Authority, p: Id, after: Document)
    requires p in a.proposals && a.proposals[p].action == Amend(after) && !a.proposals[p].activated && !a.Frozen()
    requires a.proposals[p].signatures.Keys == {0, 1, 2, 3, 4, 5, 6}
    ensures ActivateStep(a, p, None, None).0.Ok?
    ensures ActivateStep(a, p, None, None).1.versions == a.versions + [Version(after, Some(p))]
  {
    assert |a.proposals[p].signatures| == |a.proposals[p].signatures.Keys|;
    assert |{0, 1, 2, 3, 4, 5, 6}| == 7;
  }

  /** Open amendment `p`, signed by exactly these seats, with no seat suspended. */
  ghost predicate Amending(a: Authority, p: Id, after: Document, seats: set<nat>) {
    p in a.proposals && a.proposals[p].action == Amend(after) && !a.proposals[p].activated
    && a.proposals[p].signatures.Keys == seats && !a.Frozen()
  }

  lemma AmendingThrough(a: Authority, b: Authority, p: Id, after: Document, seats: set<nat>)
    requires exists had :: Amending(a, p, after, had)
    requires OnlySigned(a, b, p) && b.proposals[p].signatures.Keys == seats
    ensures Amending(b, p, after, seats)
  {
    SuspensionsKept(a, b, p);
  }

  method ExecuteTooEarly(api: Api, p: Id, after: Document) returns (early: Status)
    requires Amending(api.authority, p, after, {0, 1, 2, 3, 4, 5})
    modifies api
    ensures early == Conflict && api.authority == old(api.authority)
  {
    SixAreTooFew(api.authority, p);
    early := Execute(api, p, None, None);
  }

  method ExecuteAmendment(api: Api, p: Id, after: Document) returns (final: Status)
    requires Amending(api.authority, p, after, {0, 1, 2, 3, 4, 5, 6})
    modifies api
    ensures final == Ok && api.authority.versions == old(api.authority).versions + [Version(after, Some(p))]
  {
    SevenSuffice(api.authority, p, after);
    final := Execute(api, p, None, None);
  }

  lemma SixSignable(a: Authority, p: Id, after: Document)
    requires Amending(a, p, after, {})
    ensures Signable(a, p, FirstSix())
  {}

  method SignSix(api: Api, p: Id, after: Document, keys: seq<Authenticator>)
    requires Fits(api.authority, keys) && Amending(api.authority, p, after, {})
    modifies api, keys
    ensures Fits(api.authority, keys) && Amending(api.authority, p, after, {0, 1, 2, 3, 4, 5})
    ensures api.authority.versions == old(api.authority).versions
  {
    ghost var before := api.authority;
    SixSeats();
    SixSignable(before, p, after);
    SignSeats(api, p, FirstSix(), keys);
    assert api.authority.proposals[p].signatures.Keys == {} + Set(FirstSix());
    AmendingThrough(before, api.authority, p, after, {0, 1, 2, 3, 4, 5});
  }

  method SixOfSeven(api: Api, p: Id, after: Document, keys: seq<Authenticator>) returns (early: Status, counted: nat)
    requires Fits(api.authority, keys) && Amending(api.authority, p, after, {})
    modifies api, keys
    ensures early == Conflict && counted == 6 && Fits(api.authority, keys)
    ensures Amending(api.authority, p, after, {0, 1, 2, 3, 4, 5})
    ensures api.authority.versions == old(api.authority).versions
  {
    SignSix(api, p, after, keys);
    early := ExecuteTooEarly(api, p, after);
    SixAreTooFew(api.authority, p);
    counted := |api.authority.proposals[p].signatures|;
  }

  method SeventhCarries(api: Api, p: Id, after: Document, keys: seq<Authenticator>) returns (final: Status)
    requires Fits(api.authority, keys) && Amending(api.authority, p, after, {0, 1, 2, 3, 4, 5})
    modifies api, keys
    ensures final == Ok && api.authority.versions == old(api.authority).versions + [Version(after, Some(p))]
  {
    ghost var before := api.authority;
    assert 6 !in before.proposals[p].signatures.Keys;
    var status := SignSeat(api, p, 6, keys);
    AmendingThrough(before, api.authority, p, after, {0, 1, 2, 3, 4, 5, 6});
    final := ExecuteAmendment(api, p, after);
  }

  /** The whole exchange, from any state in which no seat is suspended and the seats hold their keys. */
  method AmendmentRun(api: Api, p: Id, after: Document, keys: seq<Authenticator>)
    returns (early: Status, counted: nat, final: Status)
    requires Fits(api.authority, keys) && !api.authority.Frozen() && p !in api.authority.proposals
    modifies api, keys
    ensures early == Conflict && counted == 6 && final == Ok
    ensures api.authority.versions == old(api.authority).versions + [Version(after, Some(p))]
  {
    ProposeTo(api, p, Amend(after), keys);
    early, counted := SixOfSeven(api, p, after, keys);
    final := SeventhCarries(api, p, after, keys);
  }

  // ---- recovery: one suspension, five signatures refused, the sixth rotates ----

  /** Every seat but this one, in order. */
  function Others(seat: nat): (r: seq<nat>)
    requires seat < SEATS
    ensures |r| == 6 && (forall i :: 0 <= i < 6 ==> r[i] < SEATS && r[i] != seat)
    ensures forall i, j :: 0 <= i < j < 6 ==> r[i] != r[j]
  {
    seq(6, i requires 0 <= i < 6 => if i < seat then i else i + 1)
  }

  /** The state right after the Guardian suspended `seat` in `a`. */
  lemma SuspendOne(a: Authority, seat: nat, e: Evidence)
    requires Seated(a) && seat < SEATS && !a.Frozen() && a.guardian.active
    requires Accepts(a.guardian.key, a.guardian.hardware, a.guardian.count, GUARDIAN,
                     SuspensionPayload(a.community, seat, a.seats[seat].credential, a.NextSequence()), e)
    ensures var r := SuspendStep(a, seat, a.seats[seat].credential, a.NextSequence(), e);
      r.0.Ok? && Seated(r.1) && r.1.IsSuspended(seat) && r.1.seats == a.seats && r.1.versions == a.versions
      && r.1.proposals == a.proposals && r.1.community == a.community
      && r.1.guardian == a.guardian.(count := NextCount(a.guardian.count, e))
      && r.1.credentials.Keys == a.credentials.Keys
      && (forall s :: 0 <= s < SEATS && r.1.IsSuspended(s) ==> s == seat)
      && forall s :: 0 <= s < SEATS ==>
           CredentialOf(r.1, s).key == CredentialOf(a, s).key && CredentialOf(r.1, s).hardware == CredentialOf(a, s).hardware
           && CredentialOf(r.1, s).count == CredentialOf(a, s).count
  {
    assert SeatOk(a, seat) && !a.IsSuspended(seat);
    var b := SuspendStep(a, seat, a.seats[seat].credential, a.NextSequence(), e).1;
    forall s | 0 <= s < SEATS ensures SeatOk(b, s) { assert SeatOk(a, s); }
    forall s | 0 <= s < SEATS && b.IsSuspended(s) ensures s == seat {
      assert SeatOk(a, s);
      assert a.IsSuspended(s) ==> a.Frozen();
    }
  }

  ghost predicate Serves(a: Authority, guardian: Authenticator)
    reads guardian
  {
    a.guardian.active && guardian.Ahead(a.guardian.key, a.guardian.hardware, a.guardian.count)
  }

  /** The Guardian suspends a seat, at the sequence number it read. */
  method SuspendSeat(api: Api, seat: nat, guardian: Authenticator, keys: seq<Authenticator>)
    returns (status: Status, sequence: nat, e: Evidence)
    requires Fits(api.authority, keys) && Serves(api.authority, guardian) && guardian !in keys
    requires seat < SEATS && !api.authority.Frozen()
    modifies api, guardian
    ensures status == Ok && Fits(api.authority, keys) && Serves(api.authority, guardian)
    ensures var a, b := old(api.authority), api.authority;
      b == SuspendStep(a, seat, a.seats[seat].credential, a.NextSequence(), e).1 && b.IsSuspended(seat) && b.versions == a.versions
      && b.seats == a.seats && b.proposals == a.proposals && b.credentials.Keys == a.credentials.Keys
      && b.guardian.id == a.guardian.id && (forall s :: 0 <= s < SEATS && b.IsSuspended(s) ==> s == seat)
  {
    ghost var a := api.authority;
    sequence := api.authority.NextSequence();
    var credential := api.authority.seats[seat].credential;
    e := guardian.Produce(GUARDIAN, SuspensionPayload(api.authority.community, seat, credential, sequence));
    SuspendOne(a, seat, e);
    status := api.Request(Suspend(seat, credential, sequence, e));
    forall s | 0 <= s < SEATS
      ensures keys[s].Ahead(CredentialOf(api.authority, s).key, CredentialOf(api.authority, s).hardware,
                            CredentialOf(api.authority, s).count)
    {
      assert keys[s].Ahead(CredentialOf(a, s).key, CredentialOf(a, s).hardware, CredentialOf(a, s).count);
      assert keys[s] != guardian;
    }
  }

  /** While one seat is suspended no other can be, whatever evidence comes. */
  method SuspendAnother(api: Api, seat: nat, credential: Id, sequence: nat, e: Evidence) returns (status: Status)
    requires api.authority.Frozen()
    modifies api
    ensures status == Conflict && api.authority == old(api.authority)
  {
    status := api.Request(Suspend(seat, credential, sequence, e));
  }

  /** Open rotation `r`, signed by exactly these seats, its seat being the one suspended. */
  ghost predicate Recovering(a: Authority, p: Id, r: Action, seats: set<nat>) {
    r.Rotate? && p in a.proposals && a.proposals[p].action == r && !a.proposals[p].activated
    && a.proposals[p].signatures.Keys == seats
    && a.IsSuspended(r.seat) && (forall s :: 0 <= s < |a.seats| && a.IsSuspended(s) ==> s == r.seat)
    && a.seats[r.seat].credential == r.outgoing && a.seats[r.seat].controller == r.controller
    && a.guardian.active && r.incoming !in a.credentials && r.incoming != a.guardian.id
  }

  lemma RecoveringThrough(a: Authority, b: Authority, p: Id, r: Action, had: set<nat>)
    requires Recovering(a, p, r, had) && OnlySigned(a, b, p)
    ensures Recovering(b, p, r, b.proposals[p].signatures.Keys)
  {
    SuspensionsKept(a, b, p);
  }

  method RotateTooEarly(api: Api, p: Id, r: Action, seats: set<nat>, missing: nat, guardian: Authenticator, incoming: Authenticator)
    returns (early: Status)
    requires Recovering(api.authority, p, r, seats) && missing < SEATS && missing != r.seat && missing !in seats
    requires Serves(api.authority, guardian) && guardian != incoming
    modifies api, guardian, incoming
    ensures early == Conflict && api.authority == old(api.authority) && Serves(api.authority, guardian)
  {
    assert missing !in api.authority.proposals[p].signatures.Keys;
    var payload := Payload(api.authority.community, p, r);
    var g := guardian.Produce(GUARDIAN, payload);
    var n := incoming.Produce(POSSESSION, payload);
    early := Execute(api, p, Some(g), Some(n));
  }

  lemma RotationLands(a: Authority, p: Id, r: Action, seats: set<nat>, g: Evidence, n: Evidence)
    requires Recovering(a, p, r, seats) && forall s :: 0 <= s < SEATS && s != r.seat ==> s in seats
    requires RotationSigned(a, p, r, Some(g), Some(n))
    ensures var x := ActivateStep(a, p, Some(g), Some(n));
      x.0 == Ok && x.1.IsActiveFor(r.seat, r.incoming) && x.1.credentials[r.incoming].key == r.key
      && r.outgoing in x.1.credentials && x.1.credentials[r.outgoing].status.Revoked?
      && x.1.seats[r.seat].controller == a.seats[r.seat].controller && x.1.versions == a.versions && !x.1.Frozen()
  {
    assert OthersSigned(a.proposals[p], r.seat) by {
      forall s | 0 <= s < SEATS && s != r.seat ensures s in a.proposals[p].signatures {
        assert s in a.proposals[p].signatures.Keys;
      }
    }
    var b := ActivateStep(a, p, Some(g), Some(n)).1;
    forall s | 0 <= s < |b.seats| ensures !b.IsSuspended(s) {
      if s != r.seat { assert !a.IsSuspended(s); }
    }
  }

  method RotateNow(api: Api, p: Id, r: Action, seats: set<nat>, guardian: Authenticator, incoming: Authenticator)
    returns (final: Status)
    requires Recovering(api.authority, p, r, seats) && forall s :: 0 <= s < SEATS && s != r.seat ==> s in seats
    requires Serves(api.authority, guardian) && guardian != incoming && incoming.key == r.key && incoming.hardware == r.hardware
    modifies api, guardian, incoming
    ensures final == Ok
    ensures var a, b := old(api.authority), api.authority;
      b.IsActiveFor(r.seat, r.incoming) && b.credentials[r.incoming].key == r.key
      && r.outgoing in b.credentials && b.credentials[r.outgoing].status.Revoked?
      && r.seat < |a.seats| && b.seats[r.seat].controller == a.seats[r.seat].controller && b.versions == a.versions && !b.Frozen()
  {
    var payload := Payload(api.authority.community, p, r);
    var g := guardian.Produce(GUARDIAN, payload);
    var n := incoming.Produce(POSSESSION, payload);
    RotationLands(api.authority, p, r, seats, g, n);
    final := Execute(api, p, Some(g), Some(n));
  }

  lemma FiveAndOne(seat: nat)
    requires seat < SEATS
    ensures Others(seat)[5] !in Set(Others(seat)[..5])
    ensures forall s :: 0 <= s < SEATS && s != seat ==> s in Set(Others(seat)[..5]) + {Others(seat)[5]}
  {
    forall s | 0 <= s < SEATS && s != seat ensures s in Set(Others(seat)[..5]) + {Others(seat)[5]} {
      var i := if s < seat then s else s - 1;
      assert Others(seat)[i] == s;
      if i < 5 { assert Others(seat)[..5][i] == s; }
    }
  }

  lemma OthersSignable(a: Authority, p: Id, r: Action)
    requires Recovering(a, p, r, {}) && r.seat < SEATS
    ensures Signable(a, p, Others(r.seat)[..5])
  {}

  /** Five of the six other seats sign and are refused; the sixth signs and the rotation stands. */
  method RotationRun(api: Api, p: Id, r: Action, guardian: Authenticator, incoming: Authenticator, keys: seq<Authenticator>)
    returns (early: Status, final: Status)
    requires Fits(api.authority, keys) && Recovering(api.authority, p, r, {}) && r.seat < SEATS
    requires Serves(api.authority, guardian) && guardian !in keys && incoming !in keys && guardian != incoming
    requires incoming.key == r.key && incoming.hardware == r.hardware
    modifies api, keys, guardian, incoming
    ensures early == Conflict && final == Ok
    ensures var a, b := old(api.authority), api.authority;
      b.IsActiveFor(r.seat, r.incoming) && b.credentials[r.incoming].key == r.key
      && r.outgoing in b.credentials && b.credentials[r.outgoing].status.Revoked?
      && r.seat < |a.seats| && b.seats[r.seat].controller == a.seats[r.seat].controller && b.versions == a.versions && !b.Frozen()
  {
    ghost var a := api.authority;
    var others := Others(r.seat);
    FiveAndOne(r.seat);
    OthersSignable(a, p, r);
    SignSeats(api, p, others[..5], keys);
    ghost var five := api.authority;
    RecoveringThrough(a, five, p, r, {});
    early := RotateTooEarly(api, p, r, Set(others[..5]), others[5], guardian, incoming);
    assert others[5] !in five.proposals[p].signatures.Keys;
    var status := SignSeat(api, p, others[5], keys);
    RecoveringThrough(five, api.authority, p, r, Set(others[..5]));
    final := RotateNow(api, p, r, Set(others[..5]) + {others[5]}, guardian, incoming);
  }

  /** The whole recovery, from any state in which no seat is suspended and everyone holds their keys. */
  method RecoveryRun(api: Api, p: Id, r: Action, other: nat, guardian: Authenticator, incoming: Authenticator,
                     keys: seq<Authenticator>)
    returns (suspended: Status, second: Status, early: Status, final: Status)
    requires Fits(api.authority, keys) && !api.authority.Frozen() && p !in api.authority.proposals
    requires r.Rotate? && r.seat < SEATS && r.controller == api.authority.seats[r.seat].controller
    requires r.outgoing == api.authority.seats[r.seat].credential
    requires r.incoming !in api.authority.credentials && r.incoming != api.authority.guardian.id
    requires Serves(api.authority, guardian) && guardian !in keys && incoming !in keys && guardian != incoming
    requires incoming.key == r.key && incoming.hardware == r.hardware
    modifies api, keys, guardian, incoming
    ensures suspended == Ok && second == Conflict && early == Conflict && final == Ok
    ensures var a, b := old(api.authority), api.authority;
      b.IsActiveFor(r.seat, r.incoming) && b.credentials[r.incoming].key == r.key
      && r.outgoing in b.credentials && b.credentials[r.outgoing].status.Revoked?
      && r.seat < |a.seats| && b.seats[r.seat].controller == a.seats[r.seat].controller && b.versions == a.versions && !b.Frozen()
  {
    var sequence, e;
    suspended, sequence, e := SuspendSeat(api, r.seat, guardian, keys);
    second := SuspendAnother(api, other, r.outgoing, sequence, e);
    ghost var frozen := api.authority;
    ProposeTo(api, p, r, keys);
    assert Recovering(api.authority, p, r, {}) by {
      assert forall s :: 0 <= s < SEATS ==> api.authority.IsSuspended(s) == frozen.IsSuspended(s);
    }
    early, final := RotationRun(api, p, r, guardian, incoming, keys);
  }
}
