// Seven Keys governance of the market constitution: seven seats and a Guardian, proposals and their signatures,
// emergency suspension, credential rotation and removal of the Guardian, as the three drivers pin it.
module SevenKeys {
  import opened Wrappers
  import opened CanonicalJson
  import opened CanonicalOrder

  type Id = nat
  type Key = nat
  type Document = v: Json | Valid(v) witness Bool(true)

  const SEATS: nat := 7
  const CONSTITUTIONAL_THRESHOLD: nat := 7
  const REMOVAL_THRESHOLD: nat := 5

  const DOMAIN: string := "STIR:MARKET:CONSTITUTION:V1"
  const GUARDIAN: string := "STIR:MARKET:GUARDIAN:V1"
  const POSSESSION: string := "STIR:MARKET:POSSESSION:V1"
  const BOOTSTRAP: string := "STIR:MARKET:BOOTSTRAP:V1"

  /** Under which the parties of a trade sign for osTRIS, with keys of the same kind. */
  const TRANSACTION: string := "OSTRIS:TX:AUTH:V1"

  // ---- state ----

  /** Ideal signatures: one is known by the key that made it and the message it was made over. */
  datatype Evidence =
    | Ed25519(key: Key, message: string)
    | WebAuthn(key: Key, message: string, count: nat)

  datatype CredentialStatus = Active | Suspended | Revoked

  /** A credential of a seat. It was active from event `since` until event `until`, if that has come. */
  datatype Credential = Credential(seat: nat, key: Key, hardware: bool, count: nat, status: CredentialStatus,
                                   since: nat, until: Option<nat>)

  datatype Seat = Seat(controller: Id, credential: Id)

  datatype Guardian = Guardian(id: Id, key: Key, hardware: bool, count: nat, active: bool)

  datatype Action =
    | Amend(after: Document)
    | ReplaceController(seat: nat, controller: Id)
    | Rotate(seat: nat, outgoing: Id, incoming: Id, key: Key, hardware: bool, controller: Id)
    | RemoveGuardian

  datatype Signing = Signing(credential: Id, evidence: Evidence, at: nat)

  datatype Proposal = Proposal(action: Action, activated: bool, signatures: map<nat, Signing>)

  /** Version 1, at index 0, comes from the bootstrap; every other one from a proposal. */
  datatype Version = Version(document: Document, proposal: Option<Id>)

  datatype Event =
    | Bootstrapped
    | Proposed(proposal: Id)
    | Signed(proposal: Id, seat: nat, credential: Id)
    | SeatSuspended(seat: nat, credential: Id)
    | Activated(proposal: Id)

  datatype Authority = Authority(
    community: Id, seats: seq<Seat>, credentials: map<Id, Credential>, guardian: Guardian,
    proposals: map<Id, Proposal>, versions: seq<Version>, events: seq<Event>)
  {
    function NextSequence(): nat { |events| }

    predicate IsSuspended(seat: nat) {
      seat < |seats| && seats[seat].credential in credentials && credentials[seats[seat].credential].status.Suspended?
    }

    predicate Frozen() { exists seat :: 0 <= seat < |seats| && IsSuspended(seat) }

    predicate IsActiveFor(seat: nat, credential: Id) {
      seat < |seats| && seats[seat].credential == credential
      && credential in credentials && credentials[credential].status.Active?
    }

    function Log(e: Event): Authority { this.(events := events + [e]) }

    function Mark(p: Id): Authority
      requires p in proposals
    {
      this.(proposals := proposals[p := proposals[p].(activated := true)]).Log(Activated(p))
    }
  }

  // ---- what is signed ----

  function ActionName(action: Action): string {
    match action
    case Amend(_) => "AMEND_CONSTITUTION"
    case ReplaceController(_, _) => "REPLACE_CONTROLLER"
    case Rotate(_, _, _, _, _, _) => "ROTATE_CREDENTIAL"
    case RemoveGuardian => "REMOVE_GUARDIAN"
  }

  function After(action: Action): Json {
    match action
    case Amend(after) => after
    case ReplaceController(seat, controller) => Obj([Member("affectedSeat", Int(seat)), Member("controllerId", Int(controller))])
    case Rotate(seat, outgoing, incoming, key, hardware, controller) =>
      Obj([Member("affectedSeat", Int(seat)), Member("oldCredentialId", Int(outgoing)), Member("newCredentialId", Int(incoming)),
           Member("newPublicKey", Int(key)), Member("controllerId", Int(controller)), Member("hardware", Bool(hardware))])
    case RemoveGuardian => Obj([Member("status", Str("REMOVED"))])
  }

  function Payload(community: Id, proposal: Id, action: Action): Json {
    Obj([Member("communityId", Int(community)), Member("proposalId", Int(proposal)),
         Member("actionType", Str(ActionName(action))), Member("after", After(action))])
  }

  function SuspensionPayload(community: Id, seat: nat, credential: Id, sequence: nat): Json {
    Obj([Member("format", Str("STIR-KEY-SUSPENSION-1")), Member("communityId", Int(community)), Member("seat", Int(seat)),
         Member("credentialId", Int(credential)), Member("sequence", Int(sequence))])
  }

  /** The evidence is by this key over this message, and an authenticator's counter has advanced. */
  predicate Accepts(key: Key, hardware: bool, stored: nat, domain: string, payload: Json, e: Evidence) {
    e.key == key && e.message == Message(domain, payload) && (e.WebAuthn? <==> hardware)
    && (e.WebAuthn? ==> (e.count == 0 && stored == 0) || e.count > stored)
  }

  function NextCount(stored: nat, e: Evidence): nat { if e.WebAuthn? then e.count else stored }

  // ---- the steps ----

  datatype Status = Ok | BadRequest | NotFound | Conflict

  function ProposeStep(a: Authority, p: Id, action: Action): (Status, Authority) {
    if p in a.proposals then (Conflict, a)
    else (Ok, a.(proposals := a.proposals[p := Proposal(action, false, map[])]).Log(Proposed(p)))
  }

  function SignStep(a: Authority, p: Id, seat: nat, credential: Id, e: Evidence): (Status, Authority) {
    if p !in a.proposals then (NotFound, a)
    else if a.proposals[p].activated then (Conflict, a)
    else if !a.IsActiveFor(seat, credential) then (Conflict, a)
    else
      var c, q := a.credentials[credential], a.proposals[p];
      if !Accepts(c.key, c.hardware, c.count, DOMAIN, Payload(a.community, p, q.action), e) then (BadRequest, a)
      else if seat in q.signatures then (Conflict, a)
      else
        var signing := Signing(credential, e, a.NextSequence());
        (Ok, a.(credentials := a.credentials[credential := c.(count := NextCount(c.count, e))],
                proposals := a.proposals[p := q.(signatures := q.signatures[seat := signing])]).Log(Signed(p, seat, credential)))
  }

  function SuspendStep(a: Authority, seat: nat, credential: Id, expected: nat, e: Evidence): (Status, Authority) {
    if !a.guardian.active || expected != a.NextSequence() || a.Frozen() || !a.IsActiveFor(seat, credential) then (Conflict, a)
    else
      var g, c := a.guardian, a.credentials[credential];
      if !Accepts(g.key, g.hardware, g.count, GUARDIAN, SuspensionPayload(a.community, seat, credential, expected), e) then
        (BadRequest, a)
      else
        (Ok, a.(guardian := g.(count := NextCount(g.count, e)),
                credentials := a.credentials[credential := c.(status := Suspended, until := Some(a.NextSequence()))])
              .Log(SeatSuspended(seat, credential)))
  }

  function AmendStep(a: Authority, p: Id, after: Document): (Status, Authority)
    requires p in a.proposals
  {
    if |a.proposals[p].signatures| < CONSTITUTIONAL_THRESHOLD || a.Frozen() then (Conflict, a)
    else (Ok, a.(versions := a.versions + [Version(after, Some(p))]).Mark(p))
  }

  predicate OthersSigned(q: Proposal, seat: nat) {
    forall s :: 0 <= s < SEATS && s != seat ==> s in q.signatures
  }

  /** Everything a rotation needs but the two signatures that come with the request. */
  predicate RotationReady(a: Authority, q: Proposal) {
    q.action.Rotate?
    && a.IsSuspended(q.action.seat)
    && a.seats[q.action.seat].credential == q.action.outgoing
    && a.seats[q.action.seat].controller == q.action.controller
    && OthersSigned(q, q.action.seat)
    && a.guardian.active
    && q.action.incoming !in a.credentials && q.action.incoming != a.guardian.id
  }

  predicate RotationSigned(a: Authority, p: Id, action: Action, g: Option<Evidence>, n: Option<Evidence>)
    requires action.Rotate?
  {
    g.Some? && n.Some?
    && Accepts(a.guardian.key, a.guardian.hardware, a.guardian.count, GUARDIAN, Payload(a.community, p, action), g.value)
    && Accepts(action.key, action.hardware, 0, POSSESSION, Payload(a.community, p, action), n.value)
  }

  function RotateStep(a: Authority, p: Id, g: Option<Evidence>, n: Option<Evidence>): (Status, Authority)
    requires p in a.proposals && a.proposals[p].action.Rotate?
  {
    var q := a.proposals[p];
    var r := q.action;
    if !RotationReady(a, q) then (Conflict, a)
    else if !RotationSigned(a, p, r, g, n) then (BadRequest, a)
    else
      var enrolled := Credential(r.seat, r.key, r.hardware, NextCount(0, n.value), Active, a.NextSequence(), None);
      (Ok, a.(seats := a.seats[r.seat := a.seats[r.seat].(credential := r.incoming)],
              credentials := a.credentials[r.outgoing := a.credentials[r.outgoing].(status := Revoked)][r.incoming := enrolled],
              guardian := a.guardian.(count := NextCount(a.guardian.count, g.value))).Mark(p))
  }

  function RemoveStep(a: Authority, p: Id): (Status, Authority)
    requires p in a.proposals
  {
    if |a.proposals[p].signatures| < REMOVAL_THRESHOLD || !a.guardian.active then (Conflict, a)
    else (Ok, a.(guardian := a.guardian.(active := false)).Mark(p))
  }

  function ActivateStep(a: Authority, p: Id, g: Option<Evidence>, n: Option<Evidence>): (Status, Authority) {
    if p !in a.proposals then (NotFound, a)
    else if a.proposals[p].activated then (Conflict, a)
    else
      match a.proposals[p].action
      case Amend(after) => AmendStep(a, p, after)
      case ReplaceController(_, _) => (Conflict, a)
      case Rotate(_, _, _, _, _, _) => RotateStep(a, p, g, n)
      case RemoveGuardian => RemoveStep(a, p)
  }

  datatype Command =
    | Propose(p: Id, action: Action)
    | Sign(p: Id, seat: nat, credential: Id, e: Evidence)
    | Suspend(seat: nat, credential: Id, expected: nat, e: Evidence)
    | Activate(p: Id, guardian: Option<Evidence>, possession: Option<Evidence>)

  function Step(a: Authority, c: Command): (Status, Authority) {
    match c
    case Propose(p, action) => ProposeStep(a, p, action)
    case Sign(p, seat, credential, e) => SignStep(a, p, seat, credential, e)
    case Suspend(seat, credential, expected, e) => SuspendStep(a, seat, credential, expected, e)
    case Activate(p, g, n) => ActivateStep(a, p, g, n)
  }

  function Run(a: Authority, cs: seq<Command>): Authority
    decreases |cs|
  {
    if cs == [] then a else Step(Run(a, cs[..|cs| - 1]), cs[|cs| - 1]).1
  }

  // ---- bootstrap ----

  /** A seat as the bootstrap request presents it. */
  datatype Opening = Opening(controller: Id, credential: Id, key: Key, hardware: bool, possession: Evidence)

  function SeatJson(o: Opening): Json {
    Obj([Member("controllerId", Int(o.controller)), Member("credentialId", Int(o.credential)), Member("publicKey", Int(o.key))])
  }

  function SeatList(os: seq<Opening>): seq<Json> { seq(|os|, i requires 0 <= i < |os| => SeatJson(os[i])) }

  /** The request signs the seat list without the possession signatures themselves, and the digest of the constitution
      the authority starts with; an ideal digest is the document. */
  function BootstrapPayload(community: Id, os: seq<Opening>, guardianId: Id, guardianKey: Key, first: Document): Json {
    Obj([Member("format", Str("STIR-SEVEN-KEYS-BOOTSTRAP-1")), Member("communityId", Int(community)),
         Member("seats", Arr(SeatList(os))), Member("guardianCredentialId", Int(guardianId)),
         Member("guardianPublicKey", Int(guardianKey)), Member("constitutionDigest", first)])
  }

  predicate Bootstrappable(community: Id, os: seq<Opening>, g: Guardian, possession: Evidence, first: Document) {
    |os| == SEATS
    && (forall i, j :: 0 <= i < j < SEATS ==> os[i].credential != os[j].credential)
    && (forall i :: 0 <= i < SEATS ==> os[i].credential != g.id)
    && (forall i :: 0 <= i < SEATS ==>
          Accepts(os[i].key, os[i].hardware, 0, BOOTSTRAP, BootstrapPayload(community, os, g.id, g.key, first), os[i].possession))
    && g.active && g.count == 0
    && Accepts(g.key, g.hardware, 0, BOOTSTRAP, BootstrapPayload(community, os, g.id, g.key, first), possession)
  }

  function Enrol(os: seq<Opening>, n: nat): map<Id, Credential>
    requires n <= |os|
  {
    if n == 0 then map[]
    else
      var o := os[n - 1];
      Enrol(os, n - 1)[o.credential := Credential(n - 1, o.key, o.hardware, NextCount(0, o.possession), Active, 0, None)]
  }

  function Bootstrap(community: Id, os: seq<Opening>, g: Guardian, possession: Evidence, first: Document): Option<Authority> {
    if !Bootstrappable(community, os, g, possession, first) then None
    else Some(Authority(community, seq(SEATS, i requires 0 <= i < SEATS => Seat(os[i].controller, os[i].credential)),
                        Enrol(os, SEATS), g.(count := NextCount(0, possession)), map[], [Version(first, None)], [Bootstrapped]))
  }
}
