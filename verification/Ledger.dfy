// The osTRIS tables of one tenant and the service operations over them.
//
// A `State` is a value holding every table; `Step` is what one `@Transactional` method does to it,
// taken as one atomic step. `OstrisDatabase` (OstrisDatabase.dfy) is the same thing with the tables
// updated in place, and is proved to refine `Step`.
module Ledger {
  import opened Wrappers
  import Base64Url

  /** A UUIDv7 drawn by the service; freshness is all the service relies on. */
  type Id = nat

  datatype Entry = Entry(account: Id, amount: int)

  /** What an AuthorizationPayload says: it names the transaction, so no two proposals share one. */
  datatype Payload = Payload(tx: Id, community: Id, unit: Id, entries: seq<Entry>)

  /** An ideal signature: it verifies under exactly one key and for exactly one payload. */
  datatype Signature = Signature(key: string, payload: Payload)

  /** An ideal digest of a committed transaction. */
  datatype Digest = Digest(payload: Payload, sequence: int)
  datatype Receipt = Receipt(sequence: int, digest: Digest)

  datatype Evidence = Evidence(account: Id, credential: Id, signature: Signature)

  datatype Unit = Unit(community: Id, code: string, scale: int)
  /** `controller` is the one member of the account's 1-of-1 control policy. */
  datatype Account = Account(community: Id, unit: Id, controller: Id, floor: int, balance: int)
  /** A credential row joined with its controller binding. */
  datatype Credential =
    Credential(community: Id, key: string, controller: Id, activation: int, revocation: Option<int>)
  datatype Proposal = Proposal(payload: Payload, evidence: seq<Evidence>, committedSequence: Option<int>)
  datatype JournalRow = JournalRow(payload: Payload, sequence: int, evidence: seq<Evidence>)

  datatype State = State(
    nextId: Id,
    communities: map<Id, int>,        // next_sequence
    units: map<Id, Unit>,
    accounts: map<Id, Account>,
    controllers: map<Id, Id>,         // community
    credentials: map<Id, Credential>,
    proposals: map<Id, Proposal>,
    journal: seq<JournalRow>)

  const EMPTY := State(0, map[], map[], map[], map[], map[], map[], [])

  datatype Error =
    | InvalidRequest | UnknownCommunity | UnknownUnit | InvalidUnitCode | InvalidUnitScale | UnitCodeTaken
    | InvalidBase64Url | InvalidCreditFloor | CredentialKeyTaken | UnknownController
    | UnknownCredential | CredentialAlreadyRevoked
    | InvalidProposal | ProposalExists | UnknownProposal
    | AuthorizationIncomplete | CredentialNotEligible | CreditFloorBreached

  datatype Operation =
    | CreateCommunity(name: string)
    | CreateUnit(community: Id, code: string, scale: int)
    | ActivateParticipant(community: Id, name: string, unit: Id, key: string, floor: Option<int>)
    | AddCredential(community: Id, controller: Id, key: string)
    | RevokeCredential(community: Id, credential: Id)
    | Propose(payload: Payload)
    | AddEvidence(tx: Id, evidence: Evidence)
    | Commit(tx: Id)

  datatype Outcome =
    | Created(id: Id)
    | Activated(account: Id, controller: Id, credential: Id)
    | CredentialAdded(credential: Id, activation: int)
    | Accepted
    | Committed(receipt: Receipt)
    | Refused(error: Error)

  const DEFAULT_FLOOR := -100000

  /** `Character.isWhitespace`: the control characters for it, and Unicode's separators but the non-breaking spaces. */
  predicate WhiteSpace(c: char) {
    var n := c as int;
    9 <= n <= 13 || 28 <= n <= 32 || n == 0x1680 || (0x2000 <= n <= 0x200A && n != 0x2007)
    || n == 0x2028 || n == 0x2029 || n == 0x205F || n == 0x3000
  }

  /** `String.isBlank` */
  predicate Blank(s: string) { forall c :: c in s ==> WhiteSpace(c) }

  predicate UpperCase(c: char) { 'A' <= c <= 'Z' }

  predicate UnitCodeChar(c: char) { UpperCase(c) || '0' <= c <= '9' || c == '_' || c == '-' }

  predicate UnitCode(code: string) {
    1 <= |code| <= 16 && UpperCase(code[0]) && forall c :: c in code[1..] ==> UnitCodeChar(c)
  }

  predicate CodeTaken(s: State, community: Id, code: string) {
    exists u :: u in s.units && s.units[u].community == community && s.units[u].code == code
  }

  predicate KeyIn(credentials: map<Id, Credential>, community: Id, key: string) {
    exists c :: c in credentials && credentials[c].community == community && credentials[c].key == key
  }

  predicate KeyTaken(s: State, community: Id, key: string) { KeyIn(s.credentials, community, key) }

  // ---- provisioning ----

  function CreateCommunityStep(s: State, name: string): (State, Outcome) {
    if Blank(name) then (s, Refused(InvalidRequest))
    else (s.(nextId := s.nextId + 1, communities := s.communities[s.nextId := 1]), Created(s.nextId))
  }

  function CreateUnitStep(s: State, community: Id, code: string, scale: int): (State, Outcome) {
    if community !in s.communities then (s, Refused(UnknownCommunity))
    else if !UnitCode(code) then (s, Refused(InvalidUnitCode))
    else if scale < 0 || scale > 18 then (s, Refused(InvalidUnitScale))
    else if CodeTaken(s, community, code) then (s, Refused(UnitCodeTaken))
    else (s.(nextId := s.nextId + 1, units := s.units[s.nextId := Unit(community, code, scale)]), Created(s.nextId))
  }

  function ActivateStep(s: State, community: Id, name: string, unit: Id, key: string, floor: Option<int>)
    : (State, Outcome)
  {
    var limit := if floor.None? then DEFAULT_FLOOR else floor.value;
    if community !in s.communities then (s, Refused(UnknownCommunity))
    else if unit !in s.units || s.units[unit].community != community then (s, Refused(UnknownUnit))
    else if Blank(name) then (s, Refused(InvalidRequest))
    else if !Base64Url.AcceptedKey(key) then (s, Refused(InvalidBase64Url))
    else if limit > 0 then (s, Refused(InvalidCreditFloor))
    else if KeyTaken(s, community, key) then (s, Refused(CredentialKeyTaken))
    else
      // The participant takes the first identifier, the policy row the last; neither is read again.
      var account, credential, controller := s.nextId + 1, s.nextId + 2, s.nextId + 3;
      (s.(nextId := s.nextId + 5,
          accounts := s.accounts[account := Account(community, unit, controller, limit, 0)],
          credentials := s.credentials[credential := Credential(community, key, controller, 0, None)],
          controllers := s.controllers[controller := community]),
       Activated(account, controller, credential))
  }

  function WithCredential(s: State, next: Id, id: Id, row: Credential): State {
    s.(nextId := next, credentials := s.credentials[id := row])
  }

  /** The write half of adding a device, with the activation sequence its read half worked out. */
  function WriteCredential(s: State, community: Id, controller: Id, key: string, activation: int): (State, Outcome) {
    if KeyTaken(s, community, key) then (s, Refused(CredentialKeyTaken))
    else
      (WithCredential(s, s.nextId + 1, s.nextId, Credential(community, key, controller, activation, None)),
       CredentialAdded(s.nextId, activation))
  }

  function AddCredentialStep(s: State, community: Id, controller: Id, key: string): (State, Outcome) {
    if community !in s.communities then (s, Refused(UnknownCommunity))
    else if controller !in s.controllers || s.controllers[controller] != community then (s, Refused(UnknownController))
    else if !Base64Url.AcceptedKey(key) then (s, Refused(InvalidBase64Url))
    else WriteCredential(s, community, controller, key, s.communities[community] - 1)
  }

  /** The write half of a revocation, with the sequence its read half found. */
  function WriteRevocation(s: State, credential: Id, sequence: int): State
    requires credential in s.credentials
  {
    s.(credentials := s.credentials[credential := s.credentials[credential].(revocation := Some(sequence))])
  }

  function RevokeStep(s: State, community: Id, credential: Id): (State, Outcome) {
    if community !in s.communities then (s, Refused(UnknownCommunity))
    else if credential !in s.credentials || s.credentials[credential].community != community then
      (s, Refused(UnknownCredential))
    else if s.credentials[credential].revocation.Some? then (s, Refused(CredentialAlreadyRevoked))
    else (WriteRevocation(s, credential, s.communities[community]), Accepted)
  }

  // ---- transactions ----

  predicate ProposalValid(s: State, p: Payload) {
    && p.community in s.communities
    && p.unit in s.units && s.units[p.unit].community == p.community
    && forall e :: e in p.entries ==>
         e.account in s.accounts && s.accounts[e.account].unit == p.unit && s.accounts[e.account].community == p.community
  }

  function ProposeStep(s: State, p: Payload): (State, Outcome) {
    if !ProposalValid(s, p) then (s, Refused(InvalidProposal))
    else if p.tx in s.proposals then (s, Refused(ProposalExists))
    else (s.(proposals := s.proposals[p.tx := Proposal(p, [], None)]), Accepted)
  }

  function AddEvidenceStep(s: State, tx: Id, e: Evidence): (State, Outcome) {
    if tx !in s.proposals then (s, Refused(UnknownProposal))
    else
      var p := s.proposals[tx];
      (s.(proposals := s.proposals[tx := p.(evidence := p.evidence + [e])]), Accepted)
  }

  /** A credential counts at sequence S exactly when activation < S < revocation. */
  predicate InWindow(c: Credential, sequence: int) {
    c.activation < sequence && (c.revocation.Some? ==> sequence < c.revocation.value)
  }

  /** `e` really is a signature by a device of the account's controller over this very payload. */
  predicate Genuine(s: State, payload: Payload, e: Evidence) {
    && e.account in s.accounts
    && e.credential in s.credentials
    && s.credentials[e.credential].community == payload.community
    && s.credentials[e.credential].controller == s.accounts[e.account].controller
    && e.signature == Signature(s.credentials[e.credential].key, payload)
  }

  predicate Eligible(s: State, payload: Payload, e: Evidence, sequence: int) {
    Genuine(s, payload, e) && InWindow(s.credentials[e.credential], sequence)
  }

  predicate AllEligible(s: State, payload: Payload, evidence: seq<Evidence>, sequence: int) {
    forall e :: e in evidence ==> Eligible(s, payload, e, sequence)
  }

  predicate Covered(payload: Payload, evidence: seq<Evidence>) {
    forall x :: x in payload.entries ==> exists e :: e in evidence && e.account == x.account
  }

  predicate AccountsKnown(accounts: map<Id, Account>, entries: seq<Entry>) {
    forall e :: e in entries ==> e.account in accounts
  }

  /** Posts the entries one after another. */
  function Post(accounts: map<Id, Account>, entries: seq<Entry>): (r: map<Id, Account>)
    requires forall e :: e in entries ==> e.account in accounts
    ensures r.Keys == accounts.Keys
    ensures forall a :: a in accounts ==> r[a].(balance := accounts[a].balance) == accounts[a]
  {
    if entries == [] then accounts
    else
      var before := Post(accounts, entries[..|entries| - 1]);
      var e := entries[|entries| - 1];
      assert e in entries;
      before[e.account := before[e.account].(balance := before[e.account].balance + e.amount)]
  }

  predicate FloorsRespected(accounts: map<Id, Account>, entries: seq<Entry>) {
    forall e :: e in entries && e.account in accounts ==>
      accounts[e.account].floor <= accounts[e.account].balance
  }

  function CommitStep(s: State, tx: Id): (State, Outcome)
  {
    if tx !in s.proposals then (s, Refused(UnknownProposal))
    else
      var p := s.proposals[tx];
      if p.payload.community !in s.communities || !AccountsKnown(s.accounts, p.payload.entries) then
        (s, Refused(InvalidProposal))
      else if p.committedSequence.Some? then
        (s, Committed(Receipt(p.committedSequence.value, Digest(p.payload, p.committedSequence.value))))
      else if !Covered(p.payload, p.evidence) then (s, Refused(AuthorizationIncomplete))
      else
        var sequence := s.communities[p.payload.community];
        if !AllEligible(s, p.payload, p.evidence, sequence) then (s, Refused(CredentialNotEligible))
        else
          var accounts := Post(s.accounts, p.payload.entries);
          if !FloorsRespected(accounts, p.payload.entries) then (s, Refused(CreditFloorBreached))
          else
            (s.(communities := s.communities[p.payload.community := sequence + 1],
                accounts := accounts,
                proposals := s.proposals[tx := p.(committedSequence := Some(sequence))],
                journal := s.journal + [JournalRow(p.payload, sequence, p.evidence)]),
             Committed(Receipt(sequence, Digest(p.payload, sequence))))
  }

  function Step(s: State, op: Operation): (State, Outcome) {
    match op
    case CreateCommunity(name) => CreateCommunityStep(s, name)
    case CreateUnit(community, code, scale) => CreateUnitStep(s, community, code, scale)
    case ActivateParticipant(community, name, unit, key, floor) => ActivateStep(s, community, name, unit, key, floor)
    case AddCredential(community, controller, key) => AddCredentialStep(s, community, controller, key)
    case RevokeCredential(community, credential) => RevokeStep(s, community, credential)
    case Propose(payload) => ProposeStep(s, payload)
    case AddEvidence(tx, evidence) => AddEvidenceStep(s, tx, evidence)
    case Commit(tx) => CommitStep(s, tx)
  }

  function Run(s: State, ops: seq<Operation>): State
    decreases |ops|
  {
    if ops == [] then s else Run(Step(s, ops[0]).0, ops[1..])
  }

  // ---- DiscoveryService.transaction ----

  datatype TransactionView =
    TransactionView(payload: Payload, committedSequence: Option<int>, digest: Option<Digest>, authorized: seq<Id>)

  function FindRow(journal: seq<JournalRow>, tx: Id): Option<JournalRow> {
    if journal == [] then None
    else if journal[0].payload.tx == tx then Some(journal[0])
    else FindRow(journal[1..], tx)
  }

  function AccountsOf(evidence: seq<Evidence>): seq<Id> {
    seq(|evidence|, i requires 0 <= i < |evidence| => evidence[i].account)
  }

  /** Three reads, each of the tables as it finds them: the proposal row in `s`, the evidence in `t`, the journal in `u`. */
  function TransactionSeen(s: State, t: State, u: State, tx: Id): Option<TransactionView> {
    if tx !in s.proposals then None
    else
      var p := s.proposals[tx];
      var row := FindRow(u.journal, tx);
      Some(TransactionView(p.payload, p.committedSequence,
        if row.None? then None else Some(Digest(row.value.payload, row.value.sequence)),
        if tx in t.proposals then AccountsOf(t.proposals[tx].evidence) else []))
  }
  /** The same with nothing going on between the reads. */
  function Transaction(s: State, tx: Id): Option<TransactionView> { TransactionSeen(s, s, s, tx) }
}
