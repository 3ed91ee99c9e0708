// What holds of the osTRIS tables after any run of operations.
module LedgerProofs {
  import opened Wrappers
  import opened Ledger

  // ---- the journal read on its own ----

  /** How many rows of the journal belong to `community`. */
  ghost function Count(journal: seq<JournalRow>, community: Id): nat {
    if journal == [] then 0
    else Count(journal[..|journal| - 1], community)
         + (if journal[|journal| - 1].payload.community == community then 1 else 0)
  }

  ghost function Delta(entries: seq<Entry>, account: Id): int {
    if entries == [] then 0
    else Delta(entries[..|entries| - 1], account)
         + (if entries[|entries| - 1].account == account then entries[|entries| - 1].amount else 0)
  }

  /** The balance of an account, recomputed from the journal alone. */
  ghost function Fold(journal: seq<JournalRow>, account: Id): int {
    if journal == [] then 0
    else Fold(journal[..|journal| - 1], account) + Delta(journal[|journal| - 1].payload.entries, account)
  }

  // ---- the invariant ----

  ghost predicate IdsBelow(s: State) {
    && (forall c :: c in s.communities ==> c < s.nextId)
    && (forall u :: u in s.units ==> u < s.nextId)
    && (forall a :: a in s.accounts ==> a < s.nextId)
    && (forall k :: k in s.controllers ==> k < s.nextId)
    && (forall c :: c in s.credentials ==> c < s.nextId)
  }

  ghost predicate AccountOk(s: State, a: Id)
    requires a in s.accounts
  {
    var r := s.accounts[a];
    && r.unit in s.units && s.units[r.unit].community == r.community
    && r.controller in s.controllers && s.controllers[r.controller] == r.community
    && r.balance == Fold(s.journal, a)
    && r.floor <= r.balance && r.floor <= 0
  }

  ghost predicate CredentialOk(s: State, c: Id)
    requires c in s.credentials
  {
    var r := s.credentials[c];
    && r.community in s.communities
    && r.controller in s.controllers && s.controllers[r.controller] == r.community
    && 0 <= r.activation < s.communities[r.community]
    && (r.revocation.Some? ==> r.activation < r.revocation.value <= s.communities[r.community])
  }

  ghost predicate KeysUnique(s: State) {
    forall c, d :: c in s.credentials && d in s.credentials && c != d && s.credentials[c].community == s.credentials[d].community
      ==> s.credentials[c].key != s.credentials[d].key
  }

  ghost predicate UnitsOk(s: State) {
    && (forall u :: u in s.units ==> s.units[u].community in s.communities)
    && (forall u, v :: u in s.units && v in s.units && u != v && s.units[u].community == s.units[v].community
          ==> s.units[u].code != s.units[v].code)
  }

  ghost predicate HasRow(journal: seq<JournalRow>, payload: Payload, sequence: int) {
    exists i :: 0 <= i < |journal| && journal[i].payload == payload && journal[i].sequence == sequence
  }

  ghost predicate ProposalOk(s: State, tx: Id)
    requires tx in s.proposals
  {
    var p := s.proposals[tx];
    && p.payload.tx == tx && ProposalValid(s, p.payload)
    && (p.committedSequence.Some? ==> HasRow(s.journal, p.payload, p.committedSequence.value))
  }

  /** A row is numbered by the rows of its community before it, belongs to a proposal that knows it, and every
      account it moves was authorized by a credential whose window contains the row's sequence. */
  ghost predicate RowOk(s: State, i: nat)
    requires i < |s.journal|
  {
    var r := s.journal[i];
    && r.payload.community in s.communities
    && r.sequence == 1 + Count(s.journal[..i], r.payload.community)
    && r.payload.tx in s.proposals
    && s.proposals[r.payload.tx].payload == r.payload
    && s.proposals[r.payload.tx].committedSequence == Some(r.sequence)
    && Covered(r.payload, r.evidence)
    && forall e :: e in r.evidence ==> Eligible(s, r.payload, e, r.sequence)
  }

  ghost predicate JournalOk(s: State) {
    && (forall c :: c in s.communities ==> s.communities[c] == 1 + Count(s.journal, c))
    && (forall i :: 0 <= i < |s.journal| ==> RowOk(s, i))
    && (forall i, j :: 0 <= i < j < |s.journal| ==> s.journal[i].payload.tx != s.journal[j].payload.tx)
  }

  ghost predicate AccountsOk(s: State) { forall a :: a in s.accounts ==> AccountOk(s, a) }
  ghost predicate CredentialsOk(s: State) { forall c :: c in s.credentials ==> CredentialOk(s, c) }
  ghost predicate ProposalsOk(s: State) { forall tx :: tx in s.proposals ==> ProposalOk(s, tx) }

  ghost predicate Inv(s: State) {
    && IdsBelow(s) && UnitsOk(s) && AccountsOk(s) && CredentialsOk(s) && KeysUnique(s) && ProposalsOk(s) && JournalOk(s)
  }

  // ---- posting ----

  lemma {:induction false} PostIsDelta(accounts: map<Id, Account>, entries: seq<Entry>, a: Id)
    requires (forall e :: e in entries ==> e.account in accounts) && a in accounts
    ensures Post(accounts, entries)[a].balance == accounts[a].balance + Delta(entries, a)
  {
    if entries != [] {
      assert entries[|entries| - 1] in entries;
      PostIsDelta(accounts, entries[..|entries| - 1], a);
    }
  }

  lemma {:induction false} DeltaUntouched(entries: seq<Entry>, a: Id)
    requires forall e :: e in entries ==> e.account != a
    ensures Delta(entries, a) == 0
  {
    if entries != [] {
      assert entries[|entries| - 1] in entries;
      DeltaUntouched(entries[..|entries| - 1], a);
    }
  }

  // ---- every step keeps the invariant ----

  /** `t` has every row of `s`, and perhaps more; evidence may have been added to proposals. */
  ghost predicate Extends(s: State, t: State) {
    && t.journal == s.journal && s.nextId <= t.nextId
    && (forall c :: c in s.communities ==> c in t.communities && t.communities[c] == s.communities[c])
    && (forall u :: u in s.units ==> u in t.units && t.units[u] == s.units[u])
    && (forall a :: a in s.accounts ==> a in t.accounts && t.accounts[a] == s.accounts[a])
    && (forall k :: k in s.controllers ==> k in t.controllers && t.controllers[k] == s.controllers[k])
    && (forall c :: c in s.credentials ==> c in t.credentials && t.credentials[c] == s.credentials[c])
    && (forall p :: p in s.proposals ==> p in t.proposals && SameFate(s.proposals[p], t.proposals[p]))
  }

  ghost predicate SameFate(p: Proposal, q: Proposal) {
    p.payload == q.payload && p.committedSequence == q.committedSequence
  }

  // Old rows stay valid when tables only gain rows: nothing an old row relies on is rewritten.

  lemma RowSurvives(s: State, t: State, i: nat)
    requires Extends(s, t) && i < |s.journal| && RowOk(s, i)
    ensures RowOk(t, i)
  {
    var r := s.journal[i];
    forall e | e in r.evidence ensures Eligible(t, r.payload, e, r.sequence) {
      assert Eligible(s, r.payload, e, r.sequence);
    }
  }

  lemma AccountSurvives(s: State, t: State, a: Id)
    requires Extends(s, t) && a in s.accounts && AccountOk(s, a)
    ensures AccountOk(t, a)
  {}

  lemma CredentialSurvives(s: State, t: State, c: Id)
    requires Extends(s, t) && c in s.credentials && CredentialOk(s, c)
    ensures CredentialOk(t, c)
  {}

  lemma ProposalSurvives(s: State, t: State, p: Id)
    requires Extends(s, t) && p in s.proposals && ProposalOk(s, p)
    ensures ProposalOk(t, p)
  {
    assert SameFate(s.proposals[p], t.proposals[p]);
  }

  lemma JournalKept(s: State, t: State)
    requires JournalOk(s) && Extends(s, t)
    requires forall c :: c in t.communities && c !in s.communities ==> t.communities[c] == 1 && Count(s.journal, c) == 0
    ensures JournalOk(t)
  {
    forall i | 0 <= i < |t.journal| ensures RowOk(t, i) { RowSurvives(s, t, i); }
  }

  lemma AccountsKept(s: State, t: State)
    requires AccountsOk(s) && Extends(s, t) && forall a :: a in t.accounts && a !in s.accounts ==> AccountOk(t, a)
    ensures AccountsOk(t)
  {
    forall a | a in t.accounts ensures AccountOk(t, a) {
      if a in s.accounts { AccountSurvives(s, t, a); }
    }
  }

  lemma CredentialsKept(s: State, t: State)
    requires CredentialsOk(s) && Extends(s, t)
    requires forall c :: c in t.credentials && c !in s.credentials ==> CredentialOk(t, c)
    ensures CredentialsOk(t)
  {
    forall c | c in t.credentials ensures CredentialOk(t, c) {
      if c in s.credentials { CredentialSurvives(s, t, c); }
    }
  }

  lemma ProposalsKept(s: State, t: State)
    requires ProposalsOk(s) && Extends(s, t) && forall p :: p in t.proposals && p !in s.proposals ==> ProposalOk(t, p)
    ensures ProposalsOk(t)
  {
    forall p | p in t.proposals ensures ProposalOk(t, p) {
      if p in s.proposals { ProposalSurvives(s, t, p); }
    }
  }

  /** What `t` has and `s` has not is in order. */
  ghost predicate NewRowsOk(s: State, t: State) {
    && (forall c :: c in t.communities && c !in s.communities ==> t.communities[c] == 1 && Count(s.journal, c) == 0)
    && (forall a :: a in t.accounts && a !in s.accounts ==> AccountOk(t, a))
    && (forall c :: c in t.credentials && c !in s.credentials ==> CredentialOk(t, c))
    && (forall p :: p in t.proposals && p !in s.proposals ==> ProposalOk(t, p))
  }

  ghost predicate Grown(s: State, t: State) {
    Extends(s, t) && IdsBelow(t) && NewRowsOk(s, t)
  }

  lemma UnitsKept(s: State, t: State)
    requires UnitsOk(s) && Extends(s, t) && t.units == s.units
    ensures UnitsOk(t)
  {}

  lemma GrownKeepsInv(s: State, t: State)
    requires Inv(s) && Grown(s, t)
    requires t.units == s.units || UnitsOk(t)
    requires t.credentials == s.credentials || KeysUnique(t)
    ensures Inv(t)
  {
    JournalKept(s, t);
    AccountsKept(s, t);
    CredentialsKept(s, t);
    ProposalsKept(s, t);
    if t.units == s.units { UnitsKept(s, t); }
  }

  lemma {:induction false} NoRowsYet(journal: seq<JournalRow>, community: Id)
    requires forall i :: 0 <= i < |journal| ==> journal[i].payload.community != community
    ensures Count(journal, community) == 0
  {
    if journal != [] {
      NoRowsYet(journal[..|journal| - 1], community);
    }
  }

  lemma NoRowsOfNewCommunity(s: State)
    requires JournalOk(s) && IdsBelow(s)
    ensures Count(s.journal, s.nextId) == 0
  {
    forall i | 0 <= i < |s.journal| ensures s.journal[i].payload.community != s.nextId {
      assert RowOk(s, i);
    }
    NoRowsYet(s.journal, s.nextId);
  }

  lemma NewCommunityGrows(s: State)
    requires IdsBelow(s) && Count(s.journal, s.nextId) == 0
    ensures Grown(s, s.(nextId := s.nextId + 1, communities := s.communities[s.nextId := 1]))
  {
    var t := s.(nextId := s.nextId + 1, communities := s.communities[s.nextId := 1]);
    assert IdsBelow(t) && Extends(s, t) && NewRowsOk(s, t);
  }

  lemma CreateCommunityKeepsInv(s: State, name: string)
    requires Inv(s)
    ensures Inv(CreateCommunityStep(s, name).0)
  {
    if !Blank(name) {
      NoRowsOfNewCommunity(s);
      NewCommunityGrows(s);
      GrownKeepsInv(s, CreateCommunityStep(s, name).0);
    }
  }

  lemma NewUnitOk(s: State, row: Unit)
    requires UnitsOk(s) && row.community in s.communities && !CodeTaken(s, row.community, row.code)
    ensures UnitsOk(s.(nextId := s.nextId + 1, units := s.units[s.nextId := row]))
  {}

  lemma NewUnitGrows(s: State, row: Unit)
    requires IdsBelow(s)
    ensures Grown(s, s.(nextId := s.nextId + 1, units := s.units[s.nextId := row]))
  {
    var t := s.(nextId := s.nextId + 1, units := s.units[s.nextId := row]);
    assert IdsBelow(t) && Extends(s, t) && NewRowsOk(s, t);
  }

  lemma CreateUnitGrows(s: State, community: Id, code: string, scale: int)
    requires IdsBelow(s) && UnitsOk(s) && CreateUnitStep(s, community, code, scale).1.Created?
    ensures var t := CreateUnitStep(s, community, code, scale).0; Grown(s, t) && UnitsOk(t) && t.credentials == s.credentials
  {
    NewUnitOk(s, Unit(community, code, scale));
    NewUnitGrows(s, Unit(community, code, scale));
  }

  lemma CreateUnitKeepsInv(s: State, community: Id, code: string, scale: int)
    requires Inv(s)
    ensures Inv(CreateUnitStep(s, community, code, scale).0)
  {
    var (t, o) := CreateUnitStep(s, community, code, scale);
    if o.Created? {
      CreateUnitGrows(s, community, code, scale);
      GrownKeepsInv(s, t);
    }
  }

  lemma {:induction false} NoEntriesYet(s: State, journal: seq<JournalRow>, a: Id)
    requires a !in s.accounts
    requires forall i :: 0 <= i < |journal| ==> ProposalValid(s, journal[i].payload)
    ensures Fold(journal, a) == 0
  {
    if journal != [] {
      NoEntriesYet(s, journal[..|journal| - 1], a);
      assert ProposalValid(s, journal[|journal| - 1].payload);
      DeltaUntouched(journal[|journal| - 1].payload.entries, a);
    }
  }

  lemma RowsAreValid(s: State)
    requires JournalOk(s) && ProposalsOk(s)
    ensures forall i :: 0 <= i < |s.journal| ==> ProposalValid(s, s.journal[i].payload)
  {
    forall i | 0 <= i < |s.journal| ensures ProposalValid(s, s.journal[i].payload) {
      assert RowOk(s, i);
    }
  }

  /** A credential row that may be inserted: no newer than its community, of one of its controllers, its key unused. */
  ghost predicate Insertable(s: State, next: Id, id: Id, row: Credential) {
    && s.nextId <= next && id < next && id !in s.credentials && !KeyTaken(s, row.community, row.key)
    && row.community in s.communities && 0 <= row.activation < s.communities[row.community] && row.revocation.None?
    && row.controller in s.controllers && s.controllers[row.controller] == row.community
  }

  lemma NewKeyIsUnique(s: State, next: Id, id: Id, row: Credential)
    requires KeysUnique(s) && !KeyTaken(s, row.community, row.key)
    ensures KeysUnique(WithCredential(s, next, id, row))
  {}

  lemma InsertCredentialGrows(s: State, next: Id, id: Id, row: Credential)
    requires IdsBelow(s) && Insertable(s, next, id, row)
    ensures Grown(s, WithCredential(s, next, id, row))
  {}

  lemma InsertCredentialKeepsInv(s: State, next: Id, id: Id, row: Credential)
    requires Inv(s) && Insertable(s, next, id, row)
    ensures Inv(WithCredential(s, next, id, row))
  {
    NewKeyIsUnique(s, next, id, row);
    InsertCredentialGrows(s, next, id, row);
    GrownKeepsInv(s, WithCredential(s, next, id, row));
  }

  ghost predicate AccountInserted(s: State, t: State, account: Id, row: Account) {
    && s.nextId <= account < t.nextId && s.nextId <= row.controller < t.nextId
    && row.unit in s.units && s.units[row.unit].community == row.community
    && row.floor <= 0 && row.balance == 0
    && t == State(t.nextId, s.communities, s.units, s.accounts[account := row],
                  s.controllers[row.controller := row.community], s.credentials, s.proposals, s.journal)
  }

  lemma NewAccountOk(s: State, t: State, account: Id, row: Account)
    requires IdsBelow(s) && JournalOk(s) && ProposalsOk(s) && AccountInserted(s, t, account, row)
    ensures AccountOk(t, account)
  {
    RowsAreValid(s);
    NoEntriesYet(s, s.journal, account);
  }

  lemma InsertAccountGrows(s: State, t: State, account: Id, row: Account)
    requires IdsBelow(s) && AccountInserted(s, t, account, row) && AccountOk(t, account)
    ensures Grown(s, t)
  {}

  lemma InsertAccountKeepsInv(s: State, t: State, account: Id, row: Account)
    requires Inv(s) && AccountInserted(s, t, account, row)
    ensures Inv(t)
  {
    NewAccountOk(s, t, account, row);
    InsertAccountGrows(s, t, account, row);
    GrownKeepsInv(s, t);
  }

  /** `ActivateStep` inserts an account and then a credential; `u` is what lies between. */
  lemma ActivateInserts(s: State, community: Id, name: string, unit: Id, key: string, floor: Option<int>) returns (u: State)
    requires IdsBelow(s) && ActivateStep(s, community, name, unit, key, floor).1.Activated?
    ensures var (t, o) := ActivateStep(s, community, name, unit, key, floor);
            && o.account in t.accounts && AccountInserted(s, u, o.account, t.accounts[o.account])
            && o.credential in t.credentials
            && t == WithCredential(u, t.nextId, o.credential, t.credentials[o.credential])
            && (community in s.communities && s.communities[community] > 0 ==>
                  Insertable(u, t.nextId, o.credential, t.credentials[o.credential]))
  {
    var (t, o) := ActivateStep(s, community, name, unit, key, floor);
    u := t.(credentials := s.credentials);
    assert forall c :: KeyTaken(u, c, key) == KeyTaken(s, c, key);
  }

  lemma ActivateKeepsInv(s: State, community: Id, name: string, unit: Id, key: string, floor: Option<int>)
    requires Inv(s)
    ensures Inv(ActivateStep(s, community, name, unit, key, floor).0)
  {
    var (t, o) := ActivateStep(s, community, name, unit, key, floor);
    if o.Activated? {
      var u := ActivateInserts(s, community, name, unit, key, floor);
      InsertAccountKeepsInv(s, u, o.account, t.accounts[o.account]);
      InsertCredentialKeepsInv(u, t.nextId, o.credential, t.credentials[o.credential]);
    } else {
      assert t == s;
    }
  }

  lemma FirstSequence(s: State, community: Id)
    requires JournalOk(s) && community in s.communities
    ensures s.communities[community] >= 1
  {}

  lemma AddCredentialGrows(s: State, community: Id, controller: Id, key: string)
    requires IdsBelow(s) && AddCredentialStep(s, community, controller, key).1.CredentialAdded?
    requires community in s.communities && s.communities[community] >= 1
    ensures Grown(s, AddCredentialStep(s, community, controller, key).0)
  {
    var t := AddCredentialStep(s, community, controller, key).0;
    assert CredentialOk(t, s.nextId);
    assert IdsBelow(t) && Extends(s, t);
  }

  lemma AddCredentialKeepsKeys(s: State, community: Id, controller: Id, key: string)
    requires KeysUnique(s) && AddCredentialStep(s, community, controller, key).1.CredentialAdded?
    ensures var t := AddCredentialStep(s, community, controller, key).0; KeysUnique(t) && t.units == s.units
  {
    var row := Credential(community, key, controller, s.communities[community] - 1, None);
    NewKeyIsUnique(s, s.nextId + 1, s.nextId, row);
  }

  lemma AddCredentialKeepsInv(s: State, community: Id, controller: Id, key: string)
    requires Inv(s)
    ensures Inv(AddCredentialStep(s, community, controller, key).0)
  {
    var (t, o) := AddCredentialStep(s, community, controller, key);
    if o.CredentialAdded? {
      FirstSequence(s, community);
      AddCredentialGrows(s, community, controller, key);
      AddCredentialKeepsKeys(s, community, controller, key);
      GrownKeepsInv(s, t);
    }
  }

  /** No row was signed by `credential` at `sequence` or later. */
  ghost predicate QuietFrom(s: State, credential: Id, sequence: int) {
    forall i, e :: 0 <= i < |s.journal| && e in s.journal[i].evidence && e.credential == credential ==>
      s.journal[i].sequence < sequence
  }

  /** The windows of every row, seen through the current credential table. */
  ghost predicate WindowsHold(s: State) {
    forall i, e :: 0 <= i < |s.journal| && e in s.journal[i].evidence && e.credential in s.credentials ==>
      InWindow(s.credentials[e.credential], s.journal[i].sequence)
  }

  lemma InvGivesWindows(s: State)
    requires Inv(s)
    ensures WindowsHold(s)
  {
    forall i, e | 0 <= i < |s.journal| && e in s.journal[i].evidence && e.credential in s.credentials
      ensures InWindow(s.credentials[e.credential], s.journal[i].sequence)
    {
      assert RowOk(s, i);
    }
  }

  lemma {:induction false} CountMonotone(journal: seq<JournalRow>, i: nat, community: Id)
    requires i <= |journal|
    ensures Count(journal[..i], community) <= Count(journal, community)
    decreases |journal|
  {
    if i < |journal| {
      var shorter := journal[..|journal| - 1];
      CountMonotone(shorter, i, community);
      assert shorter[..i] == journal[..i];
    } else {
      assert journal[..i] == journal;
    }
  }

  lemma SequencesBelowNext(s: State, i: nat)
    requires JournalOk(s) && i < |s.journal|
    ensures s.journal[i].payload.community in s.communities
    ensures 1 <= s.journal[i].sequence < s.communities[s.journal[i].payload.community]
  {
    var c := s.journal[i].payload.community;
    assert RowOk(s, i);
    CountMonotone(s.journal, i + 1, c);
    assert s.journal[..i + 1][..i] == s.journal[..i];
  }

  /** A revocation at a sequence its community has not reached changes no row's window. */
  lemma RevocationKeepsRow(s: State, credential: Id, q: int, i: nat)
    requires i < |s.journal| && RowOk(s, i) && credential in s.credentials && s.credentials[credential].revocation.None?
    requires s.journal[i].payload.community == s.credentials[credential].community ==> s.journal[i].sequence < q
    ensures RowOk(WriteRevocation(s, credential, q), i)
  {
    var t := WriteRevocation(s, credential, q);
    var r := s.journal[i];
    forall e | e in r.evidence ensures Eligible(t, r.payload, e, r.sequence) {
      assert Eligible(s, r.payload, e, r.sequence);
    }
  }

  lemma RevocationKeepsJournal(s: State, credential: Id)
    requires JournalOk(s) && credential in s.credentials && s.credentials[credential].revocation.None?
    requires s.credentials[credential].community in s.communities
    ensures JournalOk(WriteRevocation(s, credential, s.communities[s.credentials[credential].community]))
  {
    var q := s.communities[s.credentials[credential].community];
    var t := WriteRevocation(s, credential, q);
    forall i | 0 <= i < |t.journal| ensures RowOk(t, i) {
      SequencesBelowNext(s, i);
      RevocationKeepsRow(s, credential, q, i);
    }
  }

  lemma RevocationKeepsCredentials(s: State, credential: Id)
    requires CredentialsOk(s) && KeysUnique(s) && credential in s.credentials
    requires s.credentials[credential].community in s.communities
    ensures var t := WriteRevocation(s, credential, s.communities[s.credentials[credential].community]);
            CredentialsOk(t) && KeysUnique(t)
  {
    assert CredentialOk(s, credential);
    var t := WriteRevocation(s, credential, s.communities[s.credentials[credential].community]);
    forall c | c in t.credentials ensures CredentialOk(t, c) { assert CredentialOk(s, c); }
  }

  lemma RevocationKeepsTheRest(s: State, credential: Id, q: int)
    requires IdsBelow(s) && UnitsOk(s) && AccountsOk(s) && ProposalsOk(s) && credential in s.credentials
    ensures var t := WriteRevocation(s, credential, q); IdsBelow(t) && UnitsOk(t) && AccountsOk(t) && ProposalsOk(t)
  {
    var t := WriteRevocation(s, credential, q);
    forall a | a in t.accounts ensures AccountOk(t, a) { assert AccountOk(s, a); }
    forall p | p in t.proposals ensures ProposalOk(t, p) { assert ProposalOk(s, p); }
  }

  lemma RevokeKeepsInv(s: State, community: Id, credential: Id)
    requires Inv(s)
    ensures Inv(RevokeStep(s, community, credential).0)
  {
    var (t, o) := RevokeStep(s, community, credential);
    if o.Accepted? {
      RevocationKeepsJournal(s, credential);
      RevocationKeepsCredentials(s, credential);
      RevocationKeepsTheRest(s, credential, s.communities[community]);
    }
  }

  lemma NewProposalGrows(s: State, p: Payload)
    requires IdsBelow(s) && p.tx !in s.proposals && ProposalValid(s, p)
    ensures Grown(s, s.(proposals := s.proposals[p.tx := Proposal(p, [], None)]))
  {
    var t := s.(proposals := s.proposals[p.tx := Proposal(p, [], None)]);
    assert ProposalValid(t, p);
    assert IdsBelow(t) && Extends(s, t) && NewRowsOk(s, t);
  }

  lemma ProposeKeepsInv(s: State, p: Payload)
    requires Inv(s)
    ensures Inv(ProposeStep(s, p).0)
  {
    var (t, o) := ProposeStep(s, p);
    if o.Accepted? {
      NewProposalGrows(s, p);
      GrownKeepsInv(s, t);
    }
  }

  lemma MoreEvidenceGrows(s: State, tx: Id, p: Proposal)
    requires IdsBelow(s) && tx in s.proposals && SameFate(s.proposals[tx], p)
    ensures Grown(s, s.(proposals := s.proposals[tx := p]))
  {
    var t := s.(proposals := s.proposals[tx := p]);
    assert IdsBelow(t) && Extends(s, t) && NewRowsOk(s, t);
  }

  lemma AddEvidenceKeepsInv(s: State, tx: Id, e: Evidence)
    requires Inv(s)
    ensures Inv(AddEvidenceStep(s, tx, e).0)
  {
    var (t, o) := AddEvidenceStep(s, tx, e);
    if o.Accepted? {
      MoreEvidenceGrows(s, tx, t.proposals[tx]);
      GrownKeepsInv(s, t);
    }
  }

  // ---- commit ----

  /** `t` is `s` with the open proposal `tx` committed. */
  ghost predicate Journals(s: State, tx: Id, t: State) {
    && tx in s.proposals && s.proposals[tx].committedSequence.None?
    && var p := s.proposals[tx];
    && p.payload.community in s.communities && (forall e :: e in p.payload.entries ==> e.account in s.accounts)
    && var q := s.communities[p.payload.community];
    && Covered(p.payload, p.evidence) && (forall e :: e in p.evidence ==> Eligible(s, p.payload, e, q))
    && FloorsRespected(t.accounts, p.payload.entries)
    && t == s.(communities := s.communities[p.payload.community := q + 1],
               accounts := Post(s.accounts, p.payload.entries),
               proposals := s.proposals[tx := p.(committedSequence := Some(q))],
               journal := s.journal + [JournalRow(p.payload, q, p.evidence)])
  }

  ghost predicate FreshCommit(s: State, tx: Id) {
    var (t, o) := CommitStep(s, tx);
    o.Committed? && t.journal != s.journal
  }

  lemma FreshCommitJournals(s: State, tx: Id)
    requires FreshCommit(s, tx)
    ensures Journals(s, tx, CommitStep(s, tx).0)
  {}

  lemma JournalsKeepsRow(s: State, tx: Id, t: State, i: nat)
    requires Journals(s, tx, t) && i < |s.journal| && RowOk(s, i)
    ensures RowOk(t, i) && s.journal[i].payload.tx != tx
  {
    var r := s.journal[i];
    assert t.journal[i] == r && t.journal[..i] == s.journal[..i];
    forall e | e in r.evidence ensures Eligible(t, r.payload, e, r.sequence) {
      assert Eligible(s, r.payload, e, r.sequence);
    }
  }

  lemma JournalsAddsRow(s: State, tx: Id, t: State)
    requires Journals(s, tx, t) && s.proposals[tx].payload.tx == tx
    requires var c := s.proposals[tx].payload.community; s.communities[c] == 1 + Count(s.journal, c)
    ensures RowOk(t, |s.journal|)
  {
    var r := t.journal[|s.journal|];
    assert t.journal[..|s.journal|] == s.journal;
    forall e | e in r.evidence ensures Eligible(t, r.payload, e, r.sequence) {
      assert Eligible(s, r.payload, e, r.sequence);
    }
  }

  lemma JournalsKeepsCounts(s: State, tx: Id, t: State)
    requires JournalOk(s) && Journals(s, tx, t)
    ensures forall c :: c in t.communities ==> t.communities[c] == 1 + Count(t.journal, c)
  {
    assert t.journal[..|t.journal| - 1] == s.journal;
  }

  lemma JournalsKeepsRows(s: State, tx: Id, t: State)
    requires JournalOk(s) && Journals(s, tx, t) && s.proposals[tx].payload.tx == tx
    ensures forall i :: 0 <= i < |t.journal| ==> RowOk(t, i)
    ensures forall i :: 0 <= i < |s.journal| ==> t.journal[i] == s.journal[i] && s.journal[i].payload.tx != tx
  {
    JournalsAddsRow(s, tx, t);
    forall i | 0 <= i < |s.journal| ensures RowOk(t, i) && s.journal[i].payload.tx != tx {
      JournalsKeepsRow(s, tx, t, i);
    }
  }

  lemma JournalsKeepsJournal(s: State, tx: Id, t: State)
    requires JournalOk(s) && Journals(s, tx, t) && s.proposals[tx].payload.tx == tx
    ensures JournalOk(t)
  {
    JournalsKeepsCounts(s, tx, t);
    JournalsKeepsRows(s, tx, t);
  }

  lemma {:induction false} FoldOneMore(journal: seq<JournalRow>, row: JournalRow, a: Id)
    ensures Fold(journal + [row], a) == Fold(journal, a) + Delta(row.payload.entries, a)
  {
    assert (journal + [row])[..|journal|] == journal;
  }

  lemma {:induction false} JournalsKeepsFloor(s: State, tx: Id, t: State, a: Id)
    requires Journals(s, tx, t) && a in s.accounts && s.accounts[a].floor <= s.accounts[a].balance
    ensures t.accounts[a].floor <= t.accounts[a].balance
    ensures t.accounts[a].balance == s.accounts[a].balance + Delta(s.proposals[tx].payload.entries, a)
  {
    var entries := s.proposals[tx].payload.entries;
    PostIsDelta(s.accounts, entries, a);
    if forall e :: e in entries ==> e.account != a {
      DeltaUntouched(entries, a);
    }
  }

  lemma JournalsKeepsAccount(s: State, tx: Id, t: State, a: Id)
    requires Journals(s, tx, t) && a in s.accounts && AccountOk(s, a)
    ensures AccountOk(t, a)
  {
    var p := s.proposals[tx];
    JournalsKeepsFloor(s, tx, t, a);
    FoldOneMore(s.journal, JournalRow(p.payload, s.communities[p.payload.community], p.evidence), a);
  }

  lemma JournalsKeepsAccounts(s: State, tx: Id, t: State)
    requires AccountsOk(s) && Journals(s, tx, t)
    ensures AccountsOk(t)
  {
    forall a | a in t.accounts ensures AccountOk(t, a) { JournalsKeepsAccount(s, tx, t, a); }
  }

  lemma HasRowLonger(journal: seq<JournalRow>, row: JournalRow, payload: Payload, sequence: int)
    requires HasRow(journal, payload, sequence) || (row.payload == payload && row.sequence == sequence)
    ensures HasRow(journal + [row], payload, sequence)
  {
    var longer := journal + [row];
    if HasRow(journal, payload, sequence) {
      var i :| 0 <= i < |journal| && journal[i].payload == payload && journal[i].sequence == sequence;
      assert longer[i] == journal[i];
    } else {
      assert longer[|journal|] == row;
    }
  }

  lemma JournalsKeepsProposal(s: State, tx: Id, t: State, x: Id)
    requires Journals(s, tx, t) && x in s.proposals && ProposalOk(s, x)
    ensures ProposalOk(t, x)
  {
    var p := t.proposals[x];
    assert ProposalValid(s, p.payload) && ProposalValid(t, p.payload);
    if p.committedSequence.Some? {
      HasRowLonger(s.journal, t.journal[|s.journal|], p.payload, p.committedSequence.value);
    }
  }

  lemma JournalsKeepsProposals(s: State, tx: Id, t: State)
    requires ProposalsOk(s) && Journals(s, tx, t)
    ensures ProposalsOk(t)
  {
    forall x | x in t.proposals ensures ProposalOk(t, x) { JournalsKeepsProposal(s, tx, t, x); }
  }

  lemma JournalsKeepsCredentials(s: State, tx: Id, t: State)
    requires CredentialsOk(s) && KeysUnique(s) && Journals(s, tx, t)
    ensures CredentialsOk(t) && KeysUnique(t)
  {
    forall c | c in t.credentials ensures CredentialOk(t, c) { assert CredentialOk(s, c); }
  }

  lemma JournalsKeepsIds(s: State, tx: Id, t: State)
    requires IdsBelow(s) && UnitsOk(s) && Journals(s, tx, t)
    ensures IdsBelow(t) && UnitsOk(t)
  {}

  lemma JournalsKeepsInv(s: State, tx: Id, t: State)
    requires Inv(s) && Journals(s, tx, t)
    ensures Inv(t)
  {
    assert ProposalOk(s, tx);
    JournalsKeepsIds(s, tx, t);
    JournalsKeepsAccounts(s, tx, t);
    JournalsKeepsCredentials(s, tx, t);
    JournalsKeepsProposals(s, tx, t);
    JournalsKeepsJournal(s, tx, t);
  }

  lemma CommitKeepsInv(s: State, tx: Id)
    requires Inv(s)
    ensures Inv(CommitStep(s, tx).0)
  {
    if FreshCommit(s, tx) {
      FreshCommitJournals(s, tx);
      JournalsKeepsInv(s, tx, CommitStep(s, tx).0);
    } else {
      assert CommitStep(s, tx).0 == s;
    }
  }

  lemma StepKeepsInv(s: State, op: Operation)
    requires Inv(s)
    ensures Inv(Step(s, op).0)
  {
    match op
    case CreateCommunity(name) => CreateCommunityKeepsInv(s, name);
    case CreateUnit(community, code, scale) => CreateUnitKeepsInv(s, community, code, scale);
    case ActivateParticipant(community, name, unit, key, floor) => ActivateKeepsInv(s, community, name, unit, key, floor);
    case AddCredential(community, controller, key) => AddCredentialKeepsInv(s, community, controller, key);
    case RevokeCredential(community, credential) => RevokeKeepsInv(s, community, credential);
    case Propose(payload) => ProposeKeepsInv(s, payload);
    case AddEvidence(tx, evidence) => AddEvidenceKeepsInv(s, tx, evidence);
    case Commit(tx) => CommitKeepsInv(s, tx);
  }

  lemma {:induction false} RunKeepsInv(s: State, ops: seq<Operation>)
    requires Inv(s)
    ensures Inv(Run(s, ops))
    decreases |ops|
  {
    if ops != [] {
      StepKeepsInv(s, ops[0]);
      RunKeepsInv(Step(s, ops[0]).0, ops[1..]);
    }
  }
}
