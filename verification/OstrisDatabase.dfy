// The service operations on tables that are updated in place, each proved to do what `Step` says.
//
// Identifiers, community checks, validations, inserts and constraint failures come in the order of
// `ProvisioningService`; a constraint failure rolls back what the same transaction already inserted.
module OstrisDatabase {
  import opened Wrappers
  import opened Ledger
  import Base64Url

  lemma {:induction false} PostOneMore(accounts: map<Id, Account>, entries: seq<Entry>, i: nat)
    requires AccountsKnown(accounts, entries) && i < |entries|
    ensures AccountsKnown(accounts, entries[..i]) && AccountsKnown(accounts, entries[..i + 1]) && entries[i].account in accounts
    ensures var e, before := entries[i], Post(accounts, entries[..i]);
            Post(accounts, entries[..i + 1])
            == before[e.account := before[e.account].(balance := before[e.account].balance + e.amount)]
  {
    assert entries[i] in entries && entries[..i + 1][..i] == entries[..i];
  }

  class Database {
    var nextId: Id
    var communities: map<Id, int>
    var units: map<Id, Unit>
    var accounts: map<Id, Account>
    var controllers: map<Id, Id>
    var credentials: map<Id, Credential>
    var proposals: map<Id, Proposal>
    var journal: seq<JournalRow>

    function Tables(): State
      reads this
    {
      State(nextId, communities, units, accounts, controllers, credentials, proposals, journal)
    }

    constructor ()
      ensures Tables() == EMPTY
    {
      nextId, communities, units, accounts, controllers, credentials, proposals, journal :=
        0, map[], map[], map[], map[], map[], map[], [];
    }

    method FreshId() returns (id: Id)
      modifies this`nextId
      ensures id == old(nextId) && nextId == old(nextId) + 1
    {
      id, nextId := nextId, nextId + 1;
    }

    /** That many identifiers, one after another; the first of them is returned. */
    method FreshIds(n: nat) returns (first: Id)
      modifies this`nextId
      ensures first == old(nextId) && nextId == old(nextId) + n
    {
      first := nextId;
      nextId := nextId + n;
    }

    method CreateCommunity(name: string) returns (o: Outcome)
      modifies this
      ensures (Tables(), o) == CreateCommunityStep(old(Tables()), name)
    {
      if Blank(name) { return Refused(InvalidRequest); }
      var id := FreshId();
      communities := communities[id := 1];
      return Created(id);
    }

    method CreateUnit(community: Id, code: string, scale: int) returns (o: Outcome)
      modifies this
      ensures (Tables(), o) == CreateUnitStep(old(Tables()), community, code, scale)
    {
      if community !in communities { return Refused(UnknownCommunity); }
      if !UnitCode(code) { return Refused(InvalidUnitCode); }
      if scale < 0 || scale > 18 { return Refused(InvalidUnitScale); }
      if CodeTaken(Tables(), community, code) { return Refused(UnitCodeTaken); }
      var id := FreshId();
      units := units[id := Unit(community, code, scale)];
      return Created(id);
    }

    method ActivateParticipant(community: Id, name: string, unit: Id, key: string, creditFloor: Option<int>)
      returns (o: Outcome)
      modifies this
      ensures (Tables(), o) == ActivateStep(old(Tables()), community, name, unit, key, creditFloor)
      ensures o.Activated? ==>
        && accounts == old(accounts)[o.account := Account(community, unit, o.controller,
                                                          if creditFloor.Some? then creditFloor.value else -100000, 0)]
        && credentials == old(credentials)[o.credential := Credential(community, key, o.controller, 0, None)]
        && controllers == old(controllers)[o.controller := community]
    {
      if community !in communities { return Refused(UnknownCommunity); }
      if unit !in units || units[unit].community != community { return Refused(UnknownUnit); }
      if Blank(name) { return Refused(InvalidRequest); }
      if !Base64Url.AcceptedKey(key) { return Refused(InvalidBase64Url); }
      var floor := match creditFloor case None => DEFAULT_FLOOR case Some(f) => f;
      if floor > 0 { return Refused(InvalidCreditFloor); }

      var savepointIds, savepointAccounts := nextId, accounts;
      var participant := FreshIds(3);
      var account, credential := participant + 1, participant + 2;
      // The account row names its controller through the policy inserted at the end of the transaction.
      accounts := accounts[account := Account(community, unit, account + 2, floor, 0)];
      if KeyIn(credentials, community, key) {
        nextId, accounts := savepointIds, savepointAccounts;
        return Refused(CredentialKeyTaken);
      }
      var controller := FreshIds(2);  // and the policy's
      credentials := credentials[credential := Credential(community, key, controller, 0, None)];
      controllers := controllers[controller := community];
      return Activated(account, controller, credential);
    }

    method AddCredential(community: Id, controller: Id, key: string) returns (o: Outcome)
      modifies this
      ensures (Tables(), o) == AddCredentialStep(old(Tables()), community, controller, key)
    {
      if community !in communities { return Refused(UnknownCommunity); }
      if controller !in controllers || controllers[controller] != community { return Refused(UnknownController); }
      if !Base64Url.AcceptedKey(key) { return Refused(InvalidBase64Url); }
      var sequence := communities[community] - 1;
      if KeyIn(credentials, community, key) { return Refused(CredentialKeyTaken); }
      var credential := FreshId();
      credentials := credentials[credential := Credential(community, key, controller, sequence, None)];
      return CredentialAdded(credential, sequence);
    }

    method RevokeCredential(community: Id, credential: Id) returns (o: Outcome)
      modifies this
      ensures (Tables(), o) == RevokeStep(old(Tables()), community, credential)
      ensures o == Accepted ==>
        && community in old(communities) && credential in old(credentials) && old(credentials)[credential].revocation.None?
        && credentials == old(credentials)[credential :=
             old(credentials)[credential].(revocation := Some(old(communities)[community]))]
      ensures community in communities && credential in old(credentials) && old(credentials)[credential].community == community
        ==> (o == Accepted <==> old(credentials)[credential].revocation.None?)
    {
      if community !in communities { return Refused(UnknownCommunity); }
      var sequence := communities[community];
      var updated := 0;
      if credential in credentials && credentials[credential].community == community
         && credentials[credential].revocation.None? {
        credentials := credentials[credential := credentials[credential].(revocation := Some(sequence))];
        updated := 1;
      }
      if updated == 0 {
        if credential !in credentials || credentials[credential].community != community {
          return Refused(UnknownCredential);
        }
        return Refused(CredentialAlreadyRevoked);
      }
      return Accepted;
    }

    method Propose(p: Payload) returns (o: Outcome)
      modifies this
      ensures (Tables(), o) == ProposeStep(old(Tables()), p)
    {
      if !ProposalValid(Tables(), p) { return Refused(InvalidProposal); }
      if p.tx in proposals { return Refused(ProposalExists); }
      proposals := proposals[p.tx := Proposal(p, [], None)];
      return Accepted;
    }

    method AddAccountEvidence(tx: Id, e: Evidence) returns (o: Outcome)
      modifies this
      ensures (Tables(), o) == AddEvidenceStep(old(Tables()), tx, e)
    {
      if tx !in proposals { return Refused(UnknownProposal); }
      proposals := proposals[tx := proposals[tx].(evidence := proposals[tx].evidence + [e])];
      return Accepted;
    }

    /** Moves the balances one entry at a time. */
    method PostEntries(entries: seq<Entry>)
      requires AccountsKnown(accounts, entries)
      modifies this`accounts
      ensures accounts == Post(old(accounts), entries)
    {
      var i := 0;
      while i < |entries|
        invariant 0 <= i <= |entries|
        invariant accounts == Post(old(accounts), entries[..i])
      {
        var e := entries[i];
        PostOneMore(old(accounts), entries, i);
        accounts := accounts[e.account := accounts[e.account].(balance := accounts[e.account].balance + e.amount)];
        i := i + 1;
      }
      assert entries[..i] == entries;
    }

    /** The floors are looked at only when every entry has been posted; a breach takes the postings back. */
    method PostWithinFloors(entries: seq<Entry>) returns (ok: bool)
      requires AccountsKnown(accounts, entries)
      modifies this`accounts
      ensures ok == FloorsRespected(Post(old(accounts), entries), entries)
      ensures accounts == if ok then Post(old(accounts), entries) else old(accounts)
    {
      var savepoint := accounts;
      PostEntries(entries);
      ok := FloorsRespected(accounts, entries);
      if !ok { accounts := savepoint; }
    }

    method Commit(tx: Id) returns (o: Outcome)
      modifies this
      ensures (Tables(), o) == CommitStep(old(Tables()), tx)
    {
      if tx !in proposals { return Refused(UnknownProposal); }
      var p := proposals[tx];
      var entries := p.payload.entries;
      if p.payload.community !in communities || !AccountsKnown(accounts, entries) {
        return Refused(InvalidProposal);
      }
      if p.committedSequence.Some? {
        return Committed(Receipt(p.committedSequence.value, Digest(p.payload, p.committedSequence.value)));
      }
      if !Covered(p.payload, p.evidence) { return Refused(AuthorizationIncomplete); }
      var sequence := communities[p.payload.community];
      if !AllEligible(Tables(), p.payload, p.evidence, sequence) {
        return Refused(CredentialNotEligible);
      }
      var ok := PostWithinFloors(entries);
      if !ok { return Refused(CreditFloorBreached); }
      communities := communities[p.payload.community := sequence + 1];
      proposals := proposals[tx := p.(committedSequence := Some(sequence))];
      journal := journal + [JournalRow(p.payload, sequence, p.evidence)];
      return Committed(Receipt(sequence, Digest(p.payload, sequence)));
    }
  }
}
