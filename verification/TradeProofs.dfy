// STIR and osTRIS agree, each trade settles at most once, and no fault is visible in the ledger.
module TradeProofs {
  import opened Wrappers
  import opened Ledger
  import opened LedgerProofs
  import opened LedgerTheorems
  import opened Negotiation
  import opened TradeProtocol
  import FaultRegister

  // ---- every event keeps the invariant ----

  /** What osTRIS does on its own, or for another trade, never disturbs STIR's rows. */
  lemma LedgerMoves(y: System, l: State)
    requires StirOk(y) && Later(y.ledger, l)
    ensures StirOk(y.(ledger := l))
  {
    var z := y.(ledger := l);
    forall u | u in z.stir.bindings ensures BindingOk(z, u) {
      assert BindingOk(y, u);
      assert SameAccount(y.ledger.accounts[y.stir.bindings[u]], l.accounts[y.stir.bindings[u]]);
    }
    forall a | a in z.stir.trades ensures TradeOk(z, a) {
      assert TradeOk(y, a);
      var tx := y.stir.trades[a].payload.tx;
      assert ProposalGrew(y.ledger.proposals[tx], l.proposals[tx]);
    }
    forall r | r in z.pending ensures PendingOk(z, r) { PendingThroughLedger(y, l, r); }
  }

  lemma PendingThroughLedger(y: System, l: State, r: nat)
    requires Later(y.ledger, l) && r in y.pending && PendingOk(y, r)
    ensures PendingOk(y.(ledger := l), r)
  {
    var p := y.stir.trades[y.pending[r].agreement].payload;
    if p.tx in y.ledger.proposals { assert ProposalGrew(y.ledger.proposals[p.tx], l.proposals[p.tx]); }
  }

  lemma LedgerStep(y: System, op: Operation)
    requires SystemOk(y)
    ensures SystemOk(y.(ledger := Step(y.ledger, op).0))
  {
    StepKeepsInv(y.ledger, op);
    StepIsLater(y.ledger, op);
    LedgerMoves(y, Step(y.ledger, op).0);
  }

  lemma ArmKeepsOk(y: System, mode: FaultRegister.Mode)
    requires StirOk(y)
    ensures StirOk(y.(mode := mode))
  {
    var z := y.(mode := mode);
    forall u | u in z.stir.bindings ensures BindingOk(z, u) { assert BindingOk(y, u); }
    forall a | a in z.stir.trades ensures TradeOk(z, a) { assert TradeOk(y, a); }
    forall r | r in z.pending ensures PendingOk(z, r) { assert PendingOk(y, r); }
  }

  lemma TalkKeepsTrade(y: System, agreement: Id, talk: Talk, a: Id)
    requires !Agreed(y.stir, agreement) && a in y.stir.trades && TradeOk(y, a)
    ensures TradeOk(y.(stir := y.stir.(talks := y.stir.talks[agreement := talk])), a)
  {
    assert a != agreement;
  }

  /** A negotiation that is not closed may change: no trade hangs on it yet. */
  lemma TalkKeepsOk(y: System, agreement: Id, talk: Talk)
    requires StirOk(y) && Sound(talk) && !Agreed(y.stir, agreement)
    ensures StirOk(y.(stir := y.stir.(talks := y.stir.talks[agreement := talk])))
  {
    var z := y.(stir := y.stir.(talks := y.stir.talks[agreement := talk]));
    forall u | u in z.stir.bindings ensures BindingOk(z, u) { assert BindingOk(y, u); }
    forall a | a in z.stir.trades ensures TradeOk(z, a) { TalkKeepsTrade(y, agreement, talk, a); }
    forall r | r in z.pending ensures PendingOk(z, r) { assert PendingOk(y, r); }
  }

  lemma OpenTalkKeepsOk(y: System, agreement: Id, owner: User, direction: Direction, initiator: User, amount: int)
    requires StirOk(y)
    ensures StirOk(OpenTalkEvent(y, agreement, owner, direction, initiator, amount).0)
  {
    if agreement !in y.stir.talks && owner != initiator { TalkKeepsOk(y, agreement, Open(owner, direction, initiator, amount)); }
  }

  lemma NegotiateKeepsOk(y: System, agreement: Id, action: Action)
    requires StirOk(y)
    ensures StirOk(NegotiateEvent(y, agreement, action).0)
  {
    if agreement in y.stir.talks {
      var talk := y.stir.talks[agreement];
      ActStaysSound(talk, action);
      if Act(talk, action).1 { TalkKeepsOk(y, agreement, Act(talk, action).0); }
    }
  }

  lemma BindKeepsTrade(y: System, user: User, account: Id, a: Id)
    requires user !in y.stir.bindings && a in y.stir.trades && TradeOk(y, a)
    ensures TradeOk(y.(stir := y.stir.(bindings := y.stir.bindings[user := account])), a)
  {}

  lemma BindKeepsOk(y: System, user: User, account: Id)
    requires StirOk(y) && user !in y.stir.bindings
    requires account in y.ledger.accounts && y.ledger.accounts[account].unit == y.stir.unit
    requires y.ledger.accounts[account].community == y.stir.community
    requires forall u :: u in y.stir.bindings ==> y.stir.bindings[u] != account
    ensures StirOk(y.(stir := y.stir.(bindings := y.stir.bindings[user := account])))
  {
    var z := y.(stir := y.stir.(bindings := y.stir.bindings[user := account]));
    forall u | u in z.stir.bindings ensures BindingOk(z, u) { if u != user { assert BindingOk(y, u); } }
    forall a | a in z.stir.trades ensures TradeOk(z, a) {
      assert TradeOk(y, a);
      BindKeepsTrade(y, user, account, a);
    }
    forall r | r in z.pending ensures PendingOk(z, r) { assert PendingOk(y, r); }
  }

  lemma PutKeepsTrade(y: System, agreement: Id, trade: Trade, a: Id)
    requires a in y.stir.trades && a != agreement && TradeOk(y, a)
    ensures TradeOk(Put(y, agreement, trade), a)
  {}

  lemma PutKeepsPending(y: System, agreement: Id, trade: Trade, r: nat)
    requires agreement in y.stir.trades ==> y.stir.trades[agreement].payload == trade.payload
    requires r in y.pending && PendingOk(y, r)
    ensures PendingOk(Put(y, agreement, trade), r)
  {}

  lemma PutKeepsDistinct(trades: map<Id, Trade>, agreement: Id, trade: Trade)
    requires TransactionsDistinct(trades)
    requires forall b :: b in trades && b != agreement ==> trades[b].payload.tx != trade.payload.tx
    ensures TransactionsDistinct(trades[agreement := trade])
  {}

  lemma PutKeepsBindings(y: System, agreement: Id, trade: Trade)
    requires forall u :: u in y.stir.bindings ==> BindingOk(y, u)
    ensures var z := Put(y, agreement, trade); forall u :: u in z.stir.bindings ==> BindingOk(z, u)
  {
    var z := Put(y, agreement, trade);
    forall u | u in z.stir.bindings ensures BindingOk(z, u) { assert BindingOk(y, u); }
  }

  lemma PutKeepsTrades(y: System, agreement: Id, trade: Trade)
    requires (forall a :: a in y.stir.trades ==> TradeOk(y, a)) && TradeOk(Put(y, agreement, trade), agreement)
    ensures var z := Put(y, agreement, trade); forall a :: a in z.stir.trades ==> TradeOk(z, a)
  {
    var z := Put(y, agreement, trade);
    forall a | a in z.stir.trades ensures TradeOk(z, a) { if a != agreement { PutKeepsTrade(y, agreement, trade, a); } }
  }

  lemma PutKeepsPendings(y: System, agreement: Id, trade: Trade)
    requires agreement in y.stir.trades ==> y.stir.trades[agreement].payload == trade.payload
    requires forall r :: r in y.pending ==> PendingOk(y, r)
    ensures var z := Put(y, agreement, trade); forall r :: r in z.pending ==> PendingOk(z, r)
  {
    var z := Put(y, agreement, trade);
    forall r | r in z.pending ensures PendingOk(z, r) { PutKeepsPending(y, agreement, trade, r); }
  }

  lemma PutKeepsOk(y: System, agreement: Id, trade: Trade)
    requires StirOk(y) && TradeOk(Put(y, agreement, trade), agreement)
    requires agreement in y.stir.trades ==> y.stir.trades[agreement].payload == trade.payload
    requires forall b :: b in y.stir.trades && b != agreement ==> y.stir.trades[b].payload.tx != trade.payload.tx
    ensures StirOk(Put(y, agreement, trade))
  {
    PutKeepsDistinct(y.stir.trades, agreement, trade);
    PutKeepsBindings(y, agreement, trade);
    PutKeepsTrades(y, agreement, trade);
    PutKeepsPendings(y, agreement, trade);
  }

  lemma NewAccountIsFresh(s: State, community: Id, name: string, unit: Id, key: string)
    requires IdsBelow(s)
    ensures var (l, o) := ActivateStep(s, community, name, unit, key, None);
      o.Activated? ==>
        o.account !in s.accounts && o.account in l.accounts
        && l.accounts[o.account].unit == unit && l.accounts[o.account].community == community
  {}

  lemma ActivateEconomicShape(y: System, user: User, l: State, o: Outcome, name: string, key: string)
    requires user !in y.stir.bindings
    requires (l, o) == Step(y.ledger, ActivateParticipant(y.stir.community, name, y.stir.unit, key, None))
    ensures ActivateEconomicEvent(y, user, name, key).0
            == if o.Activated? then y.(ledger := l, stir := y.stir.(bindings := y.stir.bindings[user := o.account])) else y
  {}

  lemma NewBindingKeepsOk(y: System, l: State, user: User, account: Id)
    requires StirOk(y) && SystemOk(y.(ledger := l)) && user !in y.stir.bindings && account !in y.ledger.accounts
    requires account in l.accounts && l.accounts[account].unit == y.stir.unit && l.accounts[account].community == y.stir.community
    ensures SystemOk(y.(ledger := l, stir := y.stir.(bindings := y.stir.bindings[user := account])))
  {
    forall u | u in y.stir.bindings ensures y.stir.bindings[u] != account { assert BindingOk(y, u); }
    BindKeepsOk(y.(ledger := l), user, account);
  }

  lemma ActivatedKeepsOk(y: System, user: User, l: State, account: Id, name: string, key: string)
    requires SystemOk(y) && SystemOk(y.(ledger := l)) && user !in y.stir.bindings
    requires var (m, o) := ActivateStep(y.ledger, y.stir.community, name, y.stir.unit, key, None);
      m == l && o.Activated? && o.account == account
    ensures SystemOk(y.(ledger := l, stir := y.stir.(bindings := y.stir.bindings[user := account])))
  {
    NewAccountIsFresh(y.ledger, y.stir.community, name, y.stir.unit, key);
    NewBindingKeepsOk(y, l, user, account);
  }

  lemma ActivateEconomicKeepsOk(y: System, user: User, name: string, key: string)
    requires SystemOk(y)
    ensures SystemOk(ActivateEconomicEvent(y, user, name, key).0)
  {
    if user !in y.stir.bindings {
      var op := ActivateParticipant(y.stir.community, name, y.stir.unit, key, None);
      var (l, o) := Step(y.ledger, op);
      ActivateEconomicShape(y, user, l, o, name, key);
      if o.Activated? {
        LedgerStep(y, op);
        ActivatedKeepsOk(y, user, l, o.account, name, key);
      }
    }
  }

  lemma NewTradeKeepsOk(y: System, agreement: Id, p: Payload)
    requires StirOk(y) && agreement !in y.stir.trades && Agreed(y.stir, agreement)
    requires AgreementOf(y.stir, agreement).payer in y.stir.bindings && AgreementOf(y.stir, agreement).payee in y.stir.bindings
    requires p == Transfer(y.stir, p.tx, AgreementOf(y.stir, agreement))
    requires p.tx in y.ledger.proposals && y.ledger.proposals[p.tx].payload == p
    requires forall b :: b in y.stir.trades ==> y.stir.trades[b].payload.tx != p.tx
    ensures StirOk(Put(y, agreement, Trade(p, None)))
  {
    assert TradeOk(Put(y, agreement, Trade(p, None)), agreement);
    PutKeepsOk(y, agreement, Trade(p, None));
  }

  lemma ActivateTradeShape(y: System, agreement: Id, tx: Id) returns (p: Payload)
    ensures var z := ActivateTradeEvent(y, agreement, tx).0;
            z == y || (
              && Agreed(y.stir, agreement)
              && AgreementOf(y.stir, agreement).payer in y.stir.bindings && AgreementOf(y.stir, agreement).payee in y.stir.bindings
              && p == Transfer(y.stir, tx, AgreementOf(y.stir, agreement))
              && agreement !in y.stir.trades && ProposeStep(y.ledger, p).1 == Accepted
              && z == Put(y.(ledger := Step(y.ledger, Propose(p)).0), agreement, Trade(p, None)))
  {
    p := Payload(tx, y.stir.community, y.stir.unit, []);
    if Agreed(y.stir, agreement)
       && AgreementOf(y.stir, agreement).payer in y.stir.bindings && AgreementOf(y.stir, agreement).payee in y.stir.bindings {
      p := Transfer(y.stir, tx, AgreementOf(y.stir, agreement));
    }
  }

  lemma ActivateTradeKeepsOk(y: System, agreement: Id, tx: Id)
    requires SystemOk(y)
    ensures SystemOk(ActivateTradeEvent(y, agreement, tx).0)
  {
    var z := ActivateTradeEvent(y, agreement, tx).0;
    var p := ActivateTradeShape(y, agreement, tx);
    if z != y {
      LedgerStep(y, Propose(p));
      forall b | b in y.stir.trades ensures y.stir.trades[b].payload.tx != tx { assert TradeOk(y, b); }
      NewTradeKeepsOk(y.(ledger := Step(y.ledger, Propose(p)).0), agreement, p);
    }
  }

  lemma AuthorizeShape(y: System, agreement: Id, user: User, credential: Id, signature: Signature) returns (op: Operation)
    ensures var z := AuthorizeEvent(y, agreement, user, credential, signature).0;
            z == y || z == y.(ledger := Step(y.ledger, op).0)
  {
    op := Operation.Commit(0);
    if agreement in y.stir.trades && user in y.stir.bindings {
      op := AddEvidence(y.stir.trades[agreement].payload.tx, Evidence(y.stir.bindings[user], credential, signature));
    }
  }

  lemma AuthorizeKeepsOk(y: System, agreement: Id, user: User, credential: Id, signature: Signature)
    requires SystemOk(y)
    ensures SystemOk(AuthorizeEvent(y, agreement, user, credential, signature).0)
  {
    var op := AuthorizeShape(y, agreement, user, credential, signature);
    LedgerStep(y, op);
  }

  lemma ShownTradeOk(y: System, agreement: Id, r: Receipt)
    requires agreement in y.stir.trades && TradeOk(y, agreement) && Stored(y.ledger, y.stir.trades[agreement].payload, r)
    ensures TradeOk(Put(y, agreement, y.stir.trades[agreement].(receipt := Some(r))), agreement)
  {}

  lemma ShownTradeKeepsOk(y: System, agreement: Id, r: Receipt)
    requires StirOk(y) && agreement in y.stir.trades && Stored(y.ledger, y.stir.trades[agreement].payload, r)
    ensures StirOk(Put(y, agreement, y.stir.trades[agreement].(receipt := Some(r))))
  {
    ShownTradeOk(y, agreement, r);
    PutKeepsOk(y, agreement, y.stir.trades[agreement].(receipt := Some(r)));
  }

  lemma CommitTradeShape(y: System, agreement: Id, l: State, o: Outcome)
    requires agreement in y.stir.trades && (l, o) == CommitStep(y.ledger, y.stir.trades[agreement].payload.tx)
    ensures var z := CommitTradeEvent(y, agreement).0; var armed := y.(mode := z.mode);
            || z == armed
            || z == armed.(ledger := l)
            || (o.Committed? && z == Put(armed.(ledger := l), agreement, y.stir.trades[agreement].(receipt := Some(o.receipt))))
  {}

  lemma CommitStores(y: System, p: Payload, l: State, o: Outcome)
    requires p.tx in y.ledger.proposals && y.ledger.proposals[p.tx].payload == p && (l, o) == CommitStep(y.ledger, p.tx) && o.Committed?
    ensures p.tx in l.proposals && l.proposals[p.tx].committedSequence == Some(o.receipt.sequence)
    ensures o.receipt.digest == Digest(p, o.receipt.sequence)
  {
    ReceiptIsStored(y.ledger, p.tx);
  }

  lemma UpstreamKeepsOk(y: System, agreement: Id, l: State, o: Outcome)
    requires SystemOk(y) && agreement in y.stir.trades
    requires (l, o) == CommitStep(y.ledger, y.stir.trades[agreement].payload.tx)
    ensures SystemOk(y.(ledger := l))
    ensures o.Committed? ==> SystemOk(Put(y.(ledger := l), agreement, y.stir.trades[agreement].(receipt := Some(o.receipt))))
  {
    var p := y.stir.trades[agreement].payload;
    CommitKeepsInv(y.ledger, p.tx);
    CommitIsLater(y.ledger, p.tx);
    assert Inv(l) && Later(y.ledger, l);
    LedgerMoves(y, l);
    if o.Committed? {
      assert TradeOk(y, agreement);
      CommitStores(y, p, l, o);
      ShownTradeKeepsOk(y.(ledger := l), agreement, o.receipt);
    }
  }

  lemma CommitTradeKeepsOk(y: System, agreement: Id)
    requires SystemOk(y)
    ensures SystemOk(CommitTradeEvent(y, agreement).0)
  {
    if agreement in y.stir.trades {
      var z := CommitTradeEvent(y, agreement).0;
      var (l, o) := CommitStep(y.ledger, y.stir.trades[agreement].payload.tx);
      CommitTradeShape(y, agreement, l, o);
      ArmKeepsOk(y, z.mode);
      UpstreamKeepsOk(y.(mode := z.mode), agreement, l, o);
    }
  }

  lemma SyncTradeKeepsOk(y: System, agreement: Id)
    requires SystemOk(y)
    ensures SystemOk(SyncTradeEvent(y, agreement).0)
  {
    if agreement in y.stir.trades {
      var p := y.stir.trades[agreement].payload;
      assert TradeOk(y, agreement);
      TransactionViewConsistent(y.ledger, p.tx);
      var v := Transaction(y.ledger, p.tx).value;
      if v.committedSequence.Some? {
        ShownTradeKeepsOk(y, agreement, Receipt(v.committedSequence.value, v.digest.value));
      }
    }
  }

  // ---- commits in flight ----

  lemma PendKeepsOk(y: System, request: nat, f: InFlight)
    requires StirOk(y) && f.agreement in y.stir.trades
    requires f.Back? && f.outcome.Committed? ==> Stored(y.ledger, y.stir.trades[f.agreement].payload, f.outcome.receipt)
    requires f.Back? ==> f.outcome.Committed? || f.outcome.Refused?
    ensures StirOk(Pend(y, request, f))
  {
    var z := Pend(y, request, f);
    forall u | u in z.stir.bindings ensures BindingOk(z, u) { assert BindingOk(y, u); }
    forall a | a in z.stir.trades ensures TradeOk(z, a) { assert TradeOk(y, a); }
    forall r | r in z.pending ensures PendingOk(z, r) { if r != request { assert PendingOk(y, r); } }
  }

  lemma SendCommitKeepsOk(y: System, request: nat, agreement: Id)
    requires StirOk(y)
    ensures StirOk(SendCommitEvent(y, request, agreement).0)
  {
    if SendCommitEvent(y, request, agreement).0 != y { PendKeepsOk(y, request, Sent(agreement)); }
  }

  lemma UnpendKeepsOk(y: System, request: nat)
    requires StirOk(y)
    ensures StirOk(y.(pending := y.pending - {request}))
  {
    var z := y.(pending := y.pending - {request});
    forall u | u in z.stir.bindings ensures BindingOk(z, u) { assert BindingOk(y, u); }
    forall a | a in z.stir.trades ensures TradeOk(z, a) { assert TradeOk(y, a); }
    forall r | r in z.pending ensures PendingOk(z, r) { assert PendingOk(y, r); }
  }

  lemma UpstreamShape(y: System, request: nat)
    requires request in y.pending && y.pending[request].Sent? && y.pending[request].agreement in y.stir.trades
    ensures var a := y.pending[request].agreement; var z := UpstreamEvent(y, request).0; var armed := y.(mode := z.mode);
      var (l, o) := CommitStep(y.ledger, y.stir.trades[a].payload.tx);
      z == Pend(armed, request, Lost(a)) || z == Pend(armed.(ledger := l), request, Lost(a))
      || z == Pend(armed.(ledger := l), request, Back(a, o))
  {}

  lemma UpstreamEventKeepsOk(y: System, request: nat)
    requires SystemOk(y)
    ensures SystemOk(UpstreamEvent(y, request).0)
  {
    if request in y.pending && y.pending[request].Sent? && y.pending[request].agreement in y.stir.trades {
      var a := y.pending[request].agreement;
      var z := UpstreamEvent(y, request).0;
      var armed := y.(mode := z.mode);
      var (l, o) := CommitStep(y.ledger, y.stir.trades[a].payload.tx);
      UpstreamShape(y, request);
      ArmKeepsOk(y, z.mode);
      UpstreamKeepsOk(armed, a, l, o);
      PendKeepsOk(armed, request, Lost(a));
      PendKeepsOk(armed.(ledger := l), request, Lost(a));
      CommitAnswers(y.ledger, y.stir.trades[a].payload.tx);
      if o.Committed? { AnswerIsStored(armed, a, l, o); }
      PendKeepsOk(armed.(ledger := l), request, Back(a, o));
    }
  }

  lemma CommitAnswers(s: State, tx: Id)
    ensures CommitStep(s, tx).1.Committed? || CommitStep(s, tx).1.Refused?
  {}

  lemma AnswerIsStored(y: System, agreement: Id, l: State, o: Outcome)
    requires agreement in y.stir.trades && TradeOk(y, agreement)
    requires (l, o) == CommitStep(y.ledger, y.stir.trades[agreement].payload.tx) && o.Committed?
    ensures Stored(l, y.stir.trades[agreement].payload, o.receipt)
  {
    CommitStores(y, y.stir.trades[agreement].payload, l, o);
  }

  lemma ReceiveShape(y: System, request: nat)
    ensures var z := ReceiveEvent(y, request).0;
      z == y
      || (request in y.pending && y.pending[request].agreement in y.stir.trades
          && var f := y.pending[request]; var u := y.(pending := y.pending - {request});
             z == u || (f.Back? && f.outcome.Committed?
                        && z == Put(u, f.agreement, y.stir.trades[f.agreement].(receipt := Some(f.outcome.receipt)))))
  {}

  lemma ReceiveKeepsOk(y: System, request: nat)
    requires StirOk(y)
    ensures StirOk(ReceiveEvent(y, request).0)
  {
    ReceiveShape(y, request);
    if request in y.pending {
      var f := y.pending[request];
      assert PendingOk(y, request);
      UnpendKeepsOk(y, request);
      if f.Back? && f.outcome.Committed? {
        ShownTradeKeepsOk(y.(pending := y.pending - {request}), f.agreement, f.outcome.receipt);
      }
    }
  }

  /** The events osTRIS has no part in. */
  lemma StirEventKeepsStir(y: System, e: Event)
    requires StirOk(y) && (e.Arm? || e.OpenTalk? || e.Negotiate? || e.SendCommit? || e.Receive?)
    ensures StirOk(Handle(y, e).0)
  {
    match e
    case Arm(name) => ArmKeepsOk(y, ArmEvent(y, name).0.mode);
    case OpenTalk(agreement, owner, direction, initiator, amount) =>
      OpenTalkKeepsOk(y, agreement, owner, direction, initiator, amount);
    case Negotiate(agreement, action) => NegotiateKeepsOk(y, agreement, action);
    case SendCommit(request, agreement) => SendCommitKeepsOk(y, request, agreement);
    case Receive(request) => ReceiveKeepsOk(y, request);
  }

  lemma CommitEventKeepsOk(y: System, e: Event)
    requires SystemOk(y) && (e.CommitTrade? || e.Upstream?)
    ensures SystemOk(Handle(y, e).0)
  {
    match e
    case CommitTrade(agreement) => CommitTradeKeepsOk(y, agreement);
    case Upstream(request) => UpstreamEventKeepsOk(y, request);
  }

  lemma ActivationEventKeepsOk(y: System, e: Event)
    requires SystemOk(y) && (e.ActivateEconomic? || e.ActivateTrade?)
    ensures SystemOk(Handle(y, e).0)
  {
    match e
    case ActivateEconomic(user, name, key) => ActivateEconomicKeepsOk(y, user, name, key);
    case ActivateTrade(agreement, tx) => ActivateTradeKeepsOk(y, agreement, tx);
  }

  lemma TradeEventKeepsOk(y: System, e: Event)
    requires SystemOk(y) && (e.Authorize? || e.SyncTrade?)
    ensures SystemOk(Handle(y, e).0)
  {
    match e
    case Authorize(agreement, user, credential, signature) => AuthorizeKeepsOk(y, agreement, user, credential, signature);
    case SyncTrade(agreement) => SyncTradeKeepsOk(y, agreement);
  }

  lemma StirEventKeepsLedger(y: System, e: Event)
    requires e.Arm? || e.OpenTalk? || e.Negotiate? || e.SendCommit? || e.Receive?
    ensures Handle(y, e).0.ledger == y.ledger
  {}

  lemma HandleKeepsOk(y: System, e: Event)
    requires SystemOk(y)
    ensures SystemOk(Handle(y, e).0)
  {
    if e.Arm? || e.OpenTalk? || e.Negotiate? || e.SendCommit? || e.Receive? {
      StirEventKeepsStir(y, e);
      StirEventKeepsLedger(y, e);
    } else if e.CommitTrade? || e.Upstream? {
      CommitEventKeepsOk(y, e);
    } else if e.ActivateEconomic? || e.ActivateTrade? {
      ActivationEventKeepsOk(y, e);
    } else if e.Authorize? || e.SyncTrade? {
      TradeEventKeepsOk(y, e);
    } else {
      LedgerStep(y, e.op);
    }
  }

  lemma {:induction false} PlayKeepsOk(y: System, events: seq<Event>)
    requires SystemOk(y)
    ensures SystemOk(Play(y, events))
    decreases |events|
  {
    if events != [] {
      HandleKeepsOk(y, events[0]);
      PlayKeepsOk(Handle(y, events[0]).0, events[1..]);
    }
  }

  lemma {:induction false} ReachableOk(ops: seq<Operation>, community: Id, unit: Id, events: seq<Event>)
    ensures SystemOk(Play(Fresh(Run(EMPTY, ops), community, unit), events))
  {
    ReachableInv(ops);
    PlayKeepsOk(Fresh(Run(EMPTY, ops), community, unit), events);
  }

  // ---- agreement between the two sides ----

  function Payer(t: Talk): User { if t.direction == Offer then t.initiator else t.owner }

  function Payee(t: Talk): User { if t.direction == Offer then t.owner else t.initiator }

  /** The journal has one row for the trade, under the sequence and digest STIR shows, and it moves the amount of the
      head offer of the negotiation, accepted by the party who did not make it, from the initiator to the owner of an
      OFFER and from the owner to the initiator of a WANTED. */
  ghost predicate TrulySettled(y: System, agreement: Id) {
    agreement in y.stir.trades && y.stir.trades[agreement].receipt.Some? && Agreed(y.stir, agreement)
    && var trade, talk, journal := y.stir.trades[agreement], y.stir.talks[agreement], y.ledger.journal;
       var head := talk.offers[|talk.offers| - 1];
       talk.acceptedBy.value != head.author && {talk.acceptedBy.value, head.author} == {talk.owner, talk.initiator}
       && Payer(talk) in y.stir.bindings && Payee(talk) in y.stir.bindings
       && (exists i :: 0 <= i < |journal| && journal[i].payload.tx == trade.payload.tx && RowShows(journal[i], trade.receipt.value)
             && journal[i].payload.entries
                  == [Entry(y.stir.bindings[Payer(talk)], -head.amount), Entry(y.stir.bindings[Payee(talk)], head.amount)])
       && (forall i, j :: 0 <= i < |journal| && 0 <= j < |journal| ==>
             journal[i].payload.tx == trade.payload.tx == journal[j].payload.tx ==> i == j)
  }

  /** From the first offer to the journal: whatever was offered, accepted, faulted, retried and synchronised in whatever
      order, STIR shows COMMITTED only what the head offer said and osTRIS journalled exactly once. */
  lemma {:induction false} ShownCommittedIsTrue(ops: seq<Operation>, community: Id, unit: Id, events: seq<Event>, agreement: Id)
    requires var y := Play(Fresh(Run(EMPTY, ops), community, unit), events);
             agreement in y.stir.trades && y.stir.trades[agreement].receipt.Some?
    ensures TrulySettled(Play(Fresh(Run(EMPTY, ops), community, unit), events), agreement)
  {
    ReachableOk(ops, community, unit, events);
    var y := Play(Fresh(Run(EMPTY, ops), community, unit), events);
    assert TradeOk(y, agreement);
    OneRow(y.ledger, y.stir.trades[agreement].payload.tx);
    ShownIsTrue(y, agreement);
  }

  lemma OneRow(s: State, tx: Id)
    requires Inv(s) && tx in s.proposals && s.proposals[tx].committedSequence.Some?
    ensures HasRow(s.journal, s.proposals[tx].payload, s.proposals[tx].committedSequence.value)
    ensures forall i, j :: 0 <= i < |s.journal| && 0 <= j < |s.journal| ==>
              s.journal[i].payload.tx == tx == s.journal[j].payload.tx ==> i == j
  {
    AtMostOnce(s, tx);
    assert ProposalOk(s, tx);
  }

  lemma ShownIsTrue(y: System, agreement: Id)
    requires agreement in y.stir.trades && TradeOk(y, agreement) && y.stir.trades[agreement].receipt.Some?
    requires Sound(y.stir.talks[agreement])
    requires var trade, journal := y.stir.trades[agreement], y.ledger.journal;
      HasRow(journal, trade.payload, trade.receipt.value.sequence)
      && forall i, j :: 0 <= i < |journal| && 0 <= j < |journal| ==>
           journal[i].payload.tx == trade.payload.tx == journal[j].payload.tx ==> i == j
    ensures TrulySettled(y, agreement)
  {}

  predicate RowShows(row: JournalRow, r: Receipt) {
    row.sequence == r.sequence && r.digest == Digest(row.payload, row.sequence)
  }

  /** One agreement has one trade, activating it again answers with that trade and changes nothing, and no two
      agreements share a transaction: no agreement is paid twice. */
  lemma {:induction false} OneTransactionPerAgreement(
      ops: seq<Operation>, community: Id, unit: Id, events: seq<Event>, a: Id, b: Id, tx: Id)
    requires var y := Play(Fresh(Run(EMPTY, ops), community, unit), events); a in y.stir.trades && b in y.stir.trades
    ensures var y := Play(Fresh(Run(EMPTY, ops), community, unit), events);
            && (y.stir.trades[a].payload.tx == y.stir.trades[b].payload.tx ==> a == b)
            && Handle(y, ActivateTrade(a, tx)) == (y, View(y.stir.trades[a]))
  {
    ReachableOk(ops, community, unit, events);
    ReactivationAnswers(Play(Fresh(Run(EMPTY, ops), community, unit), events), a, tx);
  }

  lemma ReactivationAnswers(y: System, a: Id, tx: Id)
    requires a in y.stir.trades && TradeOk(y, a)
    ensures Handle(y, ActivateTrade(a, tx)) == (y, View(y.stir.trades[a]))
  {}

  // ---- faults are invisible in the ledger ----

  /** The osTRIS operations an event really causes. */
  function Calls(y: System, e: Event): seq<Operation> {
    match e
    case Arm(_) => []
    case OpenTalk(_, _, _, _, _) => []
    case Negotiate(_, _) => []
    case SendCommit(_, _) => []
    case Receive(_) => []
    case Upstream(r) =>
      if r in y.pending && y.pending[r].Sent? && y.pending[r].agreement in y.stir.trades && !FaultRegister.BeforeUpstream(y.mode)
      then [Operation.Commit(y.stir.trades[y.pending[r].agreement].payload.tx)] else []
    case SyncTrade(_) => []
    case Elsewhere(op) => [op]
    case ActivateEconomic(user, name, key) =>
      if user in y.stir.bindings then [] else [ActivateParticipant(y.stir.community, name, y.stir.unit, key, None)]
    case ActivateTrade(a, tx) =>
      if Agreed(y.stir, a) && a !in y.stir.trades
         && AgreementOf(y.stir, a).payer in y.stir.bindings && AgreementOf(y.stir, a).payee in y.stir.bindings
      then [Propose(Transfer(y.stir, tx, AgreementOf(y.stir, a)))] else []
    case Authorize(a, user, credential, signature) =>
      if Agreed(y.stir, a) && a in y.stir.trades && user in y.stir.bindings
         && (user == AgreementOf(y.stir, a).payer || user == AgreementOf(y.stir, a).payee)
      then [AddEvidence(y.stir.trades[a].payload.tx, Evidence(y.stir.bindings[user], credential, signature))] else []
    case CommitTrade(a) =>
      if a in y.stir.trades && y.stir.trades[a].receipt.None? && !FaultRegister.BeforeUpstream(y.mode)
      then [Operation.Commit(y.stir.trades[a].payload.tx)] else []
  }

  function AllCalls(y: System, events: seq<Event>): seq<Operation>
    decreases |events|
  {
    if events == [] then [] else Calls(y, events[0]) + AllCalls(Handle(y, events[0]).0, events[1..])
  }

  lemma {:induction false} RunAppends(s: State, a: seq<Operation>, b: seq<Operation>)
    ensures Run(s, a + b) == Run(Run(s, a), b)
    decreases |a|
  {
    if a == [] {
      assert a + b == b;
    } else {
      assert (a + b)[1..] == a[1..] + b;
      RunAppends(Step(s, a[0]).0, a[1..], b);
    }
  }

  lemma {:induction false} RunOne(s: State, op: Operation)
    ensures Run(s, [op]) == Step(s, op).0
  {
    assert Run(Step(s, op).0, [op][1..]) == Step(s, op).0;
  }

  /** An event causes one osTRIS operation at most, and the ledger is moved by that one only. */
  ghost predicate CausesCalls(y: System, e: Event) {
    var calls := Calls(y, e);
    if calls == [] then Handle(y, e).0.ledger == y.ledger
    else |calls| == 1 && Handle(y, e).0.ledger == Step(y.ledger, calls[0]).0
  }

  lemma BindingEventCalls(y: System, e: Event)
    requires e.ActivateEconomic?
    ensures CausesCalls(y, e)
  {}

  lemma TradeEventCalls(y: System, e: Event)
    requires e.ActivateTrade? || e.Authorize?
    ensures CausesCalls(y, e)
  {}

  lemma CommitEventCalls(y: System, e: Event)
    requires e.CommitTrade? || e.Upstream?
    ensures CausesCalls(y, e)
  {}

  lemma OtherEventCalls(y: System, e: Event)
    requires !(e.ActivateEconomic? || e.ActivateTrade? || e.Authorize? || e.CommitTrade? || e.Upstream?)
    ensures CausesCalls(y, e)
  {}

  lemma EventCalls(y: System, e: Event)
    ensures CausesCalls(y, e)
  {
    if e.ActivateEconomic? {
      BindingEventCalls(y, e);
    } else if e.ActivateTrade? || e.Authorize? {
      TradeEventCalls(y, e);
    } else if e.CommitTrade? || e.Upstream? {
      CommitEventCalls(y, e);
    } else {
      OtherEventCalls(y, e);
    }
  }

  lemma {:induction false} CallsRun(s: State, t: State, calls: seq<Operation>)
    requires if calls == [] then t == s else |calls| == 1 && t == Step(s, calls[0]).0
    ensures t == Run(s, calls)
  {
    if calls != [] {
      RunOne(s, calls[0]);
      assert calls == [calls[0]];
    }
  }

  lemma HandleCalls(y: System, e: Event)
    ensures Handle(y, e).0.ledger == Run(y.ledger, Calls(y, e))
  {
    EventCalls(y, e);
    CallsRun(y.ledger, Handle(y, e).0.ledger, Calls(y, e));
  }

  /** The ledger behind the faulty network is the ledger of the operations that got through, and nothing else:
      everything proved of fault-free runs holds of it. */
  lemma {:induction false} FaultsLeaveNoTrace(y: System, events: seq<Event>)
    ensures Play(y, events).ledger == Run(y.ledger, AllCalls(y, events))
    decreases |events|
  {
    if events != [] {
      var z := Handle(y, events[0]).0;
      HandleCalls(y, events[0]);
      FaultsLeaveNoTrace(z, events[1..]);
      RunAppends(y.ledger, Calls(y, events[0]), AllCalls(z, events[1..]));
    }
  }

  // ---- lost responses ----

  lemma HandleKeepsTrades(y: System, e: Event, agreement: Id)
    requires agreement in y.stir.trades
    ensures var z := Handle(y, e).0;
            agreement in z.stir.trades && z.stir.trades[agreement].payload == y.stir.trades[agreement].payload
  {}

  lemma TradesPersist(y: System, e: Event, agreement: Id)
    requires SystemOk(y) && agreement in y.stir.trades
    ensures var z := Handle(y, e).0;
            agreement in z.stir.trades && z.stir.trades[agreement].payload == y.stir.trades[agreement].payload
    ensures Later(y.ledger, Handle(y, e).0.ledger)
  {
    HandleKeepsTrades(y, e, agreement);
    HandleCalls(y, e);
    RunIsLater(y.ledger, Calls(y, e));
  }

  lemma {:induction false} TradesPersistLong(y: System, events: seq<Event>, agreement: Id)
    requires SystemOk(y) && agreement in y.stir.trades
    ensures var z := Play(y, events);
            agreement in z.stir.trades && z.stir.trades[agreement].payload == y.stir.trades[agreement].payload
    ensures Later(y.ledger, Play(y, events).ledger)
    decreases |events|
  {
    LaterReflexive(y.ledger);
    if events != [] {
      var m := Handle(y, events[0]).0;
      TradesPersist(y, events[0], agreement);
      HandleKeepsOk(y, events[0]);
      TradesPersistLong(m, events[1..], agreement);
      LaterTransitive(y.ledger, m.ledger, Play(y, events).ledger);
    }
  }

  lemma SyncShows(y: System, agreement: Id, sequence: int)
    requires agreement in y.stir.trades
    requires var seen := Transaction(y.ledger, y.stir.trades[agreement].payload.tx);
      seen.Some? && seen.value.committedSequence == Some(sequence)
      && seen.value.digest == Some(Digest(y.stir.trades[agreement].payload, sequence))
    ensures var p := y.stir.trades[agreement].payload;
      SyncTradeEvent(y, agreement).1 == View(Trade(p, Some(Receipt(sequence, Digest(p, sequence)))))
  {}

  lemma CommitShows(y: System, agreement: Id, sequence: int)
    requires agreement in y.stir.trades
    requires var t := y.stir.trades[agreement]; var receipt := Receipt(sequence, Digest(t.payload, sequence));
      (t.receipt.Some? ==> t.receipt.value == receipt) && CommitStep(y.ledger, t.payload.tx) == (y.ledger, Committed(receipt))
    ensures var p := y.stir.trades[agreement].payload;
      (CommitTradeEvent(y, agreement).1 == View(Trade(p, Some(Receipt(sequence, Digest(p, sequence)))))
       <==> y.mode.Normal? || y.stir.trades[agreement].receipt.Some?)
      && CommitTradeEvent(y, agreement).0.ledger == y.ledger
  {}

  /** osTRIS holds this trade's receipt, and STIR holds none or the same. */
  ghost predicate ReceiptKnown(y: System, agreement: Id, sequence: int) {
    agreement in y.stir.trades
    && var t := y.stir.trades[agreement]; var receipt := Receipt(sequence, Digest(t.payload, sequence));
       var seen := Transaction(y.ledger, t.payload.tx);
       seen.Some? && seen.value.committedSequence == Some(sequence) && seen.value.digest == Some(receipt.digest)
       && (t.receipt.Some? ==> t.receipt.value == receipt)
       && CommitStep(y.ledger, t.payload.tx) == (y.ledger, Committed(receipt))
  }

  lemma CommittedIsKnown(y: System, agreement: Id, sequence: int)
    requires Inv(y.ledger) && agreement in y.stir.trades && TradeOk(y, agreement)
    requires y.ledger.proposals[y.stir.trades[agreement].payload.tx].committedSequence == Some(sequence)
    ensures ReceiptKnown(y, agreement, sequence)
  {
    var tx := y.stir.trades[agreement].payload.tx;
    TransactionViewConsistent(y.ledger, tx);
    StoredReceiptAnswers(y.ledger, tx, sequence);
  }

  lemma KnownAnswers(y: System, agreement: Id, sequence: int)
    requires ReceiptKnown(y, agreement, sequence)
    ensures var p := y.stir.trades[agreement].payload; var shown := View(Trade(p, Some(Receipt(sequence, Digest(p, sequence)))));
            && Handle(y, SyncTrade(agreement)).1 == shown
            && (Handle(y, CommitTrade(agreement)).1 == shown <==> y.mode.Normal? || y.stir.trades[agreement].receipt.Some?)
            && Handle(y, CommitTrade(agreement)).0.ledger == y.ledger
  {
    SyncShows(y, agreement, sequence);
    CommitShows(y, agreement, sequence);
  }

  /** What a state in which osTRIS has committed the trade answers, and that no answer moves the ledger. */
  lemma CommittedAnswers(y: System, agreement: Id, sequence: int)
    requires SystemOk(y) && agreement in y.stir.trades
    requires y.ledger.proposals[y.stir.trades[agreement].payload.tx].committedSequence == Some(sequence)
    ensures var p := y.stir.trades[agreement].payload; var shown := View(Trade(p, Some(Receipt(sequence, Digest(p, sequence)))));
            && Handle(y, SyncTrade(agreement)).1 == shown
            && (Handle(y, CommitTrade(agreement)).1 == shown <==> y.mode.Normal? || y.stir.trades[agreement].receipt.Some?)
            && Handle(y, CommitTrade(agreement)).0.ledger == y.ledger
  {
    CommittedIsKnown(y, agreement, sequence);
    KnownAnswers(y, agreement, sequence);
  }

  /** A commit that went through is never lost: however it was answered and whatever happened since, a
      synchronisation shows its receipt, and so does a repeated commit unless a newly armed fault meets it. */
  lemma {:induction false} ReceiptIsRecovered(y: System, agreement: Id, sequence: int, events: seq<Event>)
    requires SystemOk(y) && agreement in y.stir.trades
    requires y.ledger.proposals[y.stir.trades[agreement].payload.tx].committedSequence == Some(sequence)
    ensures var p := y.stir.trades[agreement].payload; var z := Play(y, events);
            var shown := View(Trade(p, Some(Receipt(sequence, Digest(p, sequence)))));
            && agreement in z.stir.trades
            && Handle(z, SyncTrade(agreement)).1 == shown
            && (Handle(z, CommitTrade(agreement)).1 == shown <==> z.mode.Normal? || z.stir.trades[agreement].receipt.Some?)
            && Handle(z, CommitTrade(agreement)).0.ledger == z.ledger
  {
    assert TradeOk(y, agreement);
    var tx := y.stir.trades[agreement].payload.tx;
    PlayKeepsOk(y, events);
    TradesPersistLong(y, events, agreement);
    var z := Play(y, events);
    assert ProposalGrew(y.ledger.proposals[tx], z.ledger.proposals[tx]);
    CommittedAnswers(z, agreement, sequence);
  }

  // ---- a commit osTRIS refuses ----

  lemma TransferDelta(a: Id, b: Id, x: int)
    requires a != b
    ensures var entries := [Entry(a, -x), Entry(b, x)]; Delta(entries, a) == -x && Delta(entries, b) == x
  {
    var entries := [Entry(a, -x), Entry(b, x)];
    var first := entries[..1];
    assert first[..0] == [];
    assert Delta(first, a) == -x && Delta(first, b) == 0;
  }

  /** Both sides of a transfer would stay at or above their floors. */
  ghost predicate FloorsAllow(l: State, from: Id, to: Id, amount: int) {
    && from in l.accounts && l.accounts[from].floor <= l.accounts[from].balance - amount
    && to in l.accounts && l.accounts[to].floor <= l.accounts[to].balance + amount
  }

  lemma TransferBreaches(s: State, entries: seq<Entry>, from: Id, to: Id, amount: int)
    requires from != to && from in s.accounts && to in s.accounts && entries == [Entry(from, -amount), Entry(to, amount)]
    ensures (exists x :: x in entries && x.account in s.accounts
               && s.accounts[x.account].balance + Delta(entries, x.account) < s.accounts[x.account].floor)
            <==> !FloorsAllow(s, from, to, amount)
  {
    TransferDelta(from, to, amount);
    assert entries[0] in entries && entries[1] in entries;
  }

  /** A refusal by osTRIS reaches STIR as one exactly when no fault is in the way, and leaves both sides as they were:
      the trade can be committed later. */
  lemma RefusedCommitChangesNothing(y: System, agreement: Id, error: Error)
    requires agreement in y.stir.trades && y.stir.trades[agreement].receipt.None?
    ensures var (z, reply) := Handle(y, CommitTrade(agreement));
            && (reply == Rejected(error) <==>
                  y.mode.Normal? && CommitStep(y.ledger, y.stir.trades[agreement].payload.tx).1 == Refused(error))
            && (reply.Rejected? ==> z == y)
  {}

  /** What a transfer between two accounts needs for osTRIS to turn it down for their floors alone. */
  lemma TransferTurnedDown(s: State, p: Payload, from: Id, to: Id, amount: int)
    requires p.tx in s.proposals && ProposalOk(s, p.tx) && s.proposals[p.tx].payload == p
    requires s.proposals[p.tx].committedSequence.None? && from != to && p.entries == [Entry(from, -amount), Entry(to, amount)]
    ensures p.community in s.communities
    ensures var evidence := s.proposals[p.tx].evidence;
            CommitStep(s, p.tx).1 == Refused(CreditFloorBreached) <==>
              && Covered(p, evidence) && AllEligible(s, p, evidence, s.communities[p.community])
              && !FloorsAllow(s, from, to, amount)
  {
    assert p.entries[0] in p.entries && p.entries[1] in p.entries;
    FloorBreachExactly(s, p.tx);
    TransferBreaches(s, p.entries, from, to, amount);
  }

  /** An open trade moves its amount between two different accounts, and shows nothing yet. */
  ghost predicate OpenTransfer(y: System, agreement: Id) {
    && Agreed(y.stir, agreement) && agreement in y.stir.trades && y.stir.trades[agreement].receipt.None?
    && var a, p := AgreementOf(y.stir, agreement), y.stir.trades[agreement].payload;
    && a.payer in y.stir.bindings && a.payee in y.stir.bindings && y.stir.bindings[a.payer] != y.stir.bindings[a.payee]
    && p.entries == [Entry(y.stir.bindings[a.payer], -a.amount), Entry(y.stir.bindings[a.payee], a.amount)]
    && p.tx in y.ledger.proposals && y.ledger.proposals[p.tx].payload == p
    && y.ledger.proposals[p.tx].committedSequence.None?
  }

  lemma OpenTrade(y: System, agreement: Id)
    requires StirOk(y) && agreement in y.stir.trades
    requires y.ledger.proposals[y.stir.trades[agreement].payload.tx].committedSequence.None?
    ensures OpenTransfer(y, agreement)
  {
    assert TradeOk(y, agreement) && Sound(y.stir.talks[agreement]);
  }

  /** Complete and good signatures, and a payer or payee who would end below the floor. */
  ghost predicate OnlyFloorsForbid(y: System, agreement: Id) {
    && Agreed(y.stir, agreement) && agreement in y.stir.trades
    && var a, p := AgreementOf(y.stir, agreement), y.stir.trades[agreement].payload;
    && a.payer in y.stir.bindings && a.payee in y.stir.bindings
    && p.tx in y.ledger.proposals && p.community in y.ledger.communities
    && Covered(p, y.ledger.proposals[p.tx].evidence)
    && AllEligible(y.ledger, p, y.ledger.proposals[p.tx].evidence, y.ledger.communities[p.community])
    && !FloorsAllow(y.ledger, y.stir.bindings[a.payer], y.stir.bindings[a.payee], a.amount)
  }

  /**
   * The policy rejection: a commit of an open trade is turned down for a credit floor exactly when no fault meets it,
   * the signatures are complete and good, and the payer or the payee would end below the floor. Nothing moves then.
   */
  lemma PolicyRejectionExactly(y: System, agreement: Id)
    requires SystemOk(y) && agreement in y.stir.trades
    requires y.ledger.proposals[y.stir.trades[agreement].payload.tx].committedSequence.None?
    ensures var (z, reply) := Handle(y, CommitTrade(agreement));
            && (reply == Rejected(CreditFloorBreached) <==> y.mode.Normal? && OnlyFloorsForbid(y, agreement))
            && (reply.Rejected? ==> z == y)
  {
    OpenTrade(y, agreement);
    RefusedCommitChangesNothing(y, agreement, CreditFloorBreached);
    assert ProposalOk(y.ledger, y.stir.trades[agreement].payload.tx);
    TurnedDownExactly(y, agreement);
  }

  lemma TurnedDownExactly(y: System, agreement: Id)
    requires OpenTransfer(y, agreement) && ProposalOk(y.ledger, y.stir.trades[agreement].payload.tx)
    ensures CommitStep(y.ledger, y.stir.trades[agreement].payload.tx).1 == Refused(CreditFloorBreached)
            <==> OnlyFloorsForbid(y, agreement)
  {
    var a, p := AgreementOf(y.stir, agreement), y.stir.trades[agreement].payload;
    TransferTurnedDown(y.ledger, p, y.stir.bindings[a.payer], y.stir.bindings[a.payee], a.amount);
  }

  // ---- responses in flight ----

  lemma ReceiptsStay(y: System, e: Event, agreement: Id)
    requires agreement in y.stir.trades && y.stir.trades[agreement].receipt.Some?
    ensures agreement in Handle(y, e).0.stir.trades && Handle(y, e).0.stir.trades[agreement].receipt.Some?
  {}

  lemma StoredOnce(l: State, p: Payload, r: Receipt, q: Receipt)
    requires Stored(l, p, r) && Stored(l, p, q)
    ensures r == q
  {}

  lemma TradeStores(y: System, agreement: Id)
    requires agreement in y.stir.trades && TradeOk(y, agreement) && y.stir.trades[agreement].receipt.Some?
    ensures Stored(y.ledger, y.stir.trades[agreement].payload, y.stir.trades[agreement].receipt.value)
  {}

  lemma LaterStores(l: State, m: State, p: Payload, r: Receipt)
    requires Later(l, m) && Stored(l, p, r)
    ensures Stored(m, p, r)
  {
    assert ProposalGrew(l.proposals[p.tx], m.proposals[p.tx]);
  }

  /** A receipt STIR shows is shown for good: no response that was still on its way, no retry and no synchronisation
      puts another in its place. */
  lemma {:induction false} ReceiptNeverChanges(y: System, agreement: Id, events: seq<Event>)
    requires SystemOk(y) && agreement in y.stir.trades && y.stir.trades[agreement].receipt.Some?
    ensures agreement in Play(y, events).stir.trades
    ensures Play(y, events).stir.trades[agreement] == y.stir.trades[agreement]
    decreases |events|
  {
    if events != [] {
      var z := Handle(y, events[0]).0;
      TradesPersist(y, events[0], agreement);
      ReceiptsStay(y, events[0], agreement);
      HandleKeepsOk(y, events[0]);
      TradeStores(y, agreement);
      TradeStores(z, agreement);
      var p := y.stir.trades[agreement].payload;
      LaterStores(y.ledger, z.ledger, p, y.stir.trades[agreement].receipt.value);
      StoredOnce(z.ledger, p, y.stir.trades[agreement].receipt.value, z.stir.trades[agreement].receipt.value);
      ReceiptNeverChanges(z, agreement, events[1..]);
    }
  }

  /** The answer STIR gives is an error, a refusal or the one receipt osTRIS stored. */
  ghost predicate Truthful(l: State, reply: Reply) {
    reply == Unavailable || reply.Rejected?
    || (reply.View? && reply.trade.receipt.Some? && Stored(l, reply.trade.payload, reply.trade.receipt.value))
  }

  lemma ResponseIsTrue(y: System, request: nat)
    requires request in y.pending && !y.pending[request].Sent? && PendingOk(y, request)
    ensures Truthful(y.ledger, Handle(y, Receive(request)).1)
  {}

  /** Whenever a response arrives, however late, what STIR makes of it is true. */
  lemma {:induction false} ResponsesAreTrue(ops: seq<Operation>, community: Id, unit: Id, events: seq<Event>, request: nat)
    requires var y := Play(Fresh(Run(EMPTY, ops), community, unit), events); request in y.pending && !y.pending[request].Sent?
    ensures var y := Play(Fresh(Run(EMPTY, ops), community, unit), events); Truthful(y.ledger, Handle(y, Receive(request)).1)
  {
    ReachableOk(ops, community, unit, events);
    ResponseIsTrue(Play(Fresh(Run(EMPTY, ops), community, unit), events), request);
  }

  /** `CommitTrade` is the three events with nothing between them. */
  lemma CommitIsThreeEvents(y: System, agreement: Id, request: nat)
    requires agreement in y.stir.trades && y.stir.trades[agreement].receipt.None? && request !in y.pending
    ensures var sent := Handle(y, SendCommit(request, agreement)).0; var answered := Handle(sent, Upstream(request)).0;
      Handle(answered, Receive(request)) == Handle(y, CommitTrade(agreement))
  {
    var z := Handle(y, CommitTrade(agreement)).0;
    var answered := Handle(Handle(y, SendCommit(request, agreement)).0, Upstream(request)).0;
    assert answered.pending - {request} == y.pending;
  }

  // ---- attempts ----

  /** Commit attempts, each under the mode armed for it by name. */
  function Attempts(agreement: Id, names: seq<string>): seq<Event> {
    if names == [] then [] else [Arm(names[0]), CommitTrade(agreement)] + Attempts(agreement, names[1..])
  }

  predicate GetsThrough(name: string) { name == "normal" || name == "drop_after_once" }

  predicate SomeGetsThrough(names: seq<string>) { exists i :: 0 <= i < |names| && GetsThrough(names[i]) }

  lemma FirstOrRest(names: seq<string>)
    requires names != []
    ensures SomeGetsThrough(names) <==> GetsThrough(names[0]) || SomeGetsThrough(names[1..])
  {
    var rest := names[1..];
    if SomeGetsThrough(rest) {
      var i :| 0 <= i < |rest| && GetsThrough(rest[i]);
      assert names[i + 1] == rest[i];
    }
    if SomeGetsThrough(names) && !GetsThrough(names[0]) {
      var i :| 0 <= i < |names| && GetsThrough(names[i]);
      assert rest[i - 1] == names[i];
    }
  }

  lemma {:induction false} PlayAttempt(y: System, agreement: Id, names: seq<string>)
    requires names != []
    ensures Play(y, Attempts(agreement, names))
            == Play(Handle(ArmEvent(y, names[0]).0, CommitTrade(agreement)).0, Attempts(agreement, names[1..]))
  {
    var events := Attempts(agreement, names);
    assert events[1..][0] == CommitTrade(agreement);
    assert events[1..][1..] == Attempts(agreement, names[1..]);
    assert Play(y, events) == Play(ArmEvent(y, names[0]).0, events[1..]);
  }

  lemma AttemptShape(y: System, agreement: Id)
    requires agreement in y.stir.trades
    requires y.stir.trades[agreement].receipt.Some? ==> CommitStep(y.ledger, y.stir.trades[agreement].payload.tx).0 == y.ledger
    ensures var tx := y.stir.trades[agreement].payload.tx; var z := Handle(y, CommitTrade(agreement)).0;
            && z.ledger == (if FaultRegister.BeforeUpstream(y.mode) then y.ledger else CommitStep(y.ledger, tx).0)
            && agreement in z.stir.trades && z.stir.trades[agreement].payload == y.stir.trades[agreement].payload
  {}

  lemma KnownReceiptAnswers(y: System, agreement: Id)
    requires Inv(y.ledger) && agreement in y.stir.trades && TradeOk(y, agreement)
    ensures y.stir.trades[agreement].receipt.Some? ==> CommitStep(y.ledger, y.stir.trades[agreement].payload.tx).0 == y.ledger
  {
    var trade := y.stir.trades[agreement];
    if trade.receipt.Some? {
      StoredReceiptAnswers(y.ledger, trade.payload.tx, trade.receipt.value.sequence);
    }
  }

  lemma AttemptLedger(y: System, agreement: Id)
    requires SystemOk(y) && agreement in y.stir.trades
    ensures var tx := y.stir.trades[agreement].payload.tx; var z := Handle(y, CommitTrade(agreement)).0;
            && z.ledger == (if FaultRegister.BeforeUpstream(y.mode) then y.ledger else CommitStep(y.ledger, tx).0)
            && agreement in z.stir.trades && z.stir.trades[agreement].payload == y.stir.trades[agreement].payload
  {
    KnownReceiptAnswers(y, agreement);
    AttemptShape(y, agreement);
  }

  lemma CommitTwice(s: State, tx: Id)
    requires Inv(s)
    ensures CommitStep(CommitStep(s, tx).0, tx).0 == CommitStep(s, tx).0
  {
    var (t, o) := CommitStep(s, tx);
    if o.Committed? {
      CommitOnce(s, tx, o.receipt, []);
    }
  }

  lemma ArmedMode(y: System, name: string)
    requires FaultRegister.Known(name)
    ensures ArmEvent(y, name).0 == y.(mode := FaultRegister.Named(name))
    ensures !FaultRegister.BeforeUpstream(FaultRegister.Named(name)) <==> GetsThrough(name)
  {}

  lemma AttemptOnce(y: System, agreement: Id, name: string)
    requires SystemOk(y) && agreement in y.stir.trades && FaultRegister.Known(name)
    ensures var tx := y.stir.trades[agreement].payload.tx; var z := Handle(ArmEvent(y, name).0, CommitTrade(agreement)).0;
            && SystemOk(z) && z.ledger == (if GetsThrough(name) then CommitStep(y.ledger, tx).0 else y.ledger)
            && agreement in z.stir.trades && z.stir.trades[agreement].payload.tx == tx
  {
    var armed := ArmEvent(y, name).0;
    ArmedMode(y, name);
    ArmKeepsOk(y, armed.mode);
    AttemptLedger(armed, agreement);
    HandleKeepsOk(armed, CommitTrade(agreement));
  }

  predicate AllKnown(names: seq<string>) { forall i :: 0 <= i < |names| ==> FaultRegister.Known(names[i]) }

  lemma KnownRest(names: seq<string>)
    requires names != [] && AllKnown(names)
    ensures FaultRegister.Known(names[0]) && AllKnown(names[1..])
  {}

  /** Any number of attempts under any schedule of faults moves the ledger exactly as one fault-free commit
      does, or not at all when none got through. */
  lemma {:induction false} AttemptsCommitOnce(y: System, agreement: Id, names: seq<string>)
    requires SystemOk(y) && agreement in y.stir.trades && AllKnown(names)
    ensures var z := Play(y, Attempts(agreement, names));
            z.ledger == if SomeGetsThrough(names) then CommitStep(y.ledger, y.stir.trades[agreement].payload.tx).0 else y.ledger
    decreases |names|
  {
    if names != [] {
      PlayAttempt(y, agreement, names);
      KnownRest(names);
      AttemptOnce(y, agreement, names[0]);
      AttemptsCommitOnce(Handle(ArmEvent(y, names[0]).0, CommitTrade(agreement)).0, agreement, names[1..]);
      CommitTwice(y.ledger, y.stir.trades[agreement].payload.tx);
      FirstOrRest(names);
    }
  }

  // ---- conservation across the whole system ----

  ghost predicate BalancedProposals(s: State, u: Id) {
    forall tx :: tx in s.proposals && s.proposals[tx].payload.unit == u ==> Net(s.proposals[tx].payload.entries) == 0
  }

  /** Nobody else proposes to create value in the marketplace's unit. */
  ghost predicate OthersBalance(events: seq<Event>, u: Id) {
    forall e :: e in events && e.Elsewhere? && e.op.Propose? && e.op.payload.unit == u ==> Net(e.op.payload.entries) == 0
  }

  lemma StepKeepsBalanced(s: State, op: Operation, u: Id)
    requires BalancedProposals(s, u) && (op.Propose? && op.payload.unit == u ==> Net(op.payload.entries) == 0)
    ensures BalancedProposals(Step(s, op).0, u)
  {}

  lemma HandleKeepsBalanced(y: System, e: Event, u: Id)
    requires BalancedProposals(y.ledger, u) && OthersBalance([e], u)
    ensures BalancedProposals(Handle(y, e).0.ledger, u)
  {
    EventCalls(y, e);
    if Calls(y, e) != [] {
      if e.ActivateTrade? {
        var a := AgreementOf(y.stir, e.agreement);
        TransfersBalance(y.stir.bindings[a.payer], y.stir.bindings[a.payee], a.amount);
      }
      assert e in [e];
      StepKeepsBalanced(y.ledger, Calls(y, e)[0], u);
    }
  }

  lemma {:induction false} PlayKeepsBalanced(y: System, events: seq<Event>, u: Id)
    requires BalancedProposals(y.ledger, u) && OthersBalance(events, u)
    ensures BalancedProposals(Play(y, events).ledger, u)
    decreases |events|
  {
    if events != [] {
      HandleKeepsBalanced(y, events[0], u);
      PlayKeepsBalanced(Handle(y, events[0]).0, events[1..], u);
    }
  }

  /** Through every fault and retry, the balances of the marketplace's unit add up to zero. */
  lemma {:induction false} MarketplaceSumsToZero(y: System, events: seq<Event>)
    requires SystemOk(y) && BalancedProposals(y.ledger, y.stir.unit) && OthersBalance(events, y.stir.unit)
    ensures var s := Play(y, events).ledger; UnitTotal(s, y.stir.unit, s.nextId) == 0
  {
    var u := y.stir.unit;
    var s := Play(y, events).ledger;
    PlayKeepsOk(y, events);
    PlayKeepsBalanced(y, events, u);
    UnitConserved(s, u);
    forall i | 0 <= i < |s.journal| && s.journal[i].payload.unit == u ensures Net(s.journal[i].payload.entries) == 0 {
      assert RowOk(s, i);
    }
    BalancedRowsCancel(s.journal, u);
  }
}
