// STIR trades settled on osTRIS through a network that refuses, times out or loses responses.
//
// One `Event` is one request reaching STIR, the fault proxy or osTRIS. The proxy only interferes with
// commits, and osTRIS does all of a commit or none of it. A commit goes out, is handled upstream and comes back as
// three events, with anything in between; `CommitTrade` is one that nothing interrupts.
module TradeProtocol {
  import opened Wrappers
  import opened Ledger
  import opened LedgerProofs
  import opened LedgerTheorems
  import opened Negotiation
  import FaultRegister

  datatype Trade = Trade(payload: Payload, receipt: Option<Receipt>)

  /** STIR's own rows: the marketplace it settles in, who has which account, what is negotiated, what is traded. An
      agreement is an accepted negotiation, and goes by its identifier. */
  datatype Stir = Stir(community: Id, unit: Id, bindings: map<User, Id>, talks: map<Id, Talk>, trades: map<Id, Trade>)

  /** A commit on its way: out to osTRIS, lost before or after it, or on its way back with what osTRIS answered. */
  datatype InFlight =
    | Sent(agreement: Id)
    | Lost(agreement: Id)
    | Back(agreement: Id, outcome: Outcome)

  datatype System = System(ledger: State, stir: Stir, mode: FaultRegister.Mode, pending: map<nat, InFlight>)

  predicate Agreed(s: Stir, agreement: Id) {
    agreement in s.talks && s.talks[agreement].acceptedBy.Some? && s.talks[agreement].offers != []
  }

  function AgreementOf(s: Stir, agreement: Id): Agreement
    requires Agreed(s, agreement)
  {
    Terms(s.talks[agreement])
  }

  datatype Event =
    | Arm(name: string)
    | ActivateEconomic(user: User, name: string, key: string)
    | OpenTalk(agreement: Id, owner: User, direction: Direction, initiator: User, amount: int)
    | Negotiate(agreement: Id, action: Action)
    | ActivateTrade(agreement: Id, tx: Id)
    | Authorize(agreement: Id, user: User, credential: Id, signature: Signature)
    | CommitTrade(agreement: Id)
    | SendCommit(request: nat, agreement: Id)
    | Upstream(request: nat)
    | Receive(request: nat)
    | SyncTrade(agreement: Id)
    | Elsewhere(op: Operation)

  datatype Reply =
    | Done
    | BadRequest
    | View(trade: Trade)
    | NotFound
    | Conflict
    | Rejected(error: Error)
    | Unavailable

  function Transfer(s: Stir, tx: Id, a: Agreement): Payload
    requires a.payer in s.bindings && a.payee in s.bindings
  {
    Payload(tx, s.community, s.unit, [Entry(s.bindings[a.payer], -a.amount), Entry(s.bindings[a.payee], a.amount)])
  }

  function Put(y: System, agreement: Id, trade: Trade): System {
    y.(stir := y.stir.(trades := y.stir.trades[agreement := trade]))
  }

  function OpenTalkEvent(y: System, agreement: Id, owner: User, direction: Direction, initiator: User, amount: int)
    : (System, Reply)
  {
    if agreement in y.stir.talks || owner == initiator then (y, Conflict)
    else (y.(stir := y.stir.(talks := y.stir.talks[agreement := Open(owner, direction, initiator, amount)])), Done)
  }

  function NegotiateEvent(y: System, agreement: Id, action: Action): (System, Reply) {
    if agreement !in y.stir.talks then (y, NotFound)
    else
      var (talk, ok) := Act(y.stir.talks[agreement], action);
      if ok then (y.(stir := y.stir.(talks := y.stir.talks[agreement := talk])), Done) else (y, Conflict)
  }

  function ActivateEconomicEvent(y: System, user: User, name: string, key: string): (System, Reply) {
    if user in y.stir.bindings then (y, Conflict)
    else
      var (l, o) := ActivateStep(y.ledger, y.stir.community, name, y.stir.unit, key, None);
      if o.Activated? then
        (y.(ledger := l, stir := y.stir.(bindings := y.stir.bindings[user := o.account])), Done)
      else if o.Refused? then (y, Rejected(o.error)) else (y, Conflict)
  }

  /** Activating twice answers with the trade there is. */
  function ActivateTradeEvent(y: System, agreement: Id, tx: Id): (System, Reply) {
    if !Agreed(y.stir, agreement) then (y, NotFound)
    else if agreement in y.stir.trades then (y, View(y.stir.trades[agreement]))
    else
      var a := AgreementOf(y.stir, agreement);
      if a.payer !in y.stir.bindings || a.payee !in y.stir.bindings then (y, Conflict)
      else
        var p := Transfer(y.stir, tx, a);
        var (l, o) := ProposeStep(y.ledger, p);
        if o.Refused? then (y, Rejected(o.error))
        else (Put(y.(ledger := l), agreement, Trade(p, None)), View(Trade(p, None)))
  }

  function AuthorizeEvent(y: System, agreement: Id, user: User, credential: Id, signature: Signature): (System, Reply) {
    if !Agreed(y.stir, agreement) || agreement !in y.stir.trades then (y, NotFound)
    else if user != AgreementOf(y.stir, agreement).payer && user != AgreementOf(y.stir, agreement).payee then (y, NotFound)
    else if user !in y.stir.bindings then (y, Conflict)
    else
      var (l, o) := AddEvidenceStep(y.ledger, y.stir.trades[agreement].payload.tx,
                                    Evidence(y.stir.bindings[user], credential, signature));
      if o.Refused? then (y, Rejected(o.error)) else (y.(ledger := l), View(y.stir.trades[agreement]))
  }

  /** A commit takes the armed fault with it. Before osTRIS (refused, timed out) nothing happens there; after it
      (response dropped) the commit stands and STIR never hears of it. */
  function CommitTradeEvent(y: System, agreement: Id): (System, Reply) {
    if agreement !in y.stir.trades then (y, NotFound)
    else
      var trade := y.stir.trades[agreement];
      if trade.receipt.Some? then (y, View(trade))
      else
        var (fault, left) := FaultRegister.Take(y.mode);
        var z := y.(mode := left);
        if FaultRegister.BeforeUpstream(fault) then (z, Unavailable)
        else
          var (l, o) := CommitStep(z.ledger, trade.payload.tx);
          var w := z.(ledger := l);
          if fault.DropAfterOnce? then (w, Unavailable)
          else if o.Refused? then (w, Rejected(o.error))
          else if o.Committed? then
            var shown := trade.(receipt := Some(o.receipt));
            (Put(w, agreement, shown), View(shown))
          else (w, Conflict)
  }

  function Pend(y: System, request: nat, f: InFlight): System { y.(pending := y.pending[request := f]) }

  /** STIR's half of a commit going out. */
  function SendCommitEvent(y: System, request: nat, agreement: Id): (System, Reply) {
    if agreement !in y.stir.trades then (y, NotFound)
    else if y.stir.trades[agreement].receipt.Some? then (y, View(y.stir.trades[agreement]))
    else if request in y.pending then (y, Conflict)
    else (Pend(y, request, Sent(agreement)), Done)
  }

  /** The proxy and osTRIS: whatever fault is armed when the request gets there is the one that meets it. */
  function UpstreamEvent(y: System, request: nat): (System, Reply) {
    if request !in y.pending || !y.pending[request].Sent? || y.pending[request].agreement !in y.stir.trades then (y, NotFound)
    else
      var agreement := y.pending[request].agreement;
      var (fault, left) := FaultRegister.Take(y.mode);
      var z := y.(mode := left);
      if FaultRegister.BeforeUpstream(fault) then (Pend(z, request, Lost(agreement)), Done)
      else
        var (l, o) := CommitStep(z.ledger, y.stir.trades[agreement].payload.tx);
        (Pend(z.(ledger := l), request, if fault.DropAfterOnce? then Lost(agreement) else Back(agreement, o)), Done)
  }

  /** STIR's half of a commit coming back; it may find that a synchronisation was quicker. */
  function ReceiveEvent(y: System, request: nat): (System, Reply) {
    if request !in y.pending || y.pending[request].Sent? || y.pending[request].agreement !in y.stir.trades then (y, NotFound)
    else
      var f := y.pending[request];
      var z := y.(pending := y.pending - {request});
      if f.Lost? then (z, Unavailable)
      else if f.outcome.Refused? then (z, Rejected(f.outcome.error))
      else if f.outcome.Committed? then
        var shown := z.stir.trades[f.agreement].(receipt := Some(f.outcome.receipt));
        (Put(z, f.agreement, shown), View(shown))
      else (z, Conflict)
  }

  /** Re-reads what osTRIS says about the transaction. */
  function SyncTradeEvent(y: System, agreement: Id): (System, Reply) {
    if agreement !in y.stir.trades then (y, NotFound)
    else
      var trade := y.stir.trades[agreement];
      var seen := Transaction(y.ledger, trade.payload.tx);
      if seen.Some? && seen.value.committedSequence.Some? && seen.value.digest.Some? then
        var shown := trade.(receipt := Some(Receipt(seen.value.committedSequence.value, seen.value.digest.value)));
        (Put(y, agreement, shown), View(shown))
      else (y, View(trade))
  }

  /** The control request of the proxy: an unknown name is answered 400 and arms nothing. */
  function ArmEvent(y: System, name: string): (System, Reply) {
    (y.(mode := FaultRegister.Serve(y.mode, FaultRegister.SetMode(name)).1),
     if FaultRegister.Known(name) then Done else BadRequest)
  }

  function Handle(y: System, e: Event): (System, Reply) {
    match e
    case Arm(name) => ArmEvent(y, name)
    case ActivateEconomic(user, name, key) => ActivateEconomicEvent(y, user, name, key)
    case OpenTalk(agreement, owner, direction, initiator, amount) =>
      OpenTalkEvent(y, agreement, owner, direction, initiator, amount)
    case Negotiate(agreement, action) => NegotiateEvent(y, agreement, action)
    case ActivateTrade(agreement, tx) => ActivateTradeEvent(y, agreement, tx)
    case Authorize(agreement, user, credential, signature) => AuthorizeEvent(y, agreement, user, credential, signature)
    case CommitTrade(agreement) => CommitTradeEvent(y, agreement)
    case SendCommit(request, agreement) => SendCommitEvent(y, request, agreement)
    case Upstream(request) => UpstreamEvent(y, request)
    case Receive(request) => ReceiveEvent(y, request)
    case SyncTrade(agreement) => SyncTradeEvent(y, agreement)
    case Elsewhere(op) => (y.(ledger := Step(y.ledger, op).0), Done)
  }

  function Play(y: System, events: seq<Event>): System
    decreases |events|
  {
    if events == [] then y else Play(Handle(y, events[0]).0, events[1..])
  }

  /** STIR set up over a ledger, before anyone is bound and anything is agreed. */
  function Fresh(ledger: State, community: Id, unit: Id): System {
    System(ledger, Stir(community, unit, map[], map[], map[]), FaultRegister.Mode.Normal, map[])
  }

  // ---- the invariant ----

  ghost predicate BindingOk(y: System, user: User)
    requires user in y.stir.bindings
  {
    var a := y.stir.bindings[user];
    a in y.ledger.accounts && y.ledger.accounts[a].unit == y.stir.unit && y.ledger.accounts[a].community == y.stir.community
  }

  ghost predicate TradeOk(y: System, agreement: Id)
    requires agreement in y.stir.trades
  {
    var t := y.stir.trades[agreement];
    && Agreed(y.stir, agreement)
    && AgreementOf(y.stir, agreement).payer in y.stir.bindings && AgreementOf(y.stir, agreement).payee in y.stir.bindings
    && t.payload == Transfer(y.stir, t.payload.tx, AgreementOf(y.stir, agreement))
    && t.payload.tx in y.ledger.proposals && y.ledger.proposals[t.payload.tx].payload == t.payload
    && (t.receipt.Some? ==>
          && y.ledger.proposals[t.payload.tx].committedSequence == Some(t.receipt.value.sequence)
          && t.receipt.value.digest == Digest(t.payload, t.receipt.value.sequence))
  }

  /** osTRIS stored this receipt for the trade. */
  predicate Stored(l: State, p: Payload, r: Receipt) {
    p.tx in l.proposals && l.proposals[p.tx].committedSequence == Some(r.sequence) && r.digest == Digest(p, r.sequence)
  }

  ghost predicate PendingOk(y: System, request: nat)
    requires request in y.pending
  {
    var f := y.pending[request];
    f.agreement in y.stir.trades && (f.Back? ==> f.outcome.Committed? || f.outcome.Refused?)
    && (f.Back? && f.outcome.Committed? ==> Stored(y.ledger, y.stir.trades[f.agreement].payload, f.outcome.receipt))
  }

  ghost predicate AccountsDistinct(bindings: map<User, Id>) {
    forall u, v :: u in bindings && v in bindings && u != v ==> bindings[u] != bindings[v]
  }

  ghost predicate TalksSound(talks: map<Id, Talk>) { forall a :: a in talks ==> Sound(talks[a]) }

  ghost predicate TransactionsDistinct(trades: map<Id, Trade>) {
    forall a, b :: a in trades && b in trades && a != b ==> trades[a].payload.tx != trades[b].payload.tx
  }

  ghost predicate StirOk(y: System) {
    && AccountsDistinct(y.stir.bindings) && TalksSound(y.stir.talks) && TransactionsDistinct(y.stir.trades)
    && (forall u :: u in y.stir.bindings ==> BindingOk(y, u))
    && (forall a :: a in y.stir.trades ==> TradeOk(y, a))
    && (forall r :: r in y.pending ==> PendingOk(y, r))
  }

  ghost predicate SystemOk(y: System) { Inv(y.ledger) && StirOk(y) }
}
