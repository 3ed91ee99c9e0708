// What the requests of a trade come to: the faults by the names they are armed under, the debt a participant can run
// up, and who can sign.
module TradeEffects {
  import opened Wrappers
  import opened Ledger
  import opened LedgerProofs
  import opened LedgerTheorems
  import opened LedgerEffects
  import opened Negotiation
  import opened TradeProtocol
  import opened TradeProofs
  import FaultRegister

  // ---- faults by name ----

  /** What STIR answers to a commit nothing interferes with. */
  function Answer(y: System, agreement: Id): Reply
    requires agreement in y.stir.trades
  {
    match CommitStep(y.ledger, y.stir.trades[agreement].payload.tx).1
    case Committed(receipt) => View(Trade(y.stir.trades[agreement].payload, Some(receipt)))
    case Refused(error) => Rejected(error)
    case _ => Conflict
  }

  /**
   * Armed by name through the control request, a fault meets the next commit of an open trade: the first two are
   * answered 503 with nothing moved anywhere, the third is answered 503 and the ledger is the one the commit leaves,
   * "normal" lets the answer through. The register is normal again afterwards; any other name is refused and arms
   * nothing.
   */
  lemma FaultByName(y: System, agreement: Id, name: string)
    requires agreement in y.stir.trades && y.stir.trades[agreement].receipt.None?
    ensures var (armed, status) := Handle(y, Arm(name)); var (z, reply) := Handle(armed, CommitTrade(agreement));
            var committed := CommitStep(y.ledger, y.stir.trades[agreement].payload.tx).0;
            match name
            case "unavailable_once" => status == Done && reply == Unavailable && z == y.(mode := FaultRegister.Mode.Normal)
            case "timeout_once" => status == Done && reply == Unavailable && z == y.(mode := FaultRegister.Mode.Normal)
            case "drop_after_once" =>
              status == Done && reply == Unavailable && z == y.(mode := FaultRegister.Mode.Normal, ledger := committed)
            case "normal" =>
              status == Done && reply == Answer(y, agreement) && z.ledger == committed && z.mode.Normal?
              && (reply.View? ==> agreement in z.stir.trades && z.stir.trades[agreement] == reply.trade)
            case _ => status == BadRequest && armed == y
  {}

  // ---- how far a participant can go into debt ----

  ghost predicate FloorsAsBound(y: System) {
    forall u :: u in y.stir.bindings ==>
      y.stir.bindings[u] in y.ledger.accounts && y.ledger.accounts[y.stir.bindings[u]].floor == -100000
  }

  lemma BindingsStay(y: System, e: Event, user: User)
    requires user in Handle(y, e).0.stir.bindings
    ensures user in y.stir.bindings ==> Handle(y, e).0.stir.bindings[user] == y.stir.bindings[user]
    ensures user !in y.stir.bindings ==>
      e.ActivateEconomic? && e.user == user
      && var (l, o) := ActivateStep(y.ledger, y.stir.community, e.name, y.stir.unit, e.key, None);
         o.Activated? && Handle(y, e).0.stir.bindings[user] == o.account && Handle(y, e).0.ledger == l
  {}

  lemma HandleKeepsFloors(y: System, e: Event)
    requires SystemOk(y) && FloorsAsBound(y)
    ensures FloorsAsBound(Handle(y, e).0)
  {
    var z := Handle(y, e).0;
    HandleCalls(y, e);
    RunIsLater(y.ledger, Calls(y, e));
    forall u | u in z.stir.bindings
      ensures z.stir.bindings[u] in z.ledger.accounts && z.ledger.accounts[z.stir.bindings[u]].floor == -100000
    {
      BindingsStay(y, e, u);
      if u in y.stir.bindings {
        assert SameAccount(y.ledger.accounts[y.stir.bindings[u]], z.ledger.accounts[y.stir.bindings[u]]);
      } else {
        ActivationOpens(y.ledger, y.stir.community, e.name, y.stir.unit, e.key, None);
      }
    }
  }

  lemma {:induction false} PlayKeepsFloors(y: System, events: seq<Event>)
    requires SystemOk(y) && FloorsAsBound(y)
    ensures FloorsAsBound(Play(y, events))
    decreases |events|
  {
    if events != [] {
      HandleKeepsOk(y, events[0]);
      HandleKeepsFloors(y, events[0]);
      PlayKeepsFloors(Handle(y, events[0]).0, events[1..]);
    }
  }

  /** Nobody activated through STIR is ever below -100000, whatever is negotiated, committed and lost on the way. */
  lemma {:induction false} NobodyOwesMore(
      ops: seq<Operation>, community: Id, unit: Id, events: seq<Event>, user: User)
    requires user in Play(Fresh(Run(EMPTY, ops), community, unit), events).stir.bindings
    ensures var y := Play(Fresh(Run(EMPTY, ops), community, unit), events); var a := y.stir.bindings[user];
            a in y.ledger.accounts && y.ledger.accounts[a].floor == -100000 <= y.ledger.accounts[a].balance
  {
    var start := Fresh(Run(EMPTY, ops), community, unit);
    var y := Play(start, events);
    ReachableOk(ops, community, unit, []);
    PlayKeepsFloors(start, events);
    PlayKeepsOk(start, events);
    assert AccountOk(y.ledger, y.stir.bindings[user]);
  }

  // ---- what STIR answers ----

  ghost predicate Waiting(y: System, request: nat, sent: bool) {
    request in y.pending && (y.pending[request].Sent? <==> sent) && y.pending[request].agreement in y.stir.trades
  }

  ghost predicate PartyOf(y: System, agreement: Id, user: User) {
    Agreed(y.stir, agreement) && (user == AgreementOf(y.stir, agreement).payer || user == AgreementOf(y.stir, agreement).payee)
  }

  /** The request names a negotiation, an agreement, a trade or a commit that is not there, or a trade that is not the
      user's. */
  ghost predicate NotThere(y: System, e: Event) {
    match e
    case Negotiate(agreement, _) => agreement !in y.stir.talks
    case ActivateTrade(agreement, _) => !Agreed(y.stir, agreement)
    case Authorize(agreement, user, _, _) => !PartyOf(y, agreement, user) || agreement !in y.stir.trades
    case CommitTrade(agreement) => agreement !in y.stir.trades
    case SendCommit(_, agreement) => agreement !in y.stir.trades
    case SyncTrade(agreement) => agreement !in y.stir.trades
    case Upstream(request) => !Waiting(y, request, true)
    case Receive(request) => !Waiting(y, request, false)
    case _ => false
  }

  /** What the request names is there, but not as the request needs it. */
  ghost predicate InTheWay(y: System, e: Event) {
    match e
    case OpenTalk(agreement, owner, _, initiator, _) => agreement in y.stir.talks || owner == initiator
    case Negotiate(agreement, action) => agreement in y.stir.talks && !Act(y.stir.talks[agreement], action).1
    case ActivateEconomic(user, _, _) => user in y.stir.bindings
    case ActivateTrade(agreement, _) =>
      Agreed(y.stir, agreement) && agreement !in y.stir.trades
      && !(AgreementOf(y.stir, agreement).payer in y.stir.bindings && AgreementOf(y.stir, agreement).payee in y.stir.bindings)
    case Authorize(agreement, user, _, _) => PartyOf(y, agreement, user) && agreement in y.stir.trades && user !in y.stir.bindings
    case SendCommit(request, agreement) =>
      agreement in y.stir.trades && y.stir.trades[agreement].receipt.None? && request in y.pending
    case _ => false
  }

  lemma CommitSettlesOrRefuses(l: State, tx: Id)
    ensures CommitStep(l, tx).1.Committed? || CommitStep(l, tx).1.Refused?
  {}

  lemma ActivationSucceedsOrRefuses(l: State, community: Id, name: string, unit: Id, key: string)
    ensures var o := ActivateStep(l, community, name, unit, key, None).1; o.Activated? || o.Refused?
  {}

  ghost predicate AnswersTruly(y: System, e: Event) {
    var (z, r) := Handle(y, e);
    && (r == NotFound <==> NotThere(y, e))
    && (r == Conflict <==> InTheWay(y, e))
    && (r == NotFound || r == Conflict ==> z == y)
  }

  /** Not found means that what the request names is not there, a conflict that it is there in the wrong state, and
      neither changes anything: a stranger to a trade neither signs it nor learns of it. */
  lemma AnswersAreTrue(y: System, e: Event)
    requires forall r :: r in y.pending ==> PendingOk(y, r)
    ensures AnswersTruly(y, e)
  {
    match e
    case CommitTrade(agreement) =>
      if agreement in y.stir.trades { CommitSettlesOrRefuses(y.ledger, y.stir.trades[agreement].payload.tx); }
    case Receive(request) => if request in y.pending { assert PendingOk(y, request); }
    case ActivateEconomic(_, name, key) => ActivationSucceedsOrRefuses(y.ledger, y.stir.community, name, y.stir.unit, key);
    case _ =>
  }

  /** A commit of a trade whose receipt STIR has is answered with it and sent nowhere. */
  lemma KnownReceiptIsShown(y: System, agreement: Id, request: nat)
    requires agreement in y.stir.trades && y.stir.trades[agreement].receipt.Some?
    ensures Handle(y, SendCommit(request, agreement)) == (y, View(y.stir.trades[agreement]))
    ensures Handle(y, CommitTrade(agreement)) == (y, View(y.stir.trades[agreement]))
  {}

  /** An agreement of two bound parties that is no trade yet. */
  ghost predicate Tradable(y: System, agreement: Id) {
    Agreed(y.stir, agreement) && agreement !in y.stir.trades
    && AgreementOf(y.stir, agreement).payer in y.stir.bindings && AgreementOf(y.stir, agreement).payee in y.stir.bindings
  }

  /** STIR's requests to osTRIS other than commits are answered with what osTRIS says: done when it accepts them, its own
      error when it refuses them, and then nothing has changed. */
  lemma RefusalsArePassedOn(y: System, user: User, name: string, key: string, agreement: Id, tx: Id)
    ensures user !in y.stir.bindings ==>
      var o := ActivateStep(y.ledger, y.stir.community, name, y.stir.unit, key, None).1;
      var (z, r) := Handle(y, ActivateEconomic(user, name, key));
      if o.Refused? then r == Rejected(o.error) && z == y else r == Done && user in z.stir.bindings
    ensures Tradable(y, agreement) ==>
      var p := Transfer(y.stir, tx, AgreementOf(y.stir, agreement));
      var o := ProposeStep(y.ledger, p).1;
      var (z, r) := Handle(y, ActivateTrade(agreement, tx));
      if o.Refused? then r == Rejected(o.error) && z == y
      else r == View(Trade(p, None)) && agreement in z.stir.trades && z.stir.trades[agreement] == Trade(p, None)
  {
    ActivationSucceedsOrRefuses(y.ledger, y.stir.community, name, y.stir.unit, key);
  }
}
