// `run_exchange`: activate a trade, have both parties sign, commit it under a fault plan.
module TradeDriver {
  import opened Wrappers
  import opened Ledger
  import opened LedgerProofs
  import opened LedgerTheorems
  import opened Negotiation
  import opened TradeProtocol
  import opened TradeProofs
  import opened TradeEffects
  import FaultRegister

  datatype FaultPlan = NoFault | PreCommit | AfterCommit
  datatype Signer = Signer(user: User, credential: Id, key: string)

  /** The stack under test; every request goes through it. */
  class Stack {
    var system: System

    constructor (start: System)
      ensures system == start
    {
      system := start;
    }

    method Request(e: Event) returns (reply: Reply)
      modifies this
      ensures (system, reply) == Handle(old(system), e)
    {
      var result := Handle(system, e);
      system := result.0;
      reply := result.1;
    }
  }

  /** A signer owns a bound account and a device of that account's controller, in its window right now. */
  ghost predicate CanSign(y: System, s: Signer) {
    && s.user in y.stir.bindings && y.stir.community in y.ledger.communities
    && y.stir.bindings[s.user] in y.ledger.accounts
    && s.credential in y.ledger.credentials
    && var c := y.ledger.credentials[s.credential];
       && c.community == y.stir.community && c.key == s.key
       && c.controller == y.ledger.accounts[y.stir.bindings[s.user]].controller
       && InWindow(c, y.ledger.communities[y.stir.community])
  }

  /** Both parties of an agreement not yet traded can sign. */
  ghost predicate CanAttempt(y: System, agreement: Id, tx: Id, signers: seq<Signer>) {
    && y.mode.Normal?
    && Agreed(y.stir, agreement) && agreement !in y.stir.trades && tx !in y.ledger.proposals
    && y.stir.unit in y.ledger.units && y.ledger.units[y.stir.unit].community == y.stir.community
    && |signers| == 2 && CanSign(y, signers[0]) && CanSign(y, signers[1])
    && var a := AgreementOf(y.stir, agreement);
       {signers[0].user, signers[1].user} == {a.payer, a.payee} && a.payer in y.stir.bindings && a.payee in y.stir.bindings
  }

  ghost predicate FloorsAllowDeal(y: System, a: Agreement)
    requires a.payer in y.stir.bindings && a.payee in y.stir.bindings
  {
    FloorsAllow(y.ledger, y.stir.bindings[a.payer], y.stir.bindings[a.payee], a.amount)
  }

  /** And the floors allow the transfer. */
  ghost predicate CanSettle(y: System, agreement: Id, tx: Id, signers: seq<Signer>) {
    CanAttempt(y, agreement, tx, signers) && FloorsAllowDeal(y, AgreementOf(y.stir, agreement))
  }

  function EvidenceOf(s: Stir, p: Payload, signer: Signer): Evidence
    requires signer.user in s.bindings
  {
    Evidence(s.bindings[signer.user], signer.credential, Signature(signer.key, p))
  }

  /** The ledger with the proposal `p` carrying `evidence`. */
  function With(l: State, p: Payload, evidence: seq<Evidence>): State {
    l.(proposals := l.proposals[p.tx := Proposal(p, evidence, None)])
  }

  /** The trade activated and waiting, with this much evidence behind it. */
  function Waiting(y: System, agreement: Id, p: Payload, evidence: seq<Evidence>): System {
    Put(y.(ledger := With(y.ledger, p, evidence)), agreement, Trade(p, None))
  }

  /** The trade committed at sequence `q` by the ledger step from `l`. */
  function Settled(y: System, agreement: Id, p: Payload, l: State, q: int): System {
    Put(y.(ledger := CommitStep(l, p.tx).0), agreement, Trade(p, Some(Receipt(q, Digest(p, q)))))
  }

  ghost predicate JournalsOnce(l: State, m: State, p: Payload, q: int) {
    && |m.journal| == |l.journal| + 1 && m.journal[..|l.journal|] == l.journal
    && m.journal[|l.journal|].payload == p && m.journal[|l.journal|].sequence == q
  }

  /** The answers to the faulted commits of a plan: 503 each time. */
  function Injected(plan: FaultPlan): seq<Reply> {
    match plan
    case NoFault => []
    case PreCommit => [Unavailable, Unavailable]
    case AfterCommit => [Unavailable]
  }

  // ---- what each request does ----

  lemma ActivationWaits(y: System, agreement: Id, tx: Id, p: Payload)
    requires Agreed(y.stir, agreement) && agreement !in y.stir.trades && tx !in y.ledger.proposals
    requires AgreementOf(y.stir, agreement).payer in y.stir.bindings && AgreementOf(y.stir, agreement).payee in y.stir.bindings
    requires p == Transfer(y.stir, tx, AgreementOf(y.stir, agreement)) && ProposalValid(y.ledger, p)
    ensures Handle(y, ActivateTrade(agreement, tx)).0 == Waiting(y, agreement, p, [])
  {}

  lemma UnsignedIsRefused(y: System, agreement: Id, p: Payload)
    requires y.mode.Normal? && p.entries != [] && p.community in y.ledger.communities
    requires forall e :: e in p.entries ==> e.account in y.ledger.accounts
    ensures Handle(Waiting(y, agreement, p, []), CommitTrade(agreement))
            == (Waiting(y, agreement, p, []), Rejected(AuthorizationIncomplete))
  {
    assert p.entries[0] in p.entries;
  }

  lemma SigningAddsEvidence(y: System, agreement: Id, p: Payload, evidence: seq<Evidence>, s: Signer)
    requires Agreed(y.stir, agreement) && s.user in y.stir.bindings
    requires s.user in {AgreementOf(y.stir, agreement).payer, AgreementOf(y.stir, agreement).payee}
    ensures Handle(Waiting(y, agreement, p, evidence), Authorize(agreement, s.user, s.credential, Signature(s.key, p))).0
            == Waiting(y, agreement, p, evidence + [EvidenceOf(y.stir, p, s)])
  {
    var z := Waiting(y, agreement, p, evidence);
    var e := EvidenceOf(y.stir, p, s);
    assert AddEvidenceStep(z.ledger, p.tx, e).0 == With(y.ledger, p, evidence + [e]);
  }

  lemma CommitSettles(y: System, agreement: Id, p: Payload, evidence: seq<Evidence>, q: int)
    requires y.mode.Normal? && CommitStep(With(y.ledger, p, evidence), p.tx).1 == Committed(Receipt(q, Digest(p, q)))
    ensures var w := Waiting(y, agreement, p, evidence);
            && Handle(w, CommitTrade(agreement)).0 == Settled(y, agreement, p, w.ledger, q)
            && Handle(w.(mode := FaultRegister.DropAfterOnce), CommitTrade(agreement))
                 == (w.(ledger := CommitStep(w.ledger, p.tx).0), Unavailable)
  {}

  // ---- the commit behind them ----

  lemma TransferPosts(l: State, from: Id, to: Id, amount: int)
    requires from != to && from in l.accounts && to in l.accounts
    ensures var entries := [Entry(from, -amount), Entry(to, amount)];
            AccountsKnown(l.accounts, entries)
            && (FloorsRespected(Post(l.accounts, entries), entries) <==> FloorsAllow(l, from, to, amount))
  {
    var entries := [Entry(from, -amount), Entry(to, amount)];
    TransferBreaches(l, entries, from, to, amount);
    FloorsAfterPosting(l.accounts, entries);
  }

  lemma SignerIsEligible(y: System, p: Payload, evidence: seq<Evidence>, s: Signer)
    requires CanSign(y, s) && p.community == y.stir.community
    ensures Eligible(With(y.ledger, p, evidence), p, EvidenceOf(y.stir, p, s), y.ledger.communities[p.community])
  {}

  /** Signed by both, the transfer goes through or is refused for the floors, and nothing else can stop it. */
  lemma SignedAnswers(y: System, p: Payload, a: Signer, b: Signer, from: Id, to: Id, amount: int)
    requires CanSign(y, a) && CanSign(y, b) && {y.stir.bindings[a.user], y.stir.bindings[b.user]} == {from, to}
    requires from != to && p.community == y.stir.community && p.entries == [Entry(from, -amount), Entry(to, amount)]
    ensures var q := y.ledger.communities[p.community];
            var l := With(y.ledger, p, [EvidenceOf(y.stir, p, a), EvidenceOf(y.stir, p, b)]);
            if FloorsAllow(y.ledger, from, to, amount) then
              CommitStep(l, p.tx).1 == Committed(Receipt(q, Digest(p, q))) && JournalsOnce(l, CommitStep(l, p.tx).0, p, q)
            else CommitStep(l, p.tx) == (l, Refused(CreditFloorBreached))
  {
    var evidence := [EvidenceOf(y.stir, p, a), EvidenceOf(y.stir, p, b)];
    assert Covered(p, evidence) by {
      assert evidence[0] in evidence && evidence[1] in evidence;
    }
    SignerIsEligible(y, p, evidence, a);
    SignerIsEligible(y, p, evidence, b);
    TransferPosts(y.ledger, from, to, amount);
  }

  lemma {:induction false} FindRowLast(journal: seq<JournalRow>, row: JournalRow)
    requires forall i :: 0 <= i < |journal| ==> journal[i].payload.tx != row.payload.tx
    ensures FindRow(journal + [row], row.payload.tx) == Some(row)
  {
    if journal != [] {
      assert (journal + [row])[1..] == journal[1..] + [row];
      FindRowLast(journal[1..], row);
    }
  }

  /** What the status read shows right after a commit. */
  lemma CommittedView(l: State, p: Payload, q: int)
    requires p.tx in l.proposals && l.proposals[p.tx].payload == p && l.proposals[p.tx].committedSequence.None?
    requires CommitStep(l, p.tx).1 == Committed(Receipt(q, Digest(p, q)))
    requires forall i :: 0 <= i < |l.journal| ==> l.journal[i].payload.tx != p.tx
    ensures var seen := Transaction(CommitStep(l, p.tx).0, p.tx);
            seen.Some? && seen.value.committedSequence == Some(q) && seen.value.digest == Some(Digest(p, q))
  {
    FindRowLast(l.journal, JournalRow(p, q, l.proposals[p.tx].evidence));
  }

  /** After a lost response, one synchronisation brings STIR to where the response would have. */
  lemma SyncCatchesUp(y: System, agreement: Id, p: Payload, evidence: seq<Evidence>, q: int)
    requires CommitStep(With(y.ledger, p, evidence), p.tx).1 == Committed(Receipt(q, Digest(p, q)))
    requires forall i :: 0 <= i < |y.ledger.journal| ==> y.ledger.journal[i].payload.tx != p.tx
    ensures var w := Waiting(y, agreement, p, evidence);
            Handle(w.(ledger := CommitStep(w.ledger, p.tx).0), SyncTrade(agreement)).0 == Settled(y, agreement, p, w.ledger, q)
  {
    CommittedView(With(y.ledger, p, evidence), p, q);
  }

  // ---- the script ----

  /** For every system in which both parties can sign and the floors allow it, and under every fault plan: the
      commit before the signatures is refused, the injected faults are answered 503 and leave the trade waiting,
      and the exchange ends COMMITTED with exactly one new journal row, holding the agreed transfer. */
  method RunExchange(stack: Stack, agreement: Id, tx: Id, signers: seq<Signer>, plan: FaultPlan)
    returns (trade: Trade, early: Reply, faulted: seq<Reply>)
    requires SystemOk(stack.system) && CanSettle(stack.system, agreement, tx, signers)
    modifies stack
    ensures var y := old(stack.system); var q := y.ledger.communities[y.stir.community];
            && trade == Trade(Transfer(y.stir, tx, AgreementOf(y.stir, agreement)),
                              Some(Receipt(q, Digest(Transfer(y.stir, tx, AgreementOf(y.stir, agreement)), q))))
            && JournalsOnce(y.ledger, stack.system.ledger, trade.payload, q)
            && stack.system.stir == y.stir.(trades := y.stir.trades[agreement := trade])
            && stack.system.mode.Normal? && stack.system.pending == y.pending
    ensures early == Rejected(AuthorizationIncomplete) && faulted == Injected(plan)
  {
    Distinct(stack.system, agreement);
    trade, early, faulted := Exchange(stack, agreement, tx, signers, plan);
  }

  /** The two sides of an agreement have accounts of their own in the marketplace. */
  ghost predicate Separate(y: System, a: Agreement) {
    a.payer in y.stir.bindings && a.payee in y.stir.bindings && y.stir.bindings[a.payer] != y.stir.bindings[a.payee]
    && BindingOk(y, a.payer) && BindingOk(y, a.payee)
    && forall i :: 0 <= i < |y.ledger.journal| ==> y.ledger.journal[i].payload.tx in y.ledger.proposals
  }

  method Exchange(stack: Stack, agreement: Id, tx: Id, signers: seq<Signer>, plan: FaultPlan)
    returns (trade: Trade, early: Reply, faulted: seq<Reply>)
    requires CanSettle(stack.system, agreement, tx, signers) && Separate(stack.system, AgreementOf(stack.system.stir, agreement))
    modifies stack
    ensures var y := old(stack.system); var q := y.ledger.communities[y.stir.community];
            && trade == Trade(Transfer(y.stir, tx, AgreementOf(y.stir, agreement)),
                              Some(Receipt(q, Digest(Transfer(y.stir, tx, AgreementOf(y.stir, agreement)), q))))
            && JournalsOnce(y.ledger, stack.system.ledger, trade.payload, q)
            && stack.system.stir == y.stir.(trades := y.stir.trades[agreement := trade])
            && stack.system.mode.Normal? && stack.system.pending == y.pending
    ensures early == Rejected(AuthorizationIncomplete) && faulted == Injected(plan)
  {
    ghost var y := stack.system;
    ghost var a := AgreementOf(y.stir, agreement);
    ghost var p := Transfer(y.stir, tx, a);
    ghost var from, to := y.stir.bindings[a.payer], y.stir.bindings[a.payee];
    ghost var q := y.ledger.communities[y.stir.community];
    ActivationWaits(y, agreement, tx, p);
    var reply := stack.Request(ActivateTrade(agreement, tx));
    UnsignedIsRefused(y, agreement, p);
    early := stack.Request(CommitTrade(agreement));
    Collect(stack, agreement, signers, y, p);
    SignedAnswers(y, p, signers[0], signers[1], from, to, a.amount);
    trade, faulted := Settle(stack, agreement, plan, y, p, [EvidenceOf(y.stir, p, signers[0]), EvidenceOf(y.stir, p, signers[1])], q);
  }

  /** The same exchange when the payer's or the payee's floor forbids it: the signed commit is rejected, no account and
      no row of the journal has moved, and the trade waits with both signatures. */
  method RejectedExchange(stack: Stack, agreement: Id, tx: Id, signers: seq<Signer>) returns (refusal: Reply)
    requires SystemOk(stack.system) && CanAttempt(stack.system, agreement, tx, signers)
    requires !FloorsAllowDeal(stack.system, AgreementOf(stack.system.stir, agreement))
    modifies stack
    ensures refusal == Rejected(CreditFloorBreached)
    ensures var y := old(stack.system); var p := Transfer(y.stir, tx, AgreementOf(y.stir, agreement));
            && stack.system.ledger == y.ledger.(proposals := stack.system.ledger.proposals)
            && stack.system.stir == y.stir.(trades := y.stir.trades[agreement := Trade(p, None)])
            && stack.system.mode.Normal? && stack.system.pending == y.pending
            && stack.system.ledger.proposals == y.ledger.proposals[tx :=
                 Proposal(p, [EvidenceOf(y.stir, p, signers[0]), EvidenceOf(y.stir, p, signers[1])], None)]
  {
    Distinct(stack.system, agreement);
    refusal := Attempt(stack, agreement, tx, signers);
  }

  method Attempt(stack: Stack, agreement: Id, tx: Id, signers: seq<Signer>) returns (refusal: Reply)
    requires CanAttempt(stack.system, agreement, tx, signers)
    requires Separate(stack.system, AgreementOf(stack.system.stir, agreement))
    requires !FloorsAllowDeal(stack.system, AgreementOf(stack.system.stir, agreement))
    modifies stack
    ensures refusal == Rejected(CreditFloorBreached)
    ensures var y := old(stack.system); var p := Transfer(y.stir, tx, AgreementOf(y.stir, agreement));
            stack.system == Waiting(y, agreement, p, [EvidenceOf(y.stir, p, signers[0]), EvidenceOf(y.stir, p, signers[1])])
  {
    ghost var y := stack.system;
    ghost var a := AgreementOf(y.stir, agreement);
    ghost var p := Transfer(y.stir, tx, a);
    ActivationWaits(y, agreement, tx, p);
    var reply := stack.Request(ActivateTrade(agreement, tx));
    Collect(stack, agreement, signers, y, p);
    SignedAnswers(y, p, signers[0], signers[1], y.stir.bindings[a.payer], y.stir.bindings[a.payee], a.amount);
    RefusedCommitChangesNothing(stack.system, agreement, CreditFloorBreached);
    refusal := stack.Request(CommitTrade(agreement));
  }

  lemma Distinct(y: System, agreement: Id)
    requires SystemOk(y) && Agreed(y.stir, agreement)
    requires AgreementOf(y.stir, agreement).payer in y.stir.bindings && AgreementOf(y.stir, agreement).payee in y.stir.bindings
    ensures Separate(y, AgreementOf(y.stir, agreement))
  {
    forall i | 0 <= i < |y.ledger.journal| ensures y.ledger.journal[i].payload.tx in y.ledger.proposals {
      assert RowOk(y.ledger, i);
    }
  }

  /** The signing loop: each signer signs the payload it fetches, with its own device. */
  method Collect(stack: Stack, agreement: Id, signers: seq<Signer>, ghost y: System, ghost p: Payload)
    requires Agreed(y.stir, agreement) && |signers| == 2
    requires var a := AgreementOf(y.stir, agreement);
             && {signers[0].user, signers[1].user} == {a.payer, a.payee} && a.payer in y.stir.bindings && a.payee in y.stir.bindings
    requires stack.system == Waiting(y, agreement, p, [])
    modifies stack
    ensures stack.system
            == Waiting(y, agreement, p, [EvidenceOf(y.stir, p, signers[0]), EvidenceOf(y.stir, p, signers[1])])
  {
    ghost var evidence := [EvidenceOf(y.stir, p, signers[0]), EvidenceOf(y.stir, p, signers[1])];
    var i := 0;
    while i < |signers|
      invariant 0 <= i <= |signers|
      invariant stack.system == Waiting(y, agreement, p, evidence[..i])
    {
      var signer := signers[i];
      assert signer.user in {signers[0].user, signers[1].user};
      SigningAddsEvidence(y, agreement, p, evidence[..i], signer);
      assert evidence[..i + 1] == evidence[..i] + [EvidenceOf(y.stir, p, signer)];
      var payload := stack.system.stir.trades[agreement].payload;
      var reply := stack.Request(Authorize(agreement, signer.user, signer.credential, Signature(signer.key, payload)));
      i := i + 1;
    }
    assert evidence[..i] == evidence;
  }

  /** The tail of the exchange: commit, perhaps after faults before osTRIS, perhaps with the response lost. */
  method Settle(stack: Stack, agreement: Id, plan: FaultPlan,
                ghost y: System, ghost p: Payload, ghost evidence: seq<Evidence>, ghost q: int)
    returns (trade: Trade, faulted: seq<Reply>)
    requires y.mode.Normal? && stack.system == Waiting(y, agreement, p, evidence)
    requires CommitStep(With(y.ledger, p, evidence), p.tx).1 == Committed(Receipt(q, Digest(p, q)))
    requires forall i :: 0 <= i < |y.ledger.journal| ==> y.ledger.journal[i].payload.tx != p.tx
    modifies stack
    ensures stack.system == Settled(y, agreement, p, With(y.ledger, p, evidence), q)
    ensures trade == Trade(p, Some(Receipt(q, Digest(p, q)))) && faulted == Injected(plan)
  {
    faulted := [];
    if plan.PreCommit? {
      var refused := FaultedAttempt(stack, agreement, "unavailable_once");
      var timedOut := FaultedAttempt(stack, agreement, "timeout_once");
      faulted := [refused, timedOut];
    }
    CommitSettles(y, agreement, p, evidence, q);
    if plan.AfterCommit? {
      FaultOnce(stack, "drop_after_once");
      var lost := stack.Request(CommitTrade(agreement));
      faulted := [lost];
      SyncCatchesUp(y, agreement, p, evidence, q);
      var reply := stack.Request(SyncTrade(agreement));
    } else {
      var reply := stack.Request(CommitTrade(agreement));
    }
    trade := stack.system.stir.trades[agreement];
  }

  /** `fault_once(mode)`: the control request is answered 204. */
  method FaultOnce(stack: Stack, name: string)
    requires FaultRegister.Known(name)
    modifies stack
    ensures stack.system == ArmEvent(old(stack.system), name).0
  {
    var status := stack.Request(Arm(name));
    assert status == Done;
  }

  /** A fault before osTRIS: answered 503, nothing moved, and the register is back to normal. */
  method FaultedAttempt(stack: Stack, agreement: Id, name: string) returns (reply: Reply)
    requires agreement in stack.system.stir.trades && stack.system.mode.Normal?
    requires name == "unavailable_once" || name == "timeout_once"
    requires stack.system.stir.trades[agreement].receipt.None?
    modifies stack
    ensures reply == Unavailable && stack.system == old(stack.system)
  {
    FaultByName(stack.system, agreement, name);
    FaultOnce(stack, name);
    reply := stack.Request(CommitTrade(agreement));
  }

  // ---- from the first offer to the journal ----

  /** The agreement a negotiation of one offer and perhaps a counter-offer ends in. */
  function Deal(ana: User, pedro: User, direction: Direction, amount: int): Agreement {
    if direction == Offer then Agreement(pedro, ana, amount) else Agreement(ana, pedro, amount)
  }

  function WithTalk(y: System, agreement: Id, t: Talk): System {
    y.(stir := y.stir.(talks := y.stir.talks[agreement := t]))
  }

  lemma OpeningTalks(y: System, agreement: Id, owner: User, direction: Direction, initiator: User, amount: int)
    requires agreement !in y.stir.talks && owner != initiator
    ensures Handle(y, OpenTalk(agreement, owner, direction, initiator, amount))
            == (WithTalk(y, agreement, Open(owner, direction, initiator, amount)), Done)
  {}

  lemma NegotiatingTalks(y: System, agreement: Id, t: Talk, action: Action)
    requires Act(t, action).1
    ensures Handle(WithTalk(y, agreement, t), Negotiate(agreement, action)) == (WithTalk(y, agreement, Act(t, action).0), Done)
  {
    assert WithTalk(WithTalk(y, agreement, t), agreement, Act(t, action).0) == WithTalk(y, agreement, Act(t, action).0);
  }

  /** `open_and_accept` through the stack: the party who did not speak last accepts. */
  method OpenAndAcceptOn(stack: Stack, agreement: Id, ana: User, pedro: User, direction: Direction, first: int, counter: Option<int>)
    returns (finalAmount: int, talk: Talk)
    requires ana != pedro && agreement !in stack.system.stir.talks
    modifies stack
    ensures finalAmount == match counter case None => first case Some(amount) => amount
    ensures stack.system == WithTalk(old(stack.system), agreement, talk)
    ensures Sound(talk) && talk.acceptedBy == Some(if counter.Some? then pedro else ana)
    ensures Terms(talk) == Deal(ana, pedro, direction, finalAmount)
  {
    ghost var y := stack.system;
    OpeningTalks(y, agreement, ana, direction, pedro, first);
    var reply := stack.Request(OpenTalk(agreement, ana, direction, pedro, first));
    talk := stack.system.stir.talks[agreement];
    finalAmount := first;
    var acceptor := ana;
    if counter.Some? {
      var offer := Counter(ana, counter.value, talk.version);
      NegotiatingTalks(y, agreement, talk, offer);
      reply := stack.Request(Negotiate(agreement, offer));
      talk := stack.system.stir.talks[agreement];
      finalAmount := counter.value;
      acceptor := pedro;
    }
    var acceptance := Accept(acceptor, |talk.offers| - 1, talk.version);
    NegotiatingTalks(y, agreement, talk, acceptance);
    reply := stack.Request(Negotiate(agreement, acceptance));
    talk := stack.system.stir.talks[agreement];
  }

  ghost predicate CanDeal(y: System, agreement: Id, tx: Id, signers: seq<Signer>, a: Agreement) {
    && y.mode.Normal?
    && agreement !in y.stir.talks && agreement !in y.stir.trades && tx !in y.ledger.proposals
    && y.stir.unit in y.ledger.units && y.ledger.units[y.stir.unit].community == y.stir.community
    && |signers| == 2 && CanSign(y, signers[0]) && CanSign(y, signers[1])
    && {signers[0].user, signers[1].user} == {a.payer, a.payee}
    && a.payer in y.stir.bindings && a.payee in y.stir.bindings
    && FloorsAllowDeal(y, a)
  }

  lemma DealCanSettle(y: System, agreement: Id, tx: Id, signers: seq<Signer>, talk: Talk)
    requires Sound(talk) && talk.acceptedBy.Some? && CanDeal(y, agreement, tx, signers, Terms(talk))
    ensures CanSettle(WithTalk(y, agreement, talk), agreement, tx, signers)
  {}

  lemma DealIsSeparate(y: System, a: Agreement)
    requires SystemOk(y) && a.payer != a.payee && a.payer in y.stir.bindings && a.payee in y.stir.bindings
    ensures Separate(y, a)
  {
    assert BindingOk(y, a.payer) && BindingOk(y, a.payee);
    forall i | 0 <= i < |y.ledger.journal| ensures y.ledger.journal[i].payload.tx in y.ledger.proposals {
      assert RowOk(y.ledger, i);
    }
  }

  /** From the first offer to the journal under any fault plan: the new row moves the last amount named, from Pedro to
      Ana when Ana offered and from Ana to Pedro when she wanted. */
  method WholeExchange(stack: Stack, agreement: Id, tx: Id, ana: User, pedro: User, direction: Direction, first: int,
                       counter: Option<int>, signers: seq<Signer>, plan: FaultPlan) returns (trade: Trade)
    requires SystemOk(stack.system) && ana != pedro
    requires CanDeal(stack.system, agreement, tx, signers,
                     Deal(ana, pedro, direction, match counter case None => first case Some(amount) => amount))
    modifies stack
    ensures var y := old(stack.system); var amount := match counter case None => first case Some(amount) => amount;
            var journal := stack.system.ledger.journal;
      && |journal| == |y.ledger.journal| + 1 && journal[..|y.ledger.journal|] == y.ledger.journal
      && ana in y.stir.bindings && pedro in y.stir.bindings
      && journal[|y.ledger.journal|].payload.entries
           == (if direction == Offer then [Entry(y.stir.bindings[pedro], -amount), Entry(y.stir.bindings[ana], amount)]
               else [Entry(y.stir.bindings[ana], -amount), Entry(y.stir.bindings[pedro], amount)])
      && trade.receipt == Some(Receipt(journal[|y.ledger.journal|].sequence,
                                       Digest(trade.payload, journal[|y.ledger.journal|].sequence)))
      && journal[|y.ledger.journal|].payload == trade.payload
  {
    DealIsSeparate(stack.system, Deal(ana, pedro, direction, match counter case None => first case Some(amount) => amount));
    trade := DealThrough(stack, agreement, tx, ana, pedro, direction, first, counter, signers, plan);
  }

  method DealThrough(stack: Stack, agreement: Id, tx: Id, ana: User, pedro: User, direction: Direction, first: int,
                     counter: Option<int>, signers: seq<Signer>, plan: FaultPlan) returns (trade: Trade)
    requires ana != pedro
    requires var a := Deal(ana, pedro, direction, match counter case None => first case Some(amount) => amount);
      CanDeal(stack.system, agreement, tx, signers, a) && Separate(stack.system, a)
    modifies stack
    ensures var y := old(stack.system); var amount := match counter case None => first case Some(amount) => amount;
            var journal := stack.system.ledger.journal;
      && |journal| == |y.ledger.journal| + 1 && journal[..|y.ledger.journal|] == y.ledger.journal
      && ana in y.stir.bindings && pedro in y.stir.bindings
      && journal[|y.ledger.journal|].payload.entries
           == (if direction == Offer then [Entry(y.stir.bindings[pedro], -amount), Entry(y.stir.bindings[ana], amount)]
               else [Entry(y.stir.bindings[ana], -amount), Entry(y.stir.bindings[pedro], amount)])
      && trade.receipt == Some(Receipt(journal[|y.ledger.journal|].sequence,
                                       Digest(trade.payload, journal[|y.ledger.journal|].sequence)))
      && journal[|y.ledger.journal|].payload == trade.payload
  {
    ghost var y := stack.system;
    var amount, talk := OpenAndAcceptOn(stack, agreement, ana, pedro, direction, first, counter);
    DealCanSettle(y, agreement, tx, signers, talk);
    var early, faulted;
    trade, early, faulted := Exchange(stack, agreement, tx, signers, plan);
  }
}
