// The event log of Seven Keys governance tells the whole story: an auditor who replays it from the seats' first
// credentials, checking every rule again, arrives at the authority's own state.
module SevenKeysLog {
  import opened Wrappers
  import opened SevenKeys
  import opened SevenKeysProofs
  import opened SevenKeysTheorems

  /** What the auditor has worked out so far: the credential of each seat, which seat is suspended, whether there is a
      Guardian, how many versions the constitution has had, who signed each proposal with what, and which were executed. */
  datatype Picture = Picture(seats: seq<Id>, suspended: Option<nat>, guardian: bool, versions: nat,
                             signers: map<Id, map<nat, Id>>, executed: set<Id>)

  function Opened(first: seq<Id>): Picture { Picture(first, None, true, 1, map[], {}) }

  predicate MaySign(x: Picture, p: Id, seat: nat, id: Id) {
    p in x.signers && p !in x.executed && seat < |x.seats| && x.seats[seat] == id && x.suspended != Some(seat)
    && seat !in x.signers[p]
  }

  predicate MaySuspend(x: Picture, seat: nat, id: Id) {
    x.guardian && x.suspended == None && seat < |x.seats| && x.seats[seat] == id
  }

  predicate AllButOne(signers: map<nat, Id>, seat: nat) {
    forall s :: s in {0, 1, 2, 3, 4, 5, 6} && s != seat ==> s in signers
  }

  /** The auditor's own rules for an executed proposal: seven signatures on an amendment while no seat is suspended, five
      on a removal, the other six on the rotation of the suspended seat, and never a change of controller. */
  function Execute(x: Picture, p: Id, action: Action): Option<Picture>
    requires p in x.signers
  {
    var y := x.(executed := x.executed + {p});
    match action
    case Amend(_) =>
      if {0, 1, 2, 3, 4, 5, 6} <= x.signers[p].Keys && x.suspended == None then Some(y.(versions := x.versions + 1)) else None
    case RemoveGuardian =>
      if |x.signers[p]| >= 5 && x.guardian then Some(y.(guardian := false)) else None
    case Rotate(seat, outgoing, incoming, _, _, _) =>
      if seat < |x.seats| && x.suspended == Some(seat) && x.seats[seat] == outgoing && x.guardian
         && AllButOne(x.signers[p], seat)
      then Some(y.(seats := x.seats[seat := incoming], suspended := None))
      else None
    case ReplaceController(_, _) => None
  }

  /** One event; none where the rules do not allow it. */
  function Follow(x: Picture, actions: map<Id, Action>, e: Event): Option<Picture> {
    match e
    case Bootstrapped => None
    case Proposed(p) => if p in x.signers then None else Some(x.(signers := x.signers[p := map[]]))
    case Signed(p, seat, id) =>
      if !MaySign(x, p, seat, id) then None
      else
        var signers: map<nat, Id> := x.signers[p][seat := id];
        Some(x.(signers := x.signers[p := signers]))
    case SeatSuspended(seat, id) =>
      if MaySuspend(x, seat, id) then Some(x.(suspended := Some(seat))) else None
    case Activated(p) =>
      if p in x.signers && p !in x.executed && p in actions then Execute(x, p, actions[p]) else None
  }

  /** The whole log, whose first event is the bootstrap. */
  function Replay(first: seq<Id>, actions: map<Id, Action>, events: seq<Event>): Option<Picture>
    decreases |events|
  {
    if events == [] then None
    else if |events| == 1 then (if events[0] == Bootstrapped then Some(Opened(first)) else None)
    else
      var x := Replay(first, actions, events[..|events| - 1]);
      if x.None? then None else Follow(x.value, actions, events[|events| - 1])
  }

  // ---- the picture and the state ----

  ghost predicate SameSigners(signers: map<nat, Id>, q: Proposal) {
    signers.Keys == q.signatures.Keys && forall s :: s in signers ==> signers[s] == q.signatures[s].credential
  }

  ghost predicate SameProposal(x: Picture, a: Authority, p: Id) {
    p in x.signers && p in a.proposals && SameSigners(x.signers[p], a.proposals[p])
    && (p in x.executed <==> a.proposals[p].activated)
  }

  ghost predicate SameRecord(x: Picture, a: Authority) {
    x.signers.Keys == a.proposals.Keys && x.executed <= a.proposals.Keys
    && forall p :: p in a.proposals ==> SameProposal(x, a, p)
  }

  ghost predicate SameSeating(x: Picture, a: Authority) {
    |x.seats| == |a.seats|
    && (forall s :: 0 <= s < |a.seats| ==> x.seats[s] == a.seats[s].credential)
    && (forall s: nat :: x.suspended == Some(s) <==> a.IsSuspended(s))
    && x.guardian == a.guardian.active && x.versions == |a.versions|
  }

  /** The picture shows the state. */
  ghost predicate Shows(x: Picture, a: Authority) { SameSeating(x, a) && SameRecord(x, a) }

  /** The texts of the proposals, as the auditor reads them. */
  ghost predicate Reads(actions: map<Id, Action>, a: Authority) {
    forall p :: p in a.proposals ==> p in actions && actions[p] == a.proposals[p].action
  }

  /** The step that leads from `a` to `b` is one event, and following it takes one picture to the other. */
  ghost predicate Follows(x: Picture, actions: map<Id, Action>, a: Authority, b: Authority, e: Event) {
    b.events == a.events + [e] && Follow(x, actions, e).Some? && Shows(Follow(x, actions, e).value, b)
  }

  lemma ProposalFollows(x: Picture, actions: map<Id, Action>, a: Authority, p: Id, action: Action)
    requires Shows(x, a) && ProposeStep(a, p, action).0.Ok?
    ensures Follows(x, actions, a, ProposeStep(a, p, action).1, Proposed(p))
  {
    var b := ProposeStep(a, p, action).1;
    var y := Follow(x, actions, Proposed(p)).value;
    forall s: nat ensures y.suspended == Some(s) <==> b.IsSuspended(s) { assert x.suspended == Some(s) <==> a.IsSuspended(s); }
    forall q | q in b.proposals ensures SameProposal(y, b, q) { if q != p { assert SameProposal(x, a, q); } }
  }

  lemma NotSuspended(x: Picture, a: Authority, seat: nat, id: Id)
    requires SameSeating(x, a) && a.IsActiveFor(seat, id)
    ensures x.suspended != Some(seat)
  {
    assert x.suspended == Some(seat) <==> a.IsSuspended(seat);
  }

  lemma SignatureFollows(x: Picture, actions: map<Id, Action>, a: Authority, p: Id, seat: nat, id: Id, e: Evidence)
    requires Shows(x, a) && SignStep(a, p, seat, id, e).0.Ok?
    ensures Follows(x, actions, a, SignStep(a, p, seat, id, e).1, Signed(p, seat, id))
  {
    var b := SignStep(a, p, seat, id, e).1;
    assert SameProposal(x, a, p);
    NotSuspended(x, a, seat, id);
    assert seat !in x.signers[p].Keys;
    var y := Follow(x, actions, Signed(p, seat, id)).value;
    forall s: nat ensures y.suspended == Some(s) <==> b.IsSuspended(s) { assert x.suspended == Some(s) <==> a.IsSuspended(s); }
    forall q | q in b.proposals ensures SameProposal(y, b, q) { assert SameProposal(x, a, q); }
  }

  lemma NoneSuspended(x: Picture, a: Authority)
    requires SameSeating(x, a) && !a.Frozen()
    ensures x.suspended == None
  {
    assert forall s: nat :: !a.IsSuspended(s);
    match x.suspended
    case None =>
    case Some(s) => assert false;
  }

  lemma SuspensionFollows(x: Picture, actions: map<Id, Action>, a: Authority, seat: nat, id: Id, expected: nat, e: Evidence)
    requires Shows(x, a) && RosterOk(a) && SuspendStep(a, seat, id, expected, e).0.Ok?
    ensures Follows(x, actions, a, SuspendStep(a, seat, id, expected, e).1, SeatSuspended(seat, id))
  {
    var b := SuspendStep(a, seat, id, expected, e).1;
    NoneSuspended(x, a);
    var y := Follow(x, actions, SeatSuspended(seat, id)).value;
    SuspendRoster(a, seat, id, expected, e);
    assert b.IsSuspended(seat);
    forall s: nat ensures y.suspended == Some(s) <==> b.IsSuspended(s) {}
    forall q | q in b.proposals ensures SameProposal(y, b, q) { assert SameProposal(x, a, q); }
  }

  /** Marking a proposal executed is the same on both sides. */
  lemma ExecutedRecord(x: Picture, y: Picture, a: Authority, b: Authority, p: Id)
    requires SameRecord(x, a) && p in a.proposals && y.signers == x.signers && y.executed == x.executed + {p}
    requires b.proposals == a.proposals[p := a.proposals[p].(activated := true)]
    ensures SameRecord(y, b)
  {
    forall q | q in b.proposals ensures SameProposal(y, b, q) { assert SameProposal(x, a, q); }
  }

  lemma SameCount(x: Picture, a: Authority, p: Id)
    requires SameProposal(x, a, p)
    ensures |x.signers[p]| == |a.proposals[p].signatures|
  {
    assert |x.signers[p]| == |x.signers[p].Keys|;
    assert |a.proposals[p].signatures| == |a.proposals[p].signatures.Keys|;
  }

  lemma AllSevenAreKeys(signatures: map<nat, Signing>)
    requires forall s :: 0 <= s < SEATS ==> s in signatures
    ensures {0, 1, 2, 3, 4, 5, 6} <= signatures.Keys
  {}

  lemma AllSevenSigned(x: Picture, a: Authority, p: Id)
    requires SameProposal(x, a, p) && Inv(a) && |a.proposals[p].signatures| >= CONSTITUTIONAL_THRESHOLD
    ensures {0, 1, 2, 3, 4, 5, 6} <= x.signers[p].Keys
  {
    SevenMeansAll(a, p);
    AllSevenAreKeys(a.proposals[p].signatures);
  }

  lemma AmendmentFollows(x: Picture, actions: map<Id, Action>, a: Authority, p: Id, after: Document)
    requires Shows(x, a) && Reads(actions, a) && p in a.proposals && !a.proposals[p].activated
    requires a.proposals[p].action == Amend(after) && AmendStep(a, p, after).0.Ok?
    requires SameProposal(x, a, p) && {0, 1, 2, 3, 4, 5, 6} <= x.signers[p].Keys
    ensures Follows(x, actions, a, AmendStep(a, p, after).1, Activated(p))
  {
    var b := AmendStep(a, p, after).1;
    assert SameProposal(x, a, p);
    NoneSuspended(x, a);
    var y := Follow(x, actions, Activated(p)).value;
    ExecutedRecord(x, y, a, b, p);
    forall s: nat ensures y.suspended == Some(s) <==> b.IsSuspended(s) { assert x.suspended == Some(s) <==> a.IsSuspended(s); }
  }

  lemma RemovalFollows(x: Picture, actions: map<Id, Action>, a: Authority, p: Id)
    requires Shows(x, a) && Reads(actions, a) && p in a.proposals && !a.proposals[p].activated
    requires a.proposals[p].action.RemoveGuardian? && RemoveStep(a, p).0.Ok?
    ensures Follows(x, actions, a, RemoveStep(a, p).1, Activated(p))
  {
    var b := RemoveStep(a, p).1;
    assert SameProposal(x, a, p);
    SameCount(x, a, p);
    var y := Follow(x, actions, Activated(p)).value;
    ExecutedRecord(x, y, a, b, p);
    forall s: nat ensures y.suspended == Some(s) <==> b.IsSuspended(s) { assert x.suspended == Some(s) <==> a.IsSuspended(s); }
  }

  lemma OthersAreAllButOne(x: Picture, a: Authority, p: Id, seat: nat)
    requires SameProposal(x, a, p) && OthersSigned(a.proposals[p], seat)
    ensures AllButOne(x.signers[p], seat)
  {
    forall s | s in {0, 1, 2, 3, 4, 5, 6} && s != seat ensures s in x.signers[p] { assert s in a.proposals[p].signatures.Keys; }
  }

  lemma RotationFollows(x: Picture, actions: map<Id, Action>, a: Authority, p: Id, g: Option<Evidence>, n: Option<Evidence>)
    requires Shows(x, a) && RosterOk(a) && Reads(actions, a) && p in a.proposals && !a.proposals[p].activated
    requires a.proposals[p].action.Rotate? && RotateStep(a, p, g, n).0.Ok?
    ensures Follows(x, actions, a, RotateStep(a, p, g, n).1, Activated(p))
  {
    var b, r := RotateStep(a, p, g, n).1, a.proposals[p].action;
    assert SameProposal(x, a, p);
    assert x.suspended == Some(r.seat) by { assert a.IsSuspended(r.seat); }
    OthersAreAllButOne(x, a, p, r.seat);
    var y := Follow(x, actions, Activated(p)).value;
    RotateThaws(a, p, g, n);
    ExecutedRecord(x, y, a, b, p);
    forall s: nat ensures !b.IsSuspended(s) { if s < |b.seats| { assert !b.Frozen(); } }
  }

  lemma ActivationFollows(x: Picture, actions: map<Id, Action>, a: Authority, p: Id, g: Option<Evidence>, n: Option<Evidence>)
    requires Shows(x, a) && Inv(a) && Reads(actions, a) && ActivateStep(a, p, g, n).0.Ok?
    ensures Follows(x, actions, a, ActivateStep(a, p, g, n).1, Activated(p))
  {
    match a.proposals[p].action
    case Amend(after) =>
      assert SameProposal(x, a, p);
      AllSevenSigned(x, a, p);
      AmendmentFollows(x, actions, a, p, after);
    case Rotate(_, _, _, _, _, _) => RotationFollows(x, actions, a, p, g, n);
    case RemoveGuardian => RemovalFollows(x, actions, a, p);
  }

  /** The event of an accepted command. */
  function EventOf(c: Command): Event {
    match c
    case Propose(p, _) => Proposed(p)
    case Sign(p, seat, id, _) => Signed(p, seat, id)
    case Suspend(seat, id, _, _) => SeatSuspended(seat, id)
    case Activate(p, _, _) => Activated(p)
  }

  lemma StepFollows(x: Picture, actions: map<Id, Action>, a: Authority, c: Command)
    requires Shows(x, a) && Inv(a) && Reads(actions, a) && Step(a, c).0.Ok?
    ensures Follows(x, actions, a, Step(a, c).1, EventOf(c))
  {
    match c
    case Propose(p, action) => ProposalFollows(x, actions, a, p, action);
    case Sign(p, seat, id, e) => SignatureFollows(x, actions, a, p, seat, id, e);
    case Suspend(seat, id, expected, e) => SuspensionFollows(x, actions, a, seat, id, expected, e);
    case Activate(p, g, n) => ActivationFollows(x, actions, a, p, g, n);
  }

  lemma {:induction false} OneMoreEvent(first: seq<Id>, actions: map<Id, Action>, events: seq<Event>, e: Event)
    requires events != [] && Replay(first, actions, events).Some?
    ensures Replay(first, actions, events + [e]) == Follow(Replay(first, actions, events).value, actions, e)
  {
    assert (events + [e])[..|events|] == events;
  }

  // ---- the theorem ----

  lemma ReadsEarlier(actions: map<Id, Action>, a: Authority, b: Authority)
    requires Reads(actions, b) && Later(a, b)
    ensures Reads(actions, a)
  {
    forall p | p in a.proposals ensures p in actions && actions[p] == a.proposals[p].action {
      assert LaterProposal(a.proposals[p], b.proposals[p]);
    }
  }

  /** The log of some state replays to a picture of it. */
  ghost predicate Tells(first: seq<Id>, actions: map<Id, Action>, a: Authority) {
    var x := Replay(first, actions, a.events);
    x.Some? && Shows(x.value, a)
  }

  lemma StepTells(first: seq<Id>, actions: map<Id, Action>, a: Authority, c: Command)
    requires Inv(a) && Tells(first, actions, a) && Reads(actions, a)
    ensures Tells(first, actions, Step(a, c).1)
  {
    RefusedChangesNothing(a, c);
    if Step(a, c).0.Ok? {
      StepFollows(Replay(first, actions, a.events).value, actions, a, c);
      OneMoreEvent(first, actions, a.events, EventOf(c));
    }
  }

  function FirstIds(os: seq<Opening>): seq<Id> { seq(|os|, i requires 0 <= i < |os| => os[i].credential) }

  lemma BootstrapTells(community: Id, os: seq<Opening>, g: Guardian, possession: Evidence, first: Document, actions: map<Id, Action>)
    requires Bootstrap(community, os, g, possession, first).Some?
    ensures Tells(FirstIds(os), actions, Bootstrap(community, os, g, possession, first).value)
  {
    BootstrapInv(community, os, g, possession, first);
    var a := Bootstrap(community, os, g, possession, first).value;
    var x := Opened(FirstIds(os));
    assert Replay(FirstIds(os), actions, a.events) == Some(x);
    assert forall s: nat :: !a.IsSuspended(s);
  }

  /** After any run from a bootstrap, replaying the log from the first credentials and the texts of the proposals passes
      every rule and ends in the seats' credentials, the suspension, the Guardian, the number of versions, the signers of
      every proposal and the executed ones as they are. */
  lemma {:induction false} LogTellsEverything(
      community: Id, os: seq<Opening>, g: Guardian, possession: Evidence, first: Document,
      cs: seq<Command>, actions: map<Id, Action>)
    requires Bootstrap(community, os, g, possession, first).Some?
    requires Reads(actions, Run(Bootstrap(community, os, g, possession, first).value, cs))
    ensures Tells(FirstIds(os), actions, Run(Bootstrap(community, os, g, possession, first).value, cs))
    decreases |cs|
  {
    var start := Bootstrap(community, os, g, possession, first).value;
    BootstrapInv(community, os, g, possession, first);
    if cs == [] {
      BootstrapTells(community, os, g, possession, first, actions);
    } else {
      var m := |cs| - 1;
      var a := Run(start, cs[..m]);
      RunKeepsInv(start, cs[..m]);
      StepIsLater(a, cs[m]);
      ReadsEarlier(actions, a, Step(a, cs[m]).1);
      LogTellsEverything(community, os, g, possession, first, cs[..m], actions);
      StepTells(FirstIds(os), actions, a, cs[m]);
    }
  }
}
