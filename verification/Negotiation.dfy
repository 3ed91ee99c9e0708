// A listing is negotiated by its owner and one initiator until one of them accepts the head offer.
module Negotiation {
  import opened Wrappers

  type User = nat
  datatype Direction = Offer | Wanted
  datatype OfferRow = OfferRow(author: User, amount: int)
  datatype Talk = Talk(owner: User, initiator: User, direction: Direction,
                       offers: seq<OfferRow>, version: nat, acceptedBy: Option<User>)

  /** Who pays whom, and how much. */
  datatype Agreement = Agreement(payer: User, payee: User, amount: int)

  datatype Action =
    | Counter(user: User, amount: int, expectedVersion: nat)
    | Accept(user: User, offer: nat, expectedVersion: nat)

  predicate Party(t: Talk, user: User) { user == t.owner || user == t.initiator }

  function Other(t: Talk, user: User): User { if user == t.owner then t.initiator else t.owner }

  function Open(owner: User, direction: Direction, initiator: User, amount: int): Talk {
    Talk(owner, initiator, direction, [OfferRow(initiator, amount)], 1, None)
  }

  /** The new state, and whether the request was accepted. */
  function Act(t: Talk, a: Action): (Talk, bool) {
    if t.acceptedBy.Some? || !Party(t, a.user) || a.expectedVersion != t.version then (t, false)
    else
      match a
      case Counter(user, amount, _) => (t.(offers := t.offers + [OfferRow(user, amount)], version := t.version + 1), true)
      case Accept(user, offer, _) =>
        if offer + 1 == |t.offers| && t.offers[offer].author != user then
          (t.(acceptedBy := Some(user), version := t.version + 1), true)
        else (t, false)
  }

  function Acts(t: Talk, actions: seq<Action>): Talk
    decreases |actions|
  {
    if actions == [] then t else Acts(Act(t, actions[0]).0, actions[1..])
  }

  /** The economic direction comes from the listing: in an OFFER the initiator pays the owner. */
  function Terms(t: Talk): Agreement
    requires t.offers != []
  {
    var amount := t.offers[|t.offers| - 1].amount;
    match t.direction
    case Offer => Agreement(t.initiator, t.owner, amount)
    case Wanted => Agreement(t.owner, t.initiator, amount)
  }

  ghost predicate Sound(t: Talk) {
    && t.owner != t.initiator
    && t.offers != [] && t.offers[0].author == t.initiator
    && (forall i :: 0 <= i < |t.offers| ==> Party(t, t.offers[i].author))
    && t.version == |t.offers| + (if t.acceptedBy.Some? then 1 else 0)
    && (t.acceptedBy.Some? ==> t.acceptedBy.value == Other(t, t.offers[|t.offers| - 1].author))
  }

  lemma ActStaysSound(t: Talk, a: Action)
    requires Sound(t)
    ensures Sound(Act(t, a).0) && (Act(t, a).1 ==> t.acceptedBy.None?)
  {}

  lemma {:induction false} ActsStaySound(t: Talk, actions: seq<Action>)
    requires Sound(t)
    ensures Sound(Acts(t, actions))
    ensures var u := Acts(t, actions);
            && t.offers <= u.offers && t.version <= u.version
            && u.(offers := t.offers, version := t.version, acceptedBy := t.acceptedBy) == t
            && (t.acceptedBy.Some? ==> u == t)
            && (t.version == u.version ==> u == t)
    decreases |actions|
  {
    if actions != [] {
      ActsStaySound(Act(t, actions[0]).0, actions[1..]);
    }
  }

  /** However the negotiation goes and whoever tries what: the agreement is the head offer's amount in the
      listing's direction, nobody accepted an offer of their own, both parties are bound, and nothing said
      afterwards changes it. */
  lemma {:induction false} AgreementIsTheHeadOffer(owner: User, direction: Direction, initiator: User, first: int,
                                actions: seq<Action>, more: seq<Action>)
    requires owner != initiator && Acts(Open(owner, direction, initiator, first), actions).acceptedBy.Some?
    ensures var t := Acts(Open(owner, direction, initiator, first), actions);
            && t.offers != []
            && var head := t.offers[|t.offers| - 1];
               && t.acceptedBy.value != head.author
               && {t.acceptedBy.value, head.author} == {owner, initiator}
               && Terms(t).amount == head.amount
               && Terms(t).payer == (if direction == Offer then initiator else owner)
               && Terms(t).payee == (if direction == Offer then owner else initiator)
               && Acts(t, more) == t
  {
    ActsStaySound(Open(owner, direction, initiator, first), actions);
    ActsStaySound(Acts(Open(owner, direction, initiator, first), actions), more);
  }

  /** A version number names one state: an acceptance that quotes the version its user looked at accepts the
      offer that user saw, whatever was tried in between. */
  lemma {:induction false} VersionPinsTheOffer(t: Talk, between: seq<Action>, user: User)
    requires Sound(t)
    requires Act(Acts(t, between), Accept(user, |t.offers| - 1, t.version)).1
    ensures Acts(t, between) == t
    ensures Terms(Act(Acts(t, between), Accept(user, |t.offers| - 1, t.version)).0) == Terms(t)
  {
    ActsStaySound(t, between);
  }

  // ---- the negotiation as a row updated in place, and the script that drives it ----

  class Record {
    var talk: Talk

    constructor (owner: User, direction: Direction, initiator: User, amount: int)
      ensures talk == Open(owner, direction, initiator, amount)
    {
      talk := Open(owner, direction, initiator, amount);
    }

    method PostOffer(user: User, amount: int, expectedVersion: nat) returns (ok: bool)
      modifies this
      ensures (talk, ok) == Act(old(talk), Counter(user, amount, expectedVersion))
    {
      ok := talk.acceptedBy.None? && Party(talk, user) && expectedVersion == talk.version;
      if ok {
        talk := talk.(offers := talk.offers + [OfferRow(user, amount)], version := talk.version + 1);
      }
    }

    method PostAccept(user: User, offer: nat, expectedVersion: nat) returns (ok: bool)
      modifies this
      ensures (talk, ok) == Act(old(talk), Accept(user, offer, expectedVersion))
    {
      ok := talk.acceptedBy.None? && Party(talk, user) && expectedVersion == talk.version;
      if ok {
        ok := offer + 1 == |talk.offers| && talk.offers[offer].author != user;
        if ok {
          talk := talk.(acceptedBy := Some(user), version := talk.version + 1);
        }
      }
    }
  }

  /** Ana lists, Pedro offers, Ana perhaps counters, the one who did not speak last accepts: always agreed, at
      the last amount named. */
  method OpenAndAccept(ana: User, pedro: User, direction: Direction, first: int, counter: Option<int>)
    returns (agreement: Agreement, finalAmount: int, acceptor: User)
    requires ana != pedro
    ensures finalAmount == match counter case None => first case Some(amount) => amount
    ensures agreement == if direction == Offer then Agreement(pedro, ana, finalAmount) else Agreement(ana, pedro, finalAmount)
    ensures acceptor == if counter.Some? then pedro else ana
  {
    var negotiation := new Record(ana, direction, pedro, first);
    acceptor := ana;
    finalAmount := first;
    if counter.Some? {
      var countered := negotiation.PostOffer(ana, counter.value, negotiation.talk.version);
      finalAmount := counter.value;
      acceptor := pedro;
    }
    var head := |negotiation.talk.offers| - 1;
    var accepted := negotiation.PostAccept(acceptor, head, negotiation.talk.version);
    assert accepted;
    agreement := Terms(negotiation.talk);
  }
}
