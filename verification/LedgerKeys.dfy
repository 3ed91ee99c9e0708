// Keys are compared as strings: which keys a community can hold twice.
module LedgerKeys {
  import opened Wrappers
  import opened Ledger
  import opened LedgerProofs
  import opened LedgerTheorems
  import Base64Url

  predicate KeysAccepted(s: State) { forall c :: c in s.credentials ==> Base64Url.AcceptedKey(s.credentials[c].key) }

  lemma {:induction false} RunKeepsAccepted(s: State, ops: seq<Operation>)
    requires KeysAccepted(s)
    ensures KeysAccepted(Run(s, ops))
    decreases |ops|
  {
    if ops != [] {
      StepKeepsAccepted(s, ops[0]);
      RunKeepsAccepted(Step(s, ops[0]).0, ops[1..]);
    }
  }

  lemma StepKeepsAccepted(s: State, op: Operation)
    requires KeysAccepted(s)
    ensures KeysAccepted(Step(s, op).0)
  {}

  /** Credential `c` of the community is registered for the key these characters spell. */
  ghost predicate HoldsKey(s: State, community: Id, c: Id, key: string) {
    c in s.credentials && s.credentials[c].community == community
    && Base64Url.Decode(s.credentials[c].key) == Base64Url.Decode(key)
  }

  /** One of the key's holders spelled it in this very way. */
  ghost predicate SpelledSo(s: State, community: Id, key: string) {
    exists c :: HoldsKey(s, community, c, key) && s.credentials[c].key == key
  }

  lemma TakenIsSpelled(s: State, community: Id, key: string)
    ensures KeyTaken(s, community, key) <==> SpelledSo(s, community, key)
  {
    if KeyTaken(s, community, key) {
      var d :| d in s.credentials && s.credentials[d].community == community && s.credentials[d].key == key;
      assert HoldsKey(s, community, d, key);
    }
  }

  /** However many devices hold a key, adding it is refused exactly when one of them spelled it the same way. */
  lemma {:induction false} RefusedExactly(ops: seq<Operation>, community: Id, controller: Id, key: string)
    requires var s := Run(EMPTY, ops);
      controller in s.controllers && s.controllers[controller] == community && Base64Url.AcceptedKey(key)
      && community in s.communities
    ensures var s := Run(EMPTY, ops); var o := AddCredentialStep(s, community, controller, key).1;
      o == (if SpelledSo(s, community, key) then Refused(CredentialKeyTaken)
            else CredentialAdded(s.nextId, s.communities[community] - 1))
  {
    TakenIsSpelled(Run(EMPTY, ops), community, key);
  }

  /** Activating a participant with it likewise. */
  lemma {:induction false} ActivationRefusedExactly(
      ops: seq<Operation>, community: Id, name: string, unit: Id, key: string, floor: Option<int>)
    requires var s := Run(EMPTY, ops);
      unit in s.units && s.units[unit].community == community && !Blank(name) && Base64Url.AcceptedKey(key)
      && (floor.Some? ==> floor.value <= 0)
    ensures var s := Run(EMPTY, ops); var (t, o) := ActivateStep(s, community, name, unit, key, floor);
      if SpelledSo(s, community, key) then o == Refused(CredentialKeyTaken) && t == s
      else o.Activated? && HoldsKey(t, community, o.credential, key)
  {
    var s := Run(EMPTY, ops);
    ReachableInv(ops);
    TakenIsSpelled(s, community, key);
  }

  /** So one key can be registered twice in a community: any registered key, in a spelling not yet used. */
  lemma {:induction false} SameKeyTwice(ops: seq<Operation>, community: Id, controller: Id, c: Id, n: Base64Url.sextet)
    requires var s := Run(EMPTY, ops);
      controller in s.controllers && s.controllers[controller] == community
      && c in s.credentials && s.credentials[c].community == community && Base64Url.AcceptedKey(s.credentials[c].key)
      && n / 4 == Base64Url.FromChar(s.credentials[c].key[42]) / 4
      && !KeyTaken(s, community, s.credentials[c].key[42 := Base64Url.ToChar(n)])
    ensures var s := Run(EMPTY, ops); var key := s.credentials[c].key[42 := Base64Url.ToChar(n)];
      var (t, o) := AddCredentialStep(s, community, controller, key);
      o.CredentialAdded? && o.credential != c
      && Base64Url.AcceptedKey(key) && HoldsKey(t, community, c, key) && HoldsKey(t, community, o.credential, key)
  {
    var s := Run(EMPTY, ops);
    ReachableInv(ops);
    RunKeepsAccepted(EMPTY, ops);
    assert CredentialOk(s, c);
    var key := s.credentials[c].key[42 := Base64Url.ToChar(n)];
    Base64Url.FourSpellings(s.credentials[c].key, n);
  }

  // ---- but not five times ----

  function SpareBits(s: State, c: Id): (n: nat)
    requires c in s.credentials && Base64Url.AcceptedKey(s.credentials[c].key)
    ensures n in {0, 1, 2, 3}
  {
    Base64Url.FromChar(s.credentials[c].key[42]) % 4
  }

  lemma SpareBitsTellApart(s: State, community: Id, c: Id, d: Id, key: string)
    requires KeysUnique(s) && KeysAccepted(s) && Base64Url.AcceptedKey(key)
    requires HoldsKey(s, community, c, key) && HoldsKey(s, community, d, key) && SpareBits(s, c) == SpareBits(s, d)
    ensures c == d
  {
    Base64Url.SameSpelling(s.credentials[c].key, s.credentials[d].key);
  }

  lemma {:induction false} OnePerValue(s: State, community: Id, key: string, cs: set<Id>, values: set<nat>)
    requires KeysUnique(s) && KeysAccepted(s) && Base64Url.AcceptedKey(key)
    requires forall c :: c in cs ==> HoldsKey(s, community, c, key) && SpareBits(s, c) in values
    ensures |cs| <= |values|
  {
    if cs != {} {
      var c :| c in cs;
      forall d | d in cs - {c} ensures SpareBits(s, d) in values - {SpareBits(s, c)} {
        if SpareBits(s, d) == SpareBits(s, c) { SpareBitsTellApart(s, community, d, c, key); }
      }
      OnePerValue(s, community, key, cs - {c}, values - {SpareBits(s, c)});
    }
  }

  lemma AtMostFour(s: State, community: Id, key: string, cs: set<Id>)
    requires KeysUnique(s) && KeysAccepted(s) && Base64Url.AcceptedKey(key)
    requires forall c :: c in cs ==> HoldsKey(s, community, c, key)
    ensures |cs| <= 4
  {
    var values: set<nat> := {0, 1, 2, 3};
    assert |values| == 4;
    OnePerValue(s, community, key, cs, values);
  }

  /** No community ever holds one key more than four times. */
  lemma {:induction false} AtMostFourTimes(ops: seq<Operation>, community: Id, key: string, cs: set<Id>)
    requires Base64Url.AcceptedKey(key)
    requires forall c :: c in cs ==> HoldsKey(Run(EMPTY, ops), community, c, key)
    ensures |cs| <= 4
  {
    ReachableInv(ops);
    RunKeepsAccepted(EMPTY, ops);
    AtMostFour(Run(EMPTY, ops), community, key, cs);
  }

  lemma FifthIsTaken(s: State, community: Id, key: string, cs: set<Id>)
    requires IdsBelow(s) && KeysUnique(s) && KeysAccepted(s) && Base64Url.AcceptedKey(key) && |cs| == 4
    requires forall c :: c in cs ==> HoldsKey(s, community, c, key)
    ensures KeyTaken(s, community, key)
  {
    if !KeyTaken(s, community, key) {
      var row := Credential(community, key, 0, 0, None);
      NewKeyIsUnique(s, s.nextId + 1, s.nextId, row);
      AtMostFour(WithCredential(s, s.nextId + 1, s.nextId, row), community, key, cs + {s.nextId});
    }
  }

  /** Once four devices hold a key, no spelling of it is accepted any more. */
  lemma {:induction false} NoFifthSpelling(ops: seq<Operation>, community: Id, controller: Id, key: string, cs: set<Id>)
    requires var s := Run(EMPTY, ops);
      controller in s.controllers && s.controllers[controller] == community && community in s.communities
      && Base64Url.AcceptedKey(key) && |cs| == 4 && forall c :: c in cs ==> HoldsKey(s, community, c, key)
    ensures AddCredentialStep(Run(EMPTY, ops), community, controller, key).1 == Refused(CredentialKeyTaken)
  {
    ReachableInv(ops);
    RunKeepsAccepted(EMPTY, ops);
    FifthIsTaken(Run(EMPTY, ops), community, key, cs);
  }
}
