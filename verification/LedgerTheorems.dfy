// The promises of the ledger over whole runs, each a consequence of the invariant.
module LedgerTheorems {
  import opened Wrappers
  import opened Ledger
  import opened LedgerProofs

  // ---- the reachable states ----

  lemma {:induction false} ReachableInv(ops: seq<Operation>)
    ensures Inv(Run(EMPTY, ops))
  {
    RunKeepsInv(EMPTY, ops);
  }

  /** A balance is never anything but the fold of the journal, and never below the account's floor. */
  lemma {:induction false} BalancesProjectTheJournal(ops: seq<Operation>, a: Id)
    requires a in Run(EMPTY, ops).accounts
    ensures var s := Run(EMPTY, ops);
            s.accounts[a].balance == Fold(s.journal, a) && s.accounts[a].floor <= s.accounts[a].balance
  {
    ReachableInv(ops);
    assert AccountOk(Run(EMPTY, ops), a);
  }

  // ---- community sequences ----

  lemma SequencesIncrease(s: State, i: nat, j: nat)
    requires Inv(s) && i < j < |s.journal| && s.journal[i].payload.community == s.journal[j].payload.community
    ensures s.journal[i].sequence < s.journal[j].sequence
  {
    var before := s.journal[..j];
    assert RowOk(s, i) && RowOk(s, j);
    CountMonotone(before, i + 1, s.journal[j].payload.community);
    assert before[..i + 1] == s.journal[..i + 1] && s.journal[..i + 1][..i] == s.journal[..i];
  }

  lemma {:induction false} RowNumbered(s: State, n: nat, c: Id, q: int) returns (i: nat)
    requires Inv(s) && n <= |s.journal| && 1 <= q <= Count(s.journal[..n], c)
    ensures i < n && s.journal[i].payload.community == c && s.journal[i].sequence == q
  {
    var prefix := s.journal[..n];
    assert prefix[..n - 1] == s.journal[..n - 1];
    if q <= Count(s.journal[..n - 1], c) {
      i := RowNumbered(s, n - 1, c, q);
    } else {
      i := n - 1;
      assert RowOk(s, i);
    }
  }

  /** Every number from 1 up to the next sequence names exactly one row of the community. */
  lemma {:induction false} SequencesAreGapFree(ops: seq<Operation>, c: Id, q: int)
    requires c in Run(EMPTY, ops).communities && 1 <= q < Run(EMPTY, ops).communities[c]
    ensures var journal := Run(EMPTY, ops).journal;
            exists i :: 0 <= i < |journal| && journal[i].payload.community == c && journal[i].sequence == q
              && forall j :: 0 <= j < |journal| && j != i && journal[j].payload.community == c ==> journal[j].sequence != q
  {
    ReachableInv(ops);
    var s := Run(EMPTY, ops);
    assert s.journal[..|s.journal|] == s.journal;
    var i := RowNumbered(s, |s.journal|, c, q);
    forall j | 0 <= j < |s.journal| && j != i && s.journal[j].payload.community == c ensures s.journal[j].sequence != q {
      if i < j { SequencesIncrease(s, i, j); } else { SequencesIncrease(s, j, i); }
    }
  }

  // ---- conservation ----

  ghost function Net(entries: seq<Entry>): int {
    if entries == [] then 0 else Net(entries[..|entries| - 1]) + entries[|entries| - 1].amount
  }

  /** What the rows of a unit put into it, counted row by row. */
  ghost function Imbalance(journal: seq<JournalRow>, u: Id): int {
    if journal == [] then 0
    else
      var row := journal[|journal| - 1].payload;
      Imbalance(journal[..|journal| - 1], u) + (if row.unit == u then Net(row.entries) else 0)
  }

  ghost predicate InUnit(s: State, a: Id, u: Id) { a in s.accounts && s.accounts[a].unit == u }

  /** The balances of the unit's accounts with identifiers below `n`, added up. */
  ghost function UnitTotal(s: State, u: Id, n: nat): int {
    if n == 0 then 0 else UnitTotal(s, u, n - 1) + (if InUnit(s, n - 1, u) then s.accounts[n - 1].balance else 0)
  }

  ghost function FoldTotal(s: State, u: Id, journal: seq<JournalRow>, n: nat): int {
    if n == 0 then 0
    else FoldTotal(s, u, journal, n - 1) + (if InUnit(s, n - 1, u) then Fold(journal, n - 1) else 0)
  }

  ghost function DeltaTotal(s: State, u: Id, entries: seq<Entry>, n: nat): int {
    if n == 0 then 0
    else DeltaTotal(s, u, entries, n - 1) + (if InUnit(s, n - 1, u) then Delta(entries, n - 1) else 0)
  }

  lemma {:induction false} DeltaTotalEmpty(s: State, u: Id, n: nat)
    ensures DeltaTotal(s, u, [], n) == 0
  {
    if n > 0 { DeltaTotalEmpty(s, u, n - 1); }
  }

  lemma {:induction false} DeltaTotalLast(s: State, u: Id, entries: seq<Entry>, n: nat)
    requires entries != []
    ensures var e := entries[|entries| - 1];
            DeltaTotal(s, u, entries, n) ==
            DeltaTotal(s, u, entries[..|entries| - 1], n) + (if e.account < n && InUnit(s, e.account, u) then e.amount else 0)
  {
    if n > 0 { DeltaTotalLast(s, u, entries, n - 1); }
  }

  lemma {:induction false} DeltaTotalIsNet(s: State, u: Id, p: Payload, entries: seq<Entry>)
    requires IdsBelow(s) && entries <= p.entries && ProposalValid(s, p)
    ensures DeltaTotal(s, u, entries, s.nextId) == if p.unit == u then Net(entries) else 0
  {
    if entries == [] {
      DeltaTotalEmpty(s, u, s.nextId);
    } else {
      assert p.entries[|entries| - 1] == entries[|entries| - 1];
      assert entries[|entries| - 1] in p.entries;
      DeltaTotalLast(s, u, entries, s.nextId);
      DeltaTotalIsNet(s, u, p, entries[..|entries| - 1]);
    }
  }

  lemma {:induction false} FoldTotalLast(s: State, u: Id, journal: seq<JournalRow>, n: nat)
    requires journal != []
    ensures FoldTotal(s, u, journal, n) ==
            FoldTotal(s, u, journal[..|journal| - 1], n) + DeltaTotal(s, u, journal[|journal| - 1].payload.entries, n)
  {
    if n > 0 { FoldTotalLast(s, u, journal, n - 1); }
  }

  lemma {:induction false} FoldTotalEmpty(s: State, u: Id, n: nat)
    ensures FoldTotal(s, u, [], n) == 0
  {
    if n > 0 { FoldTotalEmpty(s, u, n - 1); }
  }

  lemma {:induction false} FoldTotalIsImbalance(s: State, u: Id, k: nat)
    requires Inv(s) && k <= |s.journal|
    ensures FoldTotal(s, u, s.journal[..k], s.nextId) == Imbalance(s.journal[..k], u)
  {
    if k == 0 {
      FoldTotalEmpty(s, u, s.nextId);
    } else {
      assert s.journal[..k][..k - 1] == s.journal[..k - 1];
      FoldTotalIsImbalance(s, u, k - 1);
      FoldTotalLast(s, u, s.journal[..k], s.nextId);
      RowsAreValid(s);
      var p := s.journal[k - 1].payload;
      DeltaTotalIsNet(s, u, p, p.entries);
    }
  }

  lemma {:induction false} UnitTotalIsFoldTotal(s: State, u: Id, n: nat)
    requires Inv(s)
    ensures UnitTotal(s, u, n) == FoldTotal(s, u, s.journal, n)
  {
    if n > 0 {
      UnitTotalIsFoldTotal(s, u, n - 1);
      if InUnit(s, n - 1, u) { assert AccountOk(s, n - 1); }
    }
  }

  /** Value enters a unit only through a row that does not balance; no other operation of the service moves it. */
  lemma {:induction false} Conservation(ops: seq<Operation>, u: Id)
    ensures var s := Run(EMPTY, ops); UnitTotal(s, u, s.nextId) == Imbalance(s.journal, u)
  {
    ReachableInv(ops);
    UnitConserved(Run(EMPTY, ops), u);
  }

  lemma {:induction false} UnitConserved(s: State, u: Id)
    requires Inv(s)
    ensures UnitTotal(s, u, s.nextId) == Imbalance(s.journal, u)
  {
    UnitTotalIsFoldTotal(s, u, s.nextId);
    assert s.journal[..|s.journal|] == s.journal;
    FoldTotalIsImbalance(s, u, |s.journal|);
  }

  lemma {:induction false} BalancedRowsCancel(journal: seq<JournalRow>, u: Id)
    requires forall i :: 0 <= i < |journal| && journal[i].payload.unit == u ==> Net(journal[i].payload.entries) == 0
    ensures Imbalance(journal, u) == 0
  {
    if journal != [] { BalancedRowsCancel(journal[..|journal| - 1], u); }
  }

  /** A unit whose rows all balance adds up to zero, in every reachable state. */
  lemma {:induction false} BalancedUnitIsZero(ops: seq<Operation>, u: Id)
    requires var journal := Run(EMPTY, ops).journal;
      forall i :: 0 <= i < |journal| && journal[i].payload.unit == u ==> Net(journal[i].payload.entries) == 0
    ensures var s := Run(EMPTY, ops); UnitTotal(s, u, s.nextId) == 0
  {
    Conservation(ops, u);
    BalancedRowsCancel(Run(EMPTY, ops).journal, u);
  }

  /** A transfer from payer to payee is balanced, so a unit moved by transfers alone always adds up to zero. */
  lemma TransfersBalance(payer: Id, payee: Id, amount: int)
    ensures Net([Entry(payer, -amount), Entry(payee, amount)]) == 0
  {
    var entries := [Entry(payer, -amount), Entry(payee, amount)];
    var first := entries[..1];
    assert Net(first) == -amount by { assert first[..0] == []; }
  }

  // ---- what a later state keeps ----

  ghost predicate SameDevice(c: Credential, d: Credential) {
    && c.(revocation := None) == d.(revocation := None)
    && (c.revocation.Some? ==> d.revocation == c.revocation)
  }

  ghost predicate SameAccount(a: Account, b: Account) { a.(balance := b.balance) == b }

  ghost predicate ProposalGrew(p: Proposal, q: Proposal) {
    && p.payload == q.payload && p.evidence <= q.evidence
    && (p.committedSequence.Some? ==> q.committedSequence == p.committedSequence)
  }

  /** The journal and the evidence are append-only, a revocation is never moved, no row disappears. */
  ghost predicate Later(s: State, t: State) {
    && s.journal <= t.journal
    && (forall c :: c in s.communities ==> c in t.communities && s.communities[c] <= t.communities[c])
    && (forall c :: c in s.credentials ==> c in t.credentials && SameDevice(s.credentials[c], t.credentials[c]))
    && (forall a :: a in s.accounts ==> a in t.accounts && SameAccount(s.accounts[a], t.accounts[a]))
    && (forall p :: p in s.proposals ==> p in t.proposals && ProposalGrew(s.proposals[p], t.proposals[p]))
  }

  lemma LaterReflexive(s: State)
    ensures Later(s, s)
  {}

  lemma CommitIsLater(s: State, tx: Id)
    ensures Later(s, CommitStep(s, tx).0)
  {
    var (t, o) := CommitStep(s, tx);
    if t == s {
      LaterReflexive(s);
    } else {
      forall a | a in s.accounts ensures SameAccount(s.accounts[a], t.accounts[a]) {}
      forall p | p in s.proposals ensures ProposalGrew(s.proposals[p], t.proposals[p]) {}
      forall c | c in s.credentials ensures SameDevice(s.credentials[c], t.credentials[c]) {}
    }
  }

  lemma RevokeIsLater(s: State, community: Id, credential: Id)
    ensures Later(s, RevokeStep(s, community, credential).0)
  {
    var (t, o) := RevokeStep(s, community, credential);
    if t == s {
      LaterReflexive(s);
    } else {
      LaterReflexive(t);
      forall c | c in s.credentials ensures SameDevice(s.credentials[c], t.credentials[c]) {}
    }
  }

  lemma ProposeIsLater(s: State, p: Payload)
    ensures Later(s, ProposeStep(s, p).0)
  {
    LaterReflexive(s);
  }

  lemma AddEvidenceIsLater(s: State, tx: Id, e: Evidence)
    ensures Later(s, AddEvidenceStep(s, tx, e).0)
  {
    LaterReflexive(s);
  }

  lemma CreateIsLater(s: State, op: Operation)
    requires IdsBelow(s) && (op.CreateCommunity? || op.CreateUnit?)
    ensures Later(s, Step(s, op).0)
  {
    LaterReflexive(s);
  }

  lemma ActivateIsLater(s: State, community: Id, name: string, unit: Id, key: string, floor: Option<int>)
    requires IdsBelow(s)
    ensures Later(s, ActivateStep(s, community, name, unit, key, floor).0)
  {
    LaterReflexive(s);
  }

  lemma AddCredentialIsLater(s: State, community: Id, controller: Id, key: string)
    requires IdsBelow(s)
    ensures Later(s, AddCredentialStep(s, community, controller, key).0)
  {
    LaterReflexive(s);
  }

  lemma StepIsLater(s: State, op: Operation)
    requires IdsBelow(s)
    ensures Later(s, Step(s, op).0)
  {
    match op
    case CreateCommunity(_) => CreateIsLater(s, op);
    case CreateUnit(_, _, _) => CreateIsLater(s, op);
    case ActivateParticipant(community, name, unit, key, floor) => ActivateIsLater(s, community, name, unit, key, floor);
    case AddCredential(community, controller, key) => AddCredentialIsLater(s, community, controller, key);
    case RevokeCredential(community, credential) => RevokeIsLater(s, community, credential);
    case Propose(payload) => ProposeIsLater(s, payload);
    case AddEvidence(tx, e) => AddEvidenceIsLater(s, tx, e);
    case Commit(tx) => CommitIsLater(s, tx);
  }

  lemma ActivateKeepsIds(s: State, community: Id, name: string, unit: Id, key: string, floor: Option<int>)
    requires IdsBelow(s)
    ensures IdsBelow(ActivateStep(s, community, name, unit, key, floor).0)
  {}

  lemma CommitKeepsIds(s: State, tx: Id)
    requires IdsBelow(s)
    ensures IdsBelow(CommitStep(s, tx).0)
  {}

  lemma StepKeepsIds(s: State, op: Operation)
    requires IdsBelow(s)
    ensures IdsBelow(Step(s, op).0)
  {
    match op
    case ActivateParticipant(community, name, unit, key, floor) => ActivateKeepsIds(s, community, name, unit, key, floor);
    case Commit(tx) => CommitKeepsIds(s, tx);
    case _ =>
  }

  lemma LaterTransitive(s: State, t: State, u: State)
    requires Later(s, t) && Later(t, u)
    ensures Later(s, u)
  {
    forall p | p in s.proposals ensures ProposalGrew(s.proposals[p], u.proposals[p]) {
      assert ProposalGrew(s.proposals[p], t.proposals[p]) && ProposalGrew(t.proposals[p], u.proposals[p]);
    }
    forall c | c in s.credentials ensures SameDevice(s.credentials[c], u.credentials[c]) {
      assert SameDevice(s.credentials[c], t.credentials[c]) && SameDevice(t.credentials[c], u.credentials[c]);
    }
  }

  lemma {:induction false} RunIsLater(s: State, ops: seq<Operation>)
    requires IdsBelow(s)
    ensures Later(s, Run(s, ops))
    decreases |ops|
  {
    if ops != [] {
      StepIsLater(s, ops[0]);
      StepKeepsIds(s, ops[0]);
      RunIsLater(Step(s, ops[0]).0, ops[1..]);
      LaterTransitive(s, Step(s, ops[0]).0, Run(s, ops));
    }
  }

  lemma {:induction false} RunGrows(s: State, ops: seq<Operation>)
    requires Inv(s)
    ensures Inv(Run(s, ops)) && Later(s, Run(s, ops))
  {
    RunKeepsInv(s, ops);
    RunIsLater(s, ops);
  }

  // ---- commit ----

  /** The floor check looks at the balances after posting. */
  lemma {:induction false} FloorsAfterPosting(accounts: map<Id, Account>, entries: seq<Entry>)
    requires forall e :: e in entries ==> e.account in accounts
    ensures FloorsRespected(Post(accounts, entries), entries) <==>
            forall x :: x in entries ==>
              accounts[x.account].floor <= accounts[x.account].balance + Delta(entries, x.account)
  {
    forall x | x in entries
      ensures Post(accounts, entries)[x.account].balance == accounts[x.account].balance + Delta(entries, x.account)
    {
      PostIsDelta(accounts, entries, x.account);
    }
  }

  lemma {:induction false} BalancesAfterPosting(accounts: map<Id, Account>, entries: seq<Entry>)
    requires forall e :: e in entries ==> e.account in accounts
    ensures forall a :: a in accounts ==>
              Post(accounts, entries)[a] == accounts[a].(balance := accounts[a].balance + Delta(entries, a))
  {
    forall a | a in accounts ensures Post(accounts, entries)[a].balance == accounts[a].balance + Delta(entries, a) {
      PostIsDelta(accounts, entries, a);
    }
  }

  /** What every table holds after a commit. */
  lemma JournalsExactly(s: State, tx: Id, t: State)
    requires Journals(s, tx, t)
    ensures var p := s.proposals[tx]; var q := s.communities[p.payload.community];
            && t.journal == s.journal + [JournalRow(p.payload, q, p.evidence)]
            && t.communities == s.communities[p.payload.community := q + 1]
            && t.proposals == s.proposals[tx := p.(committedSequence := Some(q))]
            && t.nextId == s.nextId && t.units == s.units && t.controllers == s.controllers && t.credentials == s.credentials
            && t.accounts.Keys == s.accounts.Keys
            && forall a :: a in s.accounts ==>
                 t.accounts[a] == s.accounts[a].(balance := s.accounts[a].balance + Delta(p.payload.entries, a))
  {
    BalancesAfterPosting(s.accounts, s.proposals[tx].payload.entries);
  }

  /** The branches of `CommitStep` on an open proposal. */
  lemma CommitBranches(s: State, tx: Id)
    requires tx in s.proposals && s.proposals[tx].committedSequence.None?
    requires ProposalValid(s, s.proposals[tx].payload)
    ensures var p := s.proposals[tx]; var (t, o) := CommitStep(s, tx);
            && (o.Committed? <==>
                  && Covered(p.payload, p.evidence)
                  && (forall e :: e in p.evidence ==> Eligible(s, p.payload, e, s.communities[p.payload.community]))
                  && FloorsRespected(Post(s.accounts, p.payload.entries), p.payload.entries))
            && (if o.Committed? then FreshCommit(s, tx) && o.receipt.sequence == s.communities[p.payload.community] else t == s)
  {}

  lemma CommitExactly(s: State, tx: Id)
    requires ProposalsOk(s) && tx in s.proposals && s.proposals[tx].committedSequence.None?
    ensures var p := s.proposals[tx]; var q := s.communities[p.payload.community]; var (t, o) := CommitStep(s, tx);
            && (o.Committed? <==>
                  && Covered(p.payload, p.evidence)
                  && (forall e :: e in p.evidence ==> Eligible(s, p.payload, e, q))
                  && (forall x :: x in p.payload.entries ==>
                        s.accounts[x.account].floor <= s.accounts[x.account].balance + Delta(p.payload.entries, x.account)))
            && (o.Committed? ==>
                  && o.receipt == Receipt(q, Digest(p.payload, q))
                  && t.journal == s.journal + [JournalRow(p.payload, q, p.evidence)]
                  && t.communities == s.communities[p.payload.community := q + 1]
                  && t.proposals == s.proposals[tx := p.(committedSequence := Some(q))]
                  && t.nextId == s.nextId && t.units == s.units && t.controllers == s.controllers && t.credentials == s.credentials
                  && t.accounts.Keys == s.accounts.Keys
                  && forall a :: a in s.accounts ==>
                       t.accounts[a] == s.accounts[a].(balance := s.accounts[a].balance + Delta(p.payload.entries, a)))
            && (!o.Committed? ==> t == s)
  {
    assert ProposalOk(s, tx);
    CommitBranches(s, tx);
    FloorsAfterPosting(s.accounts, s.proposals[tx].payload.entries);
    if CommitStep(s, tx).1.Committed? {
      FreshCommitJournals(s, tx);
      JournalsExactly(s, tx, CommitStep(s, tx).0);
    }
  }

  lemma BreachBranch(s: State, tx: Id)
    requires tx in s.proposals && s.proposals[tx].committedSequence.None?
    requires ProposalValid(s, s.proposals[tx].payload)
    ensures var p := s.proposals[tx];
            CommitStep(s, tx).1 == Refused(CreditFloorBreached) <==>
              && Covered(p.payload, p.evidence)
              && AllEligible(s, p.payload, p.evidence, s.communities[p.payload.community])
              && !FloorsRespected(Post(s.accounts, p.payload.entries), p.payload.entries)
  {}

  /** The one refusal that depends on the balances: signatures complete and good, and some account would end too low. */
  lemma FloorBreachExactly(s: State, tx: Id)
    requires tx in s.proposals && ProposalOk(s, tx) && s.proposals[tx].committedSequence.None?
    ensures var p := s.proposals[tx];
            CommitStep(s, tx).1 == Refused(CreditFloorBreached) <==>
              && Covered(p.payload, p.evidence)
              && AllEligible(s, p.payload, p.evidence, s.communities[p.payload.community])
              && exists x :: x in p.payload.entries &&
                   s.accounts[x.account].balance + Delta(p.payload.entries, x.account) < s.accounts[x.account].floor
  {
    BreachBranch(s, tx);
    FloorsAfterPosting(s.accounts, s.proposals[tx].payload.entries);
  }

  /** Any operation that is refused leaves every table as it was. */
  lemma RefusalChangesNothing(s: State, op: Operation)
    requires Step(s, op).1.Refused?
    ensures Step(s, op).0 == s
  {}

  /** The receipt a commit returns is the one its proposal row holds afterwards. */
  lemma ReceiptIsStored(s: State, tx: Id)
    requires CommitStep(s, tx).1.Committed?
    ensures var (t, o) := CommitStep(s, tx);
            && tx in s.proposals && tx in t.proposals && t.proposals[tx].payload == s.proposals[tx].payload
            && t.proposals[tx].committedSequence == Some(o.receipt.sequence)
            && o.receipt.digest == Digest(s.proposals[tx].payload, o.receipt.sequence)
  {}

  lemma StoredReceiptAnswers(s: State, tx: Id, sequence: int)
    requires tx in s.proposals && ProposalOk(s, tx) && s.proposals[tx].committedSequence == Some(sequence)
    ensures CommitStep(s, tx) == (s, Committed(Receipt(sequence, Digest(s.proposals[tx].payload, sequence))))
  {}

  lemma ReceiptStays(s: State, t: State, tx: Id, sequence: int)
    requires Later(s, t) && tx in s.proposals && s.proposals[tx].committedSequence == Some(sequence)
    ensures tx in t.proposals && t.proposals[tx].payload == s.proposals[tx].payload
    ensures t.proposals[tx].committedSequence == Some(sequence)
  {
    assert ProposalGrew(s.proposals[tx], t.proposals[tx]);
  }

  lemma {:induction false} StoredReceiptAlwaysAnswers(s: State, tx: Id, sequence: int, ops: seq<Operation>)
    requires Inv(s) && tx in s.proposals && s.proposals[tx].committedSequence == Some(sequence)
    ensures var t := Run(s, ops);
            CommitStep(t, tx) == (t, Committed(Receipt(sequence, Digest(s.proposals[tx].payload, sequence))))
  {
    var t := Run(s, ops);
    RunGrows(s, ops);
    ReceiptStays(s, t, tx, sequence);
    assert ProposalOk(t, tx);
    StoredReceiptAnswers(t, tx, sequence);
  }

  /** Once committed, every later commit of the same proposal changes nothing and returns the first receipt. */
  lemma {:induction false} CommitOnce(s: State, tx: Id, receipt: Receipt, ops: seq<Operation>)
    requires Inv(s) && CommitStep(s, tx).1 == Committed(receipt)
    ensures var t := Run(CommitStep(s, tx).0, ops); CommitStep(t, tx) == (t, Committed(receipt))
  {
    ReceiptIsStored(s, tx);
    CommitKeepsInv(s, tx);
    StoredReceiptAlwaysAnswers(CommitStep(s, tx).0, tx, receipt.sequence, ops);
  }

  ghost predicate Journalled(journal: seq<JournalRow>, tx: Id) {
    exists i :: 0 <= i < |journal| && journal[i].payload.tx == tx
  }

  /** No transaction is ever in the journal twice, and a proposal is COMMITTED exactly when it is there once. */
  lemma AtMostOnce(s: State, tx: Id)
    requires Inv(s) && tx in s.proposals
    ensures s.proposals[tx].committedSequence.Some? <==> Journalled(s.journal, tx)
    ensures forall i, j :: 0 <= i < |s.journal| && 0 <= j < |s.journal| ==>
              s.journal[i].payload.tx == tx == s.journal[j].payload.tx ==> i == j
  {
    assert ProposalOk(s, tx);
    forall i | 0 <= i < |s.journal| && s.journal[i].payload.tx == tx ensures s.proposals[tx].committedSequence.Some? {
      assert RowOk(s, i);
    }
  }

  lemma {:induction false} FindRowFinds(journal: seq<JournalRow>, tx: Id, i: nat)
    requires i < |journal| && journal[i].payload.tx == tx
    requires forall j :: 0 <= j < |journal| && journal[j].payload.tx == tx ==> j == i
    ensures FindRow(journal, tx) == Some(journal[i])
  {
    if i > 0 { FindRowFinds(journal[1..], tx, i - 1); }
  }

  lemma {:induction false} FindRowMisses(journal: seq<JournalRow>, tx: Id)
    requires forall j :: 0 <= j < |journal| ==> journal[j].payload.tx != tx
    ensures FindRow(journal, tx) == None
  {
    if journal != [] { FindRowMisses(journal[1..], tx); }
  }

  /** The journal row of a transaction is there when the proposal says so, and says the same. */
  ghost predicate RowMatches(s: State, tx: Id)
    requires tx in s.proposals
  {
    var p := s.proposals[tx];
    var row := FindRow(s.journal, tx);
    if p.committedSequence.None? then row == None
    else row.Some? && row.value.payload == p.payload && row.value.sequence == p.committedSequence.value
  }

  lemma RowsMatch(s: State, tx: Id)
    requires Inv(s) && tx in s.proposals
    ensures RowMatches(s, tx)
  {
    AtMostOnce(s, tx);
    if s.proposals[tx].committedSequence.Some? {
      var i :| 0 <= i < |s.journal| && s.journal[i].payload.tx == tx;
      FindRowFinds(s.journal, tx, i);
      assert RowOk(s, i);
    } else {
      FindRowMisses(s.journal, tx);
    }
  }

  /** The status read joins three tables; of one state it never shows half a commit. */
  lemma TransactionViewConsistent(s: State, tx: Id)
    requires Inv(s) && tx in s.proposals
    ensures var v := Transaction(s, tx).value;
            && (v.committedSequence.None? <==> v.digest.None?)
            && (v.committedSequence.Some? ==> v.digest == Some(Digest(v.payload, v.committedSequence.value)))
  {
    RowsMatch(s, tx);
  }

  /** The transaction was journalled by an operation served after `s`, and by `u`. */
  ghost predicate CommittedSince(s: State, u: State, tx: Id) {
    exists i :: |s.journal| <= i < |u.journal| && u.journal[i].payload.tx == tx
  }

  lemma CommittedSinceExactly(s: State, u: State, tx: Id)
    requires s.journal <= u.journal
    requires forall i, j :: 0 <= i < |u.journal| && 0 <= j < |u.journal| ==>
               u.journal[i].payload.tx == tx == u.journal[j].payload.tx ==> i == j
    ensures CommittedSince(s, u, tx) <==> !Journalled(s.journal, tx) && Journalled(u.journal, tx)
  {
    assert forall i :: 0 <= i < |s.journal| ==> u.journal[i] == s.journal[i];
  }

  lemma SeenBetween(s: State, t: State, u: State, tx: Id)
    requires Later(s, t) && Later(t, u) && tx in s.proposals && RowMatches(u, tx)
    ensures var v := TransactionSeen(s, t, u, tx).value; var p := u.proposals[tx];
            && (v.committedSequence.Some? ==> v.digest == Some(Digest(v.payload, v.committedSequence.value)))
            && (v.digest.Some? <==> p.committedSequence.Some?)
            && (v.digest.Some? ==> v.digest.value == Digest(v.payload, p.committedSequence.value))
            && AccountsOf(s.proposals[tx].evidence) <= v.authorized
  {
    assert ProposalGrew(s.proposals[tx], t.proposals[tx]) && ProposalGrew(t.proposals[tx], u.proposals[tx]);
  }

  lemma StillProposed(s: State, t: State, u: State, tx: Id)
    requires Later(s, t) && Later(t, u) && tx in s.proposals
    ensures tx in u.proposals && s.journal <= u.journal
  {}

  lemma SeenAcross(s: State, u: State, tx: Id)
    requires Inv(s) && Inv(u) && s.journal <= u.journal && tx in s.proposals && tx in u.proposals
    ensures RowMatches(u, tx)
    ensures CommittedSince(s, u, tx) <==>
              s.proposals[tx].committedSequence.None? && u.proposals[tx].committedSequence.Some?
  {
    RowsMatch(u, tx);
    AtMostOnce(s, tx);
    AtMostOnce(u, tx);
    CommittedSinceExactly(s, u, tx);
  }

  /** What a status read shows, when other requests were served between its three reads. A sequence shown comes with
      its own digest; a digest without a sequence is shown exactly when the transaction was committed between the first
      read and the last, and then it is the digest of that commit; no evidence of the first moment is missing. */
  ghost predicate ShowsNoHalfCommit(s: State, t: State, u: State, tx: Id) {
    tx in s.proposals && tx in u.proposals
    && var v, committed := TransactionSeen(s, t, u, tx).value, u.proposals[tx].committedSequence;
    && (v.committedSequence.Some? ==> v.digest == Some(Digest(v.payload, v.committedSequence.value)))
    && (v.committedSequence.None? && v.digest.Some? <==> CommittedSince(s, u, tx))
    && (v.digest.Some? ==> committed.Some? && v.digest.value == Digest(v.payload, committed.value))
    && AccountsOf(s.proposals[tx].evidence) <= v.authorized
  }

  lemma StatusShown(s: State, t: State, u: State, tx: Id)
    requires Later(s, t) && Later(t, u) && tx in s.proposals && tx in u.proposals && RowMatches(u, tx)
    requires CommittedSince(s, u, tx) <==>
               s.proposals[tx].committedSequence.None? && u.proposals[tx].committedSequence.Some?
    ensures ShowsNoHalfCommit(s, t, u, tx)
  {
    SeenBetween(s, t, u, tx);
  }

  lemma StatusRead(s: State, t: State, u: State, tx: Id)
    requires Inv(s) && Later(s, t) && Later(t, u) && Inv(u) && tx in s.proposals
    ensures ShowsNoHalfCommit(s, t, u, tx)
  {
    StillProposed(s, t, u, tx);
    SeenAcross(s, u, tx);
    StatusShown(s, t, u, tx);
  }

  /** The three reads of a status are separate statements, with any requests served between them. */
  lemma {:induction false} StatusReadAcrossCommits(before: seq<Operation>, first: seq<Operation>, second: seq<Operation>, tx: Id)
    requires tx in Run(EMPTY, before).proposals
    ensures var s := Run(EMPTY, before); var t := Run(s, first); ShowsNoHalfCommit(s, t, Run(t, second), tx)
  {
    var s := Run(EMPTY, before);
    var t := Run(s, first);
    ReachableInv(before);
    RunGrows(s, first);
    RunGrows(t, second);
    StatusRead(s, t, Run(t, second), tx);
  }

  // ---- authorization ----

  /** Whatever an account's balance moved by was signed for by a device of that account's controller, over that
      very transaction, and the sequence of the row lies inside the device's window to this day. */
  lemma {:induction false} EveryMoveWasAuthorized(ops: seq<Operation>, i: nat, x: Entry)
    requires i < |Run(EMPTY, ops).journal| && x in Run(EMPTY, ops).journal[i].payload.entries
    ensures var s := Run(EMPTY, ops); var row := s.journal[i];
            exists e :: e in row.evidence && e.account == x.account
              && e.credential in s.credentials && e.account in s.accounts
              && var c := s.credentials[e.credential];
                 && c.controller == s.accounts[x.account].controller
                 && e.signature == Signature(c.key, row.payload)
                 && c.activation < row.sequence && (c.revocation.Some? ==> row.sequence < c.revocation.value)
  {
    ReachableInv(ops);
    var s := Run(EMPTY, ops);
    assert RowOk(s, i);
    var e :| e in s.journal[i].evidence && e.account == x.account;
    assert Eligible(s, s.journal[i].payload, e, s.journal[i].sequence);
  }

  /** The windows of a row hold for ever: no operation, a revocation included, reaches back. */
  lemma {:induction false} WindowsHoldForever(ops: seq<Operation>, more: seq<Operation>, i: nat, e: Evidence)
    requires i < |Run(EMPTY, ops).journal| && e in Run(EMPTY, ops).journal[i].evidence
    ensures var s, t := Run(EMPTY, ops), Run(Run(EMPTY, ops), more);
            && i < |t.journal| && t.journal[i] == s.journal[i]
            && e.credential in t.credentials && InWindow(t.credentials[e.credential], t.journal[i].sequence)
  {
    var s := Run(EMPTY, ops);
    ReachableInv(ops);
    RunGrows(s, more);
    var t := Run(s, more);
    assert RowOk(t, i);
    assert Eligible(t, t.journal[i].payload, e, t.journal[i].sequence);
  }

  lemma AddedRow(s: State, community: Id, controller: Id, key: string)
    requires AddCredentialStep(s, community, controller, key).1.CredentialAdded?
    ensures var (t, o) := AddCredentialStep(s, community, controller, key);
            && o.credential in t.credentials
            && t.credentials[o.credential] == Credential(community, key, controller, s.communities[community] - 1, None)
  {}

  lemma DeviceStays(t: State, u: State, id: Id)
    requires Later(t, u) && id in t.credentials && CredentialsOk(u)
    ensures id in u.credentials && u.credentials[id].(revocation := None) == t.credentials[id].(revocation := None)
    ensures u.credentials[id].community in u.communities
    ensures InWindow(u.credentials[id], u.communities[u.credentials[id].community]) <==> u.credentials[id].revocation.None?
  {
    assert SameDevice(t.credentials[id], u.credentials[id]);
    assert CredentialOk(u, id);
  }

  /** A device added to a controller counts at the very next commit, and at every later one until it is revoked. */
  lemma AddedDeviceWorksAtOnce(s: State, community: Id, controller: Id, key: string, ops: seq<Operation>)
    requires Inv(s) && AddCredentialStep(s, community, controller, key).1.CredentialAdded?
    ensures var (t, o) := AddCredentialStep(s, community, controller, key); var u := Run(t, ops);
            && community in u.communities && o.credential in u.credentials
            && u.credentials[o.credential].controller == controller && u.credentials[o.credential].key == key
            && (InWindow(u.credentials[o.credential], u.communities[community]) <==> u.credentials[o.credential].revocation.None?)
  {
    var (t, o) := AddCredentialStep(s, community, controller, key);
    AddedRow(s, community, controller, key);
    AddCredentialKeepsInv(s, community, controller, key);
    RunGrows(t, ops);
    DeviceStays(t, Run(t, ops), o.credential);
  }

  /** Evidence that will never do: its device is revoked, or it is not a signature of this payload by the account. */
  ghost predicate BadEvidence(s: State, payload: Payload, e: Evidence) {
    && e.account in s.accounts && e.credential in s.credentials
    && (s.credentials[e.credential].revocation.Some? || !Genuine(s, payload, e))
  }

  ghost predicate Spoiled(s: State, tx: Id) {
    && tx in s.proposals && s.proposals[tx].committedSequence.None?
    && exists e :: e in s.proposals[tx].evidence && BadEvidence(s, s.proposals[tx].payload, e)
  }

  lemma BadIsIneligible(s: State, payload: Payload, e: Evidence)
    requires BadEvidence(s, payload, e) && CredentialOk(s, e.credential) && payload.community in s.communities
    ensures !Eligible(s, payload, e, s.communities[payload.community])
  {}

  lemma SpoiledIsRefused(s: State, tx: Id)
    requires CredentialsOk(s) && ProposalsOk(s) && Spoiled(s, tx)
    ensures CommitStep(s, tx).0 == s
  {
    var p := s.proposals[tx];
    var e :| e in p.evidence && BadEvidence(s, p.payload, e);
    assert ProposalOk(s, tx);
    BadIsIneligible(s, p.payload, e);
    CommitBranches(s, tx);
  }

  lemma OnlyItsCommitCommits(s: State, tx: Id, op: Operation)
    requires tx in s.proposals && op != Operation.Commit(tx)
    ensures tx in Step(s, op).0.proposals
    ensures Step(s, op).0.proposals[tx].committedSequence == s.proposals[tx].committedSequence
  {}

  lemma BadEvidenceStays(s: State, t: State, payload: Payload, e: Evidence)
    requires Later(s, t) && BadEvidence(s, payload, e)
    ensures BadEvidence(t, payload, e)
  {
    assert SameDevice(s.credentials[e.credential], t.credentials[e.credential]);
  }

  lemma SpoiledInLater(s: State, t: State, tx: Id)
    requires Later(s, t) && Spoiled(s, tx)
    requires tx in t.proposals && t.proposals[tx].committedSequence == s.proposals[tx].committedSequence
    ensures Spoiled(t, tx)
  {
    var p := s.proposals[tx];
    var e :| e in p.evidence && BadEvidence(s, p.payload, e);
    BadEvidenceStays(s, t, p.payload, e);
    assert ProposalGrew(p, t.proposals[tx]);
  }

  lemma SpoiledStays(s: State, tx: Id, op: Operation)
    requires IdsBelow(s) && CredentialsOk(s) && ProposalsOk(s) && Spoiled(s, tx)
    ensures Spoiled(Step(s, op).0, tx)
  {
    if op == Operation.Commit(tx) {
      SpoiledIsRefused(s, tx);
    } else {
      StepIsLater(s, op);
      OnlyItsCommitCommits(s, tx, op);
      SpoiledInLater(s, Step(s, op).0, tx);
    }
  }

  /** A proposal carrying such evidence stays PROPOSED whatever happens next, more evidence included. */
  lemma {:induction false} SpoiledNeverCommits(s: State, tx: Id, ops: seq<Operation>)
    requires Inv(s) && Spoiled(s, tx)
    ensures Spoiled(Run(s, ops), tx)
    ensures forall i :: 0 <= i < |Run(s, ops).journal| ==> Run(s, ops).journal[i].payload.tx != tx
    decreases |ops|
  {
    if ops == [] {
      AtMostOnce(s, tx);
    } else {
      SpoiledStays(s, tx, ops[0]);
      StepKeepsInv(s, ops[0]);
      SpoiledNeverCommits(Step(s, ops[0]).0, tx, ops[1..]);
    }
  }

  // ---- why a revocation has to be one step ----

  lemma WriteKeepsWindows(s: State, credential: Id, r: int)
    requires Inv(s) && credential in s.credentials && s.credentials[credential].revocation.None?
    ensures WindowsHold(WriteRevocation(s, credential, r)) <==> QuietFrom(s, credential, r)
  {
    InvGivesWindows(s);
    var t := WriteRevocation(s, credential, r);
    if WindowsHold(t) {
      forall i, e | 0 <= i < |s.journal| && e in s.journal[i].evidence && e.credential == credential
        ensures s.journal[i].sequence < r
      {
        assert InWindow(t.credentials[e.credential], t.journal[i].sequence);
      }
    } else {
      var i, e :| 0 <= i < |t.journal| && e in t.journal[i].evidence && e.credential in t.credentials
        && !InWindow(t.credentials[e.credential], t.journal[i].sequence);
      assert InWindow(s.credentials[e.credential], s.journal[i].sequence);
    }
  }

  /** No row that came to the journal from `s` to `t` was signed by the device. */
  ghost predicate NotSignedSince(s: State, t: State, credential: Id) {
    forall i, e :: |s.journal| <= i < |t.journal| && e in t.journal[i].evidence ==> e.credential != credential
  }

  lemma {:induction false} CountGrows(a: seq<JournalRow>, b: seq<JournalRow>, i: nat, community: Id)
    requires a <= b && |a| <= i <= |b|
    ensures Count(a, community) <= Count(b[..i], community)
  {
    assert b[..i][..|a|] == a;
    CountMonotone(b[..i], |a|, community);
  }

  /** A row of the device's community lies below the sequence read exactly when it was there at the reading. */
  lemma OlderIsBelow(s: State, t: State, community: Id, i: nat)
    requires Inv(s) && Inv(t) && Later(s, t) && community in s.communities
    requires i < |t.journal| && t.journal[i].payload.community == community
    ensures t.journal[i].sequence < s.communities[community] <==> i < |s.journal|
  {
    if i < |s.journal| {
      SequencesBelowNext(s, i);
      assert t.journal[i] == s.journal[i];
    } else {
      CountGrows(s.journal, t.journal, i, community);
      assert RowOk(t, i);
    }
  }

  lemma SignedIsLocal(t: State, i: nat, e: Evidence)
    requires Inv(t) && i < |t.journal| && e in t.journal[i].evidence
    ensures e.credential in t.credentials && t.credentials[e.credential].community == t.journal[i].payload.community
  {
    assert RowOk(t, i);
    assert Eligible(t, t.journal[i].payload, e, t.journal[i].sequence);
  }

  /**
   * `revokeCredential` reads the next sequence of the community, other requests are served, and then it writes what
   * it read. Every window holds afterwards exactly when the device signed none of the rows committed in between.
   */
  lemma {:induction false} StaleRevocation(before: seq<Operation>, between: seq<Operation>, community: Id, credential: Id)
    requires var s := Run(EMPTY, before); var t := Run(s, between);
      community in s.communities && credential in t.credentials
      && t.credentials[credential].community == community && t.credentials[credential].revocation.None?
    ensures var s := Run(EMPTY, before); var t := Run(s, between);
      WindowsHold(WriteRevocation(t, credential, s.communities[community])) <==> NotSignedSince(s, t, credential)
  {
    var s := Run(EMPTY, before);
    var t := Run(s, between);
    ReachableInv(before);
    RunGrows(s, between);
    WriteKeepsWindows(t, credential, s.communities[community]);
    forall i, e | 0 <= i < |t.journal| && e in t.journal[i].evidence && e.credential == credential
      ensures t.journal[i].sequence < s.communities[community] <==> i < |s.journal|
    {
      SignedIsLocal(t, i, e);
      OlderIsBelow(s, t, community, i);
    }
  }

  lemma StepKeepsController(s: State, op: Operation, k: Id)
    requires IdsBelow(s) && k in s.controllers
    ensures var t := Step(s, op).0; k in t.controllers && t.controllers[k] == s.controllers[k]
  {}

  lemma {:induction false} RunKeepsController(s: State, ops: seq<Operation>, k: Id)
    requires IdsBelow(s) && k in s.controllers
    ensures var t := Run(s, ops); k in t.controllers && t.controllers[k] == s.controllers[k]
    decreases |ops|
  {
    if ops != [] {
      StepKeepsController(s, ops[0], k);
      StepKeepsIds(s, ops[0]);
      RunKeepsController(Step(s, ops[0]).0, ops[1..], k);
    }
  }

  /** `u` is `t`, or `t` with one more credential that may be there. */
  ghost predicate Inserted(t: State, u: State, id: Id, row: Credential) {
    u == t || (Insertable(t, u.nextId, id, row) && u == WithCredential(t, u.nextId, id, row))
  }

  lemma InsertedKeepsInv(t: State, u: State, id: Id, row: Credential)
    requires Inv(t) && Inserted(t, u, id, row)
    ensures Inv(u)
  {
    if u != t { InsertCredentialKeepsInv(t, u.nextId, id, row); }
  }

  /** A row whose activation sequence the community has left behind is as good as a new one. */
  lemma WritingCredential(t: State, community: Id, controller: Id, key: string, activation: int)
    requires IdsBelow(t) && community in t.communities && 0 <= activation < t.communities[community]
    requires controller in t.controllers && t.controllers[controller] == community
    ensures var (u, o) := WriteCredential(t, community, controller, key, activation);
            && Inserted(t, u, t.nextId, Credential(community, key, controller, activation, None)) && community in u.communities
            && (if KeyTaken(t, community, key) then o == Refused(CredentialKeyTaken)
                else o.CredentialAdded? && o.credential in u.credentials
                     && InWindow(u.credentials[o.credential], u.communities[community]))
  {}

  /** Writing in `t` what was worked out from the next sequence `q` keeps the invariant, and the device counts at once. */
  ghost predicate LateWriteIsFine(t: State, community: Id, controller: Id, key: string, q: int) {
    var (u, o) := WriteCredential(t, community, controller, key, q - 1);
    && Inv(u) && community in u.communities
    && (if KeyTaken(t, community, key) then o == Refused(CredentialKeyTaken)
        else o.CredentialAdded? && o.credential in u.credentials
             && InWindow(u.credentials[o.credential], u.communities[community]))
  }

  /**
   * `addCredential` reads the next sequence in the same way, but there a stale reading does no harm: the whole
   * invariant holds afterwards whatever was served in between, and the device counts at the very next commit.
   */
  lemma {:induction false} StaleAddition(before: seq<Operation>, between: seq<Operation>, community: Id, controller: Id, key: string)
    requires var s := Run(EMPTY, before);
      community in s.communities && controller in s.controllers && s.controllers[controller] == community
    ensures var s := Run(EMPTY, before); var t := Run(s, between);
            LateWriteIsFine(t, community, controller, key, s.communities[community])
  {
    var s := Run(EMPTY, before);
    ReachableInv(before);
    StillThere(s, between, community, controller);
    LateWrite(Run(s, between), community, controller, key, s.communities[community]);
  }

  lemma LateWrite(t: State, community: Id, controller: Id, key: string, q: int)
    requires Inv(t) && community in t.communities && 1 <= q <= t.communities[community]
    requires controller in t.controllers && t.controllers[controller] == community
    ensures LateWriteIsFine(t, community, controller, key, q)
  {
    var row := Credential(community, key, controller, q - 1, None);
    WritingCredential(t, community, controller, key, q - 1);
    InsertedKeepsInv(t, WriteCredential(t, community, controller, key, q - 1).0, t.nextId, row);
  }

  lemma {:induction false} StillThere(s: State, ops: seq<Operation>, community: Id, controller: Id)
    requires Inv(s) && community in s.communities && controller in s.controllers
    ensures var t := Run(s, ops);
            && Inv(t) && community in t.communities && 1 <= s.communities[community] <= t.communities[community]
            && controller in t.controllers && t.controllers[controller] == s.controllers[controller]
  {
    FirstSequence(s, community);
    RunGrows(s, ops);
    RunKeepsController(s, ops, controller);
  }

  lemma JournalledSignedBy(s: State, tx: Id, t: State, e: Evidence)
    requires Journals(s, tx, t) && e in s.proposals[tx].evidence
    ensures t.credentials == s.credentials
    ensures e.credential in s.credentials && s.credentials[e.credential].community in s.communities
    ensures !QuietFrom(t, e.credential, s.communities[s.credentials[e.credential].community])
  {
    assert Eligible(s, s.proposals[tx].payload, e, s.communities[s.proposals[tx].payload.community]);
    assert e in t.journal[|s.journal|].evidence;
  }

  /** `revokeCredential` reads the sequence, another request commits, the revocation is written: the new row is
      now outside its signer's window. Done in one step after the commit, the same revocation is harmless. */
  lemma InterleavedRevocation(s: State, tx: Id, e: Evidence)
    requires Inv(s) && FreshCommit(s, tx) && e in s.proposals[tx].evidence
    requires e.credential in s.credentials && s.credentials[e.credential].revocation.None?
    ensures var community := s.credentials[e.credential].community; var t := CommitStep(s, tx).0;
            && community in s.communities && e.credential in t.credentials
            && !WindowsHold(WriteRevocation(t, e.credential, s.communities[community]))
            && WindowsHold(RevokeStep(t, community, e.credential).0)
  {
    var t := CommitStep(s, tx).0;
    var community := s.credentials[e.credential].community;
    FreshCommitJournals(s, tx);
    JournalledSignedBy(s, tx, t, e);
    CommitKeepsInv(s, tx);
    WriteKeepsWindows(t, e.credential, s.communities[community]);
    RevokeKeepsInv(t, community, e.credential);
    InvGivesWindows(RevokeStep(t, community, e.credential).0);
  }
}
