# STIR: settlement, governance and wire formats

A model of what the STIR deployment repository fixes about the systems it deploys, with proofs over every input and every
run. The STIR backend and the Seven Keys server are not in that repository; what is modelled here is the code that is
(the osTRIS patch, the end-to-end drivers, the fault proxy, the operational scripts) and the rules of those two servers
that the drivers' expected statuses and the patch's own tests pin down.

- **osTRIS ledger** (`Ledger`, `LedgerProofs`, `LedgerTheorems`, `LedgerKeys`, `LedgerEffects`, `OstrisDatabase`): communities, units, accounts,
  credentials with activation and revocation windows, proposals, the journal. `Ledger` states each transactional method
  as a step on the tables; `OstrisDatabase.Database` is the service with its tables as fields and is proved to take
  exactly those steps; the theorems hold of every run from the empty database.
- **Trades over a faulty network** (`Negotiation`, `FaultRegister`, `TradeProtocol`, `TradeProofs`, `TradeEffects`, `TradeDriver`): STIR
  and osTRIS from the first offer to the journal, with refused, timed-out and dropped commits between them, any number of
  them in flight, retries and synchronisations in any order.
- **Seven Keys governance** (`SevenKeys`, `SevenKeysProofs`, `SevenKeysTheorems`, `SevenKeysEffects`, `SevenKeysLog`,
  `SevenKeysTexts`, `SevenKeysDriver`): seats, Guardian, proposals, signatures, suspension, rotation, removal, with
  WebAuthn counters and the event log. Evidence is over the canonical JSON message of `CanonicalOrder`, so what cannot
  be replayed follows from the codec.
- **Codecs** (`Bytes`, `Base64Url`, `Cbor`, `WebAuthn`, `TextOrder`, `CanonicalJson`, `CanonicalOrder`, `Uuid7`,
  `ChunkedBody`): printers as the drivers write them, parsers as their specification.
- **Operations** (`PrepareShell`, `Deploy`, `Backup`): resumable patch application, deployment with rollback, retention.

`dafny verify dfyconfig.toml` checks the whole project.

What the proofs show to be false of the code, each with its exact condition:

- The 43-character key pattern accepts strings that are not canonical base64url: an accepted string encodes the key it
  decodes to exactly when the last character's two spare bits are zero (`Base64Url.AcceptedKeysDecode`). Keys are
  compared as strings, so a community can hold one key under two credentials, and up to four: adding a key that any
  number of devices hold, or activating a participant with it, is refused exactly when one of them spelled it the same
  way (`LedgerKeys.RefusedExactly`, `LedgerKeys.ActivationRefusedExactly`, `LedgerKeys.SameKeyTwice`), and a fifth
  spelling is never accepted (`LedgerKeys.AtMostFourTimes`, `LedgerKeys.NoFifthSpelling`).
- `revokeCredential` reads the next sequence without a lock. Were other requests served between its read and its write,
  every window would hold afterwards exactly when the device signed none of the rows committed meanwhile
  (`LedgerTheorems.StaleRevocation`). `addCredential` reads it in the same way, and there it does no harm
  (`LedgerTheorems.StaleAddition`).
- The rollback of a deployment gives a service back its old image exactly in production and for the seven services on
  the script's list, or where the build had not moved its tag (`Deploy.RollbackRestoresExactly`,
  `Deploy.RollbackRunsExactly`). Three services that compose builds are not listed, and in development it retags
  `stir-main-*` while compose names the project `stir-dev` (`Deploy.NewImageStays`). A failed build or start is not
  rolled back at all (`Deploy.FailedBuildIsNotRolledBack`).
- The reverse-apply probe recognises what was applied exactly when the patches agree on every place they share
  (`PrepareShell.ProbeRecognisesExactly`), although the documentation offers it as the answer to stacked patches. Of two
  patches in order, whatever of them stood in the tree to begin with, a second run gets through exactly when they agree
  or the second undoes the first (`PrepareShell.StackedPatchesRerunExactly`).

## Model

| member | source | states |
|---|---|---|
| LedgerProofs.StepKeepsInv | patches/ostris-0.4-public-application-surface.patch:285-397 | every service method keeps balances equal to the fold of the journal, floors respected, sequences consecutive, keys and unit codes unique, and each row's evidence inside its windows |
| LedgerTheorems.BalancesProjectTheJournal | patches/ostris-0.4-public-application-surface.patch:666-672 | in every reachable database each balance is the sum of the account's journal entries and not below its credit floor |
| LedgerTheorems.SequencesAreGapFree | patches/ostris-0.4-public-application-surface.patch:658-659 | every number from 1 up to a community's next sequence names exactly one journal row of that community |
| LedgerTheorems.Conservation | scripts/audit_economic_commit_e2e.py:140-144 | the balances of a unit add up to what its journal rows fail to balance, so nothing but an unbalanced row creates value |
| LedgerTheorems.BalancedUnitIsZero | scripts/audit_economic_commit_e2e.py:140-144 | in every reachable state the balances of a unit whose rows all balance add up to zero |
| LedgerTheorems.CommitExactly | patches/ostris-0.4-public-application-surface.patch:640-700 | a commit of an open proposal succeeds if and only if every account has evidence, all evidence is eligible at the next sequence and no touched account would end below its floor; what every table then holds; a refusal changes nothing |
| LedgerTheorems.FloorBreachExactly | patches/ostris-0.4-public-application-surface.patch:690-699 | the commit is refused for a credit floor if and only if every account has evidence, all of it is eligible and some touched account would end below its floor |
| LedgerTheorems.RefusalChangesNothing | patches/ostris-0.4-public-application-surface.patch:690-699 | any refused operation leaves every table as it was |
| LedgerTheorems.CommitOnce | scripts/audit_economic_commit_e2e.py:152-166 | after any further operations, committing again changes nothing and returns the first receipt |
| LedgerTheorems.RunIsLater | patches/ostris-0.4-public-application-surface.patch:353-397 | over any run the journal and the evidence only grow, a revocation once written is never moved, and a COMMITTED proposal keeps its sequence |
| LedgerTheorems.AtMostOnce | scripts/audit_economic_commit_e2e.py:163-166 | a proposal is COMMITTED if and only if the journal holds its transaction, and the journal never holds one twice |
| LedgerTheorems.TransactionViewConsistent | patches/ostris-0.4-public-application-surface.patch:217-234 | the status read of one state shows sequence and digest together or neither, and the digest belongs to that sequence |
| LedgerTheorems.StatusReadAcrossCommits | patches/ostris-0.4-public-application-surface.patch:218-229 | its three reads are separate statements, with any operations served between them: a sequence shown comes with its own digest, a digest without a sequence is shown if and only if the transaction was committed between the first read and the last, and no evidence of the first moment is missing |
| LedgerTheorems.EveryMoveWasAuthorized | patches/ostris-0.4-public-application-surface.patch:307-351 | each entry of each row was signed, over that very transaction, by a device of the account's one controller, inside its window |
| LedgerTheorems.WindowsHoldForever | patches/ostris-0.4-public-application-surface.patch:353-397 | no later operation, revocation included, puts an old row outside the window of a credential that signed it |
| LedgerTheorems.AddedDeviceWorksAtOnce | patches/ostris-0.4-public-application-surface.patch:353-383 | an added device is inside its window at the very next commit and at every later one, exactly until it is revoked |
| LedgerTheorems.SpoiledNeverCommits | patches/ostris-0.4-public-application-surface.patch:780-806 | a proposal carrying evidence from a revoked credential, or evidence that is not genuine, commits in no continuation |
| LedgerTheorems.StaleRevocation | patches/ostris-0.4-public-application-surface.patch:386-397 | from any reachable state in which the revocation reads its sequence, over any operations served before it writes: every window holds afterwards if and only if the device signed none of the rows committed in between |
| LedgerTheorems.InterleavedRevocation | patches/ostris-0.4-public-application-surface.patch:386-397 | one commit signed by the device in between leaves a row outside its window, while revoking in one step after it does not |
| LedgerTheorems.StaleAddition | patches/ostris-0.4-public-application-surface.patch:366-383 | from any reachable state in which `addCredential` reads its sequence, over any operations served before it inserts: the whole invariant holds afterwards and the device counts at the very next commit |
| LedgerKeys.RefusedExactly | patches/ostris-0.4-public-application-surface.patch:366-379 | in any reachable state, adding a key held by any number of devices is refused if and only if one of them spelled it the same way, and accepted otherwise |
| LedgerKeys.ActivationRefusedExactly | patches/ostris-0.4-public-application-surface.patch:332-338 | so is activating a participant with it |
| LedgerKeys.SameKeyTwice | patches/ostris-0.4-public-application-surface.patch:370-379 | adding a registered key in a spelling not yet used is accepted, and two credentials then decode to the same bytes |
| LedgerKeys.AtMostFourTimes | patches/ostris-0.4-public-application-surface.patch:280 | no reachable community holds one key more than four times |
| LedgerKeys.NoFifthSpelling | patches/ostris-0.4-public-application-surface.patch:374-379 | once four devices hold a key, every spelling of it is refused |
| LedgerEffects.RevocationExactly | patches/ostris-0.4-public-application-surface.patch:386-397 | in a sound state a revocation is accepted if and only if it is of a credential of that community not yet revoked; then that credential's revocation is the next sequence and every other row is as it was |
| LedgerEffects.RevokedForGood | patches/ostris-0.4-public-application-surface.patch:819-821 | after an accepted revocation in any reachable state, over any further operations, no further journal row holds evidence of that device, and revoking it again is refused as already done |
| LedgerEffects.RevokedIsNotEligible | patches/ostris-0.4-public-application-surface.patch:780-791 | with evidence of a device revoked in the meantime an otherwise complete commit is refused as not eligible, after any further operations |
| LedgerEffects.RefusedForEvidence | patches/ostris-0.4-public-application-surface.patch:790-794 | an open commit is refused as incomplete if and only if some account has no evidence, and as not eligible if and only if every account has some and some of it does not count |
| LedgerEffects.FloorIsTheRequestedOne | patches/ostris-0.4-public-application-surface.patch:313-351 | an accepted activation opens a new account with the floor it asked for, -100000 if none, and balance 0, under a new controller whose one device has the key presented; over any further operations the balance never falls below that number and the device counts exactly until it is revoked |
| LedgerEffects.UnitIsTheRequestedOne | patches/ostris-0.4-public-application-surface.patch:293-305 | a unit is created if and only if its community exists, its code is well formed and unused there and its scale is 0 to 18, and it keeps code and scale for ever |
| LedgerEffects.CommunityBegins | patches/ostris-0.4-public-application-surface.patch:285-291 | a named community is created with sequence 1 to give out and nothing in it; a blank name changes nothing |
| LedgerEffects.ProposalWaits | patches/ostris-0.4-public-application-surface.patch:640-647 | a proposal is taken if and only if its unit and accounts are of its community and its transaction is new, and waits without evidence, its commit refused as incomplete |
| LedgerEffects.EvidenceShows | patches/ostris-0.4-public-application-surface.patch:651-654 | evidence for a proposal there is shows in its status at once, behind what was there, and changes nothing else |
| LedgerEffects.RefusalsAreTrue | patches/ostris-0.4-public-application-surface.patch:285-397 | a provisioning or proposing request is refused if and only if something speaks against it, and what the answer says is true: missing before malformed, malformed before duplicate |
| LedgerEffects.UnitCodes | patches/ostris-0.4-public-application-surface.patch:279 | lengths 1 to 16 are accepted and no other |
| LedgerEffects.UnitCodeChars | patches/ostris-0.4-public-application-surface.patch:279 | exactly A to Z may lead, and those, digits, '_' and '-' may follow |
| LedgerEffects.Blanks | patches/ostris-0.4-public-application-surface.patch:287 | which names count as blank, by examples: white space does, the no-break space does not |
| OstrisDatabase.Database.ActivateParticipant | patches/ostris-0.4-public-application-surface.patch:313-351 | takes exactly the specified step: the account has the floor asked for, -100000 if none; a duplicate key found half-way rolls back the account inserted before it |
| OstrisDatabase.Database.RevokeCredential | patches/ostris-0.4-public-application-surface.patch:386-397 | takes exactly the specified step: accepted, the revocation is the next sequence and no other credential changes; unknown and already revoked are told apart |
| OstrisDatabase.Database.PostEntries | patches/ostris-0.4-public-application-surface.patch:658-672 | the posting loop moves each balance by its entries, one after another |
| OstrisDatabase.Database.Commit | patches/ostris-0.4-public-application-surface.patch:658-700 | posting entry by entry and looking at the floors last has exactly the effect of the specified step, and none when refused |
| Negotiation.ActsStaySound | scripts/audit_economic_commit_e2e.py:57-72 | over any offers and acceptances the version counts what was accepted, and an agreement has the amount of the head offer and an acceptor who did not author it |
| Negotiation.AgreementIsTheHeadOffer | scripts/economic_exchange_e2e.py:49-64 | whatever the sequence of offers, the agreement is the last one, between the two parties, paid by the initiator for OFFER and by the owner for WANTED |
| Negotiation.VersionPinsTheOffer | scripts/economic_exchange_e2e.py:56-63 | an acceptance made with the version a party read succeeds only if no offer came in between |
| Negotiation.Record.PostOffer | scripts/audit_economic_commit_e2e.py:62-64 | the row takes exactly the specified step |
| Negotiation.Record.PostAccept | scripts/audit_economic_commit_e2e.py:70-71 | the row takes exactly the specified step: only the head offer, only by the party who did not author it |
| Negotiation.OpenAndAccept | scripts/audit_economic_commit_e2e.py:57-72 | with or without a counter-offer the requests end in an agreement at the returned amount, accepted by the party who did not speak last |
| FaultRegister.LeftIsTheLastArm | scripts/audit_ostris_fault_proxy.py:24-38 | after any requests the register holds the last mode armed since the last commit took it, or normal |
| FaultRegister.OneShot | scripts/audit_ostris_fault_proxy.py:35-38 | one armed fault meets at most one commit |
| FaultRegister.Register.DoPost | scripts/audit_ostris_fault_proxy.py:24-46 | the mode a request meets and the register it leaves; each of the four names is answered 204 and arms the mode it names, any other is answered 400 and arms nothing |
| TradeProofs.PlayKeepsOk | scripts/audit_economic_commit_e2e.py:74-98 | every interleaving of negotiation, activation, authorization, sync, faults and commits in flight, each going out, handled and coming back at its own time, keeps STIR and osTRIS consistent |
| TradeProofs.ShownCommittedIsTrue | scripts/economic_exchange_e2e.py:107-155 | over all events from the first offer on: if STIR shows COMMITTED, the journal holds exactly one row for the trade, with the sequence and digest shown, moving the head offer's amount, accepted by the party who did not make it, from initiator to owner for OFFER and from owner to initiator for WANTED |
| TradeProofs.OneTransactionPerAgreement | scripts/audit_economic_commit_e2e.py:152-166 | two agreements never share a transaction, and activating an agreement again answers with its one trade and changes nothing |
| TradeProofs.FaultsLeaveNoTrace | scripts/audit_ostris_fault_proxy.py:35-46 | the ledger after any faulty run is the ledger after a fault-free run of the calls that got through |
| TradeProofs.CommittedAnswers | scripts/audit_economic_commit_e2e.py:146-156 | once osTRIS has committed, a sync and an unfaulted commit both show its sequence and digest, and neither moves the ledger |
| TradeProofs.RefusedCommitChangesNothing | scripts/audit_economic_commit_e2e.py:192-203 | a commit of an open trade is answered with an osTRIS refusal if and only if no fault meets it and osTRIS refuses, and then both sides are as they were |
| TradeProofs.PolicyRejectionExactly | scripts/audit_economic_commit_e2e.py:184-203 | in any consistent state a commit of an open trade is turned down for a credit floor if and only if no fault meets it, the signatures are complete and good and the payer or the payee would end below the floor |
| TradeProofs.ReceiptIsRecovered | scripts/audit_economic_commit_e2e.py:94-98 | after a commit whose response was lost, and anything since, a sync shows exactly its receipt, and so does a commit if and only if no newly armed fault meets it |
| TradeProofs.ReceiptNeverChanges | scripts/audit_economic_commit_e2e.py:146-156 | a receipt STIR shows is never replaced: not by a response still on its way, a retry or a synchronisation |
| TradeProofs.ResponsesAreTrue | scripts/audit_ostris_fault_proxy.py:65-77 | a response arriving at any later time is shown as an error, a refusal or the receipt osTRIS stored |
| TradeProofs.CommitIsThreeEvents | scripts/audit_ostris_fault_proxy.py:35-77 | a commit nothing interrupts is sending, upstream handling and receiving, one after another |
| TradeProofs.AttemptsCommitOnce | scripts/audit_economic_commit_e2e.py:86-98 | any number of attempts under any faults, each armed by its name, moves the ledger as one commit does, or not at all when none got through |
| TradeProofs.MarketplaceSumsToZero | scripts/economic_exchange_e2e.py:118-121 | in a marketplace moved by trades the balances of its unit add up to zero |
| TradeEffects.FaultByName | scripts/audit_ostris_fault_proxy.py:24-46 | after arming "unavailable_once" or "timeout_once" the next commit is answered 503 and nothing has moved, after "drop_after_once" it is answered 503 and the ledger is the one the commit leaves, after "normal" the answer is shown; any other name is refused and arms nothing |
| TradeEffects.NobodyOwesMore | scripts/audit_economic_commit_e2e.py:184-203 | whatever is negotiated, committed and lost, nobody activated through STIR is ever below -100000 |
| TradeEffects.AnswersAreTrue | scripts/audit_economic_commit_e2e.py:57-98 | STIR answers not found if and only if what the request names is not there, or the trade is not the user's, and a conflict if and only if it is there in the wrong state; either way nothing changes |
| TradeEffects.RefusalsArePassedOn | scripts/audit_economic_commit_e2e.py:74-79 | an activation or proposal that osTRIS refuses is answered with its error and changes nothing on either side; one it accepts is done |
| TradeEffects.KnownReceiptIsShown | scripts/audit_economic_commit_e2e.py:146-156 | a commit of a trade whose receipt STIR has is answered with it, and nothing is sent |
| TradeDriver.RunExchange | scripts/audit_economic_commit_e2e.py:74-98 | for every system in which both can sign and the floors allow it, and each fault plan: the unsigned commit is refused as incomplete, each faulted one is answered 503, and it ends COMMITTED with exactly one new row |
| TradeDriver.Collect | scripts/audit_economic_commit_e2e.py:82-85 | the signing loop leaves the trade waiting with both parties' evidence over the payload fetched |
| TradeDriver.FaultedAttempt | scripts/audit_economic_commit_e2e.py:87-93 | a commit after arming "unavailable_once" or "timeout_once" is answered 503 and leaves both sides and the register as they were |
| TradeDriver.Settle | scripts/audit_economic_commit_e2e.py:86-98 | under any plan the trade ends settled by one commit step, through a sync if the response was dropped |
| TradeDriver.OpenAndAcceptOn | scripts/audit_economic_commit_e2e.py:57-72 | the negotiation requests, made to the stack, change only that negotiation and end in the agreement at the returned amount |
| TradeDriver.RejectedExchange | scripts/audit_economic_commit_e2e.py:184-203 | whenever both parties sign and a floor forbids the transfer, the commit is rejected, no balance and no journal row has moved and the trade waits with both signatures |
| TradeDriver.WholeExchange | scripts/audit_economic_commit_e2e.py:129-182 | from the first offer to the journal under any fault plan: one new row, moving the last amount named in the direction of the listing, with the receipt STIR shows |
| SevenKeysProofs.StepKeepsInv | scripts/governed_boundary_e2e.py:72-126 | every governance request keeps one credential per seat, at most one suspension, authentic signatures made while active, and one amendment per version |
| SevenKeysProofs.RunKeepsInv | scripts/market_integrity_e2e.py:68-115 | over any run, and nothing recorded is lost: controllers, keys, counters, signatures, versions and events only grow |
| SevenKeysProofs.BootstrapInv | scripts/market_integrity_e2e.py:34-45 | an accepted bootstrap has seven seats, each active under its own credential and the key it presented, none of them the Guardian's, and the first constitution in force |
| SevenKeysTheorems.BootstrapBindsEverything | scripts/market_integrity_e2e.py:37-43 | a possession message is for one community, one list of seats, one Guardian and one constitution |
| SevenKeysTheorems.VersionsAreUnanimous | scripts/governed_boundary_e2e.py:72-104 | every version after the first is one activated amendment, its own, signed by all seven seats, each with the credential active for it at that moment, and by no one else |
| SevenKeysTheorems.AmendmentsBecomeVersions | scripts/governed_boundary_e2e.py:93-104 | every activated amendment is exactly one version |
| SevenKeysTheorems.AmendmentExactly | scripts/market_integrity_e2e.py:68-74 | activation succeeds if and only if the amendment is open, all seven seats signed and no seat is suspended; it appends exactly one version |
| SevenKeysTheorems.SuspensionHolds | scripts/market_integrity_e2e.py:76-104 | over any run a suspended seat stays suspended under an unmoved constitution, until a rotation signed by the other six, the Guardian and the new key |
| SevenKeysTheorems.OneSuspensionAtATime | scripts/market_integrity_e2e.py:84-85 | no reachable state has two suspended seats |
| SevenKeysTheorems.RotationSeatsTheNewKey | scripts/webauthn_hardware_custody_e2e.py:266-305 | after a rotation the new credential is active at once, with the key and the kind of key proposed, the old one is revoked and kept, the controller is the same, no seat is suspended |
| SevenKeysTheorems.StoodDownNeverSigns | scripts/webauthn_hardware_custody_e2e.py:229-246 | a suspended or revoked credential stays in the history with its key and signs nothing in any continuation |
| SevenKeysTheorems.ReplacementTookSixSeats | scripts/market_integrity_e2e.py:96-105 | every revoked credential was replaced by a rotation that the six other seats signed while active |
| SevenKeysTheorems.RemovalTookFiveSeats | scripts/market_integrity_e2e.py:109-113 | a removed Guardian was removed by a proposal at least five distinct seats signed while active |
| SevenKeysTheorems.RemovalExactly | scripts/market_integrity_e2e.py:109-113 | activation removes the Guardian if and only if the proposal is open, five different seats signed it and a Guardian is there |
| SevenKeysTheorems.EvidenceSignsOnce | scripts/webauthn_hardware_custody_e2e.py:179-208 | evidence a credential signed with is never accepted from it again, for the same proposal or any other, in any continuation |
| SevenKeysTheorems.SignedSeatIsRefused | scripts/webauthn_hardware_custody_e2e.py:179-204 | a seat that signed a proposal signs it no second time in any continuation, whatever is presented: fresh acceptable evidence is a conflict and adds nothing |
| SevenKeysTheorems.SharedKeyExactly | scripts/market_integrity_e2e.py:58-61 | used evidence is accepted again if and only if another seat, not yet signed, presents it on the same open proposal under an active credential with the same key |
| SevenKeysTheorems.OneSignatureTwoSeats | scripts/market_integrity_e2e.py:34-45 | seats bootstrapped with one key reach a state in which one signature signs for two |
| SevenKeysTheorems.CountersOnlyRise | scripts/webauthn_hardware_custody_e2e.py:189-204 | once a nonzero counter is accepted, no assertion of that credential with that counter or a smaller one is |
| SevenKeysTheorems.MessageNamesTheProposal | scripts/webauthn_hardware_custody_e2e.py:205-227 | the message of one proposal is the message of no other proposal, community or action: equal messages name the same seats, credentials, keys and controllers, or the same document |
| SevenKeysTheorems.OtherDomainsNeverSign | scripts/governed_boundary_e2e.py:83-84 | evidence made under the Guardian, possession, bootstrap or trade domain is never a seat's signature, whatever key made it: from the seat's own credential on an open proposal it is a bad request |
| SevenKeysTheorems.DomainsDiffer | scripts/market_integrity_e2e.py:11-14 | the four governance domains and the one osTRIS signs trades under are pairwise distinct |
| SevenKeysTheorems.SuspensionSignedOnce | scripts/governed_boundary_e2e.py:111-124 | the Guardian's evidence for one suspension is accepted for no later one |
| SevenKeysTheorems.OneSuspension | scripts/market_integrity_e2e.py:76-83 | what the Guardian signs to suspend names one community, seat, credential and sequence number |
| SevenKeysTheorems.GuardianEvidenceUsedOnce | scripts/webauthn_hardware_custody_e2e.py:237-299 | evidence the Guardian gave for a suspension or a rotation is never used again, for another suspension, another rotation or one as the other |
| SevenKeysTheorems.GuardianCountersOnlyRise | scripts/webauthn_hardware_custody_e2e.py:237-299 | once a nonzero counter of the Guardian's is used, none equal or smaller is, in suspensions and rotations alike |
| SevenKeysTheorems.GuardianNeverSigns | scripts/governed_boundary_e2e.py:87-88 | the Guardian's credential presented for any seat is refused with a conflict, now and after any run |
| SevenKeysTheorems.ExecutedIsClosed | scripts/governed_boundary_e2e.py:102-104 | an activated proposal refuses every further signature and activation, for ever |
| SevenKeysTheorems.ControllersNeverChange | scripts/market_integrity_e2e.py:89-94 | no proposal to replace a controller is ever activated and no command changes a controller |
| SevenKeysEffects.SigningExactly | scripts/governed_boundary_e2e.py:76-90 | when a signature is answered not found, conflict, bad request or accepted: it is accepted if and only if the proposal is open, the credential is the seat's active one, the evidence is by its key, of its kind, over this message with a counter that advances, and the seat has not signed |
| SevenKeysEffects.SigningLeaves | scripts/governed_boundary_e2e.py:93-97 | an accepted signature is on its proposal and in the log, the credential's counter is the one shown, and nothing else has changed |
| SevenKeysEffects.ActivatingExactly | scripts/market_integrity_e2e.py:68-95 | but for rotations: an activation is not found if unknown, accepted if and only if open with seven signatures on an amendment and no seat suspended, or five on a removal and a Guardian there, and else a conflict; never a change of controller |
| SevenKeysEffects.BootstrapExactly | scripts/market_integrity_e2e.py:34-45 | a bootstrap is accepted if and only if it has seven seats under different credentials, none the Guardian's, and eight proofs over the whole request, each by the key it is for |
| SevenKeysEffects.BootstrapLeaves | scripts/market_integrity_e2e.py:41-45 | it begins with those seats and credentials, each counter at the one its proof showed, the first version and nothing proposed |
| SevenKeysEffects.ProposingExactly | scripts/market_integrity_e2e.py:55-57 | a proposal under an identifier in use is a conflict; any other waits, open and unsigned, and only it and its event are new |
| SevenKeysEffects.SuspendingExactly | scripts/market_integrity_e2e.py:76-85 | a suspension is a conflict if there is no Guardian, the sequence is not the next, a seat is suspended or the credential is not the seat's active one; a bad request if the Guardian did not sign it; else accepted |
| SevenKeysEffects.SuspendingLeaves | scripts/market_integrity_e2e.py:76-87 | an accepted suspension stands that credential down, moves the Guardian's counter, is in the log, and changes nothing else |
| SevenKeysEffects.RotatingExactly | scripts/market_integrity_e2e.py:96-102 | a rotation is a conflict unless six seats signed it while open, its seat is suspended, it names that seat's credential and controller, a Guardian is there and the identifier is unused; a bad request unless Guardian and incoming key signed it; else accepted |
| SevenKeysEffects.RotatingLeaves | scripts/market_integrity_e2e.py:102-105 | an accepted rotation seats the new credential, revokes the old one, moves the Guardian's counter, closes the proposal, is in the log, and changes nothing else |
| SevenKeysEffects.RotatedKeySigns | scripts/webauthn_hardware_custody_e2e.py:284-319 | after an accepted rotation the seat signs any other open proposal it has not signed if and only if with the key the rotation named, as the kind of key it named, from the counter of the possession proof on |
| SevenKeysEffects.PossessionCounterIsUsedUp | scripts/webauthn_hardware_custody_e2e.py:297-299 | a nonzero counter shown in the possession proof, or a smaller one, is accepted in no continuation |
| SevenKeysEffects.FirstKeysSign | scripts/market_integrity_e2e.py:34-61 | a bootstrapped seat signs a proposal if and only if with the key it proved, as the kind of key it was, from the counter of its proof on |
| SevenKeysEffects.BootstrapCountersAreUsedUp | scripts/market_integrity_e2e.py:37-44 | no nonzero counter shown at the bootstrap, by a seat or by the Guardian, is accepted in any continuation |
| SevenKeysEffects.EveryKeyWasProved | scripts/market_integrity_e2e.py:37-43 | after any run every credential was proved by its own key, over the bootstrap request or over the very rotation that enrolled it |
| SevenKeysEffects.RemovedGuardianIsPowerless | scripts/market_integrity_e2e.py:109-113 | once the Guardian is removed every suspension and every rotation is refused with a conflict in every continuation, so a seat then suspended stays so and the constitution with it |
| SevenKeysLog.LogTellsEverything | scripts/market_integrity_e2e.py:114-116 | after any run from a bootstrap, replaying the event log with every rule checked again succeeds and ends in the authority's own seats, suspension, Guardian, versions, signers and executed proposals |
| SevenKeysTexts.SignedText | scripts/market_integrity_e2e.py:16-23 | the message a seat signs, byte for byte: domain, zero byte, members in order, each value |
| SevenKeysTexts.SuspensionText | scripts/market_integrity_e2e.py:80-83 | the message the Guardian signs to suspend a seat, byte for byte |
| SevenKeysTexts.RotationText | scripts/market_integrity_e2e.py:97-99 | what a rotation says of seat, credentials, key, kind of key and controller, byte for byte |
| SevenKeysTexts.OtherTexts | scripts/market_integrity_e2e.py:89-109 | what a removal and a change of controller say, byte for byte |
| SevenKeysTexts.BootstrapText | scripts/market_integrity_e2e.py:37-43 | the message that proves the keys at the bootstrap, byte for byte around the list of seats |
| SevenKeysTexts.SeatText | scripts/market_integrity_e2e.py:34 | and each seat in that list |
| SevenKeysDriver.Authenticator.Produce | scripts/webauthn_hardware_custody_e2e.py:161-167 | an assertion that any server with a stored counter not above the authenticator's accepts |
| SevenKeysDriver.SignSeats | scripts/market_integrity_e2e.py:58-61 | a signing loop over any distinct seats is accepted at each step and adds exactly those signatures |
| SevenKeysDriver.SignSeat | scripts/market_integrity_e2e.py:58-61 | one seat's signature is accepted, and nothing changes but that proposal's signatures, the counters and the log |
| SevenKeysDriver.SuspendSeat | scripts/market_integrity_e2e.py:76-84 | the Guardian's suspension at the sequence just read is accepted and only that seat is suspended |
| SevenKeysDriver.SuspendAnother | scripts/market_integrity_e2e.py:85 | while a seat is suspended every suspension is refused with a conflict and changes nothing |
| SevenKeysDriver.RotateTooEarly | scripts/market_integrity_e2e.py:100-101 | with any other seat's signature missing a rotation is refused with a conflict and changes nothing |
| SevenKeysDriver.AmendmentRun | scripts/market_integrity_e2e.py:68-74 | from any state with no seat suspended: six signatures are refused with a conflict and counted as six, the seventh carries the amendment |
| SevenKeysDriver.RecoveryRun | scripts/market_integrity_e2e.py:76-104 | from any such state: one suspension, a second one refused, rotation refused at five signatures and carried at six, controller and constitution unchanged |
| Base64Url.RoundTrip | scripts/webauthn_hardware_custody_e2e.py:35-36 | decoding the unpadded encoding of any bytes gives them back; its length is never 1 mod 4 |
| Base64Url.SameNumber | scripts/webauthn_hardware_custody_e2e.py:35 | the indices of a group are, in base 64, the number its three bytes are in base 256 |
| Base64Url.PublishedExamples | scripts/webauthn_hardware_custody_e2e.py:35 | an example of section 10 of RFC 4648, and the two characters that differ from plain base64 |
| Base64Url.DecodesExactly | scripts/webauthn_hardware_custody_e2e.py:36 | a string of the alphabet decodes unpadded unless its length is 1 mod 4, and with k '=' signs if and only if k is at most 2 and completes a multiple of four |
| Base64Url.CanonicalExactly | scripts/webauthn_hardware_custody_e2e.py:36 | a string of the alphabet decodes unless its length is 1 mod 4, and encodes back to itself if and only if its spare bits are zero |
| Base64Url.KeysAreAccepted | scripts/market_integrity_e2e.py:21 | every 32-byte key encodes to a string the service's pattern accepts |
| Base64Url.AcceptedKeysDecode | patches/ostris-0.4-public-application-surface.patch:280 | every accepted string decodes to 32 bytes and is their canonical encoding if and only if the last two bits are zero |
| Base64Url.SameKeyExactly | patches/ostris-0.4-public-application-surface.patch:280 | two accepted strings are the same key if and only if they differ at most in the two spare bits |
| Base64Url.FourSpellings | patches/ostris-0.4-public-application-surface.patch:319-320 | changing only the spare bits gives another accepted spelling of the same key |
| Cbor.HeadIsShortest | scripts/webauthn_hardware_custody_e2e.py:41-45 | no head of the same type and argument is shorter than the one written |
| Cbor.RoundTrip | scripts/webauthn_hardware_custody_e2e.py:41-53 | decoding an encoding followed by any bytes gives the value and those bytes |
| Cbor.IntegerExamples | scripts/webauthn_hardware_custody_e2e.py:41-46 | the integers of appendix A of RFC 8949 in the subset encode as printed there |
| Cbor.StringExamples | scripts/webauthn_hardware_custody_e2e.py:47-49 | so do its strings |
| Cbor.MapExamples | scripts/webauthn_hardware_custody_e2e.py:50-53 | and its maps |
| Cbor.DecodesEncodingsOnly | scripts/webauthn_hardware_custody_e2e.py:41-53 | whatever the decoder reads is the encoding of the value it returns, so each value has one encoding |
| Cbor.PrefixFree | scripts/webauthn_hardware_custody_e2e.py:41-53 | no encoding is a prefix of another value's |
| Cbor.CborMap | scripts/webauthn_hardware_custody_e2e.py:50-53 | the appending loop writes the head and then the pairs, or fails on too many |
| Cbor.FlatIsEncodePairs | scripts/webauthn_hardware_custody_e2e.py:50-53 | what the loop appends is the encoding of the pairs it was given encoded |
| Bytes.LexLessExactly | scripts/webauthn_hardware_custody_e2e.py:55-59 | the bytewise order of map keys is decided by the first byte that differs, or by which one ends first |
| WebAuthn.CoseKeyEncodes | scripts/webauthn_hardware_custody_e2e.py:55-59 | every key encodes, and its map keys are in bytewise order of their encodings |
| WebAuthn.CoseBytesExactly | scripts/webauthn_hardware_custody_e2e.py:55-59 | the 77 bytes of every key, literally: an elliptic-curve key for ES256 on P-256 with its two coordinates |
| WebAuthn.CoseKeyRoundTrip | scripts/webauthn_hardware_custody_e2e.py:55-59 | whatever follows them, the bytes of a key read back to its two coordinates |
| WebAuthn.CoseLength | scripts/webauthn_hardware_custody_e2e.py:55-59 | every ES256 COSE key is 77 bytes |
| WebAuthn.PrintAuthenticatorData | scripts/webauthn_hardware_custody_e2e.py:61-66 | the appending method prints exactly the specified bytes, or fails on a counter or identifier too large |
| WebAuthn.AuthDataRoundTrip | scripts/webauthn_hardware_custody_e2e.py:61-66 | reading inverts printing for every hash, flags, counter, credential id and key; 37 bytes without attested data, the key found at its offset with it |
| WebAuthn.PrintsExactly | scripts/webauthn_hardware_custody_e2e.py:61-66 | printing succeeds if and only if the counter is below 2^32 and the credential id shorter than 2^16 |
| WebAuthn.PrintedBytes | scripts/webauthn_hardware_custody_e2e.py:61-66 | the bytes printed: hash, flags 01, 05, 41 or 45, counter, and with attested data sixteen zeros, the length, the id and the key |
| WebAuthn.ReadsPrintedOnly | scripts/webauthn_hardware_custody_e2e.py:61-66 | reading accepts printed data only, up to the sixteen bytes and the flag bits it does not read |
| WebAuthn.SignedBytesSplit | scripts/webauthn_hardware_custody_e2e.py:90-95 | authenticator data followed by a client-data hash determines both, so a signature over the bytes is over one assertion |
| WebAuthn.AttestationEncodes | scripts/webauthn_hardware_custody_e2e.py:68-69 | an attestation object encodes if and only if its data is shorter than 2^32, and its keys are in bytewise order |
| WebAuthn.AttestationBytes | scripts/webauthn_hardware_custody_e2e.py:68-69 | the bytes of every attestation object, literally, around its data behind the head of its length |
| WebAuthn.AttestationRoundTrip | scripts/webauthn_hardware_custody_e2e.py:61-69 | authenticator data with any flags, counter and attested part comes back out of its attestation object |
| WebAuthn.AttestationReadsOnly | scripts/webauthn_hardware_custody_e2e.py:68-69 | only attestation objects around such data are read |
| WebAuthn.RegistrationRoundTrip | scripts/webauthn_hardware_custody_e2e.py:76-84 | from the base64url text of a registration the server recovers the hash, flags, credential id and key that went in |
| CanonicalJson.TextParses | scripts/market_integrity_e2e.py:16-18 | the parser gives back every value whose text it is given, and whatever followed |
| CanonicalJson.WrittenAsIs | scripts/market_integrity_e2e.py:16-18 | a text is written as it is if and only if it has no quotation mark, backslash or control character, so nothing printable and no letter beyond ASCII is escaped |
| CanonicalJson.EscapesExactly | scripts/market_integrity_e2e.py:18 | the seven two-character escapes, and the six-character ones of the other control characters in lower-case hexadecimal |
| CanonicalJson.DecimalLayout | scripts/market_integrity_e2e.py:16-18 | an integer is written without leading zeros and with a sign if and only if it is negative |
| CanonicalOrder.CanonicalExactly | scripts/market_integrity_e2e.py:16-18 | two values have one canonical text if and only if they are equal as values, at every depth and whatever the insertion order |
| CanonicalOrder.CanonicalParsesBack | scripts/market_integrity_e2e.py:16-18 | a canonical text parses, as a whole, to an equal value |
| CanonicalOrder.InsertionOrderIsLost | scripts/market_integrity_e2e.py:18 | dictionaries with the same members in another order have the same canonical text |
| CanonicalOrder.DomainsSeparate | scripts/market_integrity_e2e.py:22-23 | for any domains whatever, two signed messages are the same if and only if domain and value are |
| Uuid7.FieldsAreRecovered | scripts/participant_independence_e2e.py:32-37 | for every clock and random draw the value is below 2^128, has version 7 and variant binary 10, and time and both random fields are where the standard puts them |
| Uuid7.GeneratedExactly | scripts/participant_independence_e2e.py:32-37 | a 128-bit value can be generated if and only if its version is 7 and its variant binary 10 |
| Uuid7.MaskIsRemainder | scripts/participant_independence_e2e.py:32-36 | masking with 2^k - 1 is the remainder by 2^k, for unbounded integers |
| Uuid7.OrOfApartIsSum | scripts/participant_independence_e2e.py:34-37 | the bitwise or of a shifted number and one below the shift is their sum |
| Uuid7.TextOrderIsValueOrder | scripts/participant_independence_e2e.py:37 | identifiers sort as canonical text exactly as they sort as numbers, and no two share a text |
| Uuid7.EarlierIsSmaller | scripts/participant_independence_e2e.py:32-37 | smaller 48-bit time means a smaller value and a smaller text, whatever the random bits |
| Uuid7.TextLayout | scripts/participant_independence_e2e.py:37 | the text of every value is 36 characters with hyphens after 8, 12, 16 and 20 digits, and the lower-case hexadecimal digits without them read back to the value |
| Uuid7.GeneratedText | scripts/participant_independence_e2e.py:29-37 | what is generated is a lower-case version 7 text: "7" at 14 and one of "89ab" at 19 |
| ChunkedBody.Stream.ReadLine | scripts/audit_ostris_fault_proxy.py:53 | reads up to and with the first line feed, or to the end, and no more |
| ChunkedBody.Stream.Read | scripts/audit_ostris_fault_proxy.py:58-59 | takes that many bytes, or what there is, and no more |
| ChunkedBody.ReadTrailers | scripts/audit_ostris_fault_proxy.py:54-57 | the inner loop stops just after the first blank line |
| ChunkedBody.Forward | scripts/audit_ostris_fault_proxy.py:49-62 | on every input the loop ends, and returns and leaves what the recursive reading of the stream says |
| ChunkedBody.ReadsWhatWasSent | scripts/audit_ostris_fault_proxy.py:50-60 | for any body in any non-empty chunks, any extensions and trailers, exactly the body is returned and the stream left just after the final blank line |
| ChunkedBody.SizeLineExactly | scripts/audit_ostris_fault_proxy.py:53 | a size line is read if and only if what stands before its first ';' is hexadecimal digits, at least one, with blanks around them |
| PrepareShell.PreparesExactly | scripts/prepare_shell.py:13-23 | for patches that touch different places preparation gets through if and only if each one already stands or applies to the tree as found |
| PrepareShell.ProbeRecognisesExactly | scripts/prepare_shell.py:3-6 | having got through, every patch is recognised as applied if and only if the patches agree on what each place they share comes to hold |
| PrepareShell.ElsewhereUntouched | scripts/prepare_shell.py:17-23 | a place no patch touches, or whose patch already stood, is never rewritten |
| PrepareShell.PreparingIsIdempotent | scripts/prepare_shell.py:19-20 | for patches that agree where they meet, running it again skips every one and changes nothing |
| PrepareShell.CleanStaysClean | scripts/prepare_shell.py:21-23 | got through or refused half way, no place is left with working tree and index at odds that was not so before |
| PrepareShell.DirtyIsRefused | scripts/prepare_shell.py:21-22 | a patch not there yet that touches a place where index and working tree differ is refused |
| PrepareShell.StackedPatchesRerunExactly | scripts/prepare_shell.py:19-22 | of two patches in order, whatever of them stood to begin with: having got through, a second run gets through if and only if they agree where they meet or the second undoes the first |
| PrepareShell.StackedPatchesExist | scripts/prepare_shell.py:19-22 | there are a tree and two patches whose second run is refused |
| PrepareShell.PrepareOne | scripts/prepare_shell.py:15-23 | the inner loop leaves the repository as specified, untracked files refusing it untouched |
| PrepareShell.Prepare | scripts/prepare_shell.py:10-23 | the outer loop prepares repositories in order and a refusal leaves the later ones as they were |
| Deploy.PassedRunsTheBuild | scripts/deploy.py:66-87 | when it returns normally every service that was built runs what was built, and the old images are kept under their own tags |
| Deploy.RollbackRestoresExactly | scripts/deploy.py:22-60 | after a health or smoke failure the compose tag of any service that had an image names it again if and only if this is production and the service is on the list, or the build had not moved it |
| Deploy.RollbackRunsExactly | scripts/deploy.py:56-64 | once compose is up again any service that had an image runs it again under the same condition |
| Deploy.PulledKeepRunning | scripts/deploy.py:20-22 | a pulled service, which runs under the name of its `image:` line, runs the same image after a deployment that passed and after one rolled back |
| Deploy.NewImageStays | compose.yml:77-100 | the services built but not listed, the governed verifier among them, run the new image after a rollback in production too; in development every rebuilt service does |
| Deploy.FailedBuildIsNotRolledBack | scripts/deploy.py:70-74 | a failed build or start raises and leaves every tag where the build left it |
| Deploy.OtherStackUntouched | scripts/deploy.py:19-60 | neither a deployment nor its rollback touches a tag of the other stack |
| Deploy.RollbackWritesStirMain | scripts/deploy.py:58-59 | in development the rollback binds each saved image to a `stir-main-*` name |
| Deploy.OneBadStatus | scripts/deploy.py:47 | one status with "starting", "unhealthy" or "Exit" anywhere in it makes a probe fail |
| Deploy.GoodStatuses | scripts/deploy.py:43-47 | the statuses of services that are up pass, and so do those of created and dead ones; no rows do not |
| Deploy.Host.TagAsPrevious | scripts/deploy.py:33-41 | the loop saves exactly the images of the listed services that have one |
| Deploy.Host.Retag | scripts/deploy.py:58-59 | the loop rebinds exactly the saved services to their saved images |
| Deploy.Host.RollBackTo | scripts/deploy.py:56-64 | the rollback of a saved state, whether compose comes up again or not |
| Deploy.Host.DeployStack | scripts/deploy.py:66-87 | outcome and tags are those of the specified run, and it returns normally if and only if build, start, some healthy probe before the deadline and smoke all succeeded |
| Deploy.WaitHealthy | scripts/deploy.py:43-54 | true if and only if some probe before the deadline found every row healthy and at least one row |
| Backup.NameOrderIsTimeOrder | scripts/backup.py:37-38 | directory names sort as their times do, and no two times share a name |
| Backup.StampLayout | scripts/backup.py:37-38 | a name is 16 characters, YYYYMMDDTHHMMSSZ, each field reading back to its number |
| Backup.SortedIsSorted | scripts/backup.py:27 | the listing is sorted by name with nothing lost or added |
| Backup.NewestAreKept | scripts/backup.py:27-29 | the newest min(keep, n) runs are left, all when keep is 0 or negative, and whatever goes is older than whatever stays |
| Backup.PrunedRunsAreOlder | scripts/backup.py:28-29 | a removed run began before a kept one |
| Backup.Backups.Prune | scripts/backup.py:25-30 | deleting one by one leaves the newest runs whatever order the directory was listed in |

## Left out

Assumptions, where the code that decides is not part of this repository:

- Each `@Transactional` method is one atomic step. `LedgerTheorems.StaleRevocation`, `LedgerTheorems.StaleAddition` and `LedgerTheorems.StatusReadAcrossCommits` say what the unlocked reads would show.
- One tenant; row-level isolation between tenants is not modelled.
- Identifiers drawn by the service are fresh.
- The commit of a proposal already COMMITTED returns the stored receipt; every account of a transaction needs evidence; evidence is judged at commit, at the sequence about to be taken; a balance equal to the floor is allowed; a proposal names accounts of its own community and unit.
- Controllers are never revoked by this surface, so `requireActiveController` is a membership test.
- STIR answers a commit of a trade it holds a receipt for with that receipt, without asking osTRIS.
- STIR handles one request at a time but for a commit, which it sends and receives as two; what osTRIS does on a commit is one step. An agreement has the identifier of its negotiation, and nobody negotiates with himself.
- A negotiation's version goes up with each offer and with the acceptance; either party may counter.
- STIR answers 404 to what is not there and to strangers of a trade, and 409 to what is there in the wrong state.
- Seven Keys: every accepted request appends one event and takes one sequence number; a refused request changes nothing, counters included; a signature that does not verify at activation or suspension is answered 400, an unknown proposal 404, and what the state does not allow 409; a rotation needs an active Guardian and an unused credential id; two seats may present the same key (`SevenKeysTheorems.SharedKeyExactly` says what follows); a signature stays valid on its proposal after its credential is rotated; proposal ids are not reused; a Guardian removal goes through while a seat is suspended (`SevenKeysTheorems.RemovalExactly`).
- Signatures and digests are ideal: a signature is its key and message, a digest its arguments. Ed25519, ECDSA and SHA-256 are not modelled.
- `docker tag` succeeds; a build may rebind any tags before it fails; the health probes of a deployment are those taken before its deadline.

Not modelled:

- Canonical JSON is over characters; the UTF-8 encoding of the message, null and floating point are left out.
- Payloads signed in governance hold the fields that tell proposals and suspensions apart; reasons, evidence references, timestamps, tenant ids, the authority's id and the seats' ordinals are not repeated (the list has their order), and identifiers and keys are numbers.
- `b64url_decode` is modelled on the alphabet; Python discards other characters.
- `int(x, 16)` in the chunk size is modelled on hexadecimal digits with surrounding spaces; the sign, `0x` and `_` that Python also accepts are not. A stream that ends early is modelled.
- The `Content-Length` branch of the proxy, its forwarding and its response are I/O.
- Clocks, randomness and waits are parameters; a timed-out request has no effect upstream.
- `client_data_json`, whose text is bound into an assertion only through its hash.
- Patches are compared place by place; fuzz, context lines and file modes of git are not modelled.
- `strftime` is modelled for years 1000 to 9999.
- Writing the backup itself: the dump and the archive are I/O.
- Consent, ordinary voting, evidence snapshots, moderation, the security status probe, multitenant guards, restore, status and update scripts: the deciding code is elsewhere, or a chain of guards settled by reading it.
- Browser scripts, compose and proxy configuration, release documents.
