# Stackflow off-chain node and agent: a verified model

Stackflow is a payment-channel network. Two principals share a *pipe*; they exchange signed states
(balances and a nonce) off chain, and a contract settles the pipe when it is closed. This project models
the off-chain programs that decide what to sign, what to keep and what to dispute, and proves what they
keep over all inputs and all runs, interleaved where the code awaits (the list below says which awaits are
treated as one step).

Check everything with `dafny verify dfyconfig.toml` (Dafny 4.11).

## How the model is laid out

| part of the system | modules |
|---|---|
| pipe keys, identifiers, the tuple both parties sign | `Principals` |
| DER signatures and low-S | `DerSignature` |
| records and table keys of the node | `NodeTypes` |
| chain events, closures, burn-block settlement | `Observer`, `Settlement` |
| baseline, signing policy, stored signature states | `Signing` |
| choice of the state to dispute with | `Dispute` |
| forwarding payments, revealed secrets, propagation | `Forwarding`, `RevealRuns`, `PaymentRecords`, `PropagationRuns`, `RetryTermination` |
| the whole node as one interleaved machine | `NodeRuns`, `Provenance`, `ChainKnowledge`, `DisputeRuns` |
| authoritative pipe list | `MergedPipes` |
| the tables and services as objects | `StateStore`, `StackflowNode`, `RevealService` |
| agent-to-agent transfers | `AgentTypes`, `AgentTransfer` |
| the closure watcher | `ClosureWatch`, `WatcherDecisions`, `AgentService` |
| write rate limiter, lease lock | `RateLimiter`, `LeaseLock` |

Each table, service and watcher of the source is a class whose methods change fields in place. Every such
method is proved against a transition function on values (`Signing.UpsertState`, `Forwarding.Write`,
`NodeRuns.EventHandled`, `ClosureWatch.RunPass`, ...), and the results over runs are lemmas about those
functions. What the code cannot determine (the row order of a SELECT without ORDER BY, answers of signers,
verifiers, wallets and upstream nodes, clocks, what other handlers do during an await) is a parameter or a
step label, so the results hold for every choice. sha256 and the serialization of principals are
parameters about which nothing is assumed.

The code awaits between reading and writing in several places.

- Interleaved freely: a signing request, which `NodeRuns` splits into arrive (policy check), verify, sign and
  commit; a reveal call and a retry pass, whose snapshots `RevealRuns` lets continue at any later time,
  a pass listing all of its payments at once (`RevealService.RevealService.RunRevealRetryPass` takes what
  other handlers do during each of its awaits as a parameter); an acceptance of the agent, which
  `AgentTransfer` splits into validating and storing; the awaits of a watcher pass, during which other
  handlers change the agent's pipes and states and further calls of the watcher arrive.
- Treated as one step: in the node, the choice, submission and record of one dispute (`tryDisputeClosure`
  awaits the executor), as for one observer whose payloads are handled one after the other; in the agent,
  the decision, submission and mark for one closure (`disputeClosure` awaits the wallet), while no one but
  the watcher writes the closure table.

Nothing is interleaved inside a stretch of code without an await.

## What turned out to need a condition

- Over atomic requests, from the state at the start on, what the policy knows of the counterparty's balance
  and nonce (the baseline) never falls (`Signing.BaselineNeverFalls`, `Signing.StretchImprovesBaseline`). The
  *stored* balance can fall even so: some atomic signing lowers it if and only if the observed pipe is the
  baseline and holds less than what is stored (`Signing.AtomicSigningLowersStoredIff`). A commit, interleaved
  or not, lowers it if and only if the policy, asked at the commit about the stored state alone, without
  the observed pipe, would refuse the request for that (`Signing.CommitLowersBalanceIff`); two requests
  checked against one baseline are a way to get there (`Signing.StaleCheckCanLowerTheBalance`). Stored nonces
  rise in every run (`NodeRuns.RunsRaiseNonces`).
- `propagated` is not absorbing. At any point of any run, a propagated payment stays propagated whatever
  happens next exactly when no outstanding snapshot of it is older than its propagation
  (`PropagationRuns.PropagatedIsFinalIff`). Such a snapshot is left by an overlapping reveal
  (`PropagationRuns.OverlappingRevealUndoesPropagation`), and also without any overlap of two propagate
  calls: a retry pass lists two payments, a reveal call propagates the second one from start to end while the
  pass awaits the answer for the first, and the pass then writes back what it listed
  (`PropagationRuns.ListedSnapshotUndoesPropagation`).
- Settlement depends on the order of burn blocks exactly for records where one side has a complete pending
  deposit but no balance while the other side can settle (`Settlement.SettlementIsConfluentIff`).
- The kept forwarding nonce of a pipe falls exactly when a payment id is reused for a lower nonce or for
  another pipe (`RevealRuns.KeptNonceFallsIff`).
- `ensureLowS` yields 32 octets exactly for values up to the group order (`DerSignature.LowSMeaning`). The
  parser also takes a second integer that is cut short or followed by anything; one that ends right after
  its tag counts as zero (`DerSignature.SplitAcceptsIff`).
- Argument order of the pipe key is irrelevant exactly when the two serializations differ
  (`Principals.KeyIgnoresOrderIffSerializationsDiffer`); ids of distinct keys collide when a token is
  called "stx" (`Principals.TokenNamedStxCollides`).
- Two agents that build transfers at the same time end with different stores
  (`AgentTransfer.CrossingTransfersDiverge`). Two acceptances countersign one nonce if and only if the stored
  nonce was the same when they began (`AgentTransfer.SameNonceIff`), which takes an overlap
  (`AgentTransfer.LaterAcceptanceHasHigherNonce`) and happens (`AgentTransfer.OneNonceAcceptedTwice`). An
  acceptance hands out its countersignature in any case, but stores the state if and only if its nonce is
  not below the stored one (`AgentTransfer.FinishStoresIff`, `AgentTransfer.CountersignedButNotStored`).
- The watcher makes up an id for a closure that was read without a txid. Once one such closure has been
  disputed, another is skipped if it has the same pipe, nonce and closer, and only then when the made-up ids
  tell these apart and no other recorded closure has been disputed (`ClosureWatch.LaterClosureIsSkippedIff`).
- The rate limiter admits up to twice its limit less one in 60 seconds, and that is attained
  (`RateLimiter.FewerThanTwiceTheLimit`, `RateLimiter.BoundIsAttained`).

Where code and documentation disagree the model follows the code. `server/DESIGN.md` says that a posted
state is stored when its nonce is not lower than the stored one; the code demands a higher one. It also
says that a state with a valid-after height needs that height to have passed; the code lets it through
when the event carries no block height, and it asks for a revealed secret on top of the listed conditions.

## Model

| member | source | states |
|---|---|---|
| Principals.BeforeIsTotalOrder | server/src/principal-utils.ts:10-29 | the byte order behind the canonical key is irreflexive, total, antisymmetric and transitive on all octet strings |
| Principals.CompareBytes | server/src/principal-utils.ts:10-29 | the index loop answers -1, 0 or 1 exactly as the lexicographic order, a proper prefix first, says |
| Principals.CanonicalKeyIsOrdered | server/src/principal-utils.ts:102-127 | there is a key exactly for two different principals; it holds the same two, the lower serialization first |
| Principals.KeyIgnoresOrderIffSerializationsDiffer | server/src/principal-utils.ts:102-127 | swapping the two principals gives the same key if and only if their serializations differ |
| Principals.KeyDeterminesParts | server/src/principal-utils.ts:102-127 | equal keys come from the same token and the same unordered pair, and conversely when serializations differ |
| Principals.BothSidesSignTheSameTuple | server/src/counterparty-service.ts:386-445 | both parties' views of one state, principals and balances swapped, give the same signed tuple, if and only if serializations differ |
| Principals.SignedTupleDeterminesView | server/src/counterparty-service.ts:386-445 | the tuple fixes every field of the owner's view: two views have the same tuple exactly when they agree up to an empty token |
| Principals.PipeIdsCoincideIff | server/src/observer-parser.ts:382-389 | for separator-free parts, pipe ids coincide exactly when token text and both principals do |
| Principals.StateIdsCoincideIff | server/src/stackflow-node.ts:316 | state ids coincide exactly when contract, token, both principals and owner do, for separator-free parts and no token called "stx" |
| Principals.TokenNamedStxCollides | server/src/observer-parser.ts:382-389 | the exception is real: the key without a token and the key with token "stx" share their id |
| DerSignature.NormalizeDerInt | server/src/counterparty-service.ts:257-274 | the stripping and padding loop, with its error above 32 octets |
| DerSignature.NormalizedIntMeaning | server/src/counterparty-service.ts:257-274 | normalization succeeds exactly on integers below 2^256 and yields their 32 big-endian octets |
| DerSignature.ParseDerSignature | server/src/counterparty-service.ts:276-316 | the offset-stepping parser finds what the frame says at fixed positions, with every error case, reads past the end included |
| DerSignature.SplitAcceptsIff | server/src/counterparty-service.ts:276-316 | exactly which inputs are taken apart and into what: the outer and first lengths must be right, the second integer may be cut short or followed by anything |
| DerSignature.SplitInvertsFrame | server/src/counterparty-service.ts:276-316 | the parser's positions recover both integer contents from any short-form frame |
| DerSignature.ParseInvertsEncode | server/src/counterparty-service.ts:276-316 | for all r, s below 2^256 parsing the encoding of section 2.2.3 of RFC 3279 returns 32 octets each, of equal value |
| DerSignature.LowSMeaning | server/src/counterparty-service.ts:318-326 | 32 octets if and only if s is at most N; then the value is s or N - s, at most N/2, and stable under a second application; above N it comes out as 14 to 31 zero octets |
| DerSignature.LowSIsCanonical | server/src/counterparty-service.ts:318-326 | s and N - s normalize to the same octets |
| RateLimiter.WriteRateLimiter.Consume | server/src/index.ts:1129-1165 | the in-place counter map, its sweep loop and the returned retry-after follow the step function |
| RateLimiter.CountersFollowReference | server/src/index.ts:1136-1153 | a client's counter is what it would be alone and never swept, or it was swept because that one expired |
| RateLimiter.SweepAndOthersAreInvisible | server/src/index.ts:1136-1164 | dropping expired counters and other clients' traffic never change a decision |
| RateLimiter.FewerThanTwiceTheLimit | server/src/index.ts:1129-1165 | any half-open 60 s interval admits at most 2N - 1 requests of one client |
| RateLimiter.RefusedAfterTheLimit | server/src/index.ts:1129-1165 | without a limit nobody is refused; with one a refusal means that the last 60 s have seen exactly N admissions of the client |
| RateLimiter.BoundIsAttained | server/src/index.ts:1129-1165 | for every limit some run admits 2N - 1 in one interval |
| RateLimiter.WaitingRetryAfterIsEnough | server/src/index.ts:1146-1161 | a client that stays silent for the returned retry-after is admitted next |
| RateLimiter.RetryAfterIsTight | server/src/index.ts:1146-1161 | the returned wait is between 1 and 60 s, and a second less is not enough |
| LeaseLock.LeaseStays | packages/x402-client/src/sqlite-state-store.js:164-186 | a lease that runs and was not given back is in the table |
| LeaseLock.RowHasOrigin | packages/x402-client/src/sqlite-state-store.js:164-186 | every row comes from the latest acquire of its key, which was not given back |
| LeaseLock.AcquireSucceedsIff | packages/x402-client/src/sqlite-state-store.js:164-176 | an attempt succeeds if and only if no earlier lease of the key is both running and not given back |
| LeaseLock.OverlapNeedsExpiredLease | packages/x402-client/src/sqlite-state-store.js:273-325 | a second holder enters only after the first lease has ended, unless it was given back |
| LeaseLock.ReleaseRemovesOwnLease | packages/x402-client/src/sqlite-state-store.js:177-181 | a release that removes a row removes the releaser's own lease, with no other holder in between |
| LeaseLock.LateReleaseRemovesNothing | packages/x402-client/src/sqlite-state-store.js:307-313 | a holder whose lease was taken over changes nothing by its release |
| LeaseLock.PipeLocks.Run | packages/x402-client/src/sqlite-state-store.js:164-185 | the three statements change the table in place as the log of operations says |
| LeaseLock.PipeLocks.AcquirePipeLock | packages/x402-client/src/sqlite-state-store.js:273-305 | one attempt for every poll up to the deadline, and none that is not logged: it sleeps through the failed ones and ends with the first that succeeds, or without the lock at the first poll past the deadline |
| LeaseLock.PipeLocks.WithPipeLock | packages/x402-client/src/sqlite-state-store.js:315-325 | the section runs exactly when the lock was acquired; meanwhile nobody else acquires the key before the lease ends, and afterwards the token is gone from the table |
| Settlement.SettlePipe | server/src/stackflow-node.ts:439-495 | the loop body: which sides settle, whether the row changed, and the record written |
| Settlement.ListedRowsSettleTheTable | server/src/stackflow-node.ts:435-515 | writing back the changed rows one by one settles every pipe of the table, each once, and counts those that moved |
| Settlement.SettlementConserves | server/src/stackflow-node.ts:455-493 | over any sequence of burn blocks, balance plus pending is conserved on each side, whatever is missing |
| Settlement.OnlyTheHighestBlockMatters | server/src/stackflow-node.ts:404-515 | any sequence of heights leaves the amounts of one settlement at the largest height |
| Settlement.SettlementIsConfluentIff | server/src/stackflow-node.ts:455-493 | that holds if and only if the record is not half-known; it holds whenever both balances are present |
| Settlement.PendingCreditedOnce | server/src/stackflow-node.ts:455-493 | each pending amount is credited exactly once, when its height is reached |
| Observer.ClosureIsLastDecision | server/src/stackflow-node.ts:598-651 | a closure row is the one its last opening or terminal event left |
| Observer.UndecidedClosureStays | server/src/stackflow-node.ts:540-651 | no other event or burn block touches it |
| Observer.ClosureExistsIff | server/src/stackflow-node.ts:540-651 | over any log of events and burn blocks a closure row exists if and only if the last deciding event was opening |
| Observer.ObservedIsLastReportSettled | server/src/stackflow-node.ts:570-651 | an observed pipe is its last report settled by exactly the burn blocks after it |
| Observer.TerminalPipeStaysEmpty | server/src/stackflow-node.ts:624-651 | after a terminal event a pipe has zero balances and nothing pending until its next report, through any burn blocks |
| ChainKnowledge.ObservedCarriesLastReport | server/src/stackflow-node.ts:570-651 | after any log an observed pipe has the nonce, expiry, closer, event, transaction and height of its last report, and its balances plus the deposits that fell due since; all of them zero after a terminal event |
| ChainKnowledge.UntoldPipeOnlySettles | server/src/stackflow-node.ts:540-651 | without such a report a row neither appears nor goes, and changes by burn blocks only |
| ChainKnowledge.WatchedEventsAreCounted | server/src/stackflow-node.ts:371-402 | the number an ingest reports is that of the events whose pipe has a watched side |
| ChainKnowledge.PolicyKnowsTheReportedNonce | server/src/counterparty-service.ts:1084-1194 | after any log the baseline knows the nonce of the last report, and the policy refuses every request of either principal up to it |
| ChainKnowledge.PolicyKnowsTheReportedBalances | server/src/counterparty-service.ts:1084-1170 | and it knows the reported balances, with the deposits that fell due since, each for the principal whose side it is |
| ChainKnowledge.ClosureCarriesLastDecision | server/src/stackflow-node.ts:598-622 | after any log a pipe is closing exactly when the event that settled this last opened a closure, and then the closure has the closer (else the sender), nonce, expiry, transaction and height of that event |
| ChainKnowledge.DisputeAnswersTheEvent | server/src/stackflow-node.ts:653-801 | in every interleaved run a dispute carries a stored state that answers the event, by the fields of both: of the closing pipe, for an owner who does not close, above the nonce of the event, not before its valid-after height, with its secret at hand and worth more where that is asked for; no other such state has a higher nonce, or the same one and a later time; a state locked with a stored hash goes with a preimage of it |
| Signing.ResolveCurrentBaseline | server/src/counterparty-service.ts:1084-1170 | the two loops over the status lists, in whatever order, compute the better of observed pipe and stored state |
| Signing.BaselineIsBest | server/src/counterparty-service.ts:203-220 | the baseline is one of its candidates, none beats it and none has a higher nonce |
| Signing.PolicyAcceptsIff | server/src/counterparty-service.ts:1172-1226 | a request passes if and only if something is known of the pipe, its nonce is above everything known, and its balances do right by the counterparty compared with the best candidate |
| Signing.UpsertRaisesNonce | server/src/stackflow-node.ts:316-368 | an upsert changes at most one row, only to raise its nonce, and reports it stored exactly when it did |
| Signing.PassingThePolicyMeansStored | server/src/counterparty-service.ts:1172-1194 | a request that passes the policy for a watched counterparty is stored, above the stored nonce and above a completely observed one |
| Signing.RowIsLastSigned | server/src/counterparty-service.ts:1228-1294 | over a stretch of atomic signing the stored row is the last state signed, and it is the baseline |
| Signing.ConsecutiveSignings | server/src/counterparty-service.ts:1172-1226 | the next signing for one state was checked against the previous one |
| Signing.StretchOnlyPaysTheCounterparty | server/src/counterparty-service.ts:1172-1226 | of two signings of a stretch the later one does not lower the counterparty's balance, a transfer strictly raises it, and transfers keep the total |
| Signing.BaselineNeverFalls | server/src/counterparty-service.ts:1084-1226 | between any two points of a stretch of atomic signing, its start included, the baseline's nonce and balance do not fall |
| Signing.StretchImprovesBaseline | server/src/counterparty-service.ts:1084-1226 | every signing of a stretch is strictly above the nonce known at its start and, if a transfer, above the balance known there, and no higher than what is known at its end |
| Signing.TransfersKeepBaselineTotal | server/src/counterparty-service.ts:1207-1225 | while only transfers are signed the total known at the start stays, and without a signing nothing changes |
| Signing.AtomicSigningLowersStoredIff | server/src/counterparty-service.ts:1096-1194 | some atomic signing for a watched owner lowers the stored balance if and only if the observed pipe is the baseline and holds less than what is stored |
| Signing.StoredStateIsBestSigned | server/src/counterparty-service.ts:1172-1276 | at its end the stored state has the largest balance and nonce signed in it |
| Signing.CommitLowersBalanceIff | server/src/counterparty-service.ts:1245-1276 | a request checked against one table and committed to another lowers the stored balance if and only if the policy, asked about the stored state alone without an observed pipe, would refuse it for that; then it was not checked against that state |
| Signing.StaleCheckCanLowerTheBalance | server/src/counterparty-service.ts:1245-1276 | this happens, for any watched counterparty: two requests checked against one baseline, both committed |
| Dispute.SortMeaning | server/src/stackflow-node.ts:78-89 | sorting permutes the states into descending nonce, then descending time |
| Dispute.SortThenFindIsBest | server/src/stackflow-node.ts:680-732 | sorting and taking the first candidate that passes gives a best eligible stored state of a non-closer |
| Dispute.NothingSubmittedIff | server/src/stackflow-node.ts:653-750 | nothing is submitted if and only if disputes are impossible, no state is eligible, or the attempt already succeeded |
| Dispute.SubmissionIsBestStoredState | server/src/stackflow-node.ts:680-801 | what is submitted is the owner's stored row, newer than the closure, past its valid-after height, with a resolvable secret when forwarding knows the hash, beneficial where asked, and with the highest eligible nonce |
| RevealRuns.WrittenIsSound | server/src/forwarding-service.ts:726-739 | every record a handler writes carries no secret or a true preimage of its hash |
| RevealRuns.NextKeepsSecrets | server/src/state-store.ts:886-909 | every step keeps all stored secrets genuine and forgets no revealed hash |
| RevealRuns.RunsKeepSecrets | server/src/state-store.ts:1475-1563 | so does every run of writes, reveals, retries, prunings and restarts |
| RevealRuns.RevealedForever | server/src/state-store.ts:1622-1664 | a hash that resolves once resolves ever after, to a true preimage, whatever rows are pruned |
| PaymentRecords.RevealIsTakenIff | server/src/index.ts:2101-2155 | a reveal is taken if and only if the payment is stored and locked with a hash, the text is a preimage, and no other preimage was taken before |
| PaymentRecords.RevealTakesEffect | server/src/index.ts:2157-2164 | from then on the hash resolves to exactly this preimage, and the row, if kept, differs in nothing else |
| PaymentRecords.HashResolvesIff | server/src/state-store.ts:1622-1643 | what a hash resolves to, by the fields of the two tables, and when it resolves to nothing |
| PaymentRecords.TermsAndPreimageAreFinal | server/src/index.ts:1003-1082 | in every run a payment keeps pipe, nonce, lock and route until one of its name is created, and a preimage that its row and snapshots carry is never lost or replaced |
| RevealRuns.WriteKeepsOneRow | server/src/state-store.ts:1001-1027 | a write leaves at most one row per contract and pipe |
| RevealRuns.RunsKeepOneRowPerPipe | server/src/state-store.ts:1475-1563 | in every run at most one row remains per pipe |
| RevealRuns.KeptNonceFallsIff | server/src/state-store.ts:960-1041 | a write lowers the kept nonce of a pipe if and only if it reuses the payment id of the kept row with a lower rank there |
| RevealRuns.KeptNonceNeverFalls | server/src/state-store.ts:960-1041 | with fresh payment ids the kept nonce never falls, under every interleaving |
| PaymentRecords.NonceOfAPipeNeverFalls | server/src/state-store.ts:960-1041 | by fields: with fresh ids a pipe that has a row with a nonce always has one, and never with a lower nonce |
| PaymentRecords.WriteKeepsTheLatestRow | server/src/state-store.ts:960-1027 | by fields: a write for a pipe keeps one of its rows, the one with the highest nonce and, among equals, the latest time, and every row of other pipes |
| PaymentRecords.RestartPrunes | server/src/state-store.ts:929-1041 | a restart leaves one row per pipe and no orphan older than the cutoff, changes no row, forgets no secret and ends every outstanding call |
| RevealRuns.DuePaymentsAreSound | server/src/index.ts:2511-2534 | in every run a payment due for retry has its secret and an attempt left, so the missing-secret branch is unreachable |
| PaymentRecords.AnswerIsRecorded | server/src/index.ts:1020-1081 | what an answer from upstream leaves: one attempt more and propagated, due again one interval later, or failed at the limit; nothing for a propagated payment, not applicable without a route |
| PaymentRecords.PickIsTakenIff | server/src/state-store.ts:1597-1620 | a pass takes up a payment if and only if it is pending with a retry that has fallen due |
| PaymentRecords.RecordsAreConsistent | server/src/index.ts:1003-1082 | in every run status, attempts, error, times and preimage of each row agree: not applicable exactly without a route, due exactly after a rejection below the limit, failed only at the limit, no attempt without the preimage |
| PropagationRuns.PropagatedIsFinal | server/src/index.ts:1003-1082 | with no older snapshot outstanding, a propagated payment stays propagated under every interleaving that does not create it again |
| PropagationRuns.OlderSnapshotUndoes | server/src/index.ts:1037-1082 | any older outstanding snapshot can undo the propagation in one step, by a rejection |
| PropagationRuns.PropagatedIsFinalIff | server/src/index.ts:2492-2538 | at any point of any run with fresh payment ids, a propagated payment stays propagated in all continuations if and only if no older snapshot of it is outstanding |
| PropagationRuns.OverlappingRevealUndoesPropagation | server/src/index.ts:2101-2175 | a run with two overlapping reveals that turns propagated back into pending |
| PropagationRuns.ListedSnapshotUndoesPropagation | server/src/index.ts:2498-2534 | a run of two payments that does: a pass lists both, one is revealed and propagated entirely while the pass awaits the other, and the pass then writes back its listed snapshot |
| RetryTermination.RetryLowersTotal | server/src/index.ts:1037-1082 | while nobody reveals, each retry written back uses up an attempt of the live payments, and no other step adds any |
| RetryTermination.RetriesAreBounded | server/src/index.ts:2492-2538 | from any such moment, passes in progress included, at most as many retries are written back as the live payments have attempts left |
| RetryTermination.RetryLeavesOtherDuePayments | server/src/index.ts:2511-2534 | retrying one payment leaves the rows of the other waiting ones alone |
| RetryTermination.RetriesRunOut | server/src/index.ts:2492-2538 | without further reveals the attempts left in the table fall with every retry, whatever new payments, prunings and restarts come between |
| RetryTermination.RetriesEndPropagatedOrFailed | server/src/index.ts:1037-1082 | under the same runs every payment that was being retried is propagated, failed or pruned, or still has attempts left in the falling total |
| RetryTermination.FailsExactlyAtTheLimit | server/src/index.ts:1060-1082 | a new payment that upstream keeps rejecting is due again one interval after each rejection and has failed exactly from rejection maxAttempts on |
| NodeRuns.StepRaisesNonces | server/src/stackflow-node.ts:316-368 | every step of the node keeps every stored row or raises its nonce |
| NodeRuns.RunsRaiseNonces | server/src/stackflow-node.ts:316-368 | so does every interleaving of requests, posts, events, burn blocks and forwarding |
| NodeRuns.RunsKeepCanonicalStates | server/src/stackflow-node.ts:305-327 | in every run each stored state is keyed by the canonical pipe of its own principals, one of which is its owner |
| NodeRuns.UninterruptedRequestIsAtomic | server/src/counterparty-service.ts:1228-1294 | a request whose four steps follow each other is one atomic signing |
| NodeRuns.PassingRequestIsStoredInEveryRun | server/src/counterparty-service.ts:1172-1276 | in every run an uninterrupted passing request for a watched counterparty is stored, above everything stored or completely observed |
| NodeRuns.FreshResponsesRise | server/src/index.ts:1492-1549 | fresh 200 responses for one state have strictly rising nonces, none above the stored one |
| NodeRuns.NoNonceReleasedTwice | server/src/index.ts:1659-1716 | however requests interleave, no two fresh 200 responses for one contract, pipe and principal share a nonce |
| Provenance.RowsHaveProvenance | server/src/stackflow-node.ts:274-368 | in every interleaved run each stored row was there at the start, was posted and found valid, or was committed for a request that passed the policy, was then verified and then signed; new rows belong to watched owners and stand under their own key |
| Provenance.RejectedPostChangesNothing | server/src/stackflow-node.ts:281-302 | a post that the verifier rejects, or for an owner who is not watched, leaves the node as it was |
| Provenance.PostIsStoredUnlessOld | server/src/stackflow-node.ts:304-368 | a verified post of a watched owner becomes the row of its state, and nothing else changes, unless and only unless that row has the same or a higher nonce |
| NodeRuns.DisputesSucceedOnce | server/src/stackflow-node.ts:741-801 | each attempt id succeeds at most once over a run, the successes are exactly the success records, and none is overwritten |
| DisputeRuns.AttemptIdsCoincideIff | server/src/stackflow-node.ts:741 | attempt ids coincide exactly when the owner does and the trigger: the transaction, or, for events without one, contract, pipe and closure nonce |
| DisputeRuns.OpeningEventIsAnsweredIff | server/src/stackflow-node.ts:741-801 | in every interleaved run an opening event that some stored state answers is met by submitting one and recording whom it was for, what triggered it and what came back, unless and only unless an earlier step submitted successfully for that owner on the same trigger |
| NodeRuns.SubmissionIsGenuine | server/src/stackflow-node.ts:708-768 | a dispute on a transfer state whose hash forwarding knows carries a true preimage |
| NodeRuns.DisputesCarryPreimages | server/src/stackflow-node.ts:699-768 | so do all disputes of every run |
| NodeRuns.DisputeAfterStretchUsesBestState | server/src/stackflow-node.ts:680-767 | a dispute for the counterparty after a stretch of signing carries the largest balance and nonce signed in it |
| NodeRuns.DisputeIsNotBelowReleased | server/src/stackflow-node.ts:680-801 | in every interleaved run a submitted dispute carries at least the nonce of every fresh 200 released for that state so far |
| NodeRuns.SnapshotBaselineIsClosureBalance | server/src/stackflow-node.ts:570-596 | the balance a snapshot gives a principal is the same for the signing baseline and for the dispute comparison |
| NodeRuns.SettledDepositIsTheOwners | server/src/stackflow-node.ts:455-493 | a deposit reported for a principal reaches that principal in the signing baseline, at its height and no earlier |
| MergedPipes.MergeAuthoritativePipes | server/src/index.ts:873-952 | exactly one record per state id that has any, a best one under (nonce, time, on-chain first), as a sorted list |
| MergedPipes.SortRecords | server/src/index.ts:936-952 | the list is ordered by nonce, then time, then id, and holds each record once |
| MergedPipes.MergedRecordIsTheBaseline | server/src/index.ts:842-952 | for a completely observed pipe with one stored owner the record has the baseline's source, nonce and balances |
| MergedPipes.PrincipalsSeeTheirPipes | server/src/index.ts:873-952 | a row enters the list exactly for the principals on either side of its pipe, and for everyone when none is asked for |
| MergedPipes.OneLayoutOfBalances | server/src/counterparty-service.ts:386-445 | balance-1 is the balance of principal-1 in the signed tuple, in the listed record and in the baseline read back from it |
| StateStore.SelectLatestForwardingPaymentId | server/src/state-store.ts:960-999 | the loop picks a row that no other outranks, an absent nonce lowest |
| StateStore.SqliteStateStore.GetSignatureStatesForPipe | server/src/state-store.ts:1295-1307 | exactly the rows of the pipe |
| StateStore.SqliteStateStore.HasForwardingPaymentHash | server/src/state-store.ts:1645-1664 | true if and only if the hash is revealed or some payment carries it |
| StateStore.SqliteStateStore.GetRevealedSecretByHash | server/src/state-store.ts:1622-1643 | the stored secret, else that of a youngest revealing row, and none only if there is none |
| StateStore.SqliteStateStore.PruneForwardingPaymentsForPipe | server/src/state-store.ts:1001-1027 | keeps one maximal row of the pipe and every row of the others |
| StateStore.SqliteStateStore.PruneForwardingPaymentOrphans | server/src/state-store.ts:929-958 | removes aged orphans and all but the youngest 5000, never a pending one |
| StateStore.SqliteStateStore.SetForwardingPayment | server/src/state-store.ts:1475-1563 | upsert, secret sync and pruning as one write |
| StateStore.SqliteStateStore.PruneForwardingPaymentsLatestPerPipe | server/src/state-store.ts:1029-1041 | keeps a latest row of every pipe |
| StateStore.SqliteStateStore.PruneAtStartup | server/src/state-store.ts:386-388 | startup pruning is the restart step of the runs and leaves one row per pipe |
| StateStore.SqliteStateStore.ListForwardingRevealRetriesDue | server/src/state-store.ts:1597-1620 | due rows only, each once, earliest first, and a due row is missing only when the limit was reached by earlier ones |
| StateStore.DueRowsAreListed | server/src/state-store.ts:1597-1620 | by fields: what is listed is pending and due, ordered by due time and last change, at most 500 rows and at most the limit; a due row left out comes after all that are listed, which are as many as allowed |
| StackflowNode.StackflowNode.UpsertSignatureState | server/src/stackflow-node.ts:274-368 | the in-place upsert with every rejection follows the transition function |
| StackflowNode.StackflowNode.IngestBurnBlock | server/src/stackflow-node.ts:404-515 | every pipe of the table is settled; the two returned counts are those of all pipes and of the pipes that moved |
| StackflowNode.StackflowNode.ResolveSecret | server/src/stackflow-node.ts:758-761 | the preimage handed over: a revealed one, else the state's own |
| StackflowNode.StackflowNode.ChooseState | server/src/stackflow-node.ts:680-739 | the loop over the sorted rows returns a best eligible stored state, or none if there is none |
| StackflowNode.StackflowNode.TryDisputeClosure | server/src/stackflow-node.ts:653-801 | the attempt recorded, and when none is |
| StackflowNode.StackflowNode.HandleEvent | server/src/stackflow-node.ts:540-651 | pipes, closures and attempts after one event; success records stay |
| StackflowNode.StackflowNode.Ingest | server/src/stackflow-node.ts:371-402 | one payload is the same number of chain steps of the interleaved node, and the watched events are counted |
| StackflowNode.CounterpartyService.CheckPolicy | server/src/counterparty-service.ts:1172-1226 | the refusal, if any, that the policy demands for the stored tables |
| StackflowNode.CounterpartyService.SignState | server/src/counterparty-service.ts:1228-1294 | refused, invalid or committed, and the table after it, for an uninterrupted request |
| RevealService.RevealService.PropagateRevealForPayment | server/src/index.ts:1003-1082 | one propagation, its await included, is a run of the interleaved machine that ends with its write-back |
| RevealService.RevealService.RevealSecret | server/src/index.ts:2101-2175 | verify, store, propagate, as a run in which others act during the await; nothing at all when the secret does not fit |
| RevealService.RevealService.RunRevealRetryPass | server/src/index.ts:2492-2538 | unless one is already running, a pass lists the due payments once and propagates each as listed, whatever others do during each await; if nobody reveals meanwhile, each retry lowers the attempts left |
| RevealService.PicksTakeSnapshots | server/src/index.ts:2498-2502 | listing takes a snapshot of every listed row at once, before anything is propagated |
| RevealService.ProgressAdvances | server/src/index.ts:2511-2534 | each round of a pass prolongs the run by one propagation and leaves the later snapshots as they were listed |
| AgentTransfer.AcceptedIff | packages/stackflow-agent/src/agent-service.js:162-376 | a payload is accepted if and only if the pipe is tracked, it is addressed from the counterparty, and it tells about a transfer, possibly of nothing, that the counterparty can afford at the next nonce, or there is no stored state; the accepted state is that transfer seen from this side, field by field |
| AgentTransfer.MessageIsTheSignedTupleIff | packages/stackflow-agent/src/agent-service.js:409-442 | for a canonical key the agent shows its wallet the very tuple that the node signs, if and only if the token is not an empty text |
| AgentTransfer.BuiltTransferIsAccepted | packages/stackflow-agent/src/agent-service.js:162-376 | every built transfer is accepted by the mirrored side, both sign the same message, which carries the action, secret and valid-after height asked for, and the stores, mirrored again one nonce later, hold what was asked for |
| AgentTransfer.FirstTransferStartsTheMirror | packages/stackflow-agent/src/agent-service.js:88-160 | the first transfer of a pipe without states is accepted and makes the stores mirror images that hold what was asked for |
| AgentTransfer.TurnKeepsMirror | packages/stackflow-agent/src/agent-service.js:88-376 | one turn keeps mirror and total, and goes through exactly when the amount is positive, within the sender's balance and in its own name |
| AgentTransfer.TurnIsAllOrNothing | packages/stackflow-agent/src/agent-service.js:393-458 | whatever two agents hold, a turn is stored by both as it was asked for, or changes neither |
| AgentTransfer.RunsStayMirrored | packages/stackflow-agent/src/agent-service.js:393-458 | in every run of turns the stores stay mirror images, the total is constant and the nonce counts the transfers |
| AgentTransfer.LastTransferIsStored | packages/stackflow-agent/src/agent-service.js:88-160 | after any run both stores hold the last transfer that went through as its sender asked for it: action, secret, valid-after height, beneficial policy, actor and both signatures |
| AgentTransfer.AcceptingNeverLoses | packages/stackflow-agent/src/agent-service.js:284-341 | whatever payloads arrive, an agent that only accepts keeps the total, moves its nonce by one each and never loses |
| AgentTransfer.OverlappingAcceptsNeverLose | packages/stackflow-agent/src/agent-service.js:393-458 | even when acceptances overlap, its stored balance never falls below the start and its stored nonce never falls |
| AgentTransfer.LaterAcceptanceHasHigherNonce | packages/stackflow-agent/src/agent-service.js:393-458 | an acceptance begun after another was finished has a higher nonce |
| AgentTransfer.SameNonceIff | packages/stackflow-agent/src/agent-service.js:284-306 | two acceptances countersign one nonce if and only if the stored nonce was the same when they began |
| AgentTransfer.FinishStoresIff | packages/stackflow-agent/src/db.js:292-303 | an acceptance stores its state if and only if its nonce is not below the stored one; otherwise nothing changes |
| AgentTransfer.CountersignedButNotStored | packages/stackflow-agent/src/agent-service.js:446-458 | a run in which a countersignature is handed out for a state that is not stored |
| AgentTransfer.OneNonceAcceptedTwice | packages/stackflow-agent/src/agent-service.js:393-458 | but overlapping acceptances can countersign one nonce twice, the second for less |
| AgentTransfer.CrossingTransfersDiverge | packages/stackflow-agent/src/db.js:287-331 | transfers built at the same time leave different stores at the same nonce |
| ClosureWatch.OneMoreClosure | packages/stackflow-agent/src/watcher.js:359-393 | one event keeps disputed marks and adds a successful submission only for an undisputed closure |
| ClosureWatch.ReadClosureIsWellFormed | packages/stackflow-agent/src/watcher.js:68-111 | a closure read from the chain passes normalization, keeps pipe, nonce and closer, and carries the local balance |
| ClosureWatch.WorthwhileDisputesStay | packages/stackflow-agent/src/utils.js:119-152 | a worthwhile dispute stays worthwhile while further transfers are accepted, whatever arrives, unless one asks for the beneficial policy anew |
| WatcherDecisions.NormalizingKeepsFields | packages/stackflow-agent/src/utils.js:51-87 | exactly the complete force-close and force-cancel events are taken, each field as listed |
| WatcherDecisions.OutcomeMeans | packages/stackflow-agent/src/watcher.js:359-393 | what happens to one listed event, by its fields: invalid, already disputed, not worth it, failed or submitted, and which rows change |
| WatcherDecisions.PassesDecideByTheFields | packages/stackflow-agent/src/utils.js:119-152 | over any passes an item is disputed if and only if it is well formed, undisputed, and its pipe is tracked with a stored state above the closure nonce that is, where a benefit is asked for, of the other side and worth more than the closure |
| WatcherDecisions.ClosingPipesAreHandled | packages/stackflow-agent/src/watcher.js:68-111 | a pass over the tracked pipes handles every pipe that could be read and is being closed, and no other, in order, as an event with the fields the chain gives and the balance of the local side |
| WatcherDecisions.RowMeans | packages/stackflow-agent/src/db.js:173-193 | the row of a closure is the event as first listed, with the balance of its last listing |
| ClosureWatch.LaterClosureIsSkippedIff | packages/stackflow-agent/src/watcher.js:97-107 | after a dispute of a closure without a txid, another one without a txid is skipped if and only if pipe, nonce and closer coincide |
| ClosureWatch.DisputedAtMostOnce | packages/stackflow-agent/src/watcher.js:202-416 | over any passes each closure gets at most one submission that returned a txid, and marks never clear |
| WatcherDecisions.DisputedIff | packages/stackflow-agent/src/watcher.js:359-388 | a closure is marked disputed exactly when it was at the start or a submission for it returned a txid |
| ClosureWatch.PassRecordsAndDecides | packages/stackflow-agent/src/watcher.js:359-393 | a pass without dispute errors recorded and decided every well-formed event |
| ClosureWatch.CursorMovesOnlyAfterDeciding | packages/stackflow-agent/src/watcher.js:389-400 | the cursor moves only after such a pass, and then to the highest listed block |
| ClosureWatch.CursorNeverMovesBack | packages/stackflow-agent/src/watcher.js:306-416 | over any passes the cursor never moves back |
| WatcherDecisions.CursorMovesIff | packages/stackflow-agent/src/watcher.js:389-400 | the cursor moves if and only if a listing pass has no dispute error and lists a well-formed event above it, and then to the highest of these |
| AgentService.AgentStateStore.UpsertSignatureState | packages/stackflow-agent/src/db.js:287-331 | an equal nonce overwrites, a lower one is ignored, and the identifying columns stay |
| AgentService.AgentStateStore.RecordClosure | packages/stackflow-agent/src/db.js:173-193 | a known txid keeps its mark and only refreshes the balance |
| AgentService.StackflowAgentService.AcceptIncomingTransfer | packages/stackflow-agent/src/agent-service.js:393-458 | validate, sign the message, store, or nothing |
| AgentService.StackflowAgentService.DisputeClosure | packages/stackflow-agent/src/agent-service.js:529-572 | a mark is set exactly when a txid came back |
| AgentService.HourlyClosureWatcher.RunOnceByEvents | packages/stackflow-agent/src/watcher.js:306-416 | one events pass, with overlapping calls made during its awaits, which skip and change nothing |
| AgentService.HourlyClosureWatcher.RunOnceByReadonlyPipe | packages/stackflow-agent/src/watcher.js:202-304 | one pass that reads every tracked pipe of the store once, likewise; the cursor stays |

## Left out

- On-chain contracts: chain state is whatever events arrive; no result says what a contract would accept.
- HTTP handling, header parsing, address classification, proxying, configuration, SQLite files and migration, KMS and wallet calls, user interfaces, scripts: plumbing.
- The retry loop of the x402 client and its consumed-proof table: easy members beside the lock.
- Cryptography: sha256 is an arbitrary function, and signature verification, signing and SIP-018 hashing are arbitrary answers.
- String syntax of numbers, hex, principals and JSON: amounts, nonces and heights are natural numbers, timestamps integers, and malformed text appears only where the code handles it as a value.
- Textual table keys: the tables are keyed by contract, pipe key and owner; `Principals.StateIdsCoincideIff` says when the texts agree with that.
- The idempotent-response table: a replayed response is not a fresh one and is not counted as released.
- Nonce uniqueness of signatures passed on by `/forwarding/transfer`: that endpoint returns the signature with a `stored` flag, so the property is not claimed for it.
- Overlapping ingests: the choice, submission and record of one dispute are one step, as for one observer whose payloads are handled one after the other.
- Amount, fee, next-hop and result columns of forwarding payments, and the recent-events log: nothing reads them back to decide.
- An attempts bound when the reveal endpoint is called again after `failed`: each such call may add an attempt.
- Locale comparison of ids in the merged list: an arbitrary weight per id stands for it; two ids of equal weight stand in either order.
- Integers above 2^53 in the message an agent shows its wallet: the source rounds them with `Number`, the model does not.
- Disputes that an operator submits through the agent service while a watcher pass runs: the watcher results are about one watcher.
- The final checks of `validateIncomingTransfer` on the syntax of secret and valid-after values: typed values are always well formed.
