# MeterKit ledger and gates, verified

MeterKit sells HTTP resources for x402 payments on Solana devnet. This project models the parts of it
that decide whether money may move and whether it has moved already, and proves what those parts
promise over whole histories: every interleaving of transactions, every order of requests, every
answer of a node. Verify it with `dafny verify dfyconfig.toml`.

## What is modelled

**The agent-budget spend ledger** (`BudgetLedger`, `LedgerInvariants`, `LedgerHistory`,
`LedgerEffects`, `LedgerSweep`, `PostgresLedger`, `LedgerTransactions`, `LedgerCompleteness`).
Allowance rows with a maximum, a per-request limit, spent and reserved amounts, and reservation rows
with a unique payment key. The ledger appears three times:

- as atomic operations on a pair of tables (`Apply`, `Run`), about which the invariants are proved;
- as the class `PostgresStore`, whose methods change the tables step by step and are proved to do
  exactly what the operations say;
- as overlapping transactions made of micro-steps (lock a row, read, check, write privately, commit
  or abort), every interleaving of which is proved to commit what the atomic ledger reaches by taking
  the committed transactions in commit order; and every history of the atomic ledger is proved to be
  the log of such an interleaving.

**The payment lifecycle above it** (`SpendPolicy`, `AgentBudget`, `StableSort`, `StableJson`,
`JsonPrinting`, `JsonCanonical`, `JsonReading`, `PaymentLifecycle`, `HookEffects`, `SlowSettlement`).
The budget guard, its second implementation as a policy evaluator, the canonical text from which a
payment key is made, and the verify, settle, failure and cancel hooks interleaving at every point
where the code waits, with the background sweep, revocations and restarts in between.

**Claim-once gates and monotone machines** (`PaymentStores`, `ReplayGate`, `Finality`, `FinalityRuns`,
`Receipts`, `Idempotency`, `WalletChallenges`, `SessionBudget`, `SettlementValidation`).

**Computations that must agree** (`Evidence`, `CommercialGate`, `EndpointVerification`).

`Outcomes` and `Sequences` hold result types and facts about filtering and counting.

Beside the guarantees over whole runs there are lemmas whose names end in `Exactly` or `Effect`: they say
what one step does, in the fields of the state it leaves, so that a step that avoids every harm by doing
nothing does not pass for the one the code takes.

## Assumptions

- A row lock is held until its transaction ends, a plain read sees committed rows, an insert waits for
  an uncommitted insert of the same unique key, and a single statement is atomic. A status update whose
  row does not match when the statement looks is a transaction that aborts. A delete locks its
  allowance, then each of the reservations it cascades to, and every committed reservation has its
  allowance (the foreign key).
- Keys and constraints are those of the migrations: `payment_key`, `reservation_id`, the idempotency
  key and the pair of network and signature are unique; the amounts constraint of
  `packages/database/migrations/005_authorization_reservations.sql` lines 20-24 is checked on every
  save and proved never to be hit by any other operation; deleting an allowance deletes its
  reservations (line 43).
- Every clock reading is a parameter of the step that takes it. No lemma needs clocks to be monotone.
- Fingerprints and hashes are arbitrary functions, a signature check is an arbitrary predicate, and
  the collation of two keys is a comparison of arbitrary real ranks. Where a result needs a
  fingerprint to separate texts, it says so: the payment key keeps 64 bits of a digest
  (`packages/sdk/src/agent-budget.ts:140-142`), so equal payloads always share a key, while different
  payloads have different keys only as far as that digest separates them.
- The HTTP status 402 is section 15.5.3 of RFC 9110; the challenge is x402 version 2, scheme `exact`.

## Where the code does less than it is described to do

Each of these is a lemma, with the condition under which the promise does hold.

- *A fixed allowance caps total spend* (`content/docs/en/agent-budgets/index.mdx:26`). What the ledger
  has charged never exceeds the maximum (`PaymentLifecycle.BudgetRespected`). What is recorded as paid
  can: a settlement that outlives its reservation is stored although its consume then fails, and the
  freed room can be spent again. A recorded payment escapes its charge if and only if its record is
  stored when its reservation is already released, or its reservation is released when its record is
  already stored (`PaymentLifecycle.EscapesExactly` for a step, `PaymentLifecycle.EscapedExactly` for a
  run); what is recorded as paid exceeds the maximum by at most what has escaped
  (`PaymentLifecycle.PaidAccount`), and not at all when no step lets a payment escape
  (`PaymentLifecycle.PaidWithinBudget`). `SlowSettlement.PaidTwiceTheBudget` is a run of authorized
  requests in which it does.
- *An allowance out of service never pays again* holds until an operation reopens it, which exactly a
  save does that its owner makes, that fits the amounts constraint and that leaves it active or unknown
  (`LedgerHistory.ReopensExactly`, `LedgerHistory.UnusableThroughout`, `LedgerHistory.FrozenForever`).
  Such a save makes it pay again whenever one more unit fits the column
  (`LedgerHistory.SaveReopens`).
- *A payment key is claimed once* holds until the allowance is deleted, which deletes the claim
  (`LedgerHistory.KeyLifetime` is the exact rule, `LedgerHistory.DeleteFreesKey` the consequence).
- *Payloads equal up to key order have one text* holds exactly when no object in the payload has two
  keys that the locale comparison ranks equal (`JsonCanonical.CanonicalExactly`).
- *The guard and the evaluator implement one policy* holds except for a status of `expired` with time
  left, which only the guard refuses (`AgentBudget.PoliciesAgree`,
  `AgentBudget.ExpiredStatusDisagreement`).
- *Every hosted row can be shown* holds exactly when the row starts before it ends and a revocation has
  left its signature, which a revocation may omit (`AgentBudget.HostedViewValid`).
- *Evidence ids are distinct and an engagement keeps its class* holds, however appends overlap, exactly
  when every record that is written would pass the check again at its write
  (`Evidence.OverlapsSoundExactly`, `Evidence.OverlappingAppendsBreak`).
- The settlement validator with zero attempts asks nothing and accepts
  (`SettlementValidation.Validate`).

## Model

| member | source | states |
|---|---|---|
| LedgerInvariants.ReserveKeeps | packages/database/src/index.ts:907-975 | A reserve, accepted or refused, keeps the ledger sound: reserved and spent are the exact sums of an allowance's held and consumed rows, both fit the maximum, no two rows share a payment key. |
| LedgerInvariants.FinishKeeps | packages/database/src/index.ts:1383-1427 | Consuming or releasing any reservation, also an unknown or already settled one, keeps the ledger sound. |
| LedgerInvariants.SweepIsReleases | packages/database/src/index.ts:780-805 | The sweep's batch update has exactly the effect of releasing its rows one transaction at a time. |
| LedgerInvariants.SaveKeeps | packages/database/src/index.ts:823-858 | Creating or overwriting an allowance keeps the ledger sound, whatever limits and status the record carries. |
| LedgerInvariants.DeleteKeeps | packages/database/src/index.ts:884-890 | Deleting an allowance with its reservations leaves every other allowance's sums exact. |
| LedgerInvariants.UpdateKeeps | packages/database/src/index.ts:985-1010 | Status updates by revocation and observation keep the ledger sound. |
| LedgerInvariants.RunKeeps | packages/database/src/index.ts:756-1010 | Every history of ledger operations from a sound state ends in a sound state. |
| LedgerInvariants.ReachableIsSound | apps/gateway/src/authorization.ts:42-46 | After every history, reserved equals the sum of held rows, spent the sum of consumed rows, payment keys are distinct and the hosted remaining capacity is not negative. |
| LedgerHistory.FrozenForever | packages/database/src/index.ts:935-936 | Once an allowance is out of service (any status but active and unknown) or deleted, and until an operation reopens it, no reserve on it succeeds and its spending stays within what was spent or held at that moment, through every other operation, saves included. |
| LedgerHistory.ReopensExactly | packages/database/src/index.ts:829-838 | An operation brings an allowance back from out of service if and only if it is a save by its owner, or of an absent row, that fits the amounts constraint and leaves it active or unknown. |
| LedgerHistory.UnusableThroughout | packages/database/src/index.ts:829-838 | An allowance stays out of service through a whole history if and only if no operation of the history reopens it. |
| LedgerHistory.SaveReopens | packages/database/src/index.ts:829-838 | A save after which a reserve, refused before, is accepted exists if and only if what is spent and held leaves one more unit within the amount column, for the save may raise the maximum. |
| LedgerHistory.KeyLifetime | packages/database/src/index.ts:929-934 | After one more operation a payment key is taken if and only if it was taken by a row this operation does not erase, or the operation is the accepted reserve that claims it. |
| LedgerHistory.ClaimedOnce | packages/database/src/index.ts:929-934 | After an accepted reserve, through every history that does not delete its allowance, every reserve with the same key on any allowance is refused, even after the first was released. |
| LedgerHistory.DeleteFreesKey | packages/database/src/index.ts:884-890 | Deleting and saving the allowance again makes the ledger accept the very same request a second time. |
| LedgerHistory.RowStays | packages/database/src/index.ts:1408-1418 | A reservation keeps its allowance, key, amount and expiry, and never changes again once consumed or released. |
| LedgerHistory.SettledOnce | packages/database/src/index.ts:1401-1404 | No history settles a reservation twice, so none is both consumed and released. |
| LedgerHistory.StatusMeansWhatItSays | packages/database/src/index.ts:1405-1415 | Over every history of active saves, an exhausted status means the whole maximum is spent and nothing is held, and a revoked one comes with its time, however late consumes rewrite the status. |
| LedgerHistory.AcceptedExactly | packages/database/src/index.ts:909-975 | In a sound ledger a reserve is accepted if and only if its amount fits the per-request limit and the remaining capacity of a live, active allowance and its key and id are unused. |
| LedgerEffects.ReserveEffect | packages/database/src/index.ts:951-972 | An accepted reserve adds its amount to what the allowance holds and inserts its row with key, amount and expiry; a refused one changes nothing. |
| LedgerEffects.RefusedExactly | packages/database/src/index.ts:909-950 | Each refusal is given exactly when its own check fails and all checks before it hold. |
| LedgerEffects.FinishEffect | packages/database/src/index.ts:1401-1420 | Consuming moves the amount from held to spent and exhausts an allowance spent to its maximum; releasing gives the amount back; an unknown or settled reservation changes nothing. |
| LedgerEffects.SaveEffect | packages/database/src/index.ts:823-858 | A save stores the record's limits, expiry, revocation and status with its defaults, keeps what was spent and held, and otherwise changes nothing. |
| LedgerEffects.BeginRevocationEffect | packages/database/src/index.ts:985-995 | Exactly the owner of an active allowance puts it in revocation_pending, and nothing else changes. |
| LedgerEffects.RevokeEffect | packages/database/src/index.ts:892-905 | Exactly the owner of an unrevoked allowance revokes it at that time, with the new signature or else the earlier one. |
| LedgerEffects.ObserveEffect | packages/database/src/index.ts:997-1010 | An observation moves active to unknown or failed and unknown to active or failed, and does nothing else. |
| LedgerEffects.LeavesServiceExactly | packages/database/src/index.ts:985-1010 | Exactly these take an allowance out of service: its owner's revocation steps and deletion, an observed failure, the consume of its last unit, and its owner's save with another status. |
| LedgerEffects.RevocationStops | packages/database/src/index.ts:892-905 | From its first step an owner's revocation stops the allowance over every history that does not reopen it: no reserve succeeds and spending stays within what was spent or held. |
| LedgerSweep.SweepShrinks | packages/database/src/index.ts:780-805 | A sweep removes exactly the rows it selected from the backlog of expired held rows. |
| LedgerSweep.SweepsDrain | packages/database/src/index.ts:780-814 | Sweeps at one fixed time leave the backlog minus 500 per sweep, however ties are ordered, so enough of them leave no expired row held. |
| LedgerSweep.SweepAccounts | packages/database/src/index.ts:792-799 | A sweep lowers each allowance's reserved amount by exactly what its own newly released rows held, and changes no other column. |
| LedgerSweep.TakenExactly | packages/database/src/index.ts:780-790 | A sweep takes held rows past their expiry, distinct, oldest first, none left out that is older, and as many as there are up to 500. |
| PostgresLedger.PostgresStore.constructor | packages/database/migrations/005_authorization_reservations.sql:41-51 | A new store has no rows. |
| PostgresLedger.PostgresStore.SaveAllowance | packages/database/src/index.ts:823-858 | The upsert does what the ledger's save does: amounts already spent or reserved survive, another owner's row stays; it fails exactly when the amounts constraint refuses the row as proposed or as updated. |
| PostgresLedger.PostgresStore.DeleteAllowanceMetadata | packages/database/src/index.ts:884-890 | Deletes the owner's row with its reservations, and reports whether there was one. |
| PostgresLedger.PostgresStore.ReserveAllowanceSpend | packages/database/src/index.ts:907-975 | Refuses with the first check that fails and leaves both tables as they were, or moves the amount to reserved and inserts the row; agrees with the ledger's reserve. |
| PostgresLedger.PostgresStore.FinishAllowanceReservation | packages/database/src/index.ts:1383-1427 | Answers true exactly for a held reservation, and agrees with the ledger's finish. |
| PostgresLedger.PostgresStore.SelectExpired | packages/database/src/index.ts:780-790 | Returns distinct expired held rows, oldest first, up to 500, leaving out none older than one returned. |
| PostgresLedger.PostgresStore.LowerAllowances | packages/database/src/index.ts:792-799 | The loop takes from every allowance the sum of its own listed rows, however many share it. |
| PostgresLedger.PostgresStore.CleanupExpired | packages/database/src/index.ts:780-814 | Releases exactly the oldest expired reservations and reports their exact number. |
| PostgresLedger.PostgresStore.BeginAllowanceRevocation | packages/database/src/index.ts:985-995 | Agrees with the ledger's step and reports true exactly when a row changed. |
| PostgresLedger.PostgresStore.RevokeAllowance | packages/database/src/index.ts:892-905 | Agrees with the ledger's step, keeps an earlier signature when none is given, and reports true exactly when a row changed. |
| PostgresLedger.PostgresStore.SetAllowanceObservationStatus | packages/database/src/index.ts:997-1010 | Agrees with the ledger's step and reports true exactly when a row changed. |
| LedgerTransactions.CommitIsAtomic | packages/database/src/index.ts:907-975 | What a transaction has written when it is ready to commit is the effect of its atomic operation on the committed tables of that moment, and that operation takes effect there. |
| LedgerTransactions.CommitFrame | packages/database/src/index.ts:1390-1404 | Another transaction's commit changes nothing that an open transaction has read under lock, locked or is about to insert. |
| LedgerTransactions.InterleavingsRefineLedger | packages/database/src/index.ts:756-1010 | For every start and every interleaving of micro-steps of reserve, consume, release, sweep, status update, save and delete, with aborts anywhere, the committed tables are those of the atomic ledger run in commit order, and each committed operation takes effect there. |
| LedgerTransactions.InterleavingsKeepInvariant | packages/database/src/index.ts:756-1010 | So every interleaving keeps the ledger sound. |
| LedgerCompleteness.EffectiveCompletes | packages/database/src/index.ts:907-975 | Whatever takes effect on the atomic ledger is committed by some run of one transaction: no lock step refuses or waits for more than the ledger does. |
| LedgerCompleteness.EveryHistoryIsALog | packages/database/src/index.ts:756-1010 | Every history of operations that take effect is the commit log of an interleaving that leaves nothing open. |
| AgentBudget.AgentBudgetGuard.constructor | packages/sdk/src/agent-budget.ts:31-43 | The guard holds the schema-valid view it was given. |
| AgentBudget.AgentBudgetGuard.Reserve | packages/sdk/src/agent-budget.ts:45-111 | A policy refusal names its code and never reaches the store; otherwise the ledger decides on a request keyed by the payload's fingerprint. |
| AgentBudget.AgentBudgetGuard.Consume | packages/sdk/src/agent-budget.ts:113-115 | Finishes the reservation as consumed; true exactly if it was held. |
| AgentBudget.AgentBudgetGuard.Release | packages/sdk/src/agent-budget.ts:117-119 | Finishes the reservation as released; true exactly if it was held. |
| AgentBudget.PoliciesAgree | packages/subscriptions/src/policy.ts:21-77 | For every valid view and request the guard authorizes if and only if the evaluator does and the status is not expired; an authorization leaves an exact, nonnegative remainder; for an active view the codes coincide. |
| SpendPolicy.AuthorizedExactly | packages/sdk/src/agent-budget.ts:60-91 | Each policy authorizes exactly the requests whose owner, delegate, network, asset, recipient, resource, time and amount all fit a finalized view that is active (or, for the evaluator, expired). |
| SpendPolicy.RefusedByFirstBroken | packages/subscriptions/src/policy.ts:34-71 | Each policy refuses with the code of the first rule in its own list that the request breaks, and the evaluator reports what is unspent. |
| SpendPolicy.FinalViews | packages/core/src/authorization.ts:61-88 | In a valid view one request's limit is positive and within the whole; an exhausted one reports nothing left and is authorized by neither policy; a revoked one names its transaction. |
| AgentBudget.ExpiredStatusDisagreement | packages/subscriptions/src/policy.ts:34-46 | Every request the guard authorizes is one on which the two differ once the status reads expired. |
| AgentBudget.ReservationWindow | packages/sdk/src/agent-budget.ts:93-105 | A requested reservation carries the call's allowance, amount and key, lives at most five minutes and never past the authorization; the store finds it expired exactly when its own clock is past one of the two. |
| AgentBudget.GuardThenLedger | packages/sdk/src/agent-budget.ts:84-105 | For a request the guard accepts, the ledger accepts it if and only if the row is still active, unexpired and has the room left that the guard's snapshot could not see. |
| AgentBudget.OneSlotPerMeaning | packages/sdk/src/agent-budget.ts:92-98 | Payloads equal up to key order claim one reservation slot in every history. |
| AgentBudget.KeysMatchMeaning | packages/sdk/src/agent-budget.ts:140-151 | With a fingerprint that separates texts, payment keys are equal if and only if payloads are equal up to key order. |
| AgentBudget.HostedViewValid | apps/gateway/src/authorization.ts:8-47 | After every history of active saves the hosted projection of a row passes the view schema if and only if it starts before it ends and a revocation has left its signature; its remaining capacity is never negative. |
| AgentBudget.HostedStatusExactly | apps/gateway/src/authorization.ts:13-17 | The hosted status is revoked for a row with a revocation time, else expired when its expiry has passed, else the stored status; amounts are the row's own. |
| StableSort.SortPairwise | packages/sdk/src/agent-budget.ts:147-149 | The sort orders by rank and, among equals, keeps every relation the input had. |
| StableSort.StrictOrderUnique | packages/sdk/src/agent-budget.ts:147-149 | Two arrangements of the same elements, both in a strict order, are the same sequence. |
| JsonPrinting.PrintInjective | packages/sdk/src/agent-budget.ts:144-151 | Well-formed values with the same text are the same value: strings, escapes, numbers and nesting are unambiguous. |
| JsonReading.HexReads | packages/sdk/src/agent-budget.ts:144-151 | Hexadecimal digits of escapes are printed in lower case and read back. |
| JsonReading.StringReads | packages/sdk/src/agent-budget.ts:144-151 | A printed string is a quoted literal that reads back as the string by section 7 of RFC 8259. |
| JsonReading.PrintedText | packages/sdk/src/agent-budget.ts:144-151 | The text of each kind of value: literals, numbers, comma-separated items in brackets, comma-separated entries in braces. |
| JsonReading.ListedAscending | packages/sdk/src/agent-budget.ts:147-149 | Integer keys come first in ascending order, the others follow in ascending order of the collation. |
| JsonReading.IndexExactly | packages/sdk/src/agent-budget.ts:147-149 | The integer keys are the decimal numerals of the numbers below 4294967295. |
| JsonCanonical.CanonicalKeepsMeaning | packages/sdk/src/agent-budget.ts:144-151 | Sorting keys at every depth keeps a payload's meaning. |
| JsonCanonical.StableTextDecidesMeaning | packages/sdk/src/agent-budget.ts:144-151 | Without tied keys two payloads have the same text if and only if they are equal up to key order at every depth, array order included in what they are. |
| JsonCanonical.TiesKeepOrder | packages/sdk/src/agent-budget.ts:147-149 | Keys that compare equal are listed in the order in which they came. |
| JsonCanonical.CanonicalExactly | packages/sdk/src/agent-budget.ts:144-151 | A payload has one text for all its key orders if and only if none of its objects has two keys that compare equal. |
| PaymentLifecycle.ConsumedHasOwnRecord | packages/sdk/src/index.ts:367-398 | In every run each consumed reservation has a stored payment record of its own payload, and different reservations have different records. |
| PaymentLifecycle.BudgetRespected | packages/sdk/src/index.ts:440-482 | In every run consumed plus outstanding never exceeds an allowance's stored maximum. |
| PaymentLifecycle.SettledAtMostOnce | packages/sdk/src/index.ts:476-530 | In every run at most one operation settles a reservation, whichever hooks and sweeps race for it. |
| HookEffects.VerifyEffect | packages/sdk/src/index.ts:440-461 | An accepted reserve is committed and remembered for its payload; a refused one leaves the server as it was. |
| HookEffects.SettlementCharges | packages/sdk/src/index.ts:371-398 | From a remembered, held reservation and a new signature, the settle steps store the record, consume the reservation, charge its amount and tie it to that record. |
| HookEffects.ConsumeEffect | packages/sdk/src/index.ts:476-482 | The hook's consume charges a held reservation exactly, and changes nothing for one no longer held. |
| HookEffects.ReplayRefused | packages/sdk/src/index.ts:394 | A settlement whose signature is stored already changes nothing. |
| HookEffects.FailureReleases | packages/sdk/src/index.ts:521-530 | The failure and cancel hooks release what their payload holds: the row is released, the allowance's held amount drops by the row's amount, nothing is spent. |
| HookEffects.FailureNeverHolds | packages/sdk/src/index.ts:521-530 | Whatever hooks and background operations come between a failure and its release, short of a restart, after the release the reservation is no longer held. |
| HookEffects.ForgetEffect | packages/sdk/src/index.ts:519-529 | Forgetting a payload leaves its hooks nothing to do and touches neither ledger, records nor other payloads. |
| HookEffects.RestartEffect | packages/sdk/src/index.ts:359-404 | A restart loses what was in memory and keeps ledger and records. |
| HookEffects.BackgroundEffect | packages/database/src/index.ts:756-814 | Sweeps, saves and status updates of others take effect on the ledger at once. |
| PaymentLifecycle.EscapesExactly | packages/sdk/src/index.ts:394-396 | A step lets a recorded payment escape its charge if and only if it stores a record for a payload whose reservation is released, or releases a held reservation whose payload has a record. |
| PaymentLifecycle.EscapedExactly | packages/sdk/src/index.ts:394-396 | Over every run a payment has escaped if and only if some step of the run let it. |
| PaymentLifecycle.PaidAccount | packages/sdk/src/index.ts:476-482 | In every run what is recorded as paid, less what has escaped, is within what the ledger has spent and holds, hence within the maximum. |
| PaymentLifecycle.PaidWithinBudget | packages/sdk/src/index.ts:394-396 | In every run without such a step, everything recorded as paid stays within the maximum. |
| SlowSettlement.BothAuthorized | packages/sdk/src/agent-budget.ts:45-111 | The guard authorizes both requests of the following run. |
| SlowSettlement.AfterRefusedConsume | packages/sdk/src/index.ts:480-482 | In that run the hook of the late settlement is about to consume a reservation that is no longer held, and the refused consume changes nothing. |
| SlowSettlement.PaidTwiceTheBudget | packages/sdk/src/index.ts:394-396 | In that run two units are recorded as paid against a maximum of one: one is charged, the other escaped when its record was stored. |
| PaymentStores.MemoryPaymentStore.constructor | packages/core/src/index.ts:83-85 | A new store knows no signature and no authorization. |
| PaymentStores.MemoryPaymentStore.Has | packages/core/src/index.ts:86-88 | Answers whether the signature is stored. |
| PaymentStores.MemoryPaymentStore.Save | packages/core/src/index.ts:89-93 | Succeeds exactly for the first save of a signature and never overwrites. |
| PaymentStores.MemoryPaymentStore.ReserveAuthorization | packages/core/src/index.ts:97-101 | True exactly the first time a fingerprint is seen. |
| PaymentStores.StandalonePaymentStore.constructor | packages/database/src/standalone-payment-store.ts:17-18 | A new store has no rows. |
| PaymentStores.StandalonePaymentStore.Has | packages/database/src/standalone-payment-store.ts:36-42 | Answers whether the signature's hash is stored. |
| PaymentStores.StandalonePaymentStore.Save | packages/database/src/standalone-payment-store.ts:44-71 | Succeeds exactly for the first save of a hash and never overwrites. |
| PaymentStores.StandalonePaymentStore.ReserveAuthorization | packages/database/src/standalone-payment-store.ts:77-89 | Refuses what is not a hex digest; otherwise true exactly the first time. |
| PaymentStores.SaveInMemory | packages/core/src/index.ts:89-93 | Given any series of saves, the plain store answers as the common specification says for signatures as keys. |
| PaymentStores.SaveByHash | packages/database/src/standalone-payment-store.ts:44-71 | Given any series of saves, the hashed store answers as the common specification says for hashes as keys. |
| PaymentStores.StoresAgree | packages/database/src/standalone-payment-store.ts:13-15 | For every series of saves the hashed store accepts none that the plain one refuses, and the two answer alike if and only if no two different signatures of the series have one hash. |
| ReplayGate.HandledOncePerSignature | packages/sdk/src/index.ts:210-258 | Over every interleaving of requests, facilitator answers, failures and restarts, the handler runs at most once per signature, each of them stored. |
| ReplayGate.StoredBeforeHandled | packages/sdk/src/index.ts:237-250 | When a request is about to be handed on, its record is stored and its signature has not been handled. |
| ReplayGate.HandledAfterStored | packages/sdk/src/index.ts:237-250 | In every run each handler call has its own moment, at which its record was stored and its signature not yet handled. |
| ReplayGate.OnlySettledHandled | packages/sdk/src/index.ts:212-220 | Nothing is handled without a successful settlement of that signature with a payer, on no other network than devnet. |
| ReplayGate.FreshIsHandled | packages/sdk/src/index.ts:210-250 | A settled payment whose signature is not stored does reach the handler. |
| ReplayGate.AnswerExactly | packages/sdk/src/index.ts:212-220 | A settlement's answer leads to payment_invalid, wrong_network or the replay check, exactly as its fields say. |
| ReplayGate.ReplayExactly | packages/sdk/src/index.ts:221-237 | A stored signature is answered as replayed, by the check or by the save; a failing store ends the request; a new signature is stored. |
| ReplayGate.NotifyExactly | packages/sdk/src/index.ts:238-250 | A failing notification withholds the handler although the record is stored. |
| ReplayGate.EdgesExactly | packages/sdk/src/index.ts:210-258 | Requests begin by settling or end as malformed; a restart loses requests and keeps records. |
| ReplayGate.HasIsRacy | packages/sdk/src/index.ts:221-237 | Two requests with one signature can both pass the membership check; only the save tells them apart. |
| Finality.FinalityStore.UpdateStatus | packages/database/src/index.ts:360-376 | A payment moves only out of confirmed, and true is answered exactly when it moved. |
| Finality.Reconciler.constructor | apps/gateway/src/finality.ts:36-45 | A new reconciler has counted no misses. |
| Finality.Reconciler.GetStatuses | apps/gateway/src/finality.ts:112-136 | The first usable reply wins and the number of attempts is exact; otherwise one reason per node is reported. |
| Finality.Reconciler.ApplyAnswers | apps/gateway/src/finality.ts:84-108 | The loop has the effect of absorbing the answers one by one, for answers of any length. |
| Finality.Reconciler.Reconcile | apps/gateway/src/finality.ts:47-110 | Without a usable reply nothing moves and the call fails; otherwise store, misses, counts and evidence are exactly those of the first usable reply. |
| FinalityRuns.LeavesOnOwnAnswer | apps/gateway/src/finality.ts:87-98 | With any number of overlapping calls, a payment leaves confirmed only on an answer at its own index: finalized without error, or an error. |
| FinalityRuns.SettledStays | packages/database/src/index.ts:360-376 | A finalized or failed payment never changes again. |
| FinalityRuns.CountersMatchMoves | apps/gateway/src/finality.ts:95-98 | Over every run the finalized and failed counters of all calls add up to exactly the payments that moved. |
| FinalityRuns.ReportWithinChecked | apps/gateway/src/finality.ts:109 | In each call finalized plus failed plus unknown is at most the number checked. |
| FinalityRuns.UnansweredStay | apps/gateway/src/finality.ts:99-107 | A payment whose answers are all absent or not final keeps its status. |
| FinalityRuns.EntryExactly | apps/gateway/src/finality.ts:87-107 | One answer, exactly: its own payment, if still confirmed, becomes finalized on a finalized level without error and failed on an error; each counter and the miss count rise on their own outcome only; nothing else changes. |
| FinalityRuns.BeginningsExactly | apps/gateway/src/finality.ts:84-86 | A call starts at its first answer with all counters at zero, and a new payment starts confirmed. |
| FinalityRuns.AnswersDecide | apps/gateway/src/finality.ts:87-108 | After one reconciliation each listed confirmed payment has exactly the status its own answer gives it. |
| FinalityRuns.OthersStay | apps/gateway/src/finality.ts:87-108 | Payments that are not confirmed or not listed are left alone. |
| Receipts.ReceiptStore.constructor | packages/database/src/index.ts:378-424 | A new store has no receipts. |
| Receipts.ReceiptStore.SavePublicReceipt | packages/database/src/index.ts:378-424 | Inserts, replaces the replaceable fields, or refuses with the table unchanged, by the schema rule and the transition rule. |
| Receipts.ReceiptsMoveForward | packages/database/src/index.ts:386-402 | Over every series of saves a stored receipt keeps identity, payer and creation time, its update time never decreases, it never leaves finalized or failed nor falls back from confirmed. |
| Receipts.ReachableExactly | packages/database/src/index.ts:398-401 | A settlement can be reached by saves if and only if that order of settlements allows it. |
| Receipts.SaveExactly | packages/database/src/index.ts:378-424 | Exactly when a save is refused, by schema or by transition, and what an accepted one stores: the save, with a known receipt's identity, payer and creation time. |
| Receipts.ReadBackNeverFails | packages/core/src/receipt.ts:48-55 | Every row that saves can produce satisfies the schema's time rule, so reading it back is never refused for it. |
| Idempotency.NeverIncomplete | packages/database/src/index.ts:565-568 | Over every interleaving with rollbacks and cleanups, every committed key has a response and no call is refused as incomplete. |
| Idempotency.OneProductPerKey | packages/database/src/index.ts:544-609 | Until a key is cleaned up, every successful call with it carries the request hash of the one insert that created it and is answered with the one product that insert upserted. |
| Idempotency.ReadExactly | packages/database/src/index.ts:555-571 | A call that finds its key committed and no reader before it is answered with the stored response exactly when its request hash is the stored one, and otherwise ends without an answer. |
| Idempotency.GoneKeyRefused | packages/database/src/index.ts:564-566 | A call whose key was cleaned up after its conflict ends without an answer. |
| Idempotency.NewKeyStarts | packages/database/src/index.ts:548-555 | A call inserts a new key, or finds it committed, unless an uncommitted insert of the key is in the way. |
| Idempotency.InsertCompletes | packages/database/src/index.ts:572-602 | An inserting call upserts the product, keeping a stored one's identity and fixed fields, stores it as the key's response and returns it. |
| Idempotency.EndingsExactly | packages/database/src/index.ts:603-605 | A rollback leaves no trace; a cleanup opens the key's next lifetime unless a reader holds it. |
| WalletChallenges.MemoryChallengeStore.constructor | apps/gateway/src/wallet-auth.ts:15-16 | A new store has no challenges. |
| WalletChallenges.MemoryChallengeStore.SaveWalletChallenge | apps/gateway/src/wallet-auth.ts:18-33 | Prunes exactly the expired challenges, then stores the new one unless the wallet has the maximum. |
| WalletChallenges.MemoryChallengeStore.ConsumeWalletChallenge | apps/gateway/src/wallet-auth.ts:35-39 | Returns the stored challenge, if any, and removes it. |
| WalletChallenges.WalletChallenges.constructor | apps/gateway/src/wallet-auth.ts:42-46 | Keeps the store and the maximum it was given. |
| WalletChallenges.WalletChallenges.Issue | apps/gateway/src/wallet-auth.ts:48-84 | Stores the challenge under its nonce's hash with five minutes to live, or refuses at the maximum. |
| WalletChallenges.WalletChallenges.Verify | apps/gateway/src/wallet-auth.ts:86-130 | True exactly for a stored challenge of the same wallet, request, key and message, in time and signed; whatever the answer, the challenge is gone. |
| WalletChallenges.AcceptedAtMostOnce | apps/gateway/src/wallet-auth.ts:86-100 | Over every run a nonce is accepted at most as often as it was issued, and only what was issued is accepted. |
| WalletChallenges.AcceptedMatchesIssue | apps/gateway/src/wallet-auth.ts:101-113 | What is accepted was issued for that wallet, request hash, idempotency key and message, is not past its expiry, and is removed. |
| WalletChallenges.SavedExactly | apps/gateway/src/wallet-auth.ts:18-33 | Exactly what a save leaves stored: the unexpired challenges, and the new one if its wallet has room. |
| WalletChallenges.AcceptedExactly | apps/gateway/src/wallet-auth.ts:97-129 | A presented challenge is accepted exactly if it is the stored one for that wallet, request, key and message, in time and signed. |
| WalletChallenges.SignatureDecides | apps/gateway/src/wallet-auth.ts:110-128 | When all else matches, the signature check of that wallet over that message decides. |
| WalletChallenges.IssuedIsAccepted | apps/gateway/src/wallet-auth.ts:48-130 | A challenge issued while its wallet has room, and presented in time with its own data and a good signature, is accepted. |
| WalletChallenges.WalletBounded | apps/gateway/src/wallet-auth.ts:22-32 | No wallet ever has more stored challenges than the maximum, whatever the clocks say. |
| SessionBudget.OneAtATimeInOrder | examples/client/src/index.ts:111-119 | Calls run one at a time and start in the order of submission. |
| SessionBudget.QueueNeverRejected | examples/client/src/index.ts:114-117 | In every run no queue promise is ever rejected, although calls are: both arms of the second continuation swallow the outcome. |
| SessionBudget.TurnExactly | examples/client/src/index.ts:111-113 | A call may start if and only if it is the first waiting one and the queue promise before it has settled, and then the call before it has settled. |
| SessionBudget.NeverStuck | examples/client/src/index.ts:111-119 | Whenever a call is waiting, one is under way, or the first waiting one may start, or it may once the queue promise has followed the last settled call. |
| SessionBudget.FailureIsForgotten | examples/client/src/index.ts:114-117 | However a running call ends, the queue promise after it is fulfilled next, and then the next call may start. |
| SessionBudget.SessionWithinBudget | examples/client/src/index.ts:76-99 | In every run the total authorized is the sum of all payments and within the session maximum, and each payment is within the request maximum and goes to the expected recipient in the expected asset and network. |
| SessionBudget.ChooseExactly | examples/client/src/index.ts:76-96 | A call takes a requirement exactly when its terms are the expected ones, it fits what is left, and the resource is allowed; a disallowed resource ends the call. |
| SessionBudget.SubmitExactly | examples/client/src/index.ts:112-117 | Every submission joins the queue behind the calls before it. |
| SessionBudget.CreatedExactly | examples/client/src/index.ts:97-99 | A created payment is added to the session's total at once. |
| SessionBudget.PaidForAllowedResource | examples/client/src/index.ts:85-96 | In every run whatever was paid was taken for a resource that was allowed. |
| SessionBudget.NormalizePathname | examples/client/src/index.ts:211-215 | The loop computes the path without its trailing slashes. |
| SessionBudget.NormalizedExactly | examples/client/src/index.ts:211-215 | Normalising drops exactly the trailing slashes, is idempotent and never yields an empty path. |
| SessionBudget.NoSiblingAllowed | examples/client/src/index.ts:189-209 | An allowed candidate is of the same origin and its path ends with the allowed one or goes on with a slash. |
| SessionBudget.AllowedExactly | examples/client/src/index.ts:189-209 | Exactly the candidates of the same origin without credentials whose path is the allowed one, or below it when subpaths are allowed. |
| SettlementValidation.SumBalances | packages/sdk/src/index.ts:144-159 | The reduction adds exactly the balances of the owner and mint. |
| SettlementValidation.Validate | packages/sdk/src/index.ts:87-141 | The first answer that is not absent, within the attempts, decides: which refusal it gives, or acceptance of a successful transaction in which the recipient gained exactly the amount and the payer lost at least it; no attempts refuse nothing. |
| SettlementValidation.HeldConcat | packages/sdk/src/index.ts:150-157 | Splitting an account's balance over several entries changes nothing. |
| SettlementValidation.HeldOne | packages/sdk/src/index.ts:150-157 | An entry counts with its full amount exactly for its own owner and mint. |
| SettlementValidation.TransferSettlesExactly | packages/sdk/src/index.ts:123-138 | A transfer between two accounts settles exactly when the recipient got the amount and the payer paid at least it. |
| SettlementValidation.SelfPaymentNeverSettles | packages/sdk/src/index.ts:123-138 | A payment to oneself is never accepted. |
| Evidence.EvidenceLedger.constructor | packages/pilot/src/self-service-ledger.ts:9-20 | A missing file is an empty ledger. |
| Evidence.EvidenceLedger.Append | packages/pilot/src/self-service-ledger.ts:22-38 | Appends or refuses by the id check and the comparison with the first record of the engagement. |
| Evidence.AppendKeepsExactly | packages/pilot/src/self-service-evidence.ts:64-75 | In a sound ledger an append is accepted if and only if the longer ledger is sound: comparing with the first record is comparing with all. |
| Evidence.LedgerSound | packages/pilot/src/self-service-ledger.ts:22-38 | After every series of appends evidence ids are distinct and an engagement has one classification. |
| Evidence.RefusedExactly | packages/pilot/src/self-service-ledger.ts:28-33 | An append is refused for a repeated id first, and otherwise exactly when a record of its engagement has another class. |
| Evidence.OverlapsSoundExactly | packages/pilot/src/self-service-ledger.ts:27-37 | For every series of overlapping appends, each deciding on the records it had read, the file stays sound if and only if every record written would pass the check again at its write. |
| Evidence.WithoutOverlap | packages/pilot/src/self-service-ledger.ts:27-37 | When every append reads the whole file, the file is the ledger of the appends one after another. |
| Evidence.OverlappingAppendsBreak | packages/pilot/src/self-service-ledger.ts:27-37 | Two overlapping appends of one record are both written and leave a duplicate id. |
| Evidence.AggregatePartitions | packages/pilot/src/self-service-ledger.ts:40-87 | For every ledger the two engagement sets are disjoint and their sizes add up to the distinct consented engagements. |
| Evidence.SelectedExactly | packages/pilot/src/self-service-ledger.ts:43-54 | The three consents and the class that decide on which side of the aggregate a record is counted. |
| CommercialGate.GroupByEngagement | packages/pilot/src/self-service-evidence.ts:87-92 | The loop builds a map from each engagement to its own records in order, with its keys in order of insertion. |
| CommercialGate.CollectFirst402 | packages/pilot/src/self-service-evidence.ts:110-120 | Collecting group by group finds exactly the durations of the started engagements. |
| CommercialGate.QualifiesForCommercialGate | packages/pilot/src/self-service-evidence.ts:77-137 | Filtering, grouping, counting groups and sorting give the gate defined by sets of engagements and the median of their durations. |
| CommercialGate.StartedExactly | packages/pilot/src/self-service-evidence.ts:80-98 | A start is an engagement with a passed initializer record of a consented independent participant. |
| CommercialGate.CompletedExactly | packages/pilot/src/self-service-evidence.ts:99-109 | A completion is a start with a passed settlement, protected response and replay rejection, each without an intervention. |
| CommercialGate.DurationsExactly | packages/pilot/src/self-service-evidence.ts:110-120 | The durations are those of passed first-402 records of the started engagements. |
| CommercialGate.EligibleExactly | packages/pilot/src/self-service-evidence.ts:125-136 | Eligible means three starts, two completions and a median below ten minutes. |
| CommercialGate.GatePermuted | packages/pilot/src/self-service-evidence.ts:77-137 | The gate is the same for every permutation of the records. |
| CommercialGate.GateGrows | packages/pilot/src/self-service-evidence.ts:93-109 | One more record never lowers starts or completions, and completions never exceed starts. |
| CommercialGate.MedianHasRank | packages/pilot/src/self-service-evidence.ts:110-124 | The median is the element of rank floor(n / 2) of the sorted durations, and missing exactly when there are none. |
| CommercialGate.AggregateGate | packages/pilot/src/self-service-ledger.ts:85 | The gate over the aggregate's own selection is the gate over the whole ledger. |
| EndpointVerification.Candidates | packages/cli/src/verify.ts:88-94 | The candidates are exactly the parsed well-formed entries; malformed ones are skipped wherever they sit. |
| EndpointVerification.CandidateExactly | packages/cli/src/verify.ts:311-324 | A requirement is a candidate exactly if some entry offers it with every text present, a positive amount in digits and an address of 32 to 44 base58 characters. |
| EndpointVerification.SelectRequirement | packages/cli/src/verify.ts:326-343 | The search returns a candidate, one within policy if and only if there is one, and throws exactly when it compares an amount with a malformed maximum. |
| EndpointVerification.SelectsFirst | packages/cli/src/verify.ts:330-342 | The first exact requirement within policy is selected; without one the first exact one, and without any exact one the first. |
| EndpointVerification.SelectionDecides | packages/cli/src/verify.ts:97-160 | The one selected requirement passes all its checks if and only if the policy is complete and some entry anywhere is an exact offer within it. |
| EndpointVerification.VerifyEndpoint | packages/cli/src/verify.ts:48-169 | The report passes if and only if the policy names devnet, the USDC mint, a recipient and a maximum, the reply is 402 with a decodable challenge of version 2, and some well-formed entry is an exact offer within policy. |

## Left out

- LedgerTransactions.InterleavingsRefineLedger: a sweep may lock any set of at most 500 expired rows; that it takes the oldest is proved of the store's method. The starting state is one whose reservations have their allowance, as the foreign key ensures.
- PostgresLedger.PostgresStore.SelectExpired: rows with equal expiry come in an arbitrary order, as the query leaves it open.
- PostgresLedger.PostgresStore.CleanupExpired: counts and deletes of challenges, sessions, metadata requests and link states are not modelled; the deletion of idempotency keys is, in `Idempotency`.
- PostgresLedger.PostgresStore.SaveAllowance: the delegate, mint, scope, start and observation columns are not modelled, nor the constraint on the length of scopes. The constraint that a reservation expires after its creation can only refuse a reserve whose expiry passes within the call, and would be an abort.
- PostgresLedger.PostgresStore.RevokeAllowance: the observed commitment and its time are not modelled.
- PaymentLifecycle.PaidWithinBudget: what is recorded as paid is what a stored record says, each reservation counted once. A transfer that settled on chain but whose validation or record failed (`packages/sdk/src/index.ts:374-394`) leaves no record; its reservation is released by a hook or the sweep, and it is counted nowhere.
- PaymentLifecycle.SettledAtMostOnce: runs of the hooks contain no deletion of allowances, which the gateway offers; a deletion removes the rows these statements are about. That amounts stay conserved through deletions is `LedgerInvariants.ReachableIsSound`.
- WalletChallenges.AcceptedAtMostOnce: nonces are not assumed to be random, so acceptances are bounded by issues of the same nonce hash; with distinct nonces this is at most once.
- JsonCanonical.CanonicalExactly: payloads are parsed JSON, so `undefined`, functions, `toJSON` and lone surrogates do not occur; numbers are their printed text; the collation is any ranking of keys by real numbers.
- AgentBudget.AgentBudgetGuard.Reserve: the normalised resource, the amount's number and the fresh reservation id are parameters; URL parsing and the two returned fingerprints are not modelled.
- AgentBudget.HostedViewValid: the pattern checks of single fields are not modelled.
- EndpointVerification.VerifyEndpoint: URL and address checks, the request and its timeout are one parameter, a response or none; a policy maximum is the integer its text denotes, or malformed; evidence and error texts are not modelled.
- Finality.Reconciler.Reconcile: which confirmed signatures are listed, in what order and how many is a parameter, as are the replies; durations are not modelled.
- Evidence.AggregatePartitions: the milestone counts beside the two engagement counts are not modelled.
- SettlementValidation.Validate: the answers of the node are a parameter, one for each attempt; waiting between attempts is not modelled.
- SessionBudget.SessionWithinBudget: the upstream client is modelled by the order the code relies on: filter and select, resource check, create, then report.
- The middleware, the hooks, idempotent creation and the client queue are step functions on a state value, because their calls interleave at every wait; update in place is modelled in the store classes, the reconciler and the gate's loops.
- The policy runner, payment events and receipts sent by the hooks, and the authorization fingerprint gate in front of settlement beyond its two stores.
- The dynamic middleware, framework adapters, facilitator client and the challenge response for unpaid requests: plumbing around the gates.
- Wallet sessions, linked identities, metadata requests and the challenge store kept in the database: single statements with no history to speak of.
- The conversion summary in SQL and revenue totals in floating point.
- The web app, the initializer, doctor diagnostics, address block lists, rate limits and the Solana program: configuration, input and output, or code that is not part of this model.
