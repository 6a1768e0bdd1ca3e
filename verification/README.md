# Klyrow: verified model of delivery, reconciliation and contract checking

This project models the parts of the Klyrow gateway whose correctness depends
on many workers, crashes and repeated calls, and the two scripts that guard its
API contracts, and proves what they promise. Run `dafny verify dfyconfig.toml`
to check it.

Operations that update rows in place are methods of classes whose fields are
the tables. Each is proved equal to a function on table values; protocols,
invariants and theorems are stated about those functions, over every run of
steps. Loops of the program are loops here, with their invariants.

| part | files |
|---|---|
| integration outbox, the Mautic protocol, callbacks | `IntegrationOutbox`, `MauticProtocol`, `MauticProgress`, `CallbackProtocol` |
| campaign runs and items | `CampaignTables`, `CampaignProtocol`, `CampaignProgress` |
| business events, fenced by owner, attempt and deadline | `BusinessEvents`, `BusinessEventProtocol` |
| provider events and usage, fenced by claim time | `ProviderDelivery`, `ProviderDeliveryProtocol` |
| dead-letter reconciliation and attachment replay | `Queue`, `DeadLetters`, `DeadLetterProgress`, `DeadLetterReport`, `Attachments`, `HonestReplay` |
| durable results: sealing, rewrap, purge | `JsonValue`, `DurableResults`, `SealedResults`, `ReplayIdentity`, `ResultSizes`, `KeysetCursor`, `DurableMaintenance`, `RotationReport`, `DurableRetention`, `PurgePlan`, `PurgeSafety` |
| single and batched operation readers | `OperationReader`, `ShownResults`, `RecoverableOperations` |
| API compatibility and audience export | `Json`, `JsonPointer`, `Reachability`, `Contract`, `ContractMeaning`, `ApiChanges`, `ApiCompatibility`, `ApiReference`, `ApiPreorder`, `AudienceSchema`, `AudienceReference` |
| rate limiter, flow cookie, billing ledger | `RateLimiter`, `FlowCookie`, `Money`, `Billing`, `BillingLedger`, `BillingMeaning` |
| shared | `Wrappers`, `Text`, `Numbers` |

## Assumptions

- A committed transaction is one step. `FOR UPDATE` excludes, `SKIP LOCKED` is
  a set of rows left out, `NOWAIT` fails the call. Where the program commits in
  the middle, the model has two steps.
- Clocks are parameters. The limiter assumes one that does not run backwards;
  timestamp fencing only that each worker's own does not, and that an operator
  who retries a row does so by a clock past its claims; the Mautic, campaign and
  business-event protocols assume no order of clock readings at all.
- Owner ids are never drawn twice. Digests are injective. A ciphertext opens
  under exactly the key, nonce and context it was made with.
- The Mautic provider does not apply a request it answers with 429 or whose
  connection was never made. It may or may not have applied any other.
- The keyring loads, and holds its active key; old keys are kept.

## What the code does not promise after all

- `check-api-compatibility.py` is a preorder only without null operations and
  without null responses that are dropped and later filled
  (`ApiPreorder.Reflexivity`, `ApiPreorder.Transitivity`).
- A pause or expiry between a campaign claim and its lease leaves items leased
  under a claim that is over. They hold the run open until the next pause,
  cancel or expiry (`CampaignProtocol.OrphanStep`,
  `CampaignProtocol.FourStepsToAnOrphan`).
- The bound of a reconciliation page can be passed if another transaction
  releases usage rows between the two usage queries
  (`DeadLetterProgress.WithinLimitIff`, `DeadLetterProgress.LimitCanBePassed`).
- Redaction can lengthen a result. An accepted result whose redacted form is
  over 65536 bytes, and at most 66448, is stored and can never be read;
  rewrapping makes such a legacy row unreadable
  (`ReplayIdentity.OutgrownIsLost`, `ResultSizes.RedactionOutgrows`,
  `DurableMaintenance.RewrapReads`, `DurableMaintenance.RewrapCanLose`).
- The Mautic circuit does not keep claims away for a whole minute: a success of
  a worker already on its way closes it at once (`MauticProtocol.HoldStep`).
- An operator's retry of a provider delivery by a clock behind an earlier claim
  of the row lets a stale worker's claim match again
  (`ProviderDeliveryProtocol.OperatorRetryKeepsOrderIff`,
  `ProviderDeliveryProtocol.SkewedRetryBreaksTheFence`).
- A provider delivery whose worker always dies is never a dead letter
  (`ProviderDeliveryProtocol.CrashingIsFree`).
- Late in a period a cheaper plan takes effect at once, although the
  downgrade branch is meant for the next period (`BillingLedger.DowngradeWaitsIff`,
  `BillingLedger.LateDowngradeIsImmediate`).
- Refunds of payments outside the sandbox are bounded one by one, not together
  (`BillingLedger.RefundsWithinIff`, `BillingLedger.TwentyRefundedOfTen`).
- A tax rule with a negative rate can leave an invoice with credits above its
  total (`BillingLedger.CreditsWithinIff`, `BillingLedger.NegativeTaxBreaksCredits`).
- An address of blanks alone is not dropped from a campaign: it becomes an item
  for the empty recipient (`CampaignProgress.BlankAddress`).
- Mautic attempts are bounded more tightly than the operator limit of 8
  suggests: no operation is claimed more than 5 times (`MauticProtocol.ClaimsAreBounded`).

## Model

| member | source | states |
|---|---|---|
| MauticProtocol.AtMostOneEffect | apps/gateway/app/mautic_adapter.py:214-503 | Over every run of workers, crashes, expiries, operators and tenants, the provider acts at most once on an operation, and at most once per tenant and idempotency key |
| MauticProtocol.AppliedIsNeverResent | apps/gateway/app/mautic_adapter.py:408-503 | An operation the provider has acted on, or whose request is on the wire, is PROCESSING, COMPLETED or DEAD_LETTER under that very attempt: never PENDING, RETRY or CANCELLED |
| MauticProtocol.ClaimsAreBounded | apps/gateway/app/mautic_adapter.py:230-258 | An operation is claimed at most 5 times in any run, and its attempt count never passes 8 |
| MauticProtocol.LateObservationExcludesCompletion | apps/gateway/app/mautic_adapter.py:315-376 | A late observation exists only beside DEAD_LETTER or a PROCESSING row whose lease is over; a row is COMPLETED exactly when its completion result exists |
| MauticProtocol.SettledForever | apps/gateway/app/mautic_adapter.py:280-376 | COMPLETED, DEAD_LETTER and CANCELLED Mautic rows never change again over any run, and attempts never go down |
| MauticProtocol.OneWorkerPerOperation | apps/gateway/app/mautic_adapter.py:269-277 | At most one worker at a time still acts for an operation |
| MauticProtocol.RunInv | apps/gateway/app/mautic_adapter.py:214-503 | The inductive invariant of tables, claims, workers and provider log holds after every run |
| MauticProtocol.StepInv | apps/gateway/app/mautic_adapter.py:214-503 | Every single step of worker, provider, operator, tenant or callback keeps the invariant |
| MauticProtocol.RetryableMeansNotApplied | apps/gateway/app/mautic_adapter.py:438-502 | A reply is classified as a retryable failure exactly when it proves the request was not applied (429 or no connection) |
| MauticProtocol.DeadLetterRecovery | apps/gateway/app/operations.py:91-103 | A dead letter can be requeued by operator or tenant exactly when the operation is not a Mautic one |
| MauticProtocol.LateReport | apps/gateway/app/mautic_adapter.py:315-333 | A success reported for a dead-lettered row leaves every operation as it is and records the observation |
| MauticProtocol.EffectAfterDeadLetter | apps/gateway/app/mautic_adapter.py:214-227 | Why recovery is refused: whenever a lease runs out with the request on the wire, the row can be dead-lettered first and the provider act after |
| MauticProtocol.CircuitOpensAtTheFifth | apps/gateway/app/mautic_adapter.py:297-304 | Over every run the circuit is set exactly while five or more counted failures in a row are on record |
| MauticProtocol.FifthFailureStopsClaims | apps/gateway/app/mautic_adapter.py:230-235 | The failure that makes five in a row, or any counted after it, keeps every claim away for a minute, under any locks, along every run in which no worker succeeds and no earlier clock counts another failure |
| MauticProtocol.HeldCircuitStopsClaims | apps/gateway/app/mautic_adapter.py:233-235 | While nothing ends a hold no claim happens or is possible before its time, along every run |
| MauticProtocol.HoldStep | apps/gateway/app/mautic_adapter.py:297-304 | A hold survives a step if and only if the step is neither a success of any worker nor a failure counted by a clock more than a minute short of it |
| MauticProtocol.SuccessReopensClaims | apps/gateway/app/mautic_adapter.py:369-375 | A success of any worker closes the circuit at once, and what is claimable can be claimed again |
| MauticProtocol.RetryWaits | apps/gateway/app/mautic_adapter.py:305-307 | A retried operation is claimable exactly when its delay is over |
| MauticProgress.CancelledIsNeverSent | apps/gateway/app/production_api.py:1515-1521 | After an accepted cancel, along every run, the row stays CANCELLED, is never claimed again, and no request for it is or ever was with the provider |
| MauticProgress.CancelIff | apps/gateway/app/production_api.py:1515-1521 | A tenant can cancel a Mautic operation exactly while it waits, and nothing else changes |
| MauticProgress.WaitingCanComplete | apps/gateway/app/mautic_adapter.py:214-503 | From every reachable state an operation that waits, its delay and the circuit over, can be claimed, sent and completed with exactly one effect and its result recorded |
| MauticProgress.NoStarvation | apps/gateway/app/mautic_adapter.py:236-249 | A claimable operation is not passed over for ever: while every claim prefers another, there are at most five claims for each operation admitted no later |
| MauticProgress.ClaimIff | apps/gateway/app/mautic_adapter.py:230-258 | In every reachable state the claimable operations are exactly the due, unlocked ones that no older due one precedes, once the circuit is over; no waiting operation has a late observation |
| MauticProgress.FailureOutcome | apps/gateway/app/mautic_adapter.py:280-312 | A failure under the claim in force puts the operation back if and only if it proves the provider did not act and a claim is left; it dead-letters otherwise, and without the claim changes nothing |
| MauticProgress.RepeatedSuccess | apps/gateway/app/mautic_adapter.py:315-333 | A success reported again for the completed attempt changes nothing; one of another attempt leaves a late observation |
| MauticProgress.LeaseLasts | apps/gateway/app/mautic_adapter.py:250-256 | A fresh claim is in force for thirty seconds, and recovery takes it exactly after them |
| MauticProgress.RecoveryDeadLetters | apps/gateway/app/mautic_adapter.py:214-227 | Recovery dead-letters a Mautic row exactly when its lease is over and nobody locks it |
| MauticProgress.RecoveredIsClaimable | apps/gateway/app/operations.py:180-184 | Operator recovery of a Mautic operation is granted exactly for RETRY and makes it claimable at once; tenant reconciliation does the same |
| MauticProgress.ReconcileIff | apps/gateway/app/production_api.py:1557-1571 | Reconciliation is refused to other tenants, for dead letters and beside a late observation, and changes nothing but RETRY rows |
| MauticProgress.OperatorFailureWaits | apps/gateway/app/operations.py:175-178 | An operator failure costs a waiting operation an attempt, dead-letters it exactly at eight, and otherwise delays it exactly min(900, 2^attempts) seconds |
| MauticProgress.AdmittedIsClaimable | apps/gateway/app/operations.py:67-70 | An admitted operation is claimable from its admission on; admitted again under its key nothing changes |
| MauticProgress.ClassifyMeans | apps/gateway/app/mautic_adapter.py:438-502 | A reply is a success exactly for a JSON object under a 2xx status; exactly the refusals of one request leave the circuit alone |
| MauticProgress.RefusalsSayWhy | apps/gateway/app/operations.py:91-103 | Which requests of operators and tenants are answered 404 and which 409 |
| CallbackProtocol.CompletedByOneCallback | apps/gateway/app/operations.py:117-137 | Over every run an N8N or ODOO operation is COMPLETED exactly when one callback, and only one, was accepted for it |
| CallbackProtocol.AcceptedCallbackIsFinal | apps/gateway/app/operations.py:117-137 | Over every run after an accepted callback the operation stays COMPLETED, the same result is acknowledged as a repetition without effect, and any other is refused |
| CallbackProtocol.CancelledIsNeverCompleted | apps/gateway/app/operations.py:117-137 | After an accepted cancel no result is accepted for the operation, over every run |
| CallbackProtocol.FirstResultIsTaken | apps/gateway/app/operations.py:117-137 | The first result is taken exactly when its tenant and target are the operation's own, it is canonical and sealable under an unused key, and the operation is unsettled |
| CallbackProtocol.RefusalsSayWhy | apps/gateway/app/operations.py:117-137 | Which callbacks are answered 404, 403, 422, 409 and 503 |
| IntegrationOutbox.Outbox.RecoverExpiredRows | apps/gateway/app/mautic_adapter.py:214-227 | Dead-letters exactly the unlocked Mautic rows whose lease is over |
| IntegrationOutbox.Outbox.ClaimOldest | apps/gateway/app/mautic_adapter.py:230-258 | Claims an oldest claimable row, or none if the circuit is open or nothing is claimable |
| IntegrationOutbox.Outbox.ReportFailure | apps/gateway/app/mautic_adapter.py:280-312 | New tables after a failure report: fenced by attempt and lease, counted against the circuit, retried or dead-lettered |
| IntegrationOutbox.Outbox.ReportSuccess | apps/gateway/app/mautic_adapter.py:315-376 | New tables after a success report: completion under the fence, a late observation otherwise |
| IntegrationOutbox.Outbox.FailIntegration | apps/gateway/app/operations.py:175-178 | New tables after an operator fails a waiting operation |
| IntegrationOutbox.Outbox.RecoverIntegration | apps/gateway/app/operations.py:180-184 | New tables after an operator recovers an operation, refused where recovery is unsafe |
| IntegrationOutbox.Outbox.CancelOperation | apps/gateway/app/production_api.py:1508-1521 | New tables after a tenant cancels, refused for terminal and processing rows |
| IntegrationOutbox.Outbox.ReconcileOperation | apps/gateway/app/production_api.py:1557-1571 | New tables after a tenant reconciles, refused where recovery is unsafe |
| IntegrationOutbox.Outbox.Admit | apps/gateway/app/operations.py:67-70 | Enqueues once per tenant, target and idempotency key |
| IntegrationOutbox.Outbox.AcceptCallback | apps/gateway/app/operations.py:117-137 | A trusted result completes an N8N or ODOO operation, once per result key and digest; refused for a wrong source, no canonical form, another earlier result, a settled operation, or a row that cannot be read or sealed |
| Contract.ComputeContract | scripts/check-api-compatibility.py:17-37 | On any document, cyclic or not, the collecting recursion ends with exactly the references reachable from the value and what each denotes, or raises exactly when one does not resolve |
| Contract.ReachedIsReachable | scripts/check-api-compatibility.py:20-36 | The collected set is the set of references reachable from the value through the targets of references |
| Contract.Collector.Collect | scripts/check-api-compatibility.py:20-35 | One recursive visit: what it adds is consistent, closed and covers the item |
| ContractMeaning.ContractEqualityIsUnfoldingEquality | scripts/check-api-compatibility.py:17-37 | Two contracts are equal if and only if both values have the same references beside equal unfoldings at every depth, each in its own document |
| ContractMeaning.EqualContractsUnfoldEqually | scripts/check-api-compatibility.py:17-37 | Equal contracts unfold to equal trees at every depth |
| ContractMeaning.EqualUnfoldingsHaveEqualContracts | scripts/check-api-compatibility.py:17-37 | Values that unfold equally at every depth have equal contracts |
| JsonPointer.DecodeEncode | scripts/check-api-compatibility.py:28 | Decoding ~1 before ~0 inverts the escapes of section 4 of RFC 6901 on every key |
| JsonPointer.DecodingOrderMatters | scripts/check-api-compatibility.py:28 | The other decoding order would turn an escaped tilde before 1 into a slash |
| JsonPointer.PointerDecodes | scripts/check-api-compatibility.py:27-28 | A pointer written for any list of keys splits and decodes to those keys |
| JsonPointer.PointerDenotesPath | scripts/check-api-compatibility.py:26-29 | The reference of a path denotes what walking the path finds |
| ApiChanges.Changes | scripts/check-api-compatibility.py:40-80 | The nested loops raise exactly when the documents cannot be read, and otherwise report exactly the failures of the relation |
| ApiChanges.CompareKeys | scripts/check-api-compatibility.py:52-54 | Reports exactly the changed operation id and request body contracts |
| ApiChanges.CompareSchemes | scripts/check-api-compatibility.py:55-64 | Reports exactly a changed security requirement and the changed schemes |
| ApiChanges.CompareParameters | scripts/check-api-compatibility.py:65-76 | Reports exactly the parameters changed, removed, or added as required or by reference |
| ApiChanges.CompareResponses | scripts/check-api-compatibility.py:77-79 | Reports exactly the responses changed or removed |
| ApiChanges.CheckOperation | scripts/check-api-compatibility.py:43-51 | Reports a removed operation, or the differences of a kept one |
| ApiCompatibility.CompatibleMeansPreserved | scripts/check-api-compatibility.py:40-80 | A comparison reports nothing if and only if every operation is still there and keeps its contracts, security, parameters and responses |
| ApiCompatibility.KeptUnlessReported | scripts/check-api-compatibility.py:47-79 | For one operation: nothing reported if and only if everything is kept |
| ApiReference.GateIsTheDefinition | scripts/check-api-compatibility.py:40-80 | On well-formed documents the gate never raises, and it passes if and only if every operation is preserved by a definition that only looks keys up in the two documents |
| ApiReference.AuthenticationAgrees | scripts/check-api-compatibility.py:55-64 | The compared requirements are the operation's own or else the document's, a missing one an empty list; every scheme they name is compared |
| ApiReference.ParametersAgree | scripts/check-api-compatibility.py:65-73 | Every parameter of path or operation that no later one replaces is kept under the same reference, or the same place and name, header names without case |
| ApiReference.AdditionsAgree | scripts/check-api-compatibility.py:74-76 | Parameters added are neither required nor referenced |
| ApiReference.KeysTellApart | scripts/check-api-compatibility.py:67-68 | Two parameters get the same key exactly when they are the same parameter |
| ApiReference.UnusableKeys | scripts/check-api-compatibility.py:61-73 | Lists and objects stop the script where a requirement, a reference, a place or a name belongs |
| ApiReference.ReferenceFinds | scripts/check-api-compatibility.py:26-29 | A reference written for three keys denotes what looking them up one after the other finds, whatever characters they have |
| ApiReference.ContractIsLocal | scripts/check-api-compatibility.py:24-29 | A value with a contract refers only into its own document, and to something |
| ApiPreorder.Reflexivity | scripts/check-api-compatibility.py:40-80 | A readable document is compatible with itself if and only if it declares no null operation |
| ApiPreorder.Transitivity | scripts/check-api-compatibility.py:40-80 | Two compatible steps make a compatible whole, including optional parameters added on the way, if and only if no null response is dropped and then filled |
| ApiPreorder.SidesTransitivity | scripts/check-api-compatibility.py:52-79 | The same for one operation |
| ApiPreorder.ChainThatBreaks | scripts/check-api-compatibility.py:77-79 | A concrete chain of two compatible steps that is not compatible end to end |
| ApiPreorder.NullOperationBreaks | scripts/check-api-compatibility.py:48-51 | A concrete document that is not compatible with itself |
| AudienceSchema.AudienceExport | scripts/export-api-contracts.py:65-104 | The export has the new title, the other public entries, exactly the operations of the audiences and exactly the needed components; it raises exactly when the description or the paths are missing or a mark or needed component cannot be used |
| AudienceSchema.AllNeededIsLeast | scripts/export-api-contracts.py:78-102 | The kept components are contained in every set closed under references and security requirements |
| AudienceSchema.AllNeededIsClosed | scripts/export-api-contracts.py:78-102 | The kept components are closed: nothing they need is missing |
| AudienceSchema.AllNeededIsNeeded | scripts/export-api-contracts.py:78-102 | Every kept component is reachable from a kept operation |
| AudienceSchema.Saturate | scripts/export-api-contracts.py:95-101 | The while loop ends, with the components not yet needed as its measure, at that least set |
| AudienceSchema.Discovery.Discover | scripts/export-api-contracts.py:80-92 | One recursive discovery adds exactly the needs of the value |
| AudienceSchema.ExportedOperations | scripts/export-api-contracts.py:68-73 | An operation is exported exactly when its audience is among those asked for |
| AudienceSchema.ExportsAreDisjoint | scripts/export-api-contracts.py:68-73 | Exports for disjoint audiences share no operation |
| AudienceReference.ExportIsSelfContained | scripts/export-api-contracts.py:78-102 | Every component that an object anywhere in the export refers to, or requires for security, is exported |
| AudienceReference.NothingUnneeded | scripts/export-api-contracts.py:78-102 | Any components that suffice for the exported operations and themselves contain every exported one |
| AudienceReference.NeedsAre | scripts/export-api-contracts.py:80-92 | A value needs a component exactly when an object in it has a reference with that kind and name, split at the first slash, or a requirement that names it |
| AudienceReference.ExportedIffMarked | scripts/export-api-contracts.py:68-73 | An operation is exported, unchanged, exactly when it is in the document and its mark is one of the audiences |
| AudienceReference.MalformedIff | scripts/export-api-contracts.py:80-92 | The walk raises exactly at an object whose reference is no text or names no kind, or whose requirements cannot be gone through |
| CampaignProtocol.EveryRecipientIsAccountedFor | apps/gateway/app/campaign_dispatcher.py:149-505 | From any reachable state, once a scheduled run is COMPLETED, delivered + suppressed + failed equals the size of the frozen audience; once CANCELLED, the withdrawn make up the rest |
| CampaignProtocol.CancelIsFinal | apps/gateway/app/campaign_dispatcher.py:293-316 | After a cancel no item of the campaign is ever PENDING, LEASED or RETRYING again, whatever stale workers do |
| CampaignProtocol.TerminalItemsNeverChange | apps/gateway/app/campaign_dispatcher.py:354-381 | Delivered, suppressed, failed and withdrawn items keep their row through every run |
| CampaignProtocol.SettledRunsNeverChange | apps/gateway/app/campaign_dispatcher.py:217-249 | COMPLETED and CANCELLED runs are absorbing, for the whole row |
| CampaignProtocol.FenceCountsClaims | apps/gateway/app/campaign_dispatcher.py:346-350 | The fence token grows by exactly one with each claim and by nothing else |
| CampaignProtocol.AudienceIsFrozen | apps/gateway/app/campaign_dispatcher.py:177-197 | The set of items of a scheduled campaign never changes |
| CampaignProtocol.DeliveredWasAdmitted | apps/gateway/app/campaign_dispatcher.py:440-478 | A delivered item was admitted by the provider; no run is ever FAILED |
| CampaignProtocol.OwnedPreservedIff | apps/gateway/app/campaign_dispatcher.py:407-431 | "Every leased item belongs to the claim in force" survives a step if and only if the step is not a lease taken under a claim that is over |
| CampaignProtocol.OrphanStep | apps/gateway/app/campaign_dispatcher.py:407-431 | An item leased under a claim that is over is freed if and only if the campaign is paused, cancelled or its lease expires |
| CampaignProtocol.OrphanHoldsTheRunOpen | apps/gateway/app/campaign_dispatcher.py:487-505 | Until then the item stays leased and its run cannot complete |
| CampaignProtocol.PauseBetweenClaimAndLease | apps/gateway/app/campaign_dispatcher.py:319-351 | A pause between any claim and its lease makes such an item of every row the lease query returns |
| CampaignProtocol.FourStepsToAnOrphan | apps/gateway/app/campaign_dispatcher.py:319-431 | A concrete run from the empty tables: schedule, claim, pause, lease leave an orphan |
| CampaignProtocol.InactiveStep | apps/gateway/app/campaign_dispatcher.py:440-447 | A claim no longer in force never is again |
| CampaignProtocol.RetryWaits | apps/gateway/app/campaign_dispatcher.py:378-379 | An item put back may be leased exactly when its delay is over |
| CampaignProtocol.RunInv | apps/gateway/app/campaign_dispatcher.py:149-505 | Credentials, runs, items, audience and the lists of workers stay consistent over every run |
| CampaignProgress.FinishCompletesIff | apps/gateway/app/campaign_dispatcher.py:481-505 | The worker with the claim in force completes the run if and only if every item is terminal; otherwise it may be claimed again from two seconds on |
| CampaignProgress.EveryRunCanComplete | apps/gateway/app/campaign_dispatcher.py:217-505 | From every reachable state every unsettled run, paused or with orphans, can be completed with every open item delivered |
| CampaignProgress.WorkersCanComplete | apps/gateway/app/campaign_dispatcher.py:319-505 | The workers alone can complete a run that is not paused, unless it waits with an item still leased |
| CampaignProgress.NeverBeforeItsTime | apps/gateway/app/campaign_dispatcher.py:340-345 | Over every run no campaign is claimed before its scheduled time |
| CampaignProgress.PausedStaysPut | apps/gateway/app/campaign_dispatcher.py:217-249 | After a pause and until a resume the run is not claimed, nothing of it is sent, and it settles only by a cancel |
| CampaignProgress.AttemptsCountLeases | apps/gateway/app/campaign_dispatcher.py:427-430 | The attempts of an item count its leases over every run |
| CampaignProgress.ResultIsRecordedIff | apps/gateway/app/campaign_dispatcher.py:354-381 | A result is recorded on its item if and only if the item is still leased under exactly that claim |
| CampaignProgress.LeaseLasts | apps/gateway/app/campaign_dispatcher.py:319-351 | A claim is in force at once and its lease over exactly after its last second |
| CampaignProgress.ReleasedIsDue | apps/gateway/app/campaign_dispatcher.py:217-249 | Expiry and resume make the run claimable at once, and pause and expiry every released item leasable at once |
| CampaignProgress.ScheduledIsDue | apps/gateway/app/campaign_dispatcher.py:176-214 | A scheduled run and its items are due exactly from the scheduled time on |
| CampaignProgress.PauseResumeIff | apps/gateway/app/campaign_dispatcher.py:217-249 | A run can be paused exactly while it is unsettled, and resumed exactly from a pause |
| CampaignProgress.LeaseOutcome | apps/gateway/app/campaign_dispatcher.py:413-431 | Exactly the rows with an audience snapshot are leased, the others fail; without the campaign's snapshot the run fails instead |
| CampaignProgress.OutcomeMeans | apps/gateway/app/campaign_dispatcher.py:467-476 | Which answers of the provider deliver, suppress, retry or fail an item |
| CampaignProgress.AudienceMeans | apps/gateway/app/campaign_dispatcher.py:146 | Exactly the normal forms of the addresses that are not empty become recipients, and each is in normal form |
| CampaignProgress.NextIsUnique | apps/gateway/app/campaign_dispatcher.py:340-345 | The claim query has one answer: the earliest scheduled, then the smallest id |
| CampaignProgress.SomeNext | apps/gateway/app/campaign_dispatcher.py:340-345 | While some run nobody locks can be claimed, the claim query finds one |
| CampaignTables.Dispatcher.ScheduleCampaign | apps/gateway/app/campaign_dispatcher.py:176-214 | Schedules once; one snapshot and one pending item per distinct normalised recipient |
| CampaignTables.Dispatcher.PauseCampaign | apps/gateway/app/campaign_dispatcher.py:217-236 | Pauses an unsettled run and releases exactly its leased items |
| CampaignTables.Dispatcher.ResumeCampaign | apps/gateway/app/campaign_dispatcher.py:239-249 | Resumes a paused run only |
| CampaignTables.Dispatcher.CancelCampaign | apps/gateway/app/campaign_dispatcher.py:293-316 | Cancels an unsettled run and withdraws exactly its open items |
| CampaignTables.Dispatcher.ClaimNext | apps/gateway/app/campaign_dispatcher.py:319-351 | Expires one lease at most, then claims the first claimable run by schedule and id; with none, nothing changes |
| CampaignTables.Dispatcher.NextClaimable | apps/gateway/app/campaign_dispatcher.py:340-345 | Finds the first claimable run by schedule and id, or none exactly when there is none |
| CampaignTables.Dispatcher.LeaseRows | apps/gateway/app/campaign_dispatcher.py:413-431 | Leases the rows of the query that have an audience snapshot and fails the others |
| CampaignTables.Dispatcher.Mark | apps/gateway/app/campaign_dispatcher.py:354-381 | Takes a result only under the exact owner and fence |
| CampaignTables.Dispatcher.Finish | apps/gateway/app/campaign_dispatcher.py:481-504 | Completes the run if nothing is open, puts it back otherwise, under the claim in force only |
| DeadLetterProgress.FullPage | apps/gateway/app/provider_reconciliation_fixes.py:608-662 | Without concurrent locks a page examines exactly min(limit, due events + due usage) rows and takes the head of each queue |
| DeadLetterProgress.AppliedPageProgress | apps/gateway/app/provider_reconciliation_fixes.py:588-711 | An applied page strictly decreases unreviewed due events + due usage while that sum is positive, and never increases it |
| DeadLetterProgress.WorkIsBounded | apps/gateway/app/provider_reconciliation_fixes.py:565-758 | Over any run of applied pages with any limits and clocks, the pages that find work are at most the initial backlog |
| DeadLetterProgress.PagingEndsWithBlockedEvents | apps/gateway/app/provider_reconciliation_fixes.py:565-758 | As many pages as the backlog, each with its own clock, leave no usage due and only reviewed, blocked events due, at any time no later than those clocks |
| DeadLetterProgress.AppliedBacklog | apps/gateway/app/provider_reconciliation_fixes.py:678-711 | Exactly the loaded rows leave the backlog |
| DeadLetterProgress.DryRunPredictsApply | apps/gateway/app/provider_reconciliation_fixes.py:664-711 | A dry run changes nothing and reports exactly how many rows apply moves to RETRY and to SKIPPED |
| DeadLetterProgress.WithinLimitIff | apps/gateway/app/provider_reconciliation_fixes.py:636-662 | The page stays within its limit if and only if the usage rows unlocked ahead of those loaded fit the unused capacity |
| DeadLetterProgress.WithinLimitWhileLocksHold | apps/gateway/app/provider_reconciliation_fixes.py:636-662 | The page stays within its limit whenever no lock on a usage row is released between the two usage queries |
| DeadLetterProgress.LimitCanBePassed | apps/gateway/app/provider_reconciliation_fixes.py:652-662 | A concrete table and lock history for which a page of limit 2 examines 3 rows |
| DeadLetterProgress.TallyCounts | apps/gateway/app/provider_reconciliation_fixes.py:664-690 | The counters are the numbers of rows of each decision |
| DeadLetterReport.ReportTellsTheNextPage | apps/gateway/app/provider_reconciliation_fixes.py:713-757 | has_more holds exactly when a next call would find a row; it would examine min(limit, remaining) rows; unreviewed events and due usage are the backlog |
| DeadLetterReport.NoMoreMeansNothingDue | apps/gateway/app/provider_reconciliation_fixes.py:713-757 | has_more is false exactly when no dead letter of the tenant is due, event or usage |
| DeadLetterReport.VisibleAreTheReviewed | apps/gateway/app/provider_reconciliation_fixes.py:730-742 | Visibly blocked events are the reviewed due ones once all dead letters of the tenant are due |
| DeadLetterReport.OnlyDueEventsAreTouched | apps/gateway/app/provider_reconciliation_fixes.py:666-705 | Whatever is locked, an applied page touches only due dead letters of the tenant, each as the classifier of its kind says |
| DeadLetterReport.OnlyDueUsagesAreTouched | apps/gateway/app/provider_reconciliation_fixes.py:707-713 | The same of usage rows, which become ready with a fresh count |
| DeadLetterReport.NoOvertaking | apps/gateway/app/provider_reconciliation_fixes.py:512-558 | No due event left out is ahead of one taken: unreviewed first, then older, then by id |
| DeadLetterReport.QueuesShare | apps/gateway/app/provider_reconciliation_fixes.py:588-606 | With both queues due each gets half of the page or all it has; with room for one row an unreviewed event goes first and otherwise the usage |
| DeadLetters.PlanLoads | apps/gateway/app/provider_reconciliation_fixes.py:608-662 | Whatever is locked, every loaded row is due and loaded once |
| DeadLetters.Reconciler.Reconcile | apps/gateway/app/provider_reconciliation_fixes.py:565-758 | One call: refused out of range; otherwise the new tables and the whole report |
| DeadLetters.Reconciler.ReviewEvents | apps/gateway/app/provider_reconciliation_fixes.py:673-705 | The loop over events counts every decision and, applying, rewrites exactly the loaded rows |
| DeadLetters.Reconciler.Rewrite | apps/gateway/app/provider_reconciliation_fixes.py:692-711 | The effect of one decision on its row |
| Queue.FirstIsFirst | apps/gateway/app/provider_reconciliation_fixes.py:512-558 | A page is the first n rows of a strict total order: distinct, as many as there are up to n, none before a row left out |
| Attachments.Match | apps/gateway/app/provider_reconciliation_fixes.py:155-201 | Matching by key succeeds if and only if the keys agree as multisets and every candidate is genuine; what it takes follows the manifest and is the supplied list with each candidate once |
| Attachments.MatchReplay | apps/gateway/app/provider_reconciliation_fixes.py:155-201 | The replay of an item: the manifest in order, each entry with the bytes of a supplied attachment checked against declared size and digest |
| Attachments.Popped | apps/gateway/app/provider_reconciliation_fixes.py:187-192 | Once the counters agree, no bucket is empty when a candidate is taken from it |
| Attachments.Group | apps/gateway/app/provider_reconciliation_fixes.py:167-180 | Candidates are grouped by their own claim, none lost; refused exactly when one has no readable claim |
| Attachments.NormalizedManifest | apps/gateway/app/provider_reconciliation_fixes.py:103-143 | The manifest loop accepts exactly the lists all of whose entries are valid |
| HonestReplay.HonestReplayIsAuthoritative | apps/gateway/app/provider_reconciliation_fixes.py:155-201 | For every stored manifest the attachments it was made from, supplied in any order, are accepted |
| HonestReplay.EveryCandidateIsDeclared | apps/gateway/app/provider_reconciliation_fixes.py:187-200 | In an accepted payload the bytes of every candidate have the size and digest of an entry |
| HonestReplay.ReplayedAsDeclared | apps/gateway/app/provider_reconciliation_fixes.py:187-200 | What is replayed for an entry decodes to its size and digest and comes from a candidate that claims its name, type and digest |
| HonestReplay.ManifestReadsBack | apps/gateway/app/provider_reconciliation_fixes.py:103-143 | A list of well-formed entries, written down, reads back as it was |
| HonestReplay.EntriesAreWellFormed | apps/gateway/app/provider_reconciliation_fixes.py:103-143 | Every entry read is named, typed, of no negative size, with 64 lower-case hexadecimal digits |
| HonestReplay.EntryReadsInAnyCase | apps/gateway/app/provider_reconciliation_fixes.py:115-142 | A digest may be written in either case and a size as a number or as text |
| ReplayIdentity.IdentityIsKept | apps/gateway/app/durable_results.py:134-228 | Through any history of rotations that keep old keys, rewraps and tombstones, a submission matches a readable row exactly when it is the value first accepted |
| ReplayIdentity.AcceptedIdentityIsKept | apps/gateway/app/durable_results.py:134-228 | From the moment of acceptance: a submission is recognised exactly when it is the one accepted if the redacted form fits, and every check raises if it does not |
| ReplayIdentity.UnpurgedReadsTheSame | apps/gateway/app/durable_results.py:199-228 | Until it is purged, a readable row reads the same redacted result through every history |
| ReplayIdentity.FittingIsReadable | apps/gateway/app/durable_results.py:98-168 | If the redacted form fits its limit, a row is readable unless it is still legacy and legacy reading is off |
| ReplayIdentity.OutgrownIsLost | apps/gateway/app/durable_results.py:134-168 | An accepted result is readable if and only if its redacted form fits; otherwise nothing ever changes the row again and every check of it raises |
| ReplayIdentity.PurgeKeeps | apps/gateway/app/durable_results.py:176-185 | Purging keeps the identity, leaves a tombstone exactly where the row was readable, and does nothing to a tombstone |
| ReplayIdentity.RewrapKeeps | apps/gateway/app/durable_results.py:225-228 | Rewrapping keeps the identity and neither makes nor unmakes a tombstone |
| ReplayIdentity.RecordOf | apps/gateway/app/durable_results.py:140-168 | What a stored row reads as |
| ResultSizes.RedactionOutgrows | apps/gateway/app/durable_results.py:50-75 | A concrete value of exactly 65536 bytes that is accepted and sealed, and whose redacted form does not fit |
| ResultSizes.FrameIsExact | apps/gateway/app/durable_results.py:134-137 | A document is exactly 112 bytes longer than its result |
| DurableResults.VisitIdempotent | apps/gateway/app/durable_results.py:59-75 | Redacting a redacted value changes nothing |
| DurableResults.VisitCleans | apps/gateway/app/durable_results.py:59-75 | After redaction no sensitive field holds anything but the mark, at any depth |
| DurableResults.CleanIsUntouched | apps/gateway/app/durable_results.py:59-75 | Redaction leaves a value without sensitive content as it is |
| SealedResults.SealedOpensOnlyThere | apps/gateway/app/durable_results.py:78-120 | A sealed row opens exactly in the place it was sealed for and while the keyring has its key, and gives back what was sealed |
| SealedResults.TamperedDoesNotOpen | apps/gateway/app/durable_results.py:98-120 | An envelope whose key name or nonce was exchanged does not open, and one that holds a control response reads as no result |
| SealedResults.LegacyReadsIff | apps/gateway/app/durable_results.py:98-110 | When legacy JSON reads, and that it reads as itself |
| SealedResults.RotateThenRewrap | apps/gateway/app/durable_results.py:225-228 | After a rotation a rewrap puts a readable row under the new key and keeps its identity |
| SealedResults.AcceptedIff | apps/gateway/app/durable_results.py:134-137 | A result is accepted exactly when it is an object within its limit that can be redacted and whose redacted form fits a document |
| SealedResults.RedactableIff | apps/gateway/app/durable_results.py:59-75 | Redaction takes exactly values of bounded depth and list length, what it hides not counted |
| SealedResults.WordsAreFound | apps/gateway/app/durable_results.py:24-67 | Whatever stands around it in a name, a secret or content word makes the name sensitive |
| SealedResults.SeparatorsDoNotHide | apps/gateway/app/durable_results.py:63-67 | Neither case nor separators inside a name change whether it is sensitive |
| SealedResults.ReadbackMeans | apps/gateway/app/durable_results.py:199-222 | Which of available, expired, purged and invalid a stored row is shown as, and with what value |
| DurableMaintenance.Vault.RewrapBatch | apps/gateway/app/durable_maintenance.py:17-54 | Fails as a whole exactly when it is out of scope or a row is busy or unreadable; otherwise reports and rewraps exactly the stale rows of the page |
| DurableMaintenance.RewrapReads | apps/gateway/app/durable_results.py:225-228 | A rewrapped row reads exactly as before, except that a result whose redacted form is too long stops being readable |
| DurableMaintenance.RewrapCanLose | apps/gateway/app/durable_results.py:225-228 | A concrete legacy row that can be read until it is rewrapped |
| DurableMaintenance.RotationCompletes | apps/gateway/app/durable_maintenance.py:17-54 | Following the cursor to the end leaves every row of the tenant under the active key |
| RotationReport.RotationReaches | apps/gateway/app/durable_maintenance.py:17-54 | A rotation followed to the end puts every row of the tenant and kind under the active key and touches no other |
| RotationReport.EligibleIsWhatChanges | apps/gateway/app/durable_maintenance.py:29-54 | A dry run counts exactly the rows that applying changes: those of the page not under the active key |
| RotationReport.NoMoreMeansAll | apps/gateway/app/durable_maintenance.py:17-54 | Where the report says there is no more, every such row beyond the cursor is in the page; otherwise its cursor is short of it |
| KeysetCursor.EveryRowOnce | apps/gateway/app/durable_retention.py:133-135 | Following the cursor visits every row beyond it exactly once, in ascending order |
| PurgePlan.EveryCandidateCounted | apps/gateway/app/durable_retention.py:136-190 | scanned = eligible + held + nonterminal + ambiguous + purged |
| PurgePlan.ApplyFollowsThePlan | apps/gateway/app/durable_retention.py:165-186 | Whatever happened in between, an apply that goes through with the digest of a dry run changes no row but those of that plan |
| PurgePlan.WholePlanIsApplied | apps/gateway/app/durable_retention.py:165-186 | And it changes every row of that plan, each there and still holding what the plan saw |
| PurgePlan.HeldIsNeverPurged | apps/gateway/app/durable_retention.py:152-161 | No purge touches a result under a hold, of a tenant under legal hold, or of an open or ambiguous operation |
| PurgePlan.PlanLists | apps/gateway/app/durable_retention.py:165-169 | The plan lists exactly the rows of the page judged purgeable, with what each holds |
| PurgePlan.PurgedKeepsIdentity | apps/gateway/app/durable_results.py:176-185 | A purged row reads as a tombstone of the same digest |
| PurgePlan.JudgedAgain | apps/gateway/app/durable_retention.py:136-168 | Judged again, purged rows count as purged and every other verdict stands |
| PurgePlan.PurgeIsDone | apps/gateway/app/durable_retention.py:111-190 | The same page surveyed again proposes nothing |
| PurgePlan.CandidatesStay | apps/gateway/app/durable_retention.py:133-135 | A purge leaves the candidates of every policy as they are, so the cursor goes on over the same rows |
| PurgePlan.PurgingVisitsEveryCandidateOnce | apps/gateway/app/durable_retention.py:111-190 | Applied calls that follow the reported cursor, with the tables changed only by the purges, scan every candidate exactly once, in ascending order |
| PurgePlan.StayingCandidatesAreScanned | apps/gateway/app/durable_retention.py:111-190 | Whatever happens to the tables between the calls, every row beyond the start that stays a candidate throughout is scanned |
| PurgePlan.NoRowIsScannedTwice | apps/gateway/app/durable_retention.py:111-190 | Whatever happens between the calls, rows are scanned in ascending order and none twice |
| PurgePlan.ScannedWereCandidates | apps/gateway/app/durable_retention.py:111-190 | Whatever happens between the calls, every row scanned was a candidate when a call found it |
| PurgeSafety.PurgedWasPurgeable | apps/gateway/app/durable_retention.py:111-190 | A purge changes only results of its tenant beyond the cursor, created a retention period ago, of a completed and free operation, from its own target, none late, none held, still holding their payload |
| PurgeSafety.PurgeableIsPurged | apps/gateway/app/durable_retention.py:111-190 | Every such result by the cutoff is changed, or the report says there is more and its cursor is short of it |
| PurgeSafety.ProposedIff | apps/gateway/app/durable_retention.py:136-168 | A row is proposed exactly under those conditions |
| PurgeSafety.ReportIsTrue | apps/gateway/app/durable_retention.py:165-190 | A dry run changes nothing and counts what its plan changes; with no more said to come nothing old lies beyond |
| PurgeSafety.ApplyPassesIff | apps/gateway/app/durable_retention.py:165-186 | An apply goes through exactly where a dry run of the same tables would and its plan is the one expected |
| PurgeSafety.HoldProtects | apps/gateway/app/durable_retention.py:60-161 | From an accepted hold until its release no purge changes a result of the operation, whatever other holds come and go |
| PurgeSafety.HoldRefusedIff | apps/gateway/app/durable_retention.py:60-95 | When a hold request is refused |
| PurgeSafety.JudgedIff | apps/gateway/app/durable_retention.py:136-168 | Which rows stop the whole batch |
| PurgeSafety.SkippedBecause | apps/gateway/app/durable_retention.py:144-168 | The reason each skipped row is counted under |
| DurableRetention.SurveyCounts | apps/gateway/app/durable_retention.py:136-168 | The survey goes through exactly when every candidate can be judged, and counts each once |
| DurableRetention.Archive.PurgeBatch | apps/gateway/app/durable_retention.py:111-190 | One call: None and unchanged where it raises, otherwise the purge of the specification |
| DurableRetention.Archive.ResultHold | apps/gateway/app/durable_retention.py:60-95 | Places or releases a hold, or refuses |
| DurableRetention.HoldIsIdempotent | apps/gateway/app/durable_retention.py:60-95 | A hold request that went through goes through again and changes nothing |
| DurableRetention.ReleasedStaysReleased | apps/gateway/app/durable_retention.py:60-95 | A released hold is never active again, and no hold moves to another operation |
| OperationReader.OperationsJson | apps/gateway/app/production_api.py:451-518 | For every list of operations and every result table the batched reader equals the simple reader, item by item |
| RecoverableOperations.RetryableIsRecoverable | apps/gateway/app/production_api.py:430-445 | An operation is shown retryable exactly when it is in RETRY and both operator recovery and tenant reconciliation would put it back |
| OperationReader.LostResultsAreFlagged | apps/gateway/app/production_api.py:429-444 | A completed operation whose result cannot be read is always flagged, and nothing retryable is |
| OperationReader.FirstPositionIsLatest | apps/gateway/app/production_api.py:484-511 | Position one of the window query is the latest result of the right source by (created_at, id), and conversely |
| OperationReader.Latest | apps/gateway/app/production_api.py:401-413 | The latest of a set of results: none newer, and found exactly when the set is not empty |
| OperationReader.MarkLate | apps/gateway/app/production_api.py:460-477 | The first query marks exactly the operations with a late observation |
| OperationReader.PutResult | apps/gateway/app/production_api.py:515-517 | One assignment of the loop fills exactly the entry of its own operation |
| OperationReader.MarkLatest | apps/gateway/app/production_api.py:478-517 | The second query attaches to each completed operation exactly its own latest result |
| ShownResults.AcceptedResultIsShown | apps/gateway/app/production_api.py:414-450 | From acceptance, through key rotations and rewraps, a reader of the completed operation is shown the redacted result until its time is over, and then that it has expired |
| ShownResults.PurgedResultIsNotShown | apps/gateway/app/production_api.py:414-450 | Once purged, a reader is told so and shown nothing |
| ShownResults.ViewMeans | apps/gateway/app/production_api.py:414-450 | Every field of a view in terms of the row, its latest own result and a late one |
| ShownResults.StatusDistinguishes | apps/gateway/app/production_api.py:392-399 | No two states of an operation are shown alike |
| BusinessEventProtocol.AtMostOneEffect | apps/gateway/app/business_event_worker.py:215-252 | Every lease is completed effectively at most once, and never after it was lost to expiry, completion or another claim |
| BusinessEventProtocol.CompletionIsFenced | apps/gateway/app/business_event_worker.py:215-252 | A late, foreign or repeated completion changes nothing; an effective one changes its own row as the outcome says |
| BusinessEventProtocol.RunInv | apps/gateway/app/business_event_worker.py:170-252 | Over every run LEASED holds exactly when owner and deadline are set, attempts stay within the limit, and event ids are unique |
| BusinessEventProtocol.EventsAreImmutable | apps/gateway/app/business_events.py:210-237 | Event id, tenant, payload and digest never change; a delivered row never changes at all |
| BusinessEventProtocol.EveryAttemptSendsTheSame | apps/gateway/app/business_event_worker.py:255-290 | Every attempt carries the same bytes under the same key, matching their digest |
| BusinessEventProtocol.AttemptsCountClaims | apps/gateway/app/business_event_worker.py:170-212 | Between replays the attempt count is the number of claims, at most the limit |
| BusinessEvents.EventOutbox.EnqueueEvent | apps/gateway/app/business_events.py:210-237 | An event id is taken once; the same payload again is accepted, another is refused |
| BusinessEvents.EventOutbox.Claim | apps/gateway/app/business_event_worker.py:170-212 | Expires the leases that are over, then leases the ready rows and returns their fences |
| BusinessEvents.EventOutbox.CompleteLease | apps/gateway/app/business_event_worker.py:215-252 | Completes under owner, attempt and deadline |
| BusinessEvents.EventOutbox.ReplayDeadLetter | apps/gateway/app/business_events.py:271-290 | Replays the dead letter of an event, of the tenant if one is given, with a fresh attempt count, exactly when it is intact and passes validation |
| BusinessEvents.BackoffBounds | apps/gateway/app/business_event_worker.py:134-139 | A retry waits at least as long as the server asked, and no longer than the cap unless it asked for more |
| BusinessEventProtocol.BatchIsARun | apps/gateway/app/business_event_worker.py:170-212 | The claim transaction over many rows is a run of single expiries and claims |
| BusinessEventProtocol.EventIdIsTakenOnce | apps/gateway/app/business_events.py:210-237 | Over every run after an event id is taken, the same payload again changes nothing and any other is refused |
| BusinessEventProtocol.ReadyCanBeDelivered | apps/gateway/app/business_event_worker.py:170-252 | Every ready event can be claimed and delivered by the next worker |
| BusinessEventProtocol.LeaseLasts | apps/gateway/app/business_event_worker.py:170-252 | A lease completes its row exactly until its deadline and is taken away exactly after it |
| BusinessEventProtocol.RetryWaits | apps/gateway/app/business_event_worker.py:236-252 | A retryable failure with an attempt left is ready exactly after its delay; any other is a dead letter that says why |
| BusinessEventProtocol.BackAtOnce | apps/gateway/app/business_event_worker.py:178-190 | An expired lease puts its row back at once while an attempt is left, a replay with all of them |
| BusinessEventProtocol.ReplayableIff | apps/gateway/app/business_events.py:271-290 | In every reachable outbox a replay is refused only for state, tenant or envelope |
| BusinessEvents.BackoffDoubles | apps/gateway/app/business_event_worker.py:134-139 | The delay starts at the base and doubles with every attempt, scattered by the jitter, up to the cap |
| ProviderDeliveryProtocol.ClaimsAreLater | apps/gateway/app/provider_outbox_delivery.py:27-53 | With no order assumed between the clocks of workers, a new claim carries a token strictly later than every claim the row ever had |
| ProviderDeliveryProtocol.OperatorRetryKeepsOrderIff | apps/gateway/app/provider.py:1764-1780 | After an operator retries a row by a clock of his own, every claim is later than those before if and only if that clock is past them |
| ProviderDeliveryProtocol.SkewedRetryBreaksTheFence | apps/gateway/app/provider.py:1783-1803 | By a clock that is behind a claim of the row, a new claim can be made that the stale worker holds as well |
| ProviderDeliveryProtocol.AtMostOneEffect | apps/gateway/app/provider_outbox_delivery.py:74-94 | A claim is completed effectively at most once, and never after its row was recovered or claimed again |
| ProviderDeliveryProtocol.CompletionIsFenced | apps/gateway/app/provider_outbox_delivery.py:74-94 | A stale worker changes nothing; the owner adds one attempt and dead-letters exactly at the eighth failure |
| ProviderDeliveryProtocol.DeliveredIsFinal | apps/gateway/app/provider_outbox_delivery.py:86-88 | Delivered and skipped rows never change |
| ProviderDeliveryProtocol.AttemptsCountCompletions | apps/gateway/app/provider_outbox_delivery.py:81 | The attempt count is the number of effective completions since the last requeue, at most 8 |
| ProviderDeliveryProtocol.CrashingIsFree | apps/gateway/app/provider_outbox_delivery.py:33-38 | A claim that is never completed costs no attempt: any number of crashes leaves the row claimable |
| ProviderDeliveryProtocol.RetryWaits | apps/gateway/app/provider_outbox_delivery.py:88-91 | A failed delivery is ready again exactly when its delay is over, between 2 and 900 seconds |
| ProviderDeliveryProtocol.RunInv | apps/gateway/app/provider_outbox_delivery.py:17-95 | A row that can be claimed again is available only after its last claim |
| ProviderDeliveryProtocol.BatchIsARun | apps/gateway/app/provider_outbox_delivery.py:32-59 | The claim transaction over many rows is a run of single recoveries and claims |
| ProviderDeliveryProtocol.EightFailures | apps/gateway/app/provider_outbox_delivery.py:74-94 | Failing at every attempt, a row is a dead letter after exactly the attempts it has left of eight |
| ProviderDeliveryProtocol.LeaseLasts | apps/gateway/app/provider_outbox_delivery.py:27-53 | A fresh claim owns its row and no recovery can take it for five minutes; after that one can |
| ProviderDeliveryProtocol.ReadyCanBeCompleted | apps/gateway/app/provider_outbox_delivery.py:32-94 | A ready row, claimed and completed, is delivered, put back with the reason, or dead-lettered at the eighth |
| ProviderDeliveryProtocol.BackAtOnce | apps/gateway/app/provider_outbox_delivery.py:33-38 | A recovered row is ready at once with its attempts kept, a requeued one with none |
| ProviderDelivery.Deliveries.ClaimBatch | apps/gateway/app/provider_outbox_delivery.py:32-59 | Recovers the stale rows, then claims the ready ones, in both queues |
| ProviderDelivery.Deliveries.CompleteDelivery | apps/gateway/app/provider_outbox_delivery.py:74-94 | Completes under the token of the claim |
| RateLimiter.AcceptsIffRoom | apps/gateway/app/main.py:291-293 | A call is accepted if and only if fewer than limit calls of its key were accepted in the closed last sixty seconds |
| RateLimiter.EveryWindowIsBounded | apps/gateway/app/main.py:203-208 | Over any run with a nondecreasing clock, every closed 60-second window holds at most the limit of accepted calls per key |
| RateLimiter.AcceptsIffFewWereAccepted | apps/gateway/app/main.py:291-293 | In terms of the calls alone: a call is accepted if and only if fewer than limit earlier calls of its key were accepted in the last sixty seconds |
| RateLimiter.StepTracks | apps/gateway/app/main.py:204-208 | The queue stays a sorted suffix of the log of acceptances and lacks only what is too old |
| RateLimiter.Limiter.Admit | apps/gateway/app/main.py:203-208 | One call: trim, decide, append |
| FlowCookie.RoundTrip | apps/gateway/app/browser_security_fixes.py:98-130 | Parsing an encoded list gives its last eight distinct valid bindings, normalised, also for none and one |
| FlowCookie.SetAddsNewest | apps/gateway/app/browser_security_fixes.py:145-156 | Setting makes the binding present and newest, keeps the others in order, and evicts only the oldest of eight |
| FlowCookie.RemoveDropsOnlyItsOwn | apps/gateway/app/browser_security_fixes.py:169-181 | Removing drops its own binding and no other |
| FlowCookie.ParsedIsProper | apps/gateway/app/browser_security_fixes.py:98-118 | Whatever the cookie says, what is read is at most eight distinct valid bindings |
| FlowCookie.ParseNormalizes | apps/gateway/app/browser_security_fixes.py:98-118 | Case and blanks around a cookie do not matter |
| FlowCookie.KeptExtends | apps/gateway/app/browser_security_fixes.py:108-118 | Bindings keep the order of their first occurrence |
| FlowCookie.ParseFlowCookie | apps/gateway/app/browser_security_fixes.py:98-118 | The parsing loop computes the specified list |
| FlowCookie.EncodeFlowCookie | apps/gateway/app/browser_security_fixes.py:121-130 | The encoding loop computes the specified text |
| FlowCookie.SetFlowCookie | apps/gateway/app/browser_security_fixes.py:145-156 | Writes the other bindings followed by the new one |
| FlowCookie.RemoveFlowCookie | apps/gateway/app/browser_security_fixes.py:169-181 | Writes the other bindings, or deletes the cookie when none is left |
| FlowCookie.RequireFlowCookie | apps/gateway/app/browser_security_fixes.py:184-195 | A flow is accepted exactly when its binding is in the cookie |
| BillingLedger.LedgerBalances | apps/gateway/app/billing.py:139-236 | Over any run a wallet balance is the sum of its signed transactions, never negative, its version their number; an invoice is its lines plus tax, its credits the sum of its notes within a total that is not negative; confirmed refunds stay within the payment |
| BillingLedger.ReachableBalances | apps/gateway/app/billing.py:139-236 | The same of every ledger reached from the empty books |
| BillingLedger.CreditsWithinIff | apps/gateway/app/billing.py:156-167 | From any reachable books the credits of a new invoice stay within its total in every continuation if and only if its tax leaves a total |
| BillingLedger.OrdinaryTaxLeavesTotal | apps/gateway/app/billing.py:163 | A tax rate that is not negative leaves a total |
| BillingLedger.NegativeTaxBreaksCredits | apps/gateway/app/billing.py:163 | A concrete invoice with a negative rate whose credits are above its total |
| BillingLedger.RefundsWithinIff | apps/gateway/app/billing.py:194-197 | From any reachable books the refunds of a payment, confirmed and pending together, stay within it in every continuation if and only if it is a sandbox payment or rounds to nothing |
| BillingLedger.TwentyRefundedOfTen | apps/gateway/app/billing.py:194-197 | A concrete run: ten paid offline and twenty refunded |
| BillingLedger.UpgradeChargeIsBounded | apps/gateway/app/billing.py:216-226 | An upgrade takes effect at once and charges between nothing and the rounded price difference |
| BillingLedger.DowngradeWaitsIff | apps/gateway/app/billing.py:221-224 | A change waits for the next period if and only if the prorated difference is at least half a cent in the customer's favour |
| BillingLedger.LateDowngradeIsImmediate | apps/gateway/app/billing.py:221-224 | A concrete change to half the price, twelve minutes before the end of thirty days, takes effect at once |
| BillingLedger.WalletReferenceCountsOnce | apps/gateway/app/billing.py:147-148 | A wallet reference has an effect once |
| BillingLedger.RequestKeyCountsOnce | apps/gateway/app/billing.py:159-160 | A repeated request key makes no second invoice |
| BillingMeaning.PostedIff | apps/gateway/app/billing.py:139-153 | A new transaction is posted exactly when it keeps to the wallet's currency and the transactions before it cover it, and adds its amount to no other sum |
| BillingMeaning.RefundedIff | apps/gateway/app/billing.py:194-197 | A refund is granted exactly on the tenant's payment within what confirmed refunds leave, and confirmed at once only in the sandbox |
| BillingMeaning.CreditedIff | apps/gateway/app/billing.py:229-235 | A credit note is issued exactly within what earlier notes leave of the total; the one that takes the rest marks the invoice credited |
| BillingMeaning.DrawnIs | apps/gateway/app/billing.py:156-167 | An invoice is the rounded base price, the rounded price of the usage beyond what is included, and the tax on their sum |
| BillingMeaning.InvoiceIsDrawn | apps/gateway/app/billing.py:156-167 | An invoice under a new id and key is always drawn up, and its lines make up its subtotal |
| BillingMeaning.TaxIsRounded | apps/gateway/app/billing.py:163 | Without a rule there is no tax, and with one it is within half a cent of the rate |
| BillingMeaning.EveryUnitIsBilledOnce | apps/gateway/app/billing.py:156-167 | Periods that follow one another bill every unit exactly once |
| Money.WithinHalfACent | apps/gateway/app/billing.py:20 | Rounding moves an amount by at most half a cent, a half only away from zero |
| Money.RoundIsMonotone | apps/gateway/app/billing.py:20 | Rounding is monotone |
| Money.RoundIsIdempotent | apps/gateway/app/billing.py:20 | Rounding leaves whole cents alone |
| Billing.Books.PostWallet | apps/gateway/app/billing.py:140-153 | Posts a wallet transaction, once per reference, in one currency, never below zero |
| Billing.Books.CreateInvoice | apps/gateway/app/billing.py:156-167 | Creates the invoice from the metered usage of the period, with its base and overage lines and its tax, once per request key |
| Billing.Books.RefundPayment | apps/gateway/app/billing.py:194-197 | Refunds a payment up to what confirmed refunds leave |
| Billing.Books.IssueCreditNote | apps/gateway/app/billing.py:229-235 | Credits an invoice up to what is left of its total |

## Left out

- HTTP, TLS, OAuth and OIDC exchanges, SMTP and DNS: an outcome with the classification the code gives it stands for each.
- SQL text, indexes and dialects; reads and writes interleaved inside one transaction, such as a pause whose item query is not locked while a result commits.
- The counters and the disabled, unconfigured and authentication exits of `dispatch_mautic_outbox`, and the pass that stops it after `limit` operations.
- Middleware commands, the other kind of operation that cancel and reconcile handle, and the replay of their idempotent responses.
- Audit rows, metrics, tracing, permissions and session policy around every handler.
- Postal submission in `main.py`: a decode error after success is retried there, so at-most-once rests on the provider's own idempotency.
- The order of the failure messages of `changes`: failures are a set of path, verb and difference. NaN literals and integers too large for a float in API documents are not modelled; booleans there are the numbers 0 and 1, as Python compares them.
- Lower-casing and stripping are those of ASCII text; recipients, header names and cookies outside it are not modelled.
- The order and the limit of the campaign item query: any set of leasable rows may be returned. The campaign's own status column, which mirrors the run, and the checks of sender and template before scheduling.
- In `CampaignProtocol` a lease expires only as part of a claim, as in the program, which rolls the expiry back when it finds nothing to claim.
- How inbound and lifecycle dead letters are classified and rebuilt: their verdict is a parameter of reconciliation, which only dispatches on the kind of event. Attachment matching, the hard part of it, is modelled.
- Infinity as an attachment size, which the program does not catch.
- The second page query of events and usages sees the same rows as the first: rows inserted or falling due between two queries of one page are not modelled, only locks.
- Field checks on decrypted documents: only documents sealed by this program open under an integration binding, so they are typed. The limit on envelope text, which no sealed document reaches.
- Durable results take the size of canonical text as a parameter, because their statements hold for any; `ResultSizes` measures it. Strings with unpaired surrogates are not modelled.
- The check that keyring and retention setting did not change during a maintenance call.
- OperationReader.OperationsJson: assumes, as a session guarantees, that the listed operations are rows of the table.
- What the envelope validation of business events checks (its verdict is a parameter), the daily usage snapshot and the delivery request; the response enters as its classified outcome.
- A claim of many rows in one transaction is modelled by methods on sets of rows; the protocols take it one row at a time, which allows more interleavings (`BatchIsARun`).
- Which rows the claim queries of `BusinessEvents` and `ProviderDelivery` return and in what order: any rows that qualify.
- Subscription states, metering, checkout, payment confirmation, dunning and the invoice status derived from payments; unique provider references of payments and refunds. Decimal precision beyond exact reals and float noise in the proration ratio.
- Concurrent writers of one invoice or payment, whose rows the program does not lock.
- Provider, tenancy and message sending modules beyond what is cited: `email_send` is taken to admit or reject.
