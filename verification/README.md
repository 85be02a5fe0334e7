# Shipment assurance: verified model

This project models the core of a shipment assurance service and proves properties of it in Dafny 4.11.
The service compares the invoice, packing list and delivery order of a shipment, decides whether they
agree, and lets a shipment leave only after one person authorizes its release, another approves it, and
the evidence is still what the first person saw.

`dafny verify dfyconfig.toml` checks everything.

| file | what it holds |
|---|---|
| `ReleaseProtocol.dfy`, `ReleaseSafety.dfy`, `ReleaseEffects.dfy`, `ReleaseReachability.dfy` | the release protocol as a transition system, what every run of it keeps, what each step leaves behind, and what it can reach |
| `ReleaseRepository.dfy`, `Assurance.dfy` | the repository methods that refine the protocol on rows updated in place, the table of status transitions |
| `ReleaseIntegrity.dfy`, `SnapshotText.dfy` | the canonical evidence snapshot and its hash, the JSON text that is hashed |
| `Reconciliation.dfy`, `ReconciliationEngine.dfy` | the document comparison as a function, and the loops, counters and dictionaries that compute it |
| `ClearDecision.dfy`, `HoldDecision.dfy`, `Filing.dfy` | what CLEAR means, what HOLD means, which documents are compared and whose items are looked up |
| `Findings.dfy`, `ItemFindings.dfy`, `FindingOrder.dfy`, `Estimates.dfy` | which findings are reported, how many of each kind, severity and field, in what order, and what their estimates mean |
| `Threshold.dfy`, `NonInterference.dfy`, `ItemOrder.dfy`, `PrintedQuantities.dfy` | the threshold law, irrelevance of values below the threshold, of item order and of the printed style of whole quantities |
| `NumberFormat.dfy`, `MarkedNumbers.dfy` | the two number readers on printed numbers, and with currency marks, blanks, white space and signs around them |
| `EvidenceSpan.dfy`, `EditDistance.dfy` | the search for a value among the words of a page, the Levenshtein distance |
| `Clock.dfy`, `RateLimiter.dfy` | calls and their clock readings, the sliding-window limiter |
| `ServiceRateLimit.dfy`, `ServiceLimiter.dfy` | the fixed windows of the partner API, and its limiter with eviction |
| `Idempotency.dfy`, `KeyFate.dfy`, `KeyHistory.dfy` | the idempotency-key reservation under interleaving and crashes, which keys can still be answered, what the rows tell of the run |
| `JobQueue.dfy`, `JobRuns.dfy`, `FailureWaits.dfy` | the job table and the worker loop, runs with several workers, the waits after failures over a run |
| `WebhookOutbox.dfy`, `WebhookFailures.dfy` | the webhook outbox, failed webhook sends over a run |
| `Json.dfy`, `StringOrder.dfy`, `Digits.dfy`, `Wrappers.dfy` | JSON text, string sorting, decimal digits, options |

Code that updates rows, deques, dictionaries or lists step by step is written as methods with loops, and
each method's postcondition ties its result or the new state to a function of the inputs or of the old
state. The laws are then proved about that function.

## Main results

- **Dispatch is safe over every run.** Behind every DISPATCHED shipment stands a dispatch step taken when
  no work item was open, no requirement missing, no latest check blocking and no severe incident open, and
  when a live AUTHORIZE decision with a second person's approval pinned the trusted reference as it then
  was, although dispatch itself reads only the hash of that evidence. The dispatch condition is also given
  exactly, and a run that reaches DISPATCHED is exhibited.
- **Saving a trusted reference retires every earlier decision, for good**, although the save stamps only
  the newest live one.
- **Every outcome of every release step is given**, refusals included, in every reachable state. After every
  run a decision is invalidated exactly when a dispatch or an approval was refused over changed evidence or a
  saved reference met it as the newest live one, and from then on it is spent even if the evidence returns to
  what it was. What counts as changed is given row by row.
- **Snapshots are canonical.** Hashes agree exactly when the gathered evidence agrees up to the order of
  its three lists, through an injectivity proof of the JSON text down to string escapes.
- **Every status is characterised exactly.** CLEAR holds iff a predicate does that mentions no item map, no
  sorted SKU list, no similarity score and no mismatch; HOLD holds iff the evidence proves one of a list of
  conflicts; everything else is REVIEW.
- **Every finding is accounted for.** For all documents and every kind, severity and field, the number of
  findings reported is the number the documents call for, stated over their own values and items.
- **Threshold law.** What is CLEAR at a threshold has at every lower one no mismatch except a conflict of
  totals, and that exception is real.
- **Non-interference.** Values below the threshold influence neither the status nor any mismatch.
- **Item order is irrelevant to the status**, although the item map keeps the last of two equal SKUs.
- **Idempotency keys.** Under every interleaving and crash a key leads to at most one committed shipment and
  one answer; a key can still be answered exactly when it is not doomed, and a committed shipment is
  announced exactly when no account of the organization has taken the key text.
- **Printed numbers.** What either reader makes of a printed number is given for every style and grouping,
  with currency marks and blanks strewn anywhere in it, white space around it, and either sign.
- **Waiting times.** Under every interleaving a failed job waits 10, 20, 40, 80, 160 and then 300 seconds
  after the claims since its last manual retry, and a delivery after its failed sends over the whole run.
- Exact specifications of the Levenshtein rows (against a cheapest edit script), of both limiters, of the
  evidence search and of the outbox pass, and bounds for the job queue.

## What the proofs found

- Two AUTHORIZE decisions can be pending at once. Approving the older one makes the shipment
  RELEASE_AUTHORIZED, but it cannot be dispatched, since dispatch looks only at the newest
  (`AuthorizedNeedNotDispatch`).
- Creation leaves a REQUIREMENTS check in review, and none of the modelled writers supersedes it: until
  some other writer does, no shipment can be authorized (`RequirementsCheckGatesRelease`).
- The acceptance event of the partner endpoint is unique per organization and key text, not per service
  account. A committed shipment is announced exactly when no account of the organization has succeeded with
  the key text before (`FinishCommitsIff`); a run is given in which a second account's shipment stays
  committed and its request is turned away (`SecondAccountIsTurnedAway`).
- A key can still be answered exactly when it is not doomed, that is, when it succeeded, or its text is not
  taken and the owner of its reservation, if any, has not crashed or failed (`AnswerableIff`). A crash dooms
  it for good, and may leave a committed shipment behind (`CrashAbandons`).
- A succeeded job stays succeeded exactly when no worker still handles it (`SuccessIsFinalIffUnheld`),
  because a finish does not ask who holds the lease; such a state is reached (`HeldSuccessIsReached`).
- Nothing resets the failed sends counted on a webhook delivery, so a failure report switches its
  subscription off exactly when it buries a job and the delivery has failed five sends over all its jobs
  (`SwitchedOffIff`). One job alone, neither recovered nor retried, fails four at most
  (`OneJobFailsFourTimes`); one manual retry of the delivery is enough (`TwoJobsDisable`).
- With clock readings out of order eviction can be observed: an account whose full window was dropped is let
  in at an earlier reading (`EarlierReadingIsAdmitted`), exactly when the entry dropped has not expired at
  that reading and is full (`AnswersAlikeIff`).
- `parse_number` reads a printed decimal a thousand times too large exactly when its integer part is below
  1000 and its fraction has three digits, zero aside (`DecimalsRoundTripIff`). On text that denotes a
  number other than zero the two number readers agree exactly when it is not a negative number with
  thousands groups (`ReadersAgreeIff`). Documents that print one such decimal and give it as a number
  elsewhere are in conflict over it exactly then (`MisreadIsConflict`).
- A sign hides thousands separators: the extractor reads "-1.500" as minus one and a half, where
  `parse_number` reads minus 1500, and after a plus sign both read one and a half
  (`SignedIntegerReads`, `SignedDecimalReads`).
- The list of blocking checks in the evidence hash tells no two shipments apart that the newest checks do not
  tell apart already (`SnapshotUnchangedIff`).
- A request that crashes leaves its reservation PROCESSING for good; FAILED is written exactly by an owner
  whose creation raised (`FailedIff`), which may have committed its shipment all the same (`CommittedIff`).
- The branch of the evidence search that looks for a single exactly equal word never finds one: every such
  word is a run the search before it has found (`NoRunNoExactWord`).

## Model

| member | source | states |
|---|---|---|
| Assurance.NoChainEntersRelease | backend/app/services/assurance.py:87-123 | no chain of table transitions enters the pending or the authorized status, and none that starts outside the release statuses dispatches or closes |
| Assurance.EnteredFromTable | backend/app/services/assurance.py:87-123 | the table of transitions read by its targets: which statuses lead to each |
| ReleaseIntegrity.SnapshotHashInjective | backend/app/services/release_integrity.py:43-45 | equal hashes of the sorted-key compact JSON text come from equal snapshots only |
| ReleaseIntegrity.ReleaseHashCanonical | backend/app/services/release_integrity.py:8-45 | hashes agree iff the missing, check and exception lists agree as multisets and the open work count, reference and assurance map agree |
| SnapshotText.CanonicalTextIsDump | backend/app/services/release_integrity.py:24-44 | the text that is hashed is the compact JSON text of the snapshot's dictionary, keys in sorted order |
| Json.StringRoundTrip | backend/app/services/release_integrity.py:44 | reading undoes writing: every string comes back from its JSON text, and what follows it is left |
| Json.StringCancel | backend/app/services/release_integrity.py:44 | JSON strings are self-delimiting: equal texts hold equal strings and equal continuations |
| Json.ListCancel | backend/app/services/release_integrity.py:44 | JSON string lists are self-delimiting |
| StringOrder.SortCanonical | backend/app/services/release_integrity.py:24-26 | two lists sort alike iff they hold the same strings equally often |
| StringOrder.LeqByFirstDifference | backend/app/services/release_integrity.py:24-26 | a string comes before another as its prefix, or by the first character in which they differ |
| StringOrder.SortSorts | backend/app/services/release_integrity.py:24-26 | sorting orders by code points and permutes |
| ReleaseProtocol.SnapshotHashSeparates | backend/app/services/release_integrity.py:43-45 | the snapshot hash has the one property the protocol needs of its hash |
| ReleaseProtocol.LatestLive | backend/app/repositories/operations.py:5155-5165 | the newest AUTHORIZE decision not invalidated, or none if there is no such decision |
| ReleaseSafety.NoOpenTasks | backend/app/repositories/reconciliations.py:1000-1008 | the count of open work items is zero iff every item is resolved |
| ReleaseSafety.NoneMissing | backend/app/repositories/reconciliations.py:1009-1024 | the list of missing requirements is empty iff no evaluation misses its requirement |
| ReleaseSafety.LatestChecksAreLatest | backend/app/repositories/reconciliations.py:1025-1031 | reading newest first with setdefault keeps, for every type, its newest check |
| ReleaseSafety.NoBlockingCheck | backend/app/repositories/reconciliations.py:1025-1036 | the blocking list is empty iff no newest check of a type is in a blocking status |
| ReleaseSafety.NoBlockingIncident | backend/app/repositories/reconciliations.py:1037-1047 | the blocking list is empty iff no open exception is HIGH or CRITICAL |
| ReleaseSafety.CleanMeansClear | backend/app/repositories/reconciliations.py:1048-1078 | a snapshot shows nothing open, missing or blocking iff no single row is |
| ReleaseSafety.AuthorizeCondition | backend/app/repositories/reconciliations.py:1048-1131 | with a published policy AUTHORIZE succeeds iff the rows are clear; it appends one decision with the current hash and makes the shipment pending, and otherwise changes nothing |
| ReleaseSafety.StepKeepsInv | backend/app/repositories/operations.py:5023-5226 | every step keeps: pending implies a live AUTHORIZE decision, authorized implies one approved by another person, AUTHORIZE decisions pin clean evidence, pins are no newer than the reference, sequences count up |
| ReleaseSafety.RunsKeepInv | backend/app/repositories/operations.py:5023-5226 | the same invariant over every run |
| ReleaseSafety.DispatchIsSafeAt | backend/app/repositories/operations.py:5155-5210 | under the invariant a dispatch that succeeds finds clear rows, and its newest live decision justifies it |
| ReleaseSafety.DispatchIsSafe | backend/app/repositories/operations.py:5155-5210 | a dispatch that succeeds after any run finds clear rows and a live, second-approved AUTHORIZE decision that pins the present reference |
| ReleaseSafety.OnlyTransitionDispatches | backend/app/repositories/operations.py:5133-5226 | no other step enters DISPATCHED |
| ReleaseSafety.EveryDispatchWasJustified | backend/app/repositories/operations.py:5133-5226 | every run that ends DISPATCHED contains a dispatch step taken in a clear and justified state |
| ReleaseSafety.DispatchCondition | backend/app/repositories/operations.py:5155-5208 | in every reachable state dispatch succeeds iff the shipment is authorized, its newest live decision is one that was approved, and its snapshot is the current one |
| ReleaseSafety.ApproveCondition | backend/app/repositories/operations.py:5047-5106 | under the invariant an approval succeeds iff the decision is live, the shipment pending, the evidence what the decision pinned, and the approver neither its author nor a repeated one |
| ReleaseSafety.ApprovedMeansClear | backend/app/repositories/operations.py:5066-5086 | nothing is approved while a row is open, missing or blocking |
| ReleaseSafety.HoldBlocksRelease | backend/app/repositories/reconciliations.py:1132-1147 | the next step after a HOLD decision can neither authorize, approve nor dispatch |
| ReleaseSafety.ClearAfterSave | backend/app/repositories/operations.py:4103-4123 | after a save the rows are clear iff its comparison has no finding and all rows but earlier reference checks are clear |
| ReleaseSafety.PinsAreKept | backend/app/repositories/operations.py:4053-4067 | no step removes a decision, changes what it pinned, or takes the reference back |
| ReleaseSafety.SaveMakesStale | backend/app/repositories/operations.py:4053-4067 | saving a reference leaves every existing decision pinned to an older version |
| ReleaseSafety.StaleForever | backend/app/repositories/operations.py:4053-4067 | decisions pinned to an older version stay so in every continuation |
| ReleaseSafety.SavedReferenceRetiresDecisions | backend/app/repositories/operations.py:4137-4164 | after a save no earlier decision can be approved or relied on by a dispatch in any continuation |
| ReleaseSafety.SaveStampsOnlyLatest | backend/app/repositories/operations.py:4137-4147 | the save leaves every decision but the newest live one as it was |
| ReleaseEffects.DispatchOutcomes | backend/app/repositories/operations.py:5155-5210 | in every reachable state: a shipment that is not authorized is refused by the table; an authorized one has a newest live decision, is refused if nobody approved it, leaves it invalidated and the release with it, all else as it was, if it pins other evidence than the present, and is dispatched otherwise |
| ReleaseEffects.TransitionOutcomes | backend/app/repositories/operations.py:5148-5154 | every other transition changes the status alone, and is refused iff the table does not list it |
| ReleaseEffects.ApproveOutcomes | backend/app/repositories/operations.py:5047-5131 | in every reachable state all refusals of an approval in their order, the invalidation on changed evidence whoever asks, and the approval with its row |
| ReleaseEffects.DecideOutcomes | backend/app/repositories/reconciliations.py:927-1150 | in every reachable state all refusals of a decision, and the row it appends: numbered by its place, pinning the current evidence; only a hold opens an item |
| ReleaseEffects.SaveOutcomes | backend/app/repositories/operations.py:4050-4164 | in every reachable state a save leaves the next version with its content hash, one more check, the newest live decision invalidated and every other one as it was, and no pending or authorized release |
| ReleaseEffects.UpdateTaskOutcome | backend/app/repositories/reconciliations.py:871-925 | one item changes; the status becomes REVIEW_REQUIRED iff documents were required and the change resolves the last item |
| ReleaseEffects.InvalidatedIff | backend/app/repositories/operations.py:5066-5208 | after every run a decision is invalidated iff some step of it met it live and a dispatch or approval found its evidence changed, or a save found it the newest |
| ReleaseEffects.RefusedDecisionIsSpent | backend/app/repositories/operations.py:5198-5208 | a decision that was so invalidated is refused to every approver and never relied on in any continuation |
| ReleaseEffects.SnapshotUnchangedIff | backend/app/repositories/operations.py:4946-5021 | two states of the rows pin the same evidence iff they agree in the number of open items, the missing requirements of each name, the blocking exceptions of each summary, the status and source version of the newest check of each type, and the reference |
| ReleaseReachability.RequirementsCheckGatesRelease | backend/app/repositories/reconciliations.py:714-729 | while no other writer supersedes the REQUIREMENTS check of creation, nothing is authorized or dispatched in any run |
| ReleaseReachability.DispatchIsReachable | backend/app/repositories/operations.py:5023-5226 | with clear rows, one author and one other approver lead to dispatch |
| ReleaseReachability.SomeRunDispatches | backend/app/repositories/operations.py:5133-5226 | some run takes a newly created shipment to DISPATCHED |
| ReleaseReachability.AuthorizedNeedNotDispatch | backend/app/repositories/operations.py:5155-5186 | with two pending decisions, approving the older one authorizes a shipment that cannot be dispatched |
| ReleaseRepository.ShipmentRows.constructor | backend/app/repositories/reconciliations.py:605-743 | the rows creation commits |
| ReleaseRepository.ShipmentRows.ScanChecks | backend/app/repositories/reconciliations.py:1025-1036 | the newest-first loop computes the latest checks and the blocking types in scan order |
| ReleaseRepository.ShipmentRows.CollectEvidence | backend/app/repositories/operations.py:4946-5021 | the five loops and queries gather exactly the evidence a snapshot is built from |
| ReleaseRepository.ShipmentRows.DecideRelease | backend/app/repositories/reconciliations.py:927-1150 | new rows and outcome are those of the protocol's decision step |
| ReleaseRepository.ShipmentRows.ApproveRelease | backend/app/repositories/operations.py:5023-5131 | new rows and outcome are those of the approval step, invalidation on changed evidence included |
| ReleaseRepository.ShipmentRows.SaveTrustedReference | backend/app/repositories/operations.py:4026-4170 | new rows and outcome are those of the save step |
| ReleaseRepository.ShipmentRows.TransitionShipment | backend/app/repositories/operations.py:5133-5226 | new rows and outcome are those of the transition step; a dispatch of a reachable, authorized shipment whose approved decision pins other evidence leaves that decision invalidated, the release with it, and every other row as it was |
| ReleaseRepository.ShipmentRows.UpdateWorkTask | backend/app/repositories/reconciliations.py:871-925 | one work item changes, and the status moves to review when it was the last open one |
| ReconciliationEngine.CloseTextVariation | backend/app/domain/reconciliation.py:36-44 | true iff every pair has equal numeric tokens and both similarity scores reach 90 |
| ReconciliationEngine.CompareCriticalText | backend/app/domain/reconciliation.py:90-144 | computes the specified finding of a text field; counting distinct values decides agreement |
| ReconciliationEngine.DuplicateSkuRows | backend/app/domain/reconciliation.py:147-172 | the counter yields one finding for each SKU that occurs twice or more |
| ReconciliationEngine.TrustedPriceOf | backend/app/domain/reconciliation.py:183-198 | the first parsed confident price, invoice first |
| ReconciliationEngine.CheckTotals | backend/app/domain/reconciliation.py:289-322 | computes the specified totals finding, with its delta and its price source |
| ReconciliationEngine.CheckItems | backend/app/domain/reconciliation.py:324-358 | computes the item findings in order and the set of types with uncertain items |
| ReconciliationEngine.FileItems | backend/app/domain/reconciliation.py:175-180 | builds for each document type the map in which the last item of a SKU wins |
| ReconciliationEngine.FindWrongSku | backend/app/domain/reconciliation.py:371-395 | the triple loop finds a likely wrong SKU iff a document without it lists an item that resembles one filed under it |
| ReconciliationEngine.CheckQuantities | backend/app/domain/reconciliation.py:456-498 | computes the quantity finding: none if one does not parse, review if one is not positive, hold with an estimate if they differ |
| ReconciliationEngine.CheckSku | backend/app/domain/reconciliation.py:363-498 | computes all findings of one SKU; of each kind, severity and field there is one iff the items of the SKU call for it |
| ReconciliationEngine.Run | backend/app/domain/reconciliation.py:201-545 | the whole procedure returns the specified status and findings in order, and of every kind, severity and field as many as the documents call for |
| ClearDecision.ItemMapHolds | backend/app/domain/reconciliation.py:175-180 | a SKU is in the map iff a confident item carries it, and the map holds such an item |
| ClearDecision.RepeatedMeansCollision | backend/app/domain/reconciliation.py:147-155 | a SKU is counted more than once iff two items carry it |
| ClearDecision.SkuCheckEmpty | backend/app/domain/reconciliation.py:363-498 | in documents with clear items a SKU has no finding iff every document lists it and its items agree |
| ClearDecision.HeaderEmpty | backend/app/domain/reconciliation.py:205-287 | no header finding iff types are verified, names and addresses agree, identifiers are present and shipment identifiers agree |
| ClearDecision.TotalCheckEmpty | backend/app/domain/reconciliation.py:289-322 | no totals finding iff all trusted totals that parse agree |
| ClearDecision.LinesEmpty | backend/app/domain/reconciliation.py:324-520 | no line finding iff items are complete, confident and without duplicates, SKUs are the same everywhere and their rows agree |
| ClearDecision.ClearIff | backend/app/domain/reconciliation.py:201-545 | the status is CLEAR iff the declarative condition holds |
| Filing.MapIsOfFiler | backend/app/domain/reconciliation.py:360-364 | the map looked up for a document is that of the last document of its type |
| Filing.OwnFilers | backend/app/domain/reconciliation.py:360-364 | documents in the slots of their own types are looked up by their own items |
| Filing.InOrderIsComplete | backend/app/domain/reconciliation.py:205 | every document given is compared, once, invoice before packing list before delivery order |
| Findings.DocumentsTally | backend/app/domain/reconciliation.py:223-358 | over the sections that go through the documents, the findings of a tag are as many as documents that raise it, and duplicates as many as SKUs that two items of one document carry |
| Findings.HeaderTally | backend/app/domain/reconciliation.py:205-358 | the same with the sections that compare documents: missing documents, recipient, destination, sender, shipment identifiers, totals |
| ItemFindings.AbsentSkuFinding | backend/app/domain/reconciliation.py:365-420 | a SKU that some document lacks has no finding if a document of a type that lacks it is unsure, and otherwise exactly one: WRONG_SKU on the SKU if an item of a document without it resembles an item filed under it, MISSING_ITEM on the items if none does |
| ItemFindings.SkuTally | backend/app/domain/reconciliation.py:363-498 | a SKU contributes a finding of a kind, severity and field iff its items call for it, and then one |
| ItemFindings.FindingsCounted | backend/app/domain/reconciliation.py:201-545 | for every kind, severity and field the procedure reports exactly as many findings as the documents call for |
| FindingOrder.FindingsInOrder | backend/app/domain/reconciliation.py:205-520 | findings come section by section |
| Threshold.ClearAtLowerButTotals | backend/app/domain/reconciliation.py:289-322 | what is CLEAR has at a lower threshold only totals findings, is CLEAR there iff the newly trusted totals agree, and HOLD otherwise |
| Threshold.TotalsConflictBelow | backend/app/domain/reconciliation.py:289-322 | concrete documents that are CLEAR at 0.75 and HOLD at 0.5 |
| HoldDecision.MaterialHeader | backend/app/domain/reconciliation.py:205-287 | a header finding is material iff a document is confidently of another type, a confident name or address is in conflict, or shipment identifiers differ |
| HoldDecision.MaterialAbsent | backend/app/domain/reconciliation.py:363-420 | a SKU that some document lacks is a material finding iff the items of every document without it are certain |
| HoldDecision.MaterialRow | backend/app/domain/reconciliation.py:422-498 | a SKU filed everywhere is a material finding iff its descriptions or its quantities are in conflict |
| HoldDecision.HoldIff | backend/app/domain/reconciliation.py:201-545 | the status is HOLD iff header, totals, a duplicate SKU or the rows of one SKU prove a conflict |
| Estimates.TotalEstimate | backend/app/domain/reconciliation.py:300-322 | a totals finding is estimated by the largest difference of two trusted totals, which is positive |
| Estimates.TotalSource | backend/app/domain/reconciliation.py:303-311 | its source is the invoice iff the invoice has a trusted total, and otherwise the first document with one |
| Estimates.TrustedPriceFound | backend/app/domain/reconciliation.py:183-198 | there is a price iff a document has a trusted one; it is that of the first invoice if it has one, and otherwise of the first document with one |
| Estimates.QuantityEstimate | backend/app/domain/reconciliation.py:478-498 | quantities in conflict give one high finding; its estimate is their largest difference times the trusted price if that is positive, and absent otherwise; its source is the document of the price |
| Estimates.PriceOfFiled | backend/app/domain/reconciliation.py:175-198 | a document's price of a SKU is that of the last item that carries it, if it is confident and a number |
| PrintedQuantities.StyleDoesNotMatter | backend/app/domain/normalization.py:47-73 | whole quantities printed plain or grouped in either style are in conflict iff two of the numbers differ |
| PrintedQuantities.MisreadIsConflict | backend/app/domain/reconciliation.py:453-498 | a decimal quantity given as a number and printed without groups is in conflict with itself iff the text is ambiguous |
| NonInterference.MaskingIsUnobservable | backend/app/domain/reconciliation.py:90-545 | hiding every value below the threshold changes neither status nor findings |
| NonInterference.BelowThresholdDoesNotMatter | backend/app/domain/reconciliation.py:90-545 | documents that agree on confidences, shipment identifiers and values at or above the threshold get the same status and findings |
| ItemOrder.SameItemMap | backend/app/domain/reconciliation.py:175-180 | without a duplicate finding the item map does not depend on the order of the items |
| ItemOrder.SameDuplicates | backend/app/domain/reconciliation.py:147-172 | the duplicate findings do not depend on the order of the items |
| ItemOrder.MaterialItemsHold | backend/app/domain/reconciliation.py:522-532 | a material item finding forces HOLD |
| ItemOrder.ItemOrderDoesNotMatter | backend/app/domain/reconciliation.py:147-180 | permuting the items of any document never changes the status |
| NumberFormat.IntegersRoundTrip | backend/app/domain/normalization.py:47-73 | every natural number up to 10^24, plain or grouped in either style, parses back exactly; a larger one is refused |
| NumberFormat.ParsePrintedDecimal | backend/app/domain/normalization.py:59-73 | what parsing makes of every printed decimal |
| NumberFormat.DecimalsRoundTripIff | backend/app/domain/normalization.py:59-73 | a printed decimal keeps its value iff it is not an ungrouped integer part below 1000 with three fraction digits, or is zero |
| NumberFormat.ReadersAgree | backend/app/services/extraction.py:309-327 | on text that is not a negative grouped number both readers read the same |
| NumberFormat.ReadersAgreeIff | backend/app/services/extraction.py:309-327 | on text that parses as a number other than zero they agree iff it is not a negative grouped number |
| NumberFormat.NegativeIsMisread | backend/app/services/extraction.py:309-327 | on negative grouped text the extractor reads nothing or a thousandth |
| NumberFormat.ParseAfterExtraction | backend/app/services/extraction.py:309-327 | an integral number passes from the extractor through the parser unchanged |
| MarkedNumbers.CleanKeepsLetters | backend/app/domain/normalization.py:58 | cleaning removes currency marks and blanks wherever they stand and the white space around a text, and keeps all other characters in order |
| MarkedNumbers.MarkedIntegerReads | backend/app/domain/normalization.py:47-73 | with marks, blanks and white space both readers read every printed natural number up to 10^24 as itself and refuse every larger one |
| MarkedNumbers.MarkedDecimalReads | backend/app/domain/normalization.py:47-73 | what both read from every printed decimal, as numbers: exact, or a thousand times as large when the integer part is below 1000 and the fraction has three digits |
| MarkedNumbers.ExactIsPlausible | backend/app/domain/normalization.py:69-73 | a printed decimal is within the limit iff its integer part is below 10^24, or is 10^24 and its fraction is at most half a thousandth |
| MarkedNumbers.SignedIntegerReads | backend/app/services/extraction.py:309-327 | with a sign: parse_number reads the negative after a minus; the extractor, and parse_number after a plus, take one thousands group for a fraction and read nothing with two |
| MarkedNumbers.SignedDecimalReads | backend/app/services/extraction.py:309-327 | with a sign, the extractor reads a printed decimal exactly or, with thousands groups, not at all; parse_number does so after a plus, and after a minus reads the negative of what it reads without a sign |
| EvidenceSpan.BreakIsSafe | backend/app/services/extraction.py:94-95 | stopping once the concatenation is as long as the needle loses no match |
| EvidenceSpan.SearchFrom | backend/app/services/extraction.py:62-95 | the shortest run from a start that spells the needle, if any |
| EvidenceSpan.Hull | backend/app/services/extraction.py:77-93 | the smallest region around a run |
| EvidenceSpan.NoRunNoExactWord | backend/app/services/extraction.py:96 | without a spelling run no single word equals the needle |
| EvidenceSpan.EvidenceForValue | backend/app/services/extraction.py:55-115 | the hull of the earliest spelling run; only without one the most similar word above the threshold; otherwise nothing |
| EditDistance.Levenshtein | backend/app/evaluation/extraction_metrics.py:106-119 | two rolling rows compute the recursive minimum-edit distance |
| EditDistance.ScriptsCostAtLeast | backend/app/evaluation/extraction_metrics.py:106-119 | no edit script is cheaper than the distance |
| EditDistance.SomeScriptCosts | backend/app/evaluation/extraction_metrics.py:106-119 | some edit script costs exactly the distance |
| EditDistance.DistanceBounds | backend/app/evaluation/extraction_metrics.py:106-119 | at least the difference of the lengths and at most the longer one |
| EditDistance.DistanceZeroIffEqual | backend/app/evaluation/extraction_metrics.py:106-119 | zero iff equal |
| EditDistance.DistanceSymmetric | backend/app/evaluation/extraction_metrics.py:106-119 | symmetric |
| EditDistance.DistanceTriangle | backend/app/evaluation/extraction_metrics.py:106-119 | triangle inequality |
| RateLimiter.Limiter.constructor | backend/app/core/security.py:19-23 | limit and window are at least one, and no call is recorded |
| RateLimiter.Limiter.Expire | backend/app/core/security.py:29-31 | dropping the expired front cuts an ordered deque to the closed window |
| RateLimiter.Limiter.Allow | backend/app/core/security.py:25-35 | a call is admitted iff fewer than the limit of earlier admissions lie in the closed window that ends with it; each deque mirrors its admitted history |
| RateLimiter.NoWindowOverfull | backend/app/core/security.py:25-35 | no closed window of the configured length ever holds more admissions than the limit |
| ServiceRateLimit.AdmissionsSound | backend/app/api/operations.py:37-47 | admissions fall into windows a length apart, none above the quota, and the entry stored counts the newest window |
| ServiceRateLimit.AtMostTwoQuotas | backend/app/api/operations.py:35-53 | at most 240 admissions of an account in any closed 60-second interval |
| ServiceRateLimit.RefusedIff | backend/app/api/operations.py:37-46 | a call is refused iff the window of its account's last admission started less than 60 seconds ago and 120 calls were admitted in it; a window starts with the first admission 60 seconds or more after the start of the one before |
| ServiceRateLimit.EvictionRefines | backend/app/api/operations.py:48-53 | a table that loses only expired entries keeps agreement with the one that never forgets |
| ServiceLimiter.EvictionIsExact | backend/app/api/operations.py:47-53 | up to 10,000 entries nothing is dropped; above, as many entries as are expired but at most 1,000, each expired, and an expired entry inserted before a dropped one is dropped too |
| ServiceLimiter.Limiter.Enforce | backend/app/api/operations.py:35-53 | the new table is the counted and evicted old one; the answer is by the entry of the key; while readings come in order it is that of the limiter whose table never forgets |
| ServiceLimiter.ServedRefines | backend/app/api/operations.py:35-53 | after any calls in order the table agrees with the one that never forgets except for expired entries it lost |
| ServiceLimiter.AnswersAlikeIff | backend/app/api/operations.py:37-46 | after calls in order a call at any reading is answered as without eviction iff its entry was not dropped, has expired at that reading, or is not full |
| ServiceLimiter.EarlierReadingIsAdmitted | backend/app/api/operations.py:37-53 | a run of the limiter, 120 calls of one account and 10,000 of others, after which an earlier reading is let in that the limiter without eviction refuses |
| ServiceRateLimit.JudgedAlikeIff | backend/app/api/operations.py:37-53 | at any clock reading a call is judged by the window the table that never forgets would use iff its entry was not dropped or has expired at that reading |
| Idempotency.StepKeepsInv | backend/app/api/operations.py:1399-1487 | every transaction, crash and reply keeps: reservations belong to their key's request, a succeeded one names the committed shipment of its owner and of the acceptance event, each request commits at most one shipment |
| Idempotency.RunsKeepInv | backend/app/api/operations.py:1399-1487 | the same over every interleaving |
| Idempotency.AtMostOneShipmentPerKey | backend/app/api/operations.py:1399-1475 | each organization, account and key leads to at most one committed shipment |
| Idempotency.AnswersAgree | backend/app/api/operations.py:1408-1475 | all answers for a key name the same committed shipment |
| Idempotency.SucceededIsFinal | backend/app/api/operations.py:1458-1475 | a succeeded reservation never changes |
| KeyFate.RunsKeepBacked | backend/app/api/operations.py:1458-1475 | every acceptance event is that of a succeeded reservation of some account |
| KeyFate.FinishCommitsIff | backend/app/api/operations.py:1458-1475 | in every reachable state a created shipment is announced and its reservation succeeds iff no account of the organization has succeeded with the key text; otherwise the request is turned away, and the shipment stays |
| KeyFate.SecondAccountIsTurnedAway | backend/app/api/operations.py:1458-1475 | a run in which the second account's shipment is committed, its request is turned away and its key is doomed |
| KeyFate.OneAccountPerKeyText | backend/app/repositories/operations.py:977-986 | two accounts of an organization never both succeed with one key text |
| KeyFate.AbandonedKeyStaysBlocked | backend/app/api/operations.py:1416-1423 | an abandoned reservation blocks its key for good |
| KeyFate.DoomedIsNeverAnswered | backend/app/api/operations.py:1416-1434 | no request of a doomed key is ever answered |
| KeyFate.AnswerableIff | backend/app/api/operations.py:1399-1487 | in every reachable state some continuation answers some request of a key iff the key is not doomed: it succeeded, or its text is free and the owner of its reservation, if any, has not stopped |
| KeyFate.CrashAbandons | backend/app/api/operations.py:1443-1458 | a run that ends with an abandoned key and a committed shipment |
| KeyFate.LoneRequestIsAnswered | backend/app/api/operations.py:1399-1487 | every run of a lone request without failure or crash answers it with its committed shipment iff six of its steps took effect, and until then it can take another |
| KeyHistory.FailedIff | backend/app/api/operations.py:1451-1457 | after every run a reservation is FAILED iff its owner recorded a failure; a crash leaves it PROCESSING |
| KeyHistory.CommittedIff | backend/app/api/operations.py:1443-1451 | after every run the committed shipments are those whose creation took effect, each by its request |
| KeyHistory.MetReservation | backend/app/api/operations.py:1408-1442 | in every reachable state a request that meets a reservation is answered with its owner's committed shipment iff it succeeded, and turned away otherwise; no row changes |
| JobQueue.BackoffInSeconds | backend/app/repositories/operations.py:4939-4943 | the waits are 10, 20, 40, 80 and 160 seconds, and 300 from the sixth on |
| JobQueue.BackoffIsWait | backend/app/repositories/operations.py:4939-4943 | the first wait is 10 seconds, each later one twice the one before or 300, whichever is less |
| JobQueue.JobTable.ClaimJob | backend/app/repositories/operations.py:4837-4862 | claims a queued job whose waiting time is over, none such having a higher priority and none of its priority having been queued earlier, or none if there is none, and changes no other job |
| JobQueue.JobTable.RecoverStaleJobs | backend/app/repositories/operations.py:4864-4885 | requeues exactly the jobs whose lease expired and counts them |
| JobQueue.JobTable.FinishJob | backend/app/repositories/operations.py:4887-4944 | succeeded, dead letter at the attempt limit, or queued again with 10 seconds to wait after the first attempt and twice as long after each later one, 300 at most; no other job changes; a dead letter fails its delivery and after five failed sends disables the subscription of the same organization |
| JobQueue.JobTable.RetryJob | backend/app/repositories/operations.py:2278-2306 | resets a failed or dead job of the same organization, and nothing else |
| JobQueue.JobTable.MarkDeliveryRetry | backend/app/repositories/operations.py:3204-3214 | a failed send raises the delivery's count by one and sets the waiting time of that count |
| JobQueue.JobTable.RetryDelivery | backend/app/repositories/operations.py:3216-3254 | a manual retry of a delivery of an enabled subscription queues a new job for it and keeps its count |
| JobQueue.RunWorker | backend/app/worker.py:174-226 | a worker alone on its queue leaves no job running between turns, recovers no lease and tries no job more often than it allows; when its turns outlast all waiting times and are as many as the attempts left, no job stays queued |
| JobRuns.AttemptsBounded | backend/app/repositories/operations.py:4837-4944 | under every interleaving attempts never exceed the maximum plus the recoveries since the last reset |
| JobRuns.ProgressStep | backend/app/repositories/operations.py:4837-4944 | without recovery or retry of a job every claim and finish of it lowers its measure |
| JobRuns.ClaimsBounded | backend/app/repositories/operations.py:4837-4944 | then its claims equal its attempts and are bounded, and the measure is zero iff it succeeded or is a dead letter |
| JobRuns.UnfinishedCanGoOn | backend/app/repositories/operations.py:4837-4944 | in every reachable state a job neither succeeded nor dead can be claimed if queued, reported on if a worker has it, and recovered if its worker crashed |
| JobRuns.EveryJobCanFinish | backend/app/repositories/operations.py:4837-4944 | from every reachable state every job can still succeed or be buried |
| JobRuns.SuccessIsFinalIffUnheld | backend/app/repositories/operations.py:4887-4911 | success is kept by every continuation iff no worker handles the job |
| JobRuns.HeldSuccessIsReached | backend/app/repositories/operations.py:4864-4911 | a run from a fresh queue to a succeeded job that another worker still handles |
| FailureWaits.AttemptsAreClaims | backend/app/repositories/operations.py:4837-4862 | under every interleaving a job's attempts are its claims since the last manual retry |
| FailureWaits.FailureSetsWait | backend/app/repositories/operations.py:4887-4944 | under every interleaving a failure report after the last claim allowed buries the job; after the k-th it sets the next attempt to the k-th wait and the jitter later, and no worker can claim the job before |
| FailureWaits.KthFailureWaits | backend/app/repositories/operations.py:4887-4944 | a job neither recovered nor retried waits the k-th wait after its k-th failure over the whole run |
| FailureWaits.KthFailedSendWaits | backend/app/repositories/operations.py:3204-3214 | the k-th failed send of a delivery over the whole run leaves it retrying with the k-th wait ahead |
| FailureWaits.DeliveryStep | backend/app/repositories/operations.py:3204-3254 | what every step makes of a delivery: retrying, delivered, failed when a job of it is buried, queued by a manual retry, and otherwise as it was |
| WebhookFailures.FailuresAreCounted | backend/app/repositories/operations.py:3204-3214 | a delivery's count is the number of its failed sends in the whole run, whichever jobs made them |
| WebhookFailures.SwitchedOffIff | backend/app/repositories/operations.py:4907-4937 | in every reachable state a step switches a subscription off iff it is the manual switch or buries a job whose delivery failed five sends or more in the run |
| WebhookFailures.OneJobFailsFourTimes | backend/app/repositories/operations.py:3043-3055 | a delivery with one job, neither recovered nor retried, fails at most four sends |
| WebhookFailures.SwitchedOffNeedsRepeat | backend/app/repositories/operations.py:4907-4937 | every run that switches a subscription off without the manual switch buries a job with five failed sends that has a sibling, was recovered, or was retried |
| WebhookFailures.TwoJobsDisable | backend/app/repositories/operations.py:3216-3254 | a run with one manual retry of a delivery, no recovery and no retry of a job, that switches the subscription off after eight failed sends |
| WebhookOutbox.MostRecentAre | backend/app/repositories/operations.py:3073-3079 | the events picked are the newest ones, newest first, up to the count |
| WebhookOutbox.Outbox.EnqueueDomainEventDeliveries | backend/app/repositories/operations.py:3061-3131 | afterwards each of the newest events, as many as the limit, at least one and at most 500, has exactly one delivery for each enabled subscription of its organization that listens to its type; each new delivery is of such an event, was missing, and is sent by exactly one job |
| WebhookOutbox.Outbox.EnqueueTwice | backend/app/repositories/operations.py:3061-3131 | a second pass creates nothing |
| WebhookOutbox.NothingOwed | backend/app/repositories/operations.py:3061-3131 | a pass over a state in which nothing is owed leaves deliveries and jobs as they are |

## Left out

- Web routing, the frontend, migrations, settings, storage, image preprocessing and the HTTP providers: I/O and glue.
- `calculate_risk`, `assess_risk`, the geographic override of the status, list queries, notifications, service tokens and URL checks: they would only add easy members.
- `character_error_rate` and `word_error_rate`: quotients of the modelled distance.
- Unicode normalisation, the name, address and SKU normalisers, numeric token extraction, the reading of numbers in text and the similarity scores are functions about which nothing is assumed; the laws of reconciliation hold for every choice of them. `PrintedQuantities` takes the modelled `parse_number` for the reader.
- SHA-256 is a free constructor, so distinct texts have distinct digests; the protocol's lemmas ask only that the hash separates snapshots.
- Json.StringRoundTrip: the reader of strings knows four-digit escapes below 256 only; the writer writes no others.
- JSON text is a sequence of code points; UTF-8 and surrogates are not modelled.
- ReleaseSafety.StepKeepsInv: steps are serialised transactions on one shipment's rows, kept in order of creation; row locks, equal creation times, tenant filters, domain events, risk fields and timestamps are not modelled. The content hash of a saved reference and whether its comparison has findings are parameters. One step, standing for every other writer, may replace all work items, evaluations, checks and exceptions.
- ReconciliationEngine.Run: evidence lists, explanations and identifiers of findings are not modelled; differences and products of amounts are exact, without rounding to 28 digits or conversion to float.
- ReconciliationEngine.TrustedPriceOf: documents are told apart by position, not by object identity.
- NumberFormat.ParsePrintedDecimal: exponent notation, underscores, infinities, digits and white space outside ASCII and Latin-1, and white space that cleaning leaves inside the text are outside the reader that is modelled. The magnitude limit includes the rounding of the comparison to 28 digits.
- NumberFormat.ParseAfterExtraction: the extractor's conversion of other numbers to float is not modelled.
- EvidenceSpan.EvidenceForValue: words carry their normalised text; rounding of the width and height to six digits and the cut of the text to 500 characters are left out.
- RateLimiter.Limiter.Allow: time is real and does not decrease from call to call; the lock and the interleaving of coroutines are not modelled.
- JobQueue.RunWorker: clock readings and handler outcomes are inputs; heartbeats are left out, and the webhook scan of the loop is modelled on its own.
- WebhookOutbox.Outbox.EnqueueDomainEventDeliveries: payloads, timestamps and delivery statuses are left out; events are given in order of creation.
- ReleaseRepository.ShipmentRows.SaveTrustedReference: the content hash and whether the comparison with the shipment has findings are inputs, not computed from the payload.
- ServiceRateLimit.AtMostTwoQuotas: clock readings do not decrease in the order in which the lock is taken.
- Idempotency.StepKeepsInv: request checks, token lookup and the rate limit before the reservation are left out; the audit record after the last commit is a crash point; a state is a value, since the protocol lives in transactions of several requests.
- JobQueue.JobTable.FinishJob: error codes, error texts and completion times are left out.
- JobRuns.AttemptsBounded: webhook jobs allow four attempts and all others at least one, as they are queued; a lease may be recovered at any time, not only when it is stale; error texts and heartbeat rows are not modelled. The jitter is any non-negative number.
- Estimates.QuantityEstimate: estimates are exact, without rounding to 28 digits or conversion to float, as in `ReconciliationEngine.Run`.
