# Verified model of the marketplace backend

A Dafny model of the transactional protocols of a vehicle marketplace backend, with proofs of what
they promise over every run. `dafny verify dfyconfig.toml` checks all of it.

## How it is modelled

* A table is a sequence of rows and a row's key is its position, so a new row always has a new key
  (the code draws UUIDs). Each database transaction is one pure step `State -> State`; an operation
  that the code splits (provider calls, password hashing, storage and queue work, several queries,
  row locks) is split in the same places, and what it holds in between is part of the state. Runs
  are sequences of steps of any callers in any order; a crash is a step that never comes.
* Every state machine has an invariant `Inv`, a transitive relation `Continues` that says what a
  step may do to what was there, a lemma that every step keeps both, and one induction over runs.
  The properties a caller relies on are stated about runs.
* Beside safety, each operation's answer is characterised both ways in facts of the tables (the lemmas
  named `...Exactly`), and the good outcome is shown to be obtained: a login that works, a proof that
  counts, a lease that is kept, a submission that reaches moderation.
* What the code does by assigning fields and looping is also written as classes with methods and
  loops; each method's `ensures` ties it to the step function the lemmas are about.
* Time is one clock that never goes back. Keyed digests (HMAC-SHA256, SHA-256) are injective,
  salted password hashes are fresh rows.

| file | what it models |
|---|---|
| `OwnershipReuse.dfy` | the pure policy that picks an ownership proof from a set of attempts |
| `VehicleRegistry.dfy` | canonical vehicles under three unique keyed identifiers |
| `IdentityVerification.dfy`, `IdentityStarts.dfy` | identity attempts and the projection that follows them; what a user gets from them |
| `OwnershipVerification.dfy`, `OwnershipStarts.dfy`, `OwnershipFingerprints.dfy` | ownership attempts bound to identity and vehicle versions, over the two above; what an owner gets from them, and what their fingerprints are of |
| `Readiness.dfy`, `Submission.dfy`, `SubmissionPromises.dfy` | publication gates and listing submission on top of them; who may submit, and what it takes |
| `SupersededProof.dfy` | one run of the services in which a superseded proof reaches moderation |
| `MediaProcessing.dfy`, `MediaLeases.dfy` | leased image processing with claim tokens; what a lease is worth |
| `Sessions.dfy`, `LoginPromises.dfy` | two-phase login, refresh families, password change and recovery, lockout; which logins succeed and what they open |
| `AuthorizationCache.dfy` | the version-checked capability cache |
| `Dealers.dfy`, `DealerAuthority.dfy` | dealer memberships at row-lock level; who may change them |
| `CapabilityWriters.dfy` | everything that writes what capabilities depend on, beside the readers of the cache |
| `Outbox.dfy`, `OutboxPromises.dfy` | relay and deduplicating consumer; when an event may be tried |
| `Idempotency.dfy`, `RateLimit.dfy` | idempotency records, fixed-window counters |
| `Base64Url.dfy`, `ListingCursors.dfy`, `ListingPages.dfy` | page tokens (section 5 of RFC 4648) and keyset pagination |

## What the proofs brought out

* **Readiness can rest on a superseded proof.** When the reuse policy accepts nothing, submission
  falls back to the listing's own latest ownership row and judges it by fewer conditions
  (`backend/app/modules/listings/submission_service.py:345-353`). `GateReadyExactly` says, for every
  reachable state and in facts of the tables, when the gate is ready: the vehicle's newest row is
  accepted, or the refusal is mild and the listing's own newest row, superseded or not, is still
  good. `SupersededProofCanPass` is a run from empty tables that ends with moderation requested on a
  superseded proof: two listings of one vehicle, the second one's attempt made on another basis and
  failed. `FallbackMeansSuperseded` shows that, with a live identity and an active vehicle, a
  superseded proof is the only kind the fallback lets through.
* **A capability cache hit can run ahead of the version it was asked for.** If a commit bumps the
  version while another request fills the cache, the entry carries the old version and newer data
  (`HitCanRunAhead`). `HitExactly` gives the condition for every run: a hit equals recomputation at
  the moment its version was read exactly when the fill behind it was consistent, that is, when the
  commits between its three queries changed nothing that shows. A fill during which the version
  stood still always is. `HitIsNeverStale`: no part of a hit is ever older than the version read.
  `HitsOfRuns` states both for every run of the actual writers.
* **The rate limit over a sliding interval is twice the limit minus one**, and that is reached
  (`FewerThanTwiceTheLimit`, `BoundIsReached`). The two backends keep separate counters: over any
  history of calls and failures a subject gets through at most that much on each of them
  (`CallsAreBounded`).
* **`manual_review` is absorbing for identity.** An attempt in it is never settled and every new start
  is answered "under review" (`ManualReviewIsAbsorbing`); `docs/verification-moderation.md:32-34` names
  the state and no way out of it.
* **Page walks need keys that do not go back.** `updated_at` is the transaction's start time, so a
  slow transaction can move a listing down after it was shown. `NothingTwice`: while no key goes
  back, nothing is shown twice. `ShownAgainExactly`: a listing written after it was shown is shown
  again exactly when its new key lies below the last key of the page it was on.
* **The retry delay cap never binds:** `2 ** min(attempts, 8)` stays at 256, below the cap of 300
  (`BackoffDoublesUpTo256`). **"In progress" is never answered** by the idempotency table, since every
  reservation is completed in the transaction that made it (`NeverInProgress`), and its expiry column
  is never read (`AnswersForEver`).

## Model

| member | source | states |
|---|---|---|
| OwnershipReuse.SelectMeaning | backend/app/modules/verification/ownership_reuse.py:68-122 | for every evidence set with distinct numbers: the two scans return a row exactly when nothing newer is unsuperseded, every condition on row and context holds (verified, unrevoked, within its expiry and, for another listing, its age in days; each binding equal; identity live, vehicle active), and no newer verified row of its kind shadows it |
| OwnershipReuse.SelectExactly | backend/app/modules/verification/ownership_reuse.py:68-179 | where only the newest row is unsuperseded: it is returned exactly when those conditions hold of it, and the expiry that travels with it is the moment they stop to hold |
| OwnershipReuse.RefusalExactly | backend/app/modules/verification/ownership_reuse.py:124-166 | each answer of the policy, both ways: "expired" exactly when the proof is settled and uncontested and its expiry, or for another listing its age, has run out; accepted exactly when every condition holds |
| OwnershipReuse.ExpiryThatTravels | backend/app/modules/verification/ownership_reuse.py:169-179 | the effective expiry of an accepted proof is one of the two times and no later than either |
| OwnershipReuse.SelectLooksAtNewestOnly | backend/app/modules/verification/ownership_reuse.py:68-122 | where only the newest row is unsuperseded, the selection is decided by the newest row alone, and "reused" says whether it belongs to another listing |
| OwnershipReuse.SelectIsConsistent | backend/app/modules/verification/ownership_reuse.py:84-122 | eligible, returned row, code, reuse flag, effective expiry and policy version always travel together |
| OwnershipReuse.SelectIgnoresOrder | backend/app/modules/verification/ownership_reuse.py:75-82 | the whole selection, refusal code included, does not depend on the order of the evidence |
| OwnershipReuse.EligibilityShrinks | backend/app/modules/verification/ownership_reuse.py:124-179 | passing time never restores a proof, what may be reused may be used, and the reuse expiry is at most the freshness days after verification |
| OwnershipReuse.RefusalCode | backend/app/modules/verification/ownership_reuse.py:99-122 | what a refusal is reported as, told by the newest row alone: its own refusal if it is another listing's proof, a conflict if only an older such proof exists, its status if there is none |
| OwnershipReuse.FirstVerified | backend/app/modules/verification/ownership_reuse.py:76-83 | the scan returns the first verified row of the asked kind, or there is none |
| VehicleRegistry.ResolveStep | backend/app/modules/verification/ownership_service.py:538-591 | a resolution only fills missing identifiers, conflicts change nothing, and the resolved row is the only one the key matches and carries all of it |
| VehicleRegistry.ResolvedExactly | backend/app/modules/verification/ownership_service.py:538-591 | a request conflicts exactly when it shares identifiers with two vehicles or with one it disagrees with, and makes a new vehicle exactly when it shares none |
| VehicleRegistry.KeysExactly | backend/app/modules/verification/vehicle_identity.py:109-127 | a blank identifier is none, a given one is told apart from every other, and so is a registration within its jurisdiction |
| VehicleRegistry.ResolveKeepsKeysUnique | backend/app/modules/verification/ownership_service.py:538-591 | registration, VIN and chassis keys stay unique across vehicles through every resolution |
| VehicleRegistry.ResolveAllKeepsInv | backend/app/modules/verification/ownership_service.py:584-591 | the same over every sequence of resolutions, with nothing but fills |
| VehicleRegistry.ResolvedForEver | backend/app/modules/verification/ownership_service.py:538-591 | an identity once resolved resolves to the same vehicle after any other resolutions, writing nothing |
| VehicleRegistry.SharedIdentifierSharedVehicle | backend/app/modules/verification/ownership_repository.py:22-47 | accepted requests sharing any identifier name one vehicle; requests naming one vehicle never disagree on an identifier both supply |
| VehicleRegistry.SameDigestSameJurisdiction | backend/app/modules/verification/vehicle_identity.py:109-127 | the digest of "jurisdiction:registration" tells the jurisdiction, so a fill never crosses jurisdictions |
| VehicleRegistry.FindCanonical | backend/app/modules/verification/ownership_repository.py:22-47 | exactly the positions of the rows that match by any identifier |
| IdentityVerification.StepKeepsInv | backend/app/modules/verification/service.py:249-333 | every start, session outcome and result keeps: projection mirrors the newest attempt field by field, which alone is unsuperseded; numbers contiguous; evidence constraints; emitted versions strictly increasing |
| IdentityVerification.RunKeeps | backend/app/modules/verification/service.py:140-189 | over every run: settled attempts never change, supersession is never cleared, projection versions only grow |
| IdentityVerification.Reachable | backend/app/modules/verification/service.py:249-283 | every state reached from empty tables satisfies the invariant |
| IdentityVerification.AtMostOneUnfinished | backend/app/modules/verification/repository.py:52-68 | a user has at most one unfinished attempt, and it is the projected one |
| IdentityVerification.ManualReviewIsAbsorbing | backend/app/modules/verification/state.py:9-43 | no run moves a projection out of manual review, and every start is answered "under review" |
| IdentityVerification.AppliedResultStaysDuplicate | backend/app/modules/verification/service.py:140-189 | a result applied once is answered "duplicate" and changes nothing after any further activity, supersession included |
| IdentityStarts.StartExactly | backend/app/modules/verification/service.py:191-283 | every start, by the projection: an attempt under way is named again, one in review is reported, in any other case a new attempt is opened and projected one version on |
| IdentityStarts.ResultAppliedExactly | backend/app/modules/verification/service.py:140-189 | a provider's answer is applied exactly when well formed, new, and for the user's projected waiting attempt; attempt, projection and event then say what it said |
| IdentityStarts.RepeatedAnswerExactly | backend/app/modules/verification/service.py:158-168 | an event delivered before changes nothing: a duplicate exactly when the attempt it names already says all of it, and a conflict otherwise |
| IdentityStarts.ManualReviewIsEntered | backend/app/modules/verification/service.py:140-189 | a well-formed manual-review answer for the projected waiting attempt is applied, and from then on every start in every run is answered "under review" |
| IdentityStarts.IdentityIsObtained | backend/app/modules/verification/service.py:66-189 | start, session and verified answer leave an active user verified with the answer's times |
| IdentityStarts.SessionFailureExactly | backend/app/modules/verification/service.py:319-333 | a session that could not be opened fails exactly a projected attempt that waits for one |
| IdentityVerification.IdentityVerificationService.Claim | backend/app/modules/verification/service.py:225-247 | the imperative start transaction is the step the lemmas are about |
| IdentityVerification.IdentityVerificationService.AddAttempt | backend/app/modules/verification/service.py:249-283 | supersedes the latest attempt, numbers the new one and rewrites the projection as the step function says |
| IdentityVerification.IdentityVerificationService.MirrorAndEmit | backend/app/modules/verification/service.py:335-422 | copies the attempt into the projection, raises its version by one, emits one event |
| IdentityVerification.IdentityVerificationService.Finalize | backend/app/modules/verification/service.py:285-317 | the session transaction, all refusals included |
| IdentityVerification.IdentityVerificationService.FinalizeFailure | backend/app/modules/verification/service.py:319-333 | the session-failure transaction |
| IdentityVerification.IdentityVerificationService.Apply | backend/app/modules/verification/service.py:140-189 | the provider-result transaction with its stale, duplicate and conflict answers |
| OwnershipVerification.NewAttemptKeepsChain | backend/app/modules/verification/ownership_service.py:488-536 | per (owner, vehicle) numbers stay contiguous and every row with a successor is superseded |
| OwnershipVerification.StepKeeps | backend/app/modules/verification/ownership_service.py:338-486 | every step of identity, ownership, listings and time keeps the invariant: bindings never ahead of the projection, chains, evidence constraints, unique references and events |
| OwnershipVerification.RunKeeps | backend/app/modules/verification/ownership_service.py:267-336 | the same over every run; nothing un-supersedes, un-settles or un-binds a row |
| OwnershipVerification.Reachable | backend/app/modules/verification/ownership_models.py:44-82 | every reachable state satisfies the table's check constraints as part of the invariant |
| OwnershipVerification.EligibleParts | backend/app/modules/verification/ownership_reuse.py:124-166 | what it takes for an attempt to prove ownership in a reachable state, as one list of conditions on its row, both ways; for another listing also that fewer than the freshness days have passed since it was verified |
| OwnershipVerification.EligibleEarlier | backend/app/modules/verification/ownership_reuse.py:124-179 | a verified attempt that counts later counted before: eligibility is only ever lost |
| OwnershipVerification.LostEligibilityIsPermanent | backend/app/modules/verification/ownership_service.py:453-506 | once a verified attempt is not eligible for a listing and basis, no run of identity and ownership activity, edits and time makes it eligible again |
| OwnershipVerification.IdentityChangeEndsProofs | backend/app/modules/verification/service.py:249-283 | any change of a user's identity projection ends every ownership proof of that user for good |
| OwnershipVerification.SelectionIsTheEligibleRow | backend/app/modules/verification/ownership_service.py:714-758 | in reachable states the policy returns a row exactly when that row is eligible, it is the newest of its group, and the reuse flag is set iff its listing differs |
| OwnershipVerification.VerifiedOnlyWhileBound | backend/app/modules/verification/ownership_service.py:292-336 | an attempt turns verified only by a result, while pending, unsuperseded, newest and bound to a live identity, with the result's time |
| OwnershipVerification.SupersededNeverVerified | backend/app/modules/verification/ownership_service.py:293-318 | a superseded attempt that is not verified never becomes so in any run |
| OwnershipVerification.AppliedResultStaysDuplicate | backend/app/modules/verification/ownership_service.py:281-287 | a result applied once is a duplicate for ever after |
| OwnershipVerification.ReapplyChangesNothing | backend/app/modules/verification/ownership_service.py:267-336 | delivering any result twice in a row leaves what the first delivery left, stale results included |
| OwnershipVerification.EligibleProofIsReused | backend/app/modules/verification/ownership_service.py:402-450 | a start that can rely on an existing proof opens no attempt, names that proof, and records the reuse at most once per listing |
| OwnershipStarts.RefusedExactly | backend/app/modules/verification/ownership_service.py:338-401 | a start is refused, changing nothing, exactly when actor, listing, draft state, version or identity are not as required, or the vehicle does not fit |
| OwnershipStarts.StartTiesListing | backend/app/modules/verification/ownership_service.py:386-401 | a start ties the listing to its vehicle, as a new version the first time, and touches no other listing |
| OwnershipStarts.StartNamesCurrentAttempt | backend/app/modules/verification/ownership_service.py:453-486 | an attempt named for the provider is, in the state the start leaves, unfinished, unsuperseded, newest of its owner and vehicle and bound to the present identity attempt and version |
| OwnershipStarts.CurrentAttemptIsKept | backend/app/modules/verification/ownership_service.py:453-459 | while such an attempt exists every start for its vehicle answers with it and writes no attempt |
| OwnershipStarts.StartIsRepeatable | backend/app/modules/verification/ownership_service.py:402-486 | repeated with the then-current version and nothing in between, a start names the same attempt and opens none |
| OwnershipStarts.ReuseIsAnnounced | backend/app/modules/verification/ownership_service.py:782-829 | a reuse is recorded exactly when the proof is another listing's and was not recorded for this one |
| OwnershipStarts.ResultAppliedExactly | backend/app/modules/verification/ownership_service.py:267-336 | a provider's answer is applied exactly when well formed, new, and for a waiting attempt whose owner, identity, listing and vehicle are as when it was opened; the row then says what it said and nothing else changes |
| OwnershipStarts.RepeatedAnswerExactly | backend/app/modules/verification/ownership_service.py:280-286 | an event delivered before changes nothing: a duplicate exactly when the attempt it names already says all of it, version and times included, and a conflict otherwise |
| OwnershipFingerprints.FingerprintsDescribe | backend/app/modules/verification/ownership_service.py:523-531 | over every run each stored fingerprint is of material that names the row's own owner, vehicle, identity, basis and result version, and of identifiers the vehicle still has |
| OwnershipFingerprints.AppliedRenews | backend/app/modules/verification/ownership_service.py:873-913 | an applied result renews the fingerprint from the vehicle as it is now and the attributes sent with the result |
| OwnershipStarts.AProofIsObtained | backend/app/modules/verification/ownership_service.py:267-336 | an attempt so bound becomes an eligible proof by its session and a verified answer |
| OwnershipStarts.ObtainedProofIsUsed | backend/app/modules/verification/ownership_service.py:402-450 | the owner's next start for that listing and basis is answered with that proof and opens nothing |
| OwnershipStarts.SessionFailureExactly | backend/app/modules/verification/ownership_service.py:618-628 | a session that could not be opened fails exactly an attempt that waits for one |
| OwnershipVerification.Newest | backend/app/modules/verification/ownership_repository.py:100-139 | the row with the highest number among the wanted ones, or there is none |
| OwnershipVerification.OwnershipVerificationService.ResolveCanonical | backend/app/modules/verification/ownership_service.py:538-591 | the in-place fill of a vehicle row is the registry's resolution |
| OwnershipVerification.OwnershipVerificationService.AddAttempt | backend/app/modules/verification/ownership_service.py:488-536 | supersedes the latest attempt and appends the next |
| OwnershipVerification.OwnershipVerificationService.Claim | backend/app/modules/verification/ownership_service.py:338-486 | the start transaction: listing checks, vehicle resolution with rollback on conflict, association |
| OwnershipVerification.OwnershipVerificationService.ClaimResolved | backend/app/modules/verification/ownership_service.py:402-486 | reuse, keep the active attempt, or supersede a stale one and open the next |
| OwnershipVerification.OwnershipVerificationService.Finalize | backend/app/modules/verification/ownership_service.py:593-616 | the session transaction |
| OwnershipVerification.OwnershipVerificationService.FinalizeFailure | backend/app/modules/verification/ownership_service.py:618-628 | the session-failure transaction |
| OwnershipVerification.OwnershipVerificationService.Apply | backend/app/modules/verification/ownership_service.py:267-336 | the provider-result transaction, supersession of stale attempts included |
| Readiness.ModerationExactlyWhenPublishable | backend/app/modules/listings/readiness.py:42-122 | submission status, moderation status and the single code "moderation pending" all say exactly that every publication fact holds |
| Readiness.BlockerCodesExplainGates | backend/app/modules/listings/readiness.py:42-44 | blocker codes are distinct, at most ten, and are exactly the codes of the gates that are not ready |
| Readiness.CodesExactly | backend/app/modules/listings/readiness.py:65-247 | each of the sixteen codes is stored exactly when the fact it stands for holds |
| Readiness.StatesExactly | backend/app/modules/listings/readiness.py:125-247 | gates keep names and places; one waits exactly for an unfinished verification or unsanitized media, is stale exactly when listing, media or fingerprint moved on, and is blocked for any other reason |
| Readiness.VerificationIsReportedFirst | backend/app/modules/listings/readiness.py:50-59 | "verification pending" is reported exactly when the identity or ownership facts fail, "blocked" exactly when only others do |
| Readiness.GateMeaning | backend/app/modules/listings/readiness.py:124-247 | each of the nine gates is ready exactly when its fact holds, and has a code exactly when not |
| Readiness.ReadinessOnlyExpires | backend/app/modules/listings/readiness.py:148-206 | what is publishable later is publishable now: waiting never helps |
| Core.DeduplicatedMeaning | backend/app/modules/listings/readiness.py:42-44 | same elements, no repetition, order of first appearance |
| Submission.ProvenMakesGateReady | backend/app/modules/listings/submission_service.py:320-344 | an eligible selection always makes the ownership gate ready, reused proofs with their shorter expiry included |
| Submission.GateReadyExactly | backend/app/modules/listings/submission_service.py:290-386 | in every reachable state the ownership facts hold exactly when the vehicle's newest row is verified, unsuperseded, unexpired, live-bound and of the basis asked for, or the refusal is neither "expired" nor "pending" and the listing's own newest row is verified, unexpired and bound to the present identity version |
| Submission.NothingToRelyOn | backend/app/modules/listings/submission_service.py:290-353 | without a vehicle, an identity projection or any ownership row the gate is not ready |
| SupersededProof.SupersededProofCanPass | backend/app/modules/listings/submission_service.py:345-353 | for every policy and every fingerprint function that is never empty: a run of the services from empty tables after which moderation has been requested for a listing whose recorded proof is superseded and not accepted by the policy |
| SupersededProof.GateIsReady | backend/app/modules/listings/submission_service.py:345-386 | in the state that run reaches the policy accepts nothing, the chosen proof is the superseded one, and the gate is ready |
| Submission.FallbackMeansSuperseded | backend/app/modules/listings/submission_service.py:345-353 | in reachable states, with a live identity, an active vehicle and well-formed fingerprints, the fallback lets through only superseded proofs |
| Submission.ModerationReliesOn | backend/app/modules/listings/submission_service.py:266-428 | what a submission that reaches moderation rests on: live identity, finished media, complete details, and an accepted proof or a superseded one of the same listing |
| Submission.ModerationRequestedExactly | backend/app/modules/listings/submission_service.py:430-489 | moderation is requested exactly when every fact holds and this listing version was not waiting already |
| Submission.RequestsAreSeparated | backend/app/modules/listings/submission_service.py:484-489 | between two requests for one listing version lies a submission of it that was not ready |
| Submission.RunKeeps | backend/app/modules/listings/submission_service.py:91-238 | over every run: attempts are never reopened, a superseded one never changes, one open attempt per listing ahead of the others |
| Submission.Reachable | backend/app/modules/listings/submission_models.py:41-54 | every recorded attempt satisfies the reuse-evidence constraint and the bound on codes; a submitted listing has exactly one open attempt; requests are exactly the transitions of the history |
| Submission.ReadinessViewExactly | backend/app/modules/listings/submission_service.py:240-264 | the readiness view agrees with a fresh submission exactly while version, media set and proof are the submitted ones |
| SubmissionPromises.SubmittedExactly | backend/app/modules/listings/submission_service.py:91-238 | a submission is refused, changing nothing, exactly when it is not the active owner's or not of the present version; otherwise one line is recorded under that version |
| SubmissionPromises.RecordedForOwnersOnly | backend/app/modules/listings/submission_service.py:91-238 | over every run, each recorded submission was made by the listing's active owner of the version the listing had then |
| SubmissionPromises.ReachesModerationExactly | backend/app/modules/listings/submission_service.py:266-489 | attempt and listing wait for moderation, and the request goes out unless it already had, exactly when seller, details, location, media, identity and ownership facts of the tables all hold |
| SubmissionPromises.RecordedEvidence | backend/app/modules/listings/submission_service.py:430-489 | the row names the identity attempt and version, the media and the ownership row it was judged on, with that row's result version and fingerprint |
| SubmissionPromises.RecordedReasons | backend/app/modules/listings/submission_service.py:430-489 | the row's codes do not repeat, and one is there exactly when its fact is |
| SubmissionPromises.AttemptsAreNumbered | backend/app/modules/listings/submission_repository.py:44-50 | over every run the attempts of a listing are numbered 1, 2, 3, ... as they were made |
| SubmissionPromises.AcceptedIsChosen | backend/app/modules/listings/submission_service.py:333-344 | if the policy accepts the vehicle's newest row, that row is the chosen proof, until the moment it stops being in force |
| SubmissionPromises.BlockedReason | backend/app/modules/listings/submission_service.py:345-353 | what the ownership gate reports when it is not ready, by the refusal and the listing's own newest row |
| Submission.ListingSubmissionService.SupersedeOtherVersions | backend/app/modules/listings/submission_repository.py:52-68 | the bulk update closes exactly the open rows of the listing's other versions |
| Submission.ListingSubmissionService.RecordAttempt | backend/app/modules/listings/submission_service.py:430-489 | reuses the row of the current version or numbers a new one, fills it, and says whether to request moderation |
| Submission.ListingSubmissionService.SubmitListing | backend/app/modules/listings/submission_service.py:91-238 | the submit transaction with its refusals |
| MediaProcessing.RunKeeps | backend/app/modules/media/worker.py:228-410 | over every interleaving of claims, crashes, lease expiries, removals and late finalizations the invariant holds and nothing final is rewritten |
| MediaProcessing.Reachable | backend/app/modules/media/worker.py:285-330 | derivative rows are none or one of each of the three kinds, the latter exactly for evidence in moderation_pending; one terminal event per settled row |
| MediaProcessing.TerminalOnce | backend/app/modules/media/worker.py:285-363 | at most one terminal event per image version over any run, and the evidence it reports never changes again |
| MediaProcessing.RemovedStaysSilent | backend/app/modules/media/service.py:274-308 | a removed image never changes and is never reported afterwards, whatever workers still do |
| MediaProcessing.LateWorkerIsFenced | backend/app/modules/media/worker.py:394-411 | once a later claim on the row exists, the earlier worker can change nothing |
| MediaProcessing.LeasesAreDisjoint | backend/app/modules/media/worker.py:245-270 | two claims on one image version are never in force at the same time (that a lease lasts is `MediaLeases.LeaseIsKept`) |
| MediaProcessing.RetriesAreBounded | backend/app/modules/media/worker.py:365-392 | over any run, claims on an image version given back for another try are fewer than the maximum number of attempts |
| MediaLeases.ClaimExactly | backend/app/modules/media/worker.py:228-283 | in every reachable state a request is stale exactly when the image does not await work, in progress exactly while some claim on it is younger than the lease, and granted otherwise |
| MediaLeases.LeaseIsKept | backend/app/modules/media/worker.py:245-270 | through every run that ends before the lease does, in which the holder does not finish and the image is not removed, the holder keeps the claim and the same request is answered "in progress" |
| MediaLeases.LeaseRunsOut | backend/app/modules/media/worker.py:245-270 | from the end of the lease on the image can be claimed again |
| MediaLeases.WorkIsRecorded | backend/app/modules/media/worker.py:285-363 | done by the holder, success settles the image with one derivative of each size and failure with its code, media row and evidence agreeing in outcome, reason, details and time; done by anyone else they change nothing |
| MediaLeases.TroubleExactly | backend/app/modules/media/worker.py:365-392 | a holder in trouble gives the claim back, to be claimed at once, exactly while attempts and deliveries are below the maximum, and fails the image otherwise |
| MediaLeases.UploadAwaitsWork | backend/app/modules/media/service.py:186-261 | an upload is completed exactly in time and as declared, and the first request for it is then granted |
| MediaLeases.RemovalExactly | backend/app/modules/media/service.py:274-308 | a removed image can be neither claimed nor settled, and other images are as they were |
| MediaProcessing.MediaProcessor.CompleteUploaded | backend/app/modules/media/service.py:205-235 | the status part of the upload-complete transaction |
| MediaProcessing.MediaProcessor.Remove | backend/app/modules/media/service.py:274-308 | the removal transaction |
| MediaProcessing.MediaProcessor.TakeClaim | backend/app/modules/media/worker.py:228-283 | claim under a new token and lease, or stale, or in progress |
| MediaProcessing.MediaProcessor.LockCurrentClaim | backend/app/modules/media/worker.py:394-411 | true exactly while the token is the one on a processing row of a current image |
| MediaProcessing.MediaProcessor.Settle | backend/app/modules/media/worker.py:317-329 | evidence row, media row and event move together |
| MediaProcessing.MediaProcessor.Succeed | backend/app/modules/media/worker.py:285-330 | inserts the derivative rows one by one and settles, or does nothing |
| MediaProcessing.MediaProcessor.Fail | backend/app/modules/media/worker.py:332-363 | settles with a failure, or does nothing |
| MediaProcessing.MediaProcessor.RetryOrGiveUp | backend/app/modules/media/worker.py:365-392 | gives the claim back, or fails the row when attempts or deliveries are used up |
| Sessions.RunKeeps | backend/app/modules/identity/session_service.py:61-279 | over every run of logins, refreshes, logouts, changes and recoveries the invariant holds; used tokens stay used, revoked families stay revoked, expiries never move |
| Sessions.WorkingSessionsKnowThePassword | backend/app/modules/identity/session_service.py:61-174 | however logins, changes and resets interleave, a session that works was opened with the password the user has now |
| Sessions.OvertakenLoginFails | backend/app/modules/identity/session_service.py:88-104 | a login whose snapshot was overtaken by a password change or reset cannot be committed |
| Sessions.ChangeEndsSessions | backend/app/modules/identity/session_service.py:412-463 | a committed password change ends every session the user had |
| Sessions.ReplayEndsFamily | backend/app/modules/identity/session_service.py:193-222 | presenting any used token ends its family: no token of it is ever rotated and no access token for it ever accepted again |
| Sessions.RevokedForEver | backend/app/modules/identity/session_service.py:281-309 | nothing of a revoked family is ever accepted again |
| Sessions.FamilyIsAChain | backend/app/modules/identity/session_service.py:238-262 | neighbouring tokens of a family are parent and child, all but the last are used and cannot be rotated, all expire with the family |
| Sessions.RefreshNeverExtends | backend/app/modules/identity/session_service.py:245-254 | whatever token a family gets later expires when the login said |
| Sessions.GuessesAreBounded | backend/app/modules/identity/session_service.py:88-107 | lock_seconds * (failures - threshold) <= last failure - last reset, in every reachable state |
| Sessions.LockedMeansLocked | backend/app/modules/identity/session_service.py:89-107 | while locked no login gets in and nothing is counted, right password or not |
| Sessions.RecoveryWorksOnce | backend/app/modules/identity/service.py:397-429 | a recovery challenge resets at most one password, ever |
| Sessions.OnlyNewestChallengeWorks | backend/app/modules/identity/repository.py:74-84 | asking again disarms every earlier challenge of the user |
| LoginPromises.LoginExactly | backend/app/modules/identity/session_service.py:61-174 | whatever runs between its halves, as long as the hash stays: a login succeeds exactly with the right password for an active account not locked at the commit |
| LoginPromises.LoginWrites | backend/app/modules/identity/session_service.py:100-174 | a login clears counters and lock, opens one family with one token, replaces an outdated hash by one of the same password, and touches nobody else |
| LoginPromises.LoginOpens | backend/app/modules/identity/session_service.py:113-148 | until revoked, a login's access claims are accepted and its token rotated up to the second commit time plus the refresh period is reached, in every run |
| LoginPromises.RegisteredLogsIn | backend/app/modules/identity/session_service.py:61-174 | the password an account was registered with gets in exactly if the account is active, and no other does |
| LoginPromises.FailureExactly | backend/app/modules/identity/session_service.py:89-112 | a failed login counts once and locks from the threshold on for the lock period; while locked it changes nothing |
| LoginPromises.RotatableExactly | backend/app/modules/identity/session_service.py:185-263 | in every reachable state a token is rotated exactly when unused and its family is unrevoked, unexpired and of an active account |
| LoginPromises.RefreshGoesOn | backend/app/modules/identity/session_service.py:238-263 | the token a rotation gives can be rotated in turn, the old one is a replay, and no other token or family is touched |
| LoginPromises.RefusedRefreshExactly | backend/app/modules/identity/session_service.py:176-237 | of refused refreshes, a used token ends its family as a replay, a token of an inactive account ends its family, and any other changes nothing |
| LoginPromises.ChangeExactly | backend/app/modules/identity/session_service.py:412-463 | a password change is made exactly with the current password by an active account whose hash stayed; then only the new password gets in, under a new authorization version |
| LoginPromises.ResetExactly | backend/app/modules/identity/service.py:386-454 | a challenge resets the password exactly while open, in time, within its tries and for an account not deleted; then only the new password gets in, under a new authorization version |
| LoginPromises.RecoveryIsObtained | backend/app/modules/identity/service.py:333-384 | a challenge asked for is good for its whole term |
| LoginPromises.LogoutExactly | backend/app/modules/identity/session_service.py:311-410 | logging out ends one's own family, and nothing happens for anybody else's |
| LoginPromises.LogoutAllExactly | backend/app/modules/identity/session_service.py:332-359 | ending all sessions ends all of that user's and nobody else's |
| Sessions.SessionService.RevokeUserSessions | backend/app/modules/identity/repository.py:86-110 | the two bulk updates, row by row |
| Sessions.SessionService.RevokeOneFamily | backend/app/modules/identity/repository.py:152-169 | revokes the family's rows, keeping earlier revocation and replay times |
| Sessions.SessionService.CommitLogin | backend/app/modules/identity/session_service.py:80-148 | the second half of a login: hash comparison, lockout counting, rehash, new family |
| Sessions.SessionService.UseToken | backend/app/modules/identity/session_service.py:185-263 | rotation, replay detection, refusals |
| Sessions.SessionService.SetPassword | backend/app/modules/identity/session_service.py:447-463 | new hash, counters zeroed, authorization version raised, all sessions revoked |
| Sessions.SessionService.CommitChange | backend/app/modules/identity/session_service.py:439-463 | the second half of a password change |
| Sessions.SessionService.Recover | backend/app/modules/identity/service.py:397-429 | the reset transaction |
| AuthorizationCache.HitExactly | backend/app/modules/authorization/service.py:42-103 | in every run: a hit equals recomputation at the moment its version was read exactly when the seller and membership queries of the fill saw what they would have seen together with its user query; a fill during which the version stood still always is exact |
| AuthorizationCache.HitIsExactWhileVersionHolds | backend/app/modules/authorization/service.py:42-103 | if the version asked for is still the user's when the cache answers, the hit also equals recomputation at that later moment |
| AuthorizationCache.HitIsNeverStale | backend/app/modules/authorization/service.py:42-103 | with no condition: each input of a hit is what the tables held when the version was read, or later |
| AuthorizationCache.BumpDuringFill | backend/app/modules/authorization/service.py:45-102 | for any tables before and after a commit that bumps the version: a schedule whose fill spans the commit, and whose hit under the old version equals recomputation exactly when the commit changed nothing that shows |
| AuthorizationCache.HitCanRunAhead | backend/app/modules/authorization/service.py:45-102 | a concrete run in which a hit differs from recomputation at the version read |
| AuthorizationCache.RunKeepsInv | backend/app/modules/authorization/cache.py:31-64 | with late, lost and repeated cache writes and deletions, entries and readers always hold what their queries saw, provided commits bump the versions they must (which the writers do: `CapabilityWriters.RunsBehave`) |
| CapabilityWriters.WriteBumps | backend/app/modules/identity/service.py:254-331 | every step of every writer (dealer transactions, challenges, seller profiles, sign-ups, passwords) raises the version of whoever's capability inputs it changes |
| CapabilityWriters.VerifyBumps | backend/app/modules/identity/service.py:285-303 | confirming an address changes an input of the owner's capabilities together with the owner's version, and nothing of anyone else |
| CapabilityWriters.SellBumps | backend/app/modules/profiles/service.py:123-146 | so does the creation of a seller profile |
| CapabilityWriters.FreeRowWritten | backend/app/modules/identity/service.py:292-303 | rewriting a user row nobody has locked leaves every running dealer transaction's copies current |
| CapabilityWriters.RunsBehave | backend/app/modules/authorization/service.py:39-103 | any run of all these writers with readers, deletions and expiry in between is one in which every commit bumps what it changes, and keeps both invariants |
| CapabilityWriters.HitsOfRuns | backend/app/modules/authorization/service.py:42-103 | what a hit is worth in every such run: exact if and only if its fill was consistent, and never older than the version read |
| CapabilityWriters.VerifiedByOneChallenge | backend/app/modules/identity/service.py:254-303 | an address comes to be shown verified only by spending one open challenge of that user and kind, for which no code is accepted again |
| CapabilityWriters.ChallengeWorksOnce | backend/app/modules/identity/service.py:268-275 | a spent challenge accepts no code after any run |
| CapabilityWriters.ConfirmedExactly | backend/app/modules/identity/service.py:254-303 | a code confirms an address exactly when it is the one sent, for an unspent challenge of that kind, in time, within its tries, of an account not deleted; only that address is then newly confirmed |
| CapabilityWriters.SignedUpExactly | backend/app/modules/identity/service.py:72-252 | a new account has nothing confirmed and one usable challenge per address given |
| CapabilityWriters.SellerExactly | backend/app/modules/profiles/service.py:123-167 | an active user gets a pending seller profile, once |
| CapabilityWriters.PasswordExactly | backend/app/modules/identity/session_service.py:412-495 | a new password is one version more for that user and changes no capability |
| CapabilityWriters.GuessesAreBounded | backend/app/modules/identity/service.py:273-277 | over any run and any number of callers, no more wrong codes are compared with a challenge than its limit leaves |
| CapabilityWriters.AccountServices.Verify | backend/app/modules/identity/service.py:254-303 | the challenge transaction, its refusals and the counted wrong code included |
| CapabilityWriters.AccountServices.CreateSeller | backend/app/modules/profiles/service.py:123-146 | the seller-profile transaction |
| AuthorizationCache.DealerCapabilitiesMeaning | backend/app/modules/authorization/policy.py:81-92 | a dealer capability is listed exactly for an active membership of an active user in an active, verified organization, with the role's permissions |
| AuthorizationCache.CapabilitiesExactly | backend/app/modules/authorization/policy.py:19-92 | every capability by what it takes: a private draft needs both addresses confirmed; each permission in an organization needs an active membership in a role listed for it |
| AuthorizationCache.AloneAnswersNow | backend/app/modules/authorization/service.py:39-103 | an undisturbed reader is refused exactly when inactive, takes an entry cached under the present version, and otherwise answers and caches what the tables say |
| AuthorizationCache.ForgottenIsRecomputed | backend/app/modules/authorization/cache.py:57-65 | what is dropped from the cache is recomputed by the next lone reader, and no other entry is touched |
| AuthorizationCache.RedisAuthorizationCache.Get | backend/app/modules/authorization/cache.py:31-46 | a projection exactly when Redis answers and the version matches |
| AuthorizationCache.RedisAuthorizationCache.Set | backend/app/modules/authorization/cache.py:48-55 | stores the entry, or nothing when Redis fails |
| AuthorizationCache.RedisAuthorizationCache.Invalidate | backend/app/modules/authorization/cache.py:57-65 | removes exactly the named users, or nothing when Redis fails |
| AuthorizationCache.CapabilityService.ListDealerCapabilities | backend/app/modules/authorization/service.py:64-93 | the loop over memberships builds the list of dealer capabilities |
| AuthorizationCache.CapabilityService.GetCapabilities | backend/app/modules/authorization/service.py:39-103 | refusal, hit, or recomputation from the three reads with a cache write |
| Dealers.RunKeeps | backend/app/modules/dealers/service.py:349-580 | over every interleaving of lock requests, counts, commits and crashes: running transactions' copies stay current, owners remain, versions grow |
| Dealers.EveryOrganizationKeepsAnOwner | backend/app/modules/dealers/service.py:427-580 | every organization always has an active owner, although the owner count locks nothing |
| Dealers.WriteStep | backend/app/modules/dealers/repository.py:74-87 | a commit under the organization's lock keeps every other running transaction's copies and owner counts valid |
| Dealers.EndedStaysEnded | backend/app/modules/dealers/service.py:676-699 | a left or revoked membership never changes status again |
| Dealers.StepBumps | backend/app/modules/dealers/service.py:476-490 | every step raises the authorization version of whoever's memberships it changes, which is what the capability cache relies on |
| DealerAuthority.StepIsAuthorized | backend/app/modules/dealers/service.py:203-606 | on the tables before and after any step: a membership is added or changed only by an active owner or admin of the active, verified organization, by an active owner if an owner is made or unmade, by the member leaving or accepting, or by the founder |
| DealerAuthority.ChangesAreAuthorized | backend/app/modules/dealers/service.py:203-606 | the same over every run: whatever became of a membership was done in a step by someone who may |
| DealerAuthority.OwnersAreAppointed | backend/app/modules/dealers/service.py:452-455 | over every run, whoever is newly an owner was made one in a step by an active owner of that organization, or founded it |
| DealerAuthority.UpdateExactly | backend/app/modules/dealers/service.py:409-525 | an update is made exactly when the actor manages the organization (as owner, where an owner is concerned), version and organization match, the states allow the change, and an active owner remains; the row then is as asked, one version on and stamped by the status entered |
| DealerAuthority.LeaveExactly | backend/app/modules/dealers/service.py:527-606 | one's own active membership, in the version expected, and an owner only when another active owner stays |
| DealerAuthority.AcceptExactly | backend/app/modules/dealers/service.py:339-407 | the invited user with the token of an open invitation into an active organization, in the role offered |
| DealerAuthority.InviteAlone | backend/app/modules/dealers/service.py:203-337 | the locking transaction, left alone, makes the invitation exactly when a manager (an owner, for an owner's role) invites an active user without a membership |
| DealerAuthority.CreateAlone | backend/app/modules/dealers/service.py:61-161 | an active user founds an unverified organization and is its owner |
| DealerAuthority.NoLockIsLeft | backend/app/modules/dealers/service.py:61-606 | over every run, whatever crashes, a lock belongs to a transaction still going on |
| DealerAuthority.StepLives | backend/app/modules/dealers/service.py:61-606 | a crash leaves the tables as they were and the transaction's locks free |
| Dealers.LeaveAlone | backend/app/modules/dealers/service.py:527-606 | left alone, the locking transaction comes to what the plain operation comes to |
| Dealers.UpdateAlone | backend/app/modules/dealers/service.py:409-525 | the same for a membership update |
| DealerAuthority.AcceptAlone | backend/app/modules/dealers/service.py:339-407 | the same for accepting an invitation |
| Dealers.CountOtherOwners | backend/app/modules/dealers/repository.py:74-87 | positive exactly when another active owner exists |
| Dealers.DealerService.CountOtherActiveOwners | backend/app/modules/dealers/repository.py:74-87 | the counting query |
| Dealers.DealerService.Create | backend/app/modules/dealers/service.py:61-161 | organization, owner membership and version bump, or nothing for an inactive user |
| Dealers.DealerService.Store | backend/app/modules/dealers/service.py:476-489 | one membership and the two versions that go with it |
| Dealers.DealerService.Accept | backend/app/modules/dealers/service.py:339-407 | accepts a usable invitation, else refuses |
| Dealers.DealerService.Update | backend/app/modules/dealers/service.py:409-525 | role and status changes with the transition table and the last-owner rule |
| Dealers.DealerService.Leave | backend/app/modules/dealers/service.py:527-606 | leaving with the last-owner rule |
| Outbox.BatchIsFirstDue | backend/app/core/outbox/relay.py:35-53 | a batch holds due, unlocked rows in order, and leaves out only rows after all of it, or nothing when not full |
| Outbox.LongestDueFirst | backend/app/core/outbox/relay.py:35-53 | an event picked before another due one has been due for longer, or as long and was written earlier |
| Outbox.BackoffDoublesUpTo256 | backend/app/core/outbox/relay.py:106 | delays double from 2 to 256 seconds; the cap of 300 is never reached |
| Outbox.RunKeeps | backend/app/core/outbox/relay.py:60-128 | over every run of relays, crashes, recoveries and deliveries: published implies sent and is final, envelopes are genuine, events stay in the cycle |
| Outbox.AtMostOnceEffects | backend/app/workers/consumer.py:37-55 | a consumer acts at most once per event, on sent and unaltered content, across redeliveries and crashes |
| Outbox.RedeliveryIsDuplicate | backend/app/workers/consumer.py:37-55 | delivering an envelope again after anything else does nothing |
| Outbox.NothingIsStuck | backend/app/core/outbox/relay.py:112-128 | from every reachable state each unpublished event can still be published once stale claims are recovered and a relay runs |
| OutboxPromises.WaitsItsDelay | backend/app/core/outbox/relay.py:99-110 | a failed event is left alone by every relay and recovery until its delay is over, in every run, and then is due |
| OutboxPromises.YoungClaimIsKept | backend/app/core/outbox/relay.py:112-128 | a claim not older than the recovery limit is neither taken back nor taken over, in every run in which no relay reports on the event |
| OutboxPromises.OutcomeExactly | backend/app/core/outbox/relay.py:85-110 | published for good or pending again after 2, 4, ... 256 seconds, and nothing if the event is not being published |
| OutboxPromises.RecoveredExactly | backend/app/core/outbox/relay.py:112-128 | recovery makes exactly the claims older than the limit due again |
| OutboxPromises.ClaimedExactly | backend/app/core/outbox/relay.py:35-58 | exactly the picked rows are being published since now, one attempt further on |
| OutboxPromises.DeliveredExactly | backend/app/workers/consumer.py:37-55 | a message is a duplicate exactly when it has taken effect in the run so far; otherwise it takes effect now unless the handler fails |
| Outbox.OutboxRelay.ClaimDue | backend/app/core/outbox/relay.py:35-58 | the claiming loop |
| Outbox.OutboxRelay.Work | backend/app/core/outbox/relay.py:60-110 | fetch, send, then mark published or failed with backoff |
| Outbox.OutboxRelay.RecoverStaleClaims | backend/app/core/outbox/relay.py:112-128 | the recovery update, row by row |
| Outbox.OutboxRelay.Process | backend/app/workers/consumer.py:37-55 | marker and effect together, or neither |
| Idempotency.OneEffectPerKey | backend/app/core/idempotency/repository.py:38-79 | one effect per key at most, and every replay or conflict is told by that effect |
| Idempotency.NeverInProgress | backend/app/core/idempotency/repository.py:38-79 | no reachable table answers "found, but no response yet" |
| Idempotency.AnswersForEver | backend/app/core/idempotency/repository.py:38-79 | a completed key replays its response for its payload and conflicts with any other, at any later time |
| Idempotency.AnsweredExactly | backend/app/core/idempotency/repository.py:38-79 | a request acts exactly when its key never took effect, replays the response exactly when it did for the same payload, and conflicts when it did for another; a reservation keeps its own payload and term |
| Idempotency.ActedExactly | backend/app/core/idempotency/repository.py:81-108 | a committed request has taken effect with its response; a rolled-back one leaves nothing and frees the key |
| Idempotency.RunKeeps | backend/app/core/idempotency/repository.py:38-108 | the invariant over every interleaving of requests, failures and repeats |
| Idempotency.IdempotencyRepository.ReserveKey | backend/app/core/idempotency/repository.py:38-79 | insert, conflict or replay |
| Idempotency.IdempotencyRepository.CompleteKey | backend/app/core/idempotency/repository.py:81-108 | completes only a reserved record |
| RateLimit.BackendsAgree | backend/app/modules/identity/rate_limit.py:21-27 | Redis script and SQL upsert give every request of every history the count and window end of one fixed-window counter |
| RateLimit.FewerThanTwiceTheLimit | backend/app/modules/identity/rate_limit.py:72-78 | any interval of one window length admits at most 2 * limit - 1 requests, none when the limit is zero |
| RateLimit.BoundIsReached | backend/app/modules/identity/rate_limit.py:72-78 | for every limit and every window of two seconds or more that bound is reached |
| RateLimit.SubjectsAreIndependent | backend/app/modules/identity/rate_limit.py:44-118 | whatever else a call names and wherever Redis fails, each backend counts each subject once and on its own, and a call that passes found every subject within the limit on the backend that answered |
| RateLimit.CountersOfSubject | backend/app/modules/identity/rate_limit.py:44-118 | after any history of calls each subject's counters are those of the times that subject was counted |
| RateLimit.CallsAreBounded | backend/app/modules/identity/rate_limit.py:44-78 | over any history of calls and failures a subject gets at most 2 * limit - 1 calls through per backend in any interval of one window length |
| RateLimit.PassedExactly | backend/app/modules/identity/rate_limit.py:44-78 | a call passes exactly when every subject's window count on the answering backend is within the limit, and is unavailable exactly when both fail |
| RateLimit.CountIsRecent | backend/app/modules/identity/rate_limit.py:21-27 | the count a request gets is at most the number of requests of the last window length, so nobody is held up for older ones |
| RateLimit.AuthenticationRateLimiter.CountInRedis | backend/app/modules/identity/rate_limit.py:52-66 | the Redis loop, and what is left behind when it fails part of the way |
| RateLimit.AuthenticationRateLimiter.CountInDatabase | backend/app/modules/identity/rate_limit.py:80-125 | the fallback loop |
| RateLimit.AuthenticationRateLimiter.Enforce | backend/app/modules/identity/rate_limit.py:44-78 | the call the histories are made of: Redis first, the database for all subjects if Redis fails anywhere, unavailable when both fail |
| Base64Url.StrippedRoundTrip | backend/app/modules/listings/cursors.py:34-40 | every byte string survives encoding, padding stripped, padding restored from the length, decoding |
| Base64Url.StrippedIsInjective | backend/app/modules/listings/cursors.py:34 | no two byte strings share a stripped text |
| ListingCursors.CursorRoundTrip | backend/app/modules/listings/cursors.py:25-53 | a cursor comes back as it was for the same filter until it expires, otherwise not at all |
| ListingCursors.AcceptedIsSigned | backend/app/modules/listings/cursors.py:36-59 | a text is accepted exactly when it carries signed bytes for this filter that have not expired |
| ListingPages.PageMeaning | backend/app/modules/listings/service.py:287-308 | a page is the newest rows below the cursor; it has a successor exactly when full with something left, starting right after its last row |
| ListingPages.QueryRows | backend/app/modules/listings/repository.py:84-91 | the query returns visible rows strictly below the cursor, newest first, at most the limit |
| ListingPages.WalkDescends | backend/app/modules/listings/service.py:287-308 | keys only go down as pages are followed |
| ListingPages.NothingTwice | backend/app/modules/listings/repository.py:84-91 | no listing is shown twice however rows change between pages, as long as no row's key goes back |
| ListingPages.WholeWalk | backend/app/modules/listings/service.py:287-308 | followed to the end, each listing untouched meanwhile is shown exactly once, newest first overall |
| ListingPages.ShownIsVisible | backend/app/modules/listings/repository.py:74-91 | everything a walk shows was, when its page was read, a row of the asked owner and status with the shown time and below the cursor; a row that never is one is never shown |
| ListingPages.WalkIsBounded | backend/app/modules/listings/service.py:297-307 | a walk not ended after n pages has used up n full pages of the rows that were below its cursor at the start or arrived there since |
| ListingPages.NoArrivals | backend/app/modules/listings/repository.py:84-91 | while keys do not go back and new rows are newer, nothing arrives below the cursor |
| ListingPages.ShownAgainExactly | backend/app/modules/listings/repository.py:84-91 | a row shown on a page, then written, then left alone until the walk ends is shown once more exactly when its new key lies below the last key of that page |
| ListingPages.UntouchedExactly | backend/app/modules/listings/service.py:287-308 | a walk followed to the end shows an untouched row exactly when its key is below the cursor it started from |
| ListingPages.KeyGoingBackIsShownTwice | backend/app/modules/listings/repository.py:84-91 | an instance: a row whose `updated_at` goes from 5 back to 4 between pages is shown twice |
| ListingPages.TokenLeadsToNextPage | backend/app/modules/listings/service.py:285-308 | a page asked for with the previous page's token is the page that comes next; other filter or expired means refused |

## Left out

- Request parsing, response schemas, settings, telemetry, health checks, catalogue search and geography: plumbing without a property of its own.
- Argon2, JSON, JWT, HMAC, SHA-256, image decoding and object storage: parameters or injective functions; `ListingCursors.Codec.Valid` and the injective digests say what is used of them.
- Audit rows and outbox events no property counts; texts shown to people (remediation, titles); text-length rules are single booleans.
- Statuses and columns no code writes (expired or revoked attempts, user and organization status, organization verification, vehicle status and version): covered as inputs of the pure rules and as starting states, not as steps.
- The idempotency wrapper around individual operations: modelled once, in `Idempotency.dfy`, not around each step.
- One verification provider per kind: the provider identifier that qualifies references and event ids is left out.
- Dealer-owned listings in ownership starts and submissions: refused with one code; whether the caller may see the listing first decides between two codes in the code.
- Wall-clock effects: each step reads one clock that never goes back, so commit order and time order agree; bulk updates of one transaction see one snapshot.
- Database deadlocks and the translation of integrity errors; a waiting lock request in `Dealers.dfy` waits until the row is free. The transactions of `CapabilityWriters.dfy` that lock only the user row (and a row nobody else writes) are one step, taken when the row is free.
- Bounds checks on ids inside `Dealers.dfy` transactions: they make the steps total; a row a transaction holds a copy of exists (`Current`, part of the invariant).
- Listing edits beyond version changes, and profile fields (names, localities): nothing modelled depends on them. Seller profiles are created pending and no code promotes them, so `Submission.Facts.sellerReady` is an input.
- Addresses: a challenge is tied to its user and kind; delivery of codes is not modelled, and a code is its digest.
- Stored image files of a worker that lost its claim, and whether an acknowledged queue message means the image has settled: the code does not decide either.
- Outbox.NothingIsStuck: states that publication stays possible, not that it happens; stale claims are recovered only when a relay starts.
