# A verified model of the profile-unifier's hardest logic

The repository keeps one profile per person from several source systems. This project models the parts of it
whose correctness depends on many steps or many threads, and proves what they keep:

- **Profile-analysis leases** (`Lease*.dfy`). API threads race for one Person, generate an analysis, persist it,
  publish it and release the lease. Each Cypher query is one atomic step; threads, lost threads, exceptions before
  and after a commit, revision bumps, status changes and requeues interleave freely. The application clock and
  the database clock are unrelated inputs. `LeaseSafety` says what no run does,
  `LeaseProgress` what a thread achieves whose lease holds.
- **Tenant projection** (`ProjectionRecords`, `ReleaseContract`, `ReleaseJoin`, `Materializer*.dfy`). The release
  validator with its dictionaries and counters against a relational specification, the join it stands for, and
  the materializer that drives an untrusted paging repository, with the calls it makes in `MaterializerCalls`.
- **Known-owner refresh** (`RefreshRecords`, `KnownOwnerRefresh`). A batched loop with a stored cursor, coverage
  rows and counters, interrupted and resumed any number of times.
- **Point-in-time deal labels** (`StageTimeline`, `Gate*.dfy`). Episode detection, both label selectors, their
  thirty-day horizon, the evidence cutoff, and keyset pagination. `GateEvidence` says what each published label
  states in terms of its parent's evidence alone.
- **Canonical forms** (`IdentityLinkKey`, `IdentityLinkBatch`, `ContactAlias`, `RedactedSnapshot`,
  `SnapshotCanon`, `SnapshotEvidence`, `MembershipNormalizer`). Identity keys, append batches, aliases, redacted
  snapshots and company membership snapshots.
- **Small step systems** (`HeadCas`, `DisconnectPump`). The forward-only head and the disconnect pump.

`Common`, `Sequences`, `Sorting` and `Text` hold what several of them share: Python's stable `sorted`, string
order, stripping and decimal numerals. Code that changes state step by step is modelled by methods on classes or
by loops, each proved against a specification function or predicate; the theorems are about those. Digests are
injective, so a record stands for its digest; instants are integers; numbers in the redacted snapshot are their
printed text. Verify with `dafny verify dfyconfig.toml`.

## Findings

What the code does where a reader might expect otherwise, with the member that states it.

- The release validator never sees the mapping manifest. It guarantees that every association is witnessed by a
  frozen membership and an entry carrying the release's revision identity; it does not check that the manifest
  maps the company to the entity, nor that every joined pair is present (`ReleaseJoin.AcceptedCanInventAPair`,
  `ReleaseJoin.AcceptedCanOmitAPair`). Support by support the pairs are joined ones exactly when the manifest backs
  them (`ReleaseJoin.BackedExactlyWhenJoined`), and then every pair is present exactly when the counts agree
  (`ReleaseJoin.CompleteExactlyByCount`). An association can be in the join beside an unbacked support
  (`ReleaseJoin.UnbackedSupportInsideJoin`); exactly when is `ReleaseJoin.AssociationIsJoinedExactly`.
- The single-deal lookup of the refresh does not compare the returned identity with the requested one, unlike the
  batch lookup. A unit given another deal commits and loses the books (`RefreshRecords.AnotherDealLosesTheBooks`);
  over any interrupted and resumed run they are kept exactly when the recorded deals are the requested ones
  (`RefreshRecords.UnitKeepsBooksExactlyForItsDeal`, `KnownOwnerRefresher.Refresher.RefreshWithRestarts`).
- A stop request is raised inside the unit's transaction, which rolls back, although the message says that the
  unit was committed (`services/ingestion/src/bitrix_backfill_runtime.py:85-86`). The model follows the code:
  `KnownOwnerRefresher.Refresher.CommitUnit` leaves an aborted unit's books as they were.
- A retirement names its causes after entity type and entity identity, so of two heads that differ only in source
  instance one is dropped (`IdentityLinkBatch.RetirementDropsATwin`). It keeps every head exactly when no two share
  both (`IdentityLinkBatch.RetirementKeepsEveryHeadExactly`); merges have no such case.
- The two label selectors differ for a deal that was won, reopened and won again within the horizon
  (`GateVerdicts.SelectorsDifferForAReopenedDeal`). On entries both find eligible, at a cutoff past the horizon, where
  the entry was available when it happened and all events of the deal are available by the cutoff, they differ
  exactly for such deals (`GateVerdicts.SelectorsAgreeUnlessWonBefore`).
- A claim refused because its request is no longer active still writes the epoch into an empty lease end
  (`LeaseQueries.RefusedClaimOfAFailedRequest`); exactly which refused claims write is
  `LeaseQueries.RefusedClaimWritesExactly` and, from the epoch on, `LeaseQueries.RefusedClaimWritesForTerminalRequests`.
- The materializer does not compare the identity of a page's release with that of the page before, so a page can
  turn the run to another release (`MaterializerProgress.PageCanChangeTheIdentity`). All calls name the release the
  run started from exactly when every accepted release carries its identity
  (`MaterializerProgress.CallsKeepTheIdentityExactly`).
- Which message a set of company payloads is refused with can depend on their order
  (`MembershipNormalizer.OrderNamesTheMessage`); it does not exactly when the subject is at fault or the payloads
  have one kind of fault (`MembershipNormalizer.RejectionIsDeterminedExactly`).

Keyset pagination by event identity alone is exact because the store keeps identities unique within a mapping
version (`infra/neo4j/init.cypher:259-261`); `GatePaging.PagedEvidence` states the result for such stores, and
`GatePaging.ScanIsExact` what the loop does without the constraint.

## Model

| member | source | states |
|---|---|---|
| LeaseQueries.ClaimHasOneDue | services/api/src/profile_analysis_repository.py:256-264 | a successful claim row names exactly one due analysis, numbered one past the history of its type and revision |
| LeaseQueries.FencedCalls | services/api/src/profile_analysis_runtime_queries.py:5-21 | without the token in force, release, renew and complete change nothing and persist adds only an obsolete row and the last-attempt time |
| LeaseQueries.ClaimSucceedsExactly | services/api/src/profile_analysis_runtime_queries.py:429-441 | a claim returns a row exactly for a queued or running request of an active Person whose lease end is absent, the reading being from the epoch on, or reached |
| LeaseQueries.ClaimTakesTheLease | services/api/src/profile_analysis_runtime_queries.py:442-475 | a claim with a row takes the lease to the end asked for, runs its request at the Person's revision and names the one analysis due |
| LeaseQueries.ClaimRetiresTheOthers | services/api/src/profile_analysis_runtime_queries.py:450-461 | of the other requests a claim retires the queued and running ones of its request's type and no others |
| LeaseQueries.RowsAreCounted | services/api/src/profile_analysis_runtime_queries.py:463-474 | the rows an attempt is numbered past are the history rows of its type and revision, whatever their status |
| LeaseQueries.OwnerReleases | services/api/src/profile_analysis_runtime_queries.py:5-11 | releasing ends the caller's own lease |
| LeaseQueries.OwnerRenewsExactly | services/api/src/profile_analysis_runtime_queries.py:14-21 | renewing moves the end of the caller's own lease exactly for an active Person at the claimed revision |
| LeaseQueries.PersistSaysExactly | services/api/src/profile_analysis_runtime_queries.py:341-427 | an attempt keeps its status exactly under the caller's own unexpired lease at the Person's revision; its row is appended either way, the pointer moves exactly for a kept success, the last attempt's time never goes back |
| LeaseQueries.CompleteSaysExactly | services/api/src/profile_analysis_runtime_queries.py:477-485 | completing sets the status of a running request under the caller's own lease and nothing else |
| LeaseQueries.ObsoleteInactiveSaysExactly | services/api/src/profile_analysis_runtime_queries.py:487-494 | only a queued request of a Person that is not active is retired without a claim |
| LeaseGraph.ProfileAnalysisGraph.ReleaseClaim | services/api/src/profile_analysis_repository.py:211-220 | the node after a release is the release query's, and the answer says whether the lease was held; the Person's invariant is kept |
| LeaseGraph.ProfileAnalysisGraph.RenewClaim | services/api/src/profile_analysis_repository.py:222-240 | the node after a renewal is the renew query's: owner, active Person and revision must all agree; the Person's invariant is kept |
| LeaseGraph.ProfileAnalysisGraph.PersistOneAttempt | services/api/src/profile_analysis_repository.py:185-209 | the node and the recorded status after an attempt are the persist or publish query's; for a thread that knows its claim the Person's invariant is kept and a recorded success is published |
| LeaseGraph.ProfileAnalysisGraph.DropPointers | services/api/src/profile_analysis_runtime_queries.py:411-418 | exactly the current pointers of the published type are removed |
| LeaseGraph.ProfileAnalysisGraph.ClaimRequest | services/api/src/profile_analysis_runtime_queries.py:429-475 | the node and the row after a claim are the claim query's, a refused claim writing the epoch into an empty lease end, and the Person's invariant is kept |
| LeaseGraph.ProfileAnalysisGraph.ObsoleteDuplicates | services/api/src/profile_analysis_runtime_queries.py:453-461 | every other active request of the claimed request's type is retired and no other request is touched |
| LeaseGraph.ProfileAnalysisGraph.CountHistory | services/api/src/profile_analysis_runtime_queries.py:463-474 | the number of history rows of one type and revision |
| LeaseGraph.ProfileAnalysisGraph.CompleteRequest | services/api/src/profile_analysis_repository.py:267-285 | the node after completion is the complete query's: only a running request, only under the lease; the Person's invariant is kept |
| LeaseGraph.ProfileAnalysisGraph.ObsoleteInactiveRequest | services/api/src/profile_analysis_repository.py:287-294 | only a queued request of an inactive Person becomes obsolete; the Person's invariant is kept |
| LeaseGraph.ProfileAnalysisGraph.RequestIsWaiting | services/api/src/profile_analysis_runtime_queries.py:496-502 | a request is waiting exactly when it is queued and its Person active; then a claim is refused exactly while the lease lasts, and otherwise the retirement query leaves it not queued |
| LeaseQueries.WaitingIsBlockedByTheLease | services/api/src/profile_analysis_runtime_queries.py:429-441 | a request that is waiting is refused to a claim exactly while the Person's lease end lies ahead |
| LeaseQueries.NotWaitingEndsTheRequest | services/api/src/profile_analysis_runtime_queries.py:487-501 | a request reported as not waiting is not left queued by the retirement of inactive requests |
| LeaseQueries.RefusedClaimWritesExactly | services/api/src/profile_analysis_runtime_queries.py:435-441 | a refused claim leaves the node alone exactly when the Person is inactive, does not own the request or has a lease end |
| LeaseQueries.RefusedClaimWritesForTerminalRequests | services/api/src/profile_analysis_runtime_queries.py:435-441 | for clock readings from the epoch on, a claim without a row changes the node exactly for a terminal request of an active Person without a lease end |
| LeaseQueries.RefusedClaimOfAFailedRequest | services/api/src/profile_analysis_runtime_queries.py:435-441 | the refused claim of a failed request writes the epoch into an empty lease end |
| LeaseInvariant.OthersKeep | services/api/src/profile_analysis_service.py:26-91 | what one thread's token changes leaves every other thread's knowledge valid |
| LeaseInvariant.NextNumberStays | services/api/src/profile_analysis_runtime_queries.py:462-474 | the attempt number fixed at claim time stays larger than every counted number while stale threads add obsolete rows |
| LeaseInvariant.PublishKeepsCurrent | services/api/src/profile_analysis_runtime_queries.py:389-423 | publishing leaves one pointer per type and points it at the newest success |
| LeaseInvariant.PersistKeeps | services/api/src/profile_analysis_runtime_queries.py:341-427 | an attempt of a thread that knows its claim keeps the Person's invariant |
| LeaseInvariant.ClaimKeeps | services/api/src/profile_analysis_runtime_queries.py:429-475 | a claim keeps the Person's invariant whatever requests were active |
| LeaseSteps.WorkerStepKeeps | services/api/src/profile_analysis_service.py:42-91 | each step of a thread keeps the Person's invariant and the thread's own, through every exception path |
| LeaseSteps.OutsideKeeps | services/api/src/profile_analysis_runtime_queries.py:439-461 | revision bumps, status changes and new requests keep every thread's invariant |
| LeaseSteps.StepKeepsInv | services/api/src/profile_analysis_service.py:26-91 | every event of any thread or of the environment keeps the global invariant |
| LeaseSteps.RunKeepsInv | services/api/src/profile_analysis_service.py:26-91 | the invariant holds after every run, with no relation between the two clocks assumed |
| LeaseSafety.LeaseFencing | services/api/src/profile_analysis_runtime_queries.py:5-21 | once a token has lost the lease, after any further events it never owns it again and its thread adds at most one obsolete row and the last-attempt time |
| LeaseSafety.PublishOnlyUnderLease | services/api/src/profile_analysis_runtime_queries.py:381-427 | the current pointers change only by a success persisted under the current, unexpired token at the revision it claimed |
| LeaseSafety.CurrentPointers | services/api/src/profile_analysis_runtime_queries.py:409-423 | in every reachable state a type has at most one current pointer and it targets its newest succeeded analysis |
| LeaseSafety.CurrentNeverGoesBack | services/api/src/profile_analysis_runtime_queries.py:389-423 | if the revision never decreases, successive current analyses of a type never have older revisions |
| LeaseSafety.HistoryIsAppendOnly | services/api/src/profile_analysis_runtime_queries.py:357-374 | history rows are never changed or removed |
| LeaseSafety.AttemptNumbersIncrease | services/api/src/profile_analysis_runtime_queries.py:462-474 | numbers of non-obsolete attempts of one type and revision strictly increase over every run, and a claim records at most one row |
| LeaseSafety.SucceededMeansPublished | services/api/src/profile_analysis_service.py:57-66 | a request ends succeeded only if its own claim published a succeeded analysis of its type |
| LeaseSafety.AtMostOneRunningPerType | services/api/src/profile_analysis_runtime_queries.py:443-461 | at most one request of a type is running |
| LeaseSafety.TerminalStatusStays | services/api/src/profile_analysis_runtime_queries.py:477-494 | a terminal status changes under no modelled event except an operator's requeue |
| LeaseSafety.FinishedThreadsHoldNothing | services/api/src/profile_analysis_service.py:80-90 | a thread that has returned or raised no longer owns the lease, unless its claim or its last release raised |
| LeaseSafety.CompletionMatchesTheRecord | services/api/src/profile_analysis_service.py:57-66 | the status a thread completes with is the status of the one attempt it recorded |
| LeaseProgress.OneThreadAnalyses | services/api/src/profile_analysis_service.py:26-72 | a thread left alone claims, renews, generates, renews, persists, completes and releases: its row, its request's status, the pointer for a success and the freed lease, for a text and a failure, with the lease still running at the persist call or not |
| LeaseProgress.OneThreadRecordsAFailure | services/api/src/profile_analysis_worker.py:144-163 | a thread left alone with a snapshot that cannot be analysed renews, records one failed attempt and completes and releases likewise |
| LeaseProgress.RefusedThreadWaitsOrLeaves | services/api/src/profile_analysis_service.py:107-133 | a refused thread claims again exactly while its request is queued for an active Person, and otherwise retires it and returns without a lease or a row |
| LeaseProgress.BadSettingFails | services/api/src/profile_analysis_worker.py:82-82 | a lease setting that is no positive time fails the request and gives the lease up before anything is done |
| LeaseProgress.SurpriseFails | services/api/src/profile_analysis_service.py:56-90 | anything but one attempt without unexpected failures fails the request and gives the lease up |
| LeaseProgress.RefusedRenewalEndsTheWork | services/api/src/profile_analysis_worker.py:135-143 | a renewal ends the work on the claim exactly when it raises, the token is not the owner's, the Person is not active or the revision has moved |
| LeaseProgress.ExceptionsAreSurprises | services/api/src/profile_analysis_worker.py:95-104 | every exception inside the work counts as one unexpected failure and ends it |
| LeaseProgress.SecondRenewalStopsNothing | services/api/src/profile_analysis_worker.py:179-189 | the persist call follows the second renewal whatever it answered |
| LeaseProgress.RaisedBeforeTheClaim | services/api/src/profile_analysis_service.py:41-45 | a call that raises before the claim is known leaves the thread raised, its Person unchanged unless the transaction had committed |
| LeaseProgress.RaisedCallsCommitOrNot | services/api/src/profile_analysis_service.py:26-91 | a call that raised has changed the Person as the answered call would exactly when its transaction had committed |
| LeaseProgress.ReleaseReturns | services/api/src/profile_analysis_service.py:64-72 | an answered release ends the thread's own lease and counts it, finds another's untouched, and the summary is returned |
| LeaseProgress.OtherEventsSay | services/api/src/profile_analysis_service.py:26-41 | between calls a thread starts under a token never used or is lost, the Person's revision or status is set, a new request is queued, or a failed one is queued again |
| LeaseProgress.RaisedAtTheEnd | services/api/src/profile_analysis_service.py:57-90 | a raise while completing or releasing leads through the except branch to the final release |
| LeaseProgress.LeaseChangesHandsAtItsEnd | services/api/src/profile_analysis_runtime_queries.py:435-447 | over every run a held lease passes to another token only by a claim whose reading has reached the lease's end, for a queued or running request of an active Person, and ends when that claim asked |
| LeaseProgress.LeaseIsItsOwners | services/api/src/profile_analysis_runtime_queries.py:5-21 | over every run only its owner gives a lease up, by releasing it, or moves its end, by renewing |
| ReleaseContract.IndexBy | services/ingestion/src/crm_tenant_projection_release_contracts.py:162-163 | a dictionary by key has as many entries as items exactly when no key repeats |
| ReleaseContract.FullIndex | services/ingestion/src/crm_tenant_projection_release_contracts.py:162-164 | with as many entries as items the dictionary is the items, read by key |
| ReleaseContract.ValidateRelease | services/ingestion/src/crm_tenant_projection_release_contracts.py:161-263 | the validator accepts exactly the releases that meet the relational specification, and every rejection names a clause the release violates |
| ReleaseContract.ValidateHeader | services/ingestion/src/crm_tenant_projection_release_contracts.py:69-82 | scopes, mapping revision state and release number, each error with its cause |
| ReleaseContract.ValidateInputs | services/ingestion/src/crm_tenant_projection_release_contracts.py:161-176 | inputs are unique, of this release and from the frozen boundary, which a completed release covers exactly |
| ReleaseContract.ValidateDecisionKeys | services/ingestion/src/crm_tenant_projection_release_contracts.py:177-181 | exactly one decision an input, of this release |
| ReleaseContract.ValidateLinks | services/ingestion/src/crm_tenant_projection_release_contracts.py:190-208 | associations and supports are unique and of this release |
| ReleaseContract.CountAssociations | services/ingestion/src/crm_tenant_projection_release_contracts.py:209-218 | every association names an input of the release and its subject, and the counters say which inputs have any |
| ReleaseContract.ValidateSupports | services/ingestion/src/crm_tenant_projection_release_contracts.py:219-239 | every support proves its association from the frozen head and this mapping revision, and every association has one |
| ReleaseContract.ValidateOutcomes | services/ingestion/src/crm_tenant_projection_release_contracts.py:244-263 | the outcomes are the ones emptiness and association counts allow |
| ReleaseContract.ViolationRejects | services/ingestion/src/crm_tenant_projection_release_contracts.py:161-263 | a release with any reported violation does not meet the specification |
| ReleaseJoin.LookUpTargets | services/ingestion/src/crm_tenant_mapping_contracts.py:191-197 | the targets of a company are those of its entry, none for a company without one |
| ReleaseJoin.AcceptedAssociationIsWitnessed | services/ingestion/src/crm_tenant_projection_release_contracts.py:219-239 | every accepted association has a company in its subject's frozen membership and an entry of the release's revision mapping it to the entity |
| ReleaseJoin.BackedExactlyWhenJoined | services/ingestion/src/crm_tenant_projection_release_contracts.py:219-239 | in an accepted release the manifest backs every support exactly when each is a joined pair of its own: its subject's frozen head holds its binding and the manifest maps that binding's company to the entity |
| ReleaseJoin.AcceptedIsInsideJoin | services/ingestion/src/crm_tenant_projection_records.py:223-236 | if the manifest backs every support, every accepted association is in the join of boundary and manifest |
| ReleaseJoin.AuthenticIsBacked | services/ingestion/src/crm_tenant_projection_records.py:223-236 | a support that carries the manifest's own entry and proves its own association is backed |
| ReleaseJoin.AssociationIsJoinedExactly | services/ingestion/src/crm_tenant_projection_release_contracts.py:219-239 | an accepted association is in the join exactly when one of its supports is backed or a binding that no support of it uses joins the pair |
| ReleaseJoin.UnbackedSupportInsideJoin | services/ingestion/src/crm_tenant_projection_release_contracts.py:219-239 | an accepted release inside the join one of whose supports is unbacked, another company backing the association |
| ReleaseJoin.OutcomeIsDetermined | services/ingestion/src/crm_tenant_projection_release_contracts.py:244-263 | membership emptiness and the presence of associations determine decision and reason |
| ReleaseJoin.CoveringReleaseCountsSubjects | services/ingestion/src/crm_tenant_projection_release_contracts.py:172-179 | completed and published releases have one input and one decision for every boundary subject |
| ReleaseJoin.JoinAssociation | services/ingestion/src/crm_tenant_projection_release_contracts.py:209-218 | the join's associations are exactly the mapped pairs of each frozen head, each with a support |
| ReleaseJoin.JoinOutcome | services/ingestion/src/crm_tenant_projection_release_contracts.py:244-263 | the outcome the join gives a head is the one the validator demands |
| ReleaseJoin.JoinIsAccepted | services/ingestion/src/crm_tenant_projection_release_contracts.py:161-263 | the release that materialises the join is accepted exactly when its header is in order, associates exactly the joined pairs and is backed throughout |
| ReleaseJoin.CompleteExactlyByCount | services/ingestion/src/crm_tenant_projection_release_contracts.py:161-263 | an accepted release whose supports the manifest backs holds every joined pair exactly when it has as many associations as the join |
| ReleaseJoin.AcceptedCanOmitAPair | services/ingestion/src/crm_tenant_projection_release_contracts.py:185-241 | an accepted completed release that omits a joined pair |
| ReleaseJoin.AcceptedCanInventAPair | services/ingestion/src/crm_tenant_projection_release_contracts.py:232-238 | an accepted release whose association no manifest entry backs |
| Materializer.Repository.Materialize | services/ingestion/src/crm_tenant_projection_materializer.py:33-88 | whenever the run that the replies determine ends, the method ends with its outcome and its calls |
| Materializer.Repository.DrivePages | services/ingestion/src/crm_tenant_projection_materializer.py:47-71 | the two loops leave the last accepted release for the failure record, with the calls and the outcome of the run |
| Materializer.Repository.TakePage | services/ingestion/src/crm_tenant_projection_materializer.py:48-58 | one page call and its judgement extend the run by one step |
| MaterializerProgress.PageIsAccepted | services/ingestion/src/crm_tenant_projection_materializer.py:96-194 | a page is accepted exactly when it is building and advances count and cursor within its phase, or hands over to the next phase without regress |
| MaterializerProgress.CursorsRead | services/ingestion/src/crm_tenant_projection_materializer.py:171-194 | a cursor moves on by appearing or coming later, and goes back by vanishing or coming earlier, contacts before leads and then by number |
| MaterializerProgress.RegressionReads | services/ingestion/src/crm_tenant_projection_materializer.py:148-168 | what a page must not take back in either phase |
| MaterializerProgress.RunOnlyAdvances | services/ingestion/src/crm_tenant_projection_materializer.py:96-194 | over any part of any run, bounded or not, the phase never goes back and within a phase count and cursor strictly advance between any two accepted pages |
| MaterializerProgress.PagesAreBounded | services/ingestion/src/crm_tenant_projection_materializer.py:47-70 | with bounded counts a run ends, and at most the remaining inputs plus one capture pages and the remaining decisions plus one projection pages are accepted |
| MaterializerProgress.BoundIsReached | services/ingestion/src/crm_tenant_projection_materializer.py:59-70 | for all input and decision counts a repository that takes as many pages as the bound allows |
| MaterializerProgress.RunsExtend | services/ingestion/src/crm_tenant_projection_materializer.py:47-71 | following a run further only extends its calls and its accepted releases, and a run that has ended stays as it is |
| MaterializerProgress.CallsFollowReleases | services/ingestion/src/crm_tenant_projection_materializer.py:48-71 | each call is the one the last accepted release calls for, and the failure record comes last |
| MaterializerProgress.CallsKeepTheIdentityExactly | services/ingestion/src/crm_tenant_projection_materializer.py:48-71 | all calls of a run name the release it started from exactly when every accepted release carries its identity |
| MaterializerProgress.PageCanChangeTheIdentity | services/ingestion/src/crm_tenant_projection_materializer.py:96-145 | a run in which a page hands over to another release, which is then completed |
| MaterializerProgress.RunAcceptsReplies | services/ingestion/src/crm_tenant_projection_materializer.py:47-70 | the accepted releases are the replies in order |
| MaterializerProgress.RunEnds | services/ingestion/src/crm_tenant_projection_materializer.py:53-71 | a run ends with the completion reply, a failure of the same phase, the exception raised, a cancellation, or an integrity error for a wrong page |
| MaterializerProgress.FailsExactlyOnce | services/ingestion/src/crm_tenant_projection_materializer.py:72-88 | after allocation every exception except cancellation is recorded exactly once, with its code, for the last accepted release |
| MaterializerProgress.TerminalReplayIsReadOnly | services/ingestion/src/crm_tenant_projection_materializer.py:37-39 | a terminal release is returned unchanged with no call but the allocation, and only then |
| MaterializerProgress.MaterializationOnlyAdvances | services/ingestion/src/crm_tenant_projection_materializer.py:33-88 | the accepted releases of any part of a materialisation form an advancing chain |
| MaterializerProgress.MaterializationEnds | services/ingestion/src/crm_tenant_projection_materializer.py:33-88 | with bounded counts a materialisation ends within a bounded number of accepted releases |
| MaterializerCalls.DriveMakesItsCalls | services/ingestion/src/crm_tenant_projection_materializer.py:47-71 | of every part of a run the i-th page call is a capture, a projection or the completion exactly as the release accepted before it is in that phase, with its identity, its fingerprint and the limit; a failure comes last, with the code of its exception class |
| MaterializerCalls.RunMakesItsCalls | services/ingestion/src/crm_tenant_projection_materializer.py:33-88 | every materialisation, whole or cut short, allocates, prepares the boundary before any page, makes one call for each accepted release by its phase, and records a failure at the end exactly for an exception other than cancellation |
| MaterializerCalls.CallsAreInOrder | services/ingestion/src/crm_tenant_projection_materializer.py:37-71 | capture pages precede projection pages, the completion follows both, and a failure is last |
| RefreshRecords.CountsAreOfTheirRows | services/ingestion/src/graph/queries/bitrix_backfill.py:288-300 | each count of a reconciliation is the number of the rows that have its disposition |
| RefreshRecords.EveryRowIsAccounted | services/ingestion/src/bitrix_backfill_models.py:119-128 | the eight disposition counts add up to the coverage rows |
| RefreshRecords.CompleteExactlyWhenBalanced | services/ingestion/src/bitrix_backfill_models.py:117-138 | reconciliation is complete exactly when the counters have not drifted from the rows and no row is a conflict or a failure |
| RefreshRecords.PhaseStartsAccounted | services/ingestion/src/bitrix_backfill_models.py:251-268 | the refresh starts with its books kept exactly when no refresh row exists |
| RefreshRecords.PendingIsTheRest | services/ingestion/src/bitrix_deal_scope_reconciliation.py:73-82 | what a resumed run takes up is exactly the membership behind the visited deals |
| RefreshRecords.NextUnitIsAccounted | services/ingestion/src/bitrix_backfill_runtime.py:36-84 | the next unit cannot conflict, adds one row, moves the cursor to it and keeps every counter equation |
| RefreshRecords.ReplayDrifts | services/ingestion/src/graph/queries/bitrix_backfill.py:231-276 | recording a stored row again moves the counters without a new row |
| RefreshRecords.TwoMissesConfirm | services/ingestion/src/graph/bitrix_deal_scope.py:239-260 | from a deal last seen one miss confirms nothing, and a second makes it indeterminate |
| RefreshRecords.MissesOnlyConfirm | services/ingestion/src/graph/bitrix_deal_scope.py:239-260 | further misses lengthen the streak of a deal whose absence stays confirmed; it is confirmed by two misses or an indeterminate state and not otherwise |
| RefreshRecords.CompleteAddsUp | services/ingestion/src/bitrix_backfill_models.py:117-138 | in a complete reconciliation the checkpoint's counters add up to the coverage rows |
| RefreshRecords.UnitKeepsBooksExactlyForItsDeal | services/ingestion/src/bitrix_deal_scope_reconciliation.py:149-174 | a committed unit keeps rows, cursor and counters in agreement exactly when the recorded deal is the requested one |
| RefreshRecords.AnotherDealLosesTheBooks | services/ingestion/src/bitrix_deal_scope_reconciliation.py:149-174 | asked for the first of two deals and given the second, the unit commits and its row is not the next one's |
| KnownOwnerRefresher.CommitProgresses | services/ingestion/src/bitrix_backfill_runtime.py:36-84 | the unit transaction extends coverage, cursor and counters together |
| KnownOwnerRefresher.UnitFollows | services/ingestion/src/bitrix_deal_scope_reconciliation.py:89-132 | a committed unit goes on agreeing with what was asked exactly when the recorded deal is the one asked for, and books once lost stay lost |
| KnownOwnerRefresher.SettlementSays | services/ingestion/src/bitrix_deal_scope_reconciliation.py:110-131 | a deal settles exactly with a category that is not included or has an entity, and its row keeps what was observed with the scope, entity and disposition the category and the ingestion call for |
| KnownOwnerRefresher.SettledUnitIsRight | services/ingestion/src/bitrix_deal_scope_reconciliation.py:89-131 | a settled unit's deal came from the source as asked, and its row and scope are the ones its category calls for |
| KnownOwnerRefresher.ConflictIsMisgiven | services/ingestion/src/bitrix_backfill_runtime.py:36-84 | another outcome is found under a deal's key only if the source gave some deal where another was asked for |
| KnownOwnerRefresher.Refresher.constructor | services/ingestion/src/bitrix_backfill_models.py:251-268 | the phase begins with an empty cursor and nothing visited |
| KnownOwnerRefresher.Refresher.CommitUnit | services/ingestion/src/bitrix_backfill_runtime.py:16-86 | a unit commits scope, row and checkpoint together or nothing; it fails exactly when its transaction aborts or another outcome is stored |
| KnownOwnerRefresher.Refresher.RecordHealthyNotFound | services/ingestion/src/graph/bitrix_deal_scope.py:224-263 | one miss lengthens the streak of a known deal in its own transaction; the second makes it indeterminate |
| KnownOwnerRefresher.Refresher.ConfirmMissing | services/ingestion/src/bitrix_deal_scope_reconciliation.py:149-174 | after the deadline nothing is done; an absence is reported after one recorded miss that confirms it, or after a second lookup that missed too and a second recorded miss; the unconfirmed branch is never reached |
| KnownOwnerRefresher.Refresher.SettleDeal | services/ingestion/src/bitrix_deal_scope_reconciliation.py:110-132 | a deal is in scope exactly when its category is included; a missing category or mapping, and nothing else, raises its error before writing; under a generation the stored row keeps the deal and has the entity and disposition called for |
| KnownOwnerRefresher.Refresher.Find | services/ingestion/src/bitrix_deal_scope_reconciliation.py:90-109 | the deal is the one the batch gave or else the second lookup; otherwise it is absent, confirmed, or the deadline, the source or the store raised |
| KnownOwnerRefresher.Refresher.RefreshUnit | services/ingestion/src/bitrix_deal_scope_reconciliation.py:89-132 | the unit commits the deal found, or the one a second lookup gave, or changes nothing but absence streaks; it keeps the books unless it records another deal than the one asked for |
| KnownOwnerRefresher.Refresher.RequestBatch | services/ingestion/src/bitrix_deal_scope_reconciliation.py:83-88 | an answered batch covers exactly the requested deals as the source answered them; each error exactly for its cause |
| KnownOwnerRefresher.Refresher.RefreshBatch | services/ingestion/src/bitrix_deal_scope_reconciliation.py:83-132 | a batch asks for its deals in order and counts each as its row says, as long as the recorded deals are those asked for |
| KnownOwnerRefresher.Refresher.Refresh | services/ingestion/src/bitrix_deal_scope_reconciliation.py:59-140 | whatever interrupts it, an attempt keeps the books and undoes nothing exactly when every recorded deal is the one asked for; an attempt that returns has counted as refreshed the deals of included categories and as moved all others, and refuses a membership over the row ceiling before it starts; any other exception is one the outside or the deals of the source call for |
| KnownOwnerRefresher.Refresher.RefreshWithRestarts | services/ingestion/src/bitrix_deal_scope_reconciliation.py:59-140 | where the outside cooperates and every deal is found as asked and settles, a run returns exactly below the row ceiling; over any number of interrupted attempts the books are kept exactly when the recorded deals are those asked for, which lookups that return the deal asked for ensure; then a run that returns leaves one row a membership deal, each with the scope, entity and disposition its category and ingestion call for, and reconciliation complete exactly when it started balanced and no conflict or failure was recorded |
| StageTimeline.EntriesAreWhereEpisodesOpen | services/api/src/sales_prediction_gate_labels.py:164-171 | an event is an entry exactly when it is open and the event before it in its timeline is not |
| StageTimeline.TimelineIsInOrder | services/api/src/sales_prediction_gate_labels.py:163-164 | a timeline is its parent's events by time, head version and identity |
| StageTimeline.EntriesAreInOrder | services/api/src/sales_prediction_gate_labels.py:163-171 | the entries come by parent, and those of one parent by time, head version and identity |
| StageTimeline.GroupByParent | services/api/src/sales_prediction_gate_labels.py:159-161 | the groups are the events of each parent in input order |
| StageTimeline.EntriesInTimeline | services/api/src/sales_prediction_gate_labels.py:164-171 | the loop collects the entries of one timeline |
| StageTimeline.IterateOpenEntries | services/api/src/sales_prediction_gate_labels.py:155-172 | entries of all parents, parents in order, timelines sorted by event order |
| GateLabels.BuildLabels | services/api/src/sales_prediction_gate_labels.py:175-200 | the published list is the labels of the entries, sorted by entity, snapshot and reason |
| GateVerdicts.SelectsTheOnlyAvailableVersion | services/api/src/sales_prediction_gate_labels.py:267-287 | a version is selected exactly when it is the only one available at the snapshot |
| GateVerdicts.LastKnownIsGreatest | services/api/src/sales_prediction_gate_labels.py:300-308 | the state known is that of an event no known event follows |
| GateVerdicts.LatestAmountIsGreatest | services/api/src/sales_prediction_gate_retrospective.py:166-182 | no eligible version was observed after the one that carries the amount |
| GateVerdicts.FirstWinIsTheOnlyChance | services/api/src/sales_prediction_gate_labels.py:257-258 | the first win falls in the horizon exactly when some win does and none came before the snapshot |
| GateVerdicts.OperationalStatusesExactly | services/api/src/sales_prediction_gate_labels.py:203-264 | when an operational label is positive, negative, unknown or an unavailable win, as conditions on the evidence |
| GateVerdicts.RetrospectiveStatusesExactly | services/api/src/sales_prediction_gate_retrospective.py:69-137 | when a retrospective label is positive, negative or unknown, as conditions on the evidence |
| GateVerdicts.SelectorsAgreeUnlessWonBefore | services/api/src/sales_prediction_gate_retrospective.py:127-137 | on an entry both selectors find eligible, available when it happened, at a cutoff past its horizon by which all its events are available, the two agree exactly unless it was won before and again in the horizon |
| GateVerdicts.SelectorsDifferForAReopenedDeal | services/api/src/sales_prediction_gate_retrospective.py:127-137 | a deal won, reopened and won again: negative under one selector, positive under the other |
| GateEvidence.OperationalLabelSays | services/api/src/sales_prediction_gate_labels.py:203-297 | every field of an operational label, read off its own parent's evidence: the one version in force among all versions, the linked person, the events known, the first win and the cutoff |
| GateEvidence.RetrospectiveLabelSays | services/api/src/sales_prediction_gate_retrospective.py:69-182 | every field of a retrospective label, read off its own parent's evidence: the live versions and the one entity they carry, the last version observed, the events that had happened and the wins in the horizon |
| GateEvidence.SelectionIsSole | services/api/src/sales_prediction_gate_labels.py:184-197 | a version is selected exactly when it is the only one of its parent in force, whatever the versions of other parents |
| GateEvidence.LiveEntityIsKey | services/api/src/sales_prediction_gate_retrospective.py:148-157 | the entity is resolved exactly to the key that every live version of the parent carries |
| GateEvidence.LiveLinkIsPerson | services/api/src/sales_prediction_gate_retrospective.py:160-163 | the label is person-linked exactly when the live versions link one person, who is active |
| GateEvidence.AmountIsLastObserved | services/api/src/sales_prediction_gate_retrospective.py:166-182 | the amount is carried by a version that no version observed by the snapshot follows |
| GateEvidence.StateKnownExactly | services/api/src/sales_prediction_gate_labels.py:300-308 | the state known at a snapshot is that of the last event that had happened and was available |
| GateEvidence.StateHappenedExactly | services/api/src/sales_prediction_gate_retrospective.py:112-113 | in hindsight it is that of the last event that had happened |
| GateEvidence.LabelsAreInOrder | services/api/src/sales_prediction_gate_labels.py:200-200 | the published labels come by entity, snapshot and reason |
| GateEvidence.PublishedLabelsSay | services/api/src/sales_prediction_gate_labels.py:175-200 | every published label is an entry's label as the evidence calls for, and every entry has one |
| GateEvidence.OtherVersionsDoNotMatter | services/api/src/sales_prediction_gate_labels.py:184-197 | inputs that differ in versions of other parents publish the same labels for a parent, under both selectors |
| GateLocality.CutIsPrefix | services/api/src/sales_prediction_gate_labels.py:163-164 | cutting an ordered timeline at an instant leaves a prefix of it |
| GateLocality.LabelIsLocal | services/api/src/sales_prediction_gate_labels.py:246-264 | a label is decided by the events up to its horizon, under either selector |
| GateLocality.OperationalLabelIsLocal | services/api/src/sales_prediction_gate_labels.py:203-264 | the operational label ignores events after its horizon |
| GateLocality.RetrospectiveLabelIsLocal | services/api/src/sales_prediction_gate_retrospective.py:118-137 | the retrospective label ignores events after its horizon |
| GateLocality.ParentIsLocal | services/api/src/sales_prediction_gate_labels.py:155-172 | the settled labels of a parent, entry detection included, ignore later events |
| GateLocality.SettledLabelsSurviveTheCut | services/api/src/sales_prediction_gate_labels.py:175-200 | cutting every event after an instant leaves the labels settled by it unchanged and in the same order |
| GateLocality.LaterEventsCannotChangeSettledLabels | services/api/src/sales_prediction_gate_retrospective.py:41-66 | histories that agree up to an instant publish the same labels settled by it |
| GateCutoff.CutoffOnlyResolvesLabels | services/api/src/sales_prediction_gate_labels.py:257-264 | a later cutoff turns an immature label into negative and an unavailable win into positive, and changes nothing else but maturity |
| GateCutoff.CutoffOnlyResolvesRetrospectiveLabels | services/api/src/sales_prediction_gate_retrospective.py:125-137 | a later cutoff resolves only immature retrospective labels, by whether a win lies in the horizon |
| GateCutoff.PublishedListAdvances | services/api/src/sales_prediction_gate_labels.py:187-200 | the list published at a later cutoff is, up to its order, the list published before with each label advanced, under either selector |
| GateCutoff.LaterRunAdvancesSettledLabels | services/api/src/sales_prediction_gate_labels.py:175-264 | a later run, with later events and a later cutoff, publishes the labels settled by an instant as the earlier run did, each advanced by what the earlier run had read |
| GateCutoff.DecidedLabelsStay | services/api/src/sales_prediction_gate_labels.py:246-264 | a settled label once published as positive or negative is published so by every later run |
| GateCutoff.RunnerAdvancesSettledLabels | services/api/src/sales_prediction_gate_runner.py:154-186 | the runner's cutoff does not go back when events are added and the acceptance is later, so consecutive runs publish the settled labels alike, each advanced |
| GateCutoff.CutoffIsTheFirst | services/api/src/sales_prediction_gate_runner.py:183-183 | the runner's cutoff is the latest instant by the acceptance that some event and some availability still reach |
| GatePaging.NextCursorAdvances | services/api/src/sales_prediction_gate_runner.py:109-112 | a nonempty page ends after the cursor and leaves fewer rows, so the guard against standing still never fires |
| GatePaging.ScanIsExact | services/api/src/sales_prediction_gate_runner.py:91-116 | the pages yield the rows each once and in order exactly when no page boundary separates rows of one identity |
| GatePaging.EveryIdentityIsScanned | services/api/src/sales_prediction_gate_runner.py:91-116 | every identity is returned, whatever the boundaries |
| GatePaging.UniqueIdentitiesSeparate | services/api/src/sales_prediction_gate_runner.py:95-114 | unique identities suffice for any store and page size, exact multiples among them |
| GatePaging.RepeatedIdentityLosesARow | services/api/src/sales_prediction_gate_runner.py:109-114 | the loop relies on the store's uniqueness constraint: at any page size an identity repeated across the first boundary would lose a row |
| GatePaging.ReadableExactly | services/api/src/sales_prediction_gate_runner.py:101-108 | rows are readable exactly when no parent is unnamed, no version unnamed and no key stands for two versions |
| GatePaging.CollectVersions | services/api/src/sales_prediction_gate_runner.py:104-108 | one row a deal version, or an error exactly when a version is unnamed or contradicts one already read |
| GatePaging.ReadPages | services/api/src/sales_prediction_gate_runner.py:91-116 | the loop ends, and succeeds exactly when the first page is named and every page readable |
| GatePaging.PagedEvidence | services/api/src/sales_prediction_gate_runner.py:91-116 | over the store's unique identities an answer is the whole store with the versions of its parents, each under its key, and one is given for readable rows with named versions; an error names something wrong with the rows; without uniqueness, the whole store exactly under the boundary condition |
| IdentityLinkKey.DecodeIsTheInverse | services/api/src/identity_link_types.py:74-91 | a decoder that undoes the key and accepts nothing but keys, for parts of any characters |
| IdentityLinkKey.KeyIsInjective | services/api/src/identity_link_types.py:74-91 | different identities have different keys |
| IdentityLinkKey.KeyExistsExactly | services/api/src/identity_link_types.py:89-90 | a key exists exactly when none of the five fields is blank |
| IdentityLinkKey.KeyIsWritten | services/api/src/identity_link_types.py:91-91 | the key writes the five fields behind their lengths, in order |
| IdentityLinkBatch.BuildBatch | services/api/src/identity_link_revisions.py:29-67 | for valid rows the loop fails exactly when two first rows of different causes share a link, and otherwise yields the canonical batch |
| IdentityLinkBatch.CheckRevision | services/api/src/identity_link_types.py:94-123 | a row is admitted exactly when policy, status, instant, cause and provenance are in order |
| IdentityLinkBatch.RevisionIsValidExactly | services/api/src/identity_link_types.py:94-123 | a row is valid exactly for this system, under its entity type's policy, with a Person exactly if resolved, an ISO instant and a cause |
| IdentityLinkBatch.MergeRowSays | services/api/src/identity_link_revisions.py:104-143 | a merge resolves the head to the survivor, an unmerge leaves it pending review without a Person, identity and evidence kept; the row can be appended exactly at an ISO instant and, merging, with a survivor |
| IdentityLinkBatch.RetirementRowSays | services/api/src/identity_link_revisions.py:152-172 | a retirement retires the head without a Person, identity and evidence kept; its row can be appended exactly at an ISO instant |
| IdentityLinkBatch.FirstsCoverCauses | services/api/src/identity_link_revisions.py:40-42 | every cause is represented by its first row and only once |
| IdentityLinkBatch.BatchIsCanonical | services/api/src/identity_link_revisions.py:50-67 | strictly ascending link keys, distinct causes, every input cause, only input rows |
| IdentityLinkBatch.RepeatsChangeNothing | services/api/src/identity_link_revisions.py:31-42 | an appendable row with a cause seen before changes neither the batch nor whether the loop fails; a row that is not appendable still fails it |
| IdentityLinkBatch.OneLinkIsOneIdentity | services/api/src/identity_link_revisions.py:33-39 | rows share a link key exactly when they share the source identity |
| IdentityLinkBatch.MergeKeepsEveryHead | services/api/src/identity_link_revisions.py:104-143 | a merge or unmerge batch keeps every affected head and never clashes |
| IdentityLinkBatch.RetirementKeepsEveryHeadExactly | services/api/src/identity_link_revisions.py:152-172 | a retirement keeps every head exactly when no two share entity type and identity across instances |
| IdentityLinkBatch.RetirementDropsATwin | services/api/src/identity_link_revisions.py:148-171 | of two heads that differ only in source instance a retirement keeps the first |
| ContactAlias.Alias | services/api/src/profile_analysis_snapshot.py:357-366 | the loop writes the alias letters of the index |
| ContactAlias.IndexUndoesLetters | services/api/src/profile_analysis_snapshot.py:357-366 | the index can be read back from its letters |
| ContactAlias.LettersUndoIndex | services/api/src/profile_analysis_snapshot.py:357-366 | every nonempty string of A to Z is the letters of its index |
| ContactAlias.AliasesAreInOrder | services/api/src/profile_analysis_snapshot.py:357-366 | counting up is walking the aliases by length and then alphabet |
| ContactAlias.AliasesTellPeopleApart | services/api/src/profile_analysis_snapshot.py:350-354 | two related persons share an alias exactly when they are one person |
| ContactAlias.SortedSetDependsOnElements | services/api/src/profile_analysis_snapshot.py:350-354 | the list the aliases number depends on the set of related persons only |
| ContactAlias.AliasCountsPredecessors | services/api/src/profile_analysis_snapshot.py:350-354 | a person's alias is numbered by the distinct related persons that come before |
| SnapshotCanon.JoinIsInjective | services/api/src/profile_analysis_snapshot.py:385-389 | the separator-joined item key determines the items, labels being free of control characters |
| SnapshotCanon.OrderFromKey | services/api/src/profile_analysis_snapshot.py:385-437 | orders with equal sort keys show equal evidence and have equally many items |
| SnapshotCanon.SourceFromKey | services/api/src/profile_analysis_snapshot.py:373-419 | source records with equal sort keys show equal evidence |
| SnapshotCanon.VehicleFromKey | services/api/src/profile_analysis_snapshot.py:400-447 | vehicles with equal sort keys show equal evidence |
| SnapshotCanon.SnapshotIsCanonical | services/api/src/profile_analysis_snapshot.py:82-145 | permuting sources, orders, vehicles, relationships or the items inside any order, and permuting or repeating quality areas, gives the identical snapshot |
| SnapshotCanon.ShowsTheLatest | services/api/src/profile_analysis_snapshot.py:97-100 | nothing dropped comes after anything shown, vehicles the other way round, each list in ascending order |
| SnapshotCanon.NothingIsLost | services/api/src/profile_analysis_snapshot.py:127-144 | retained and newly omitted records add up to the input, within the limits |
| SnapshotCanon.NoItemIsLost | services/api/src/profile_analysis_snapshot.py:135-137 | retained and newly omitted order items add up to the input, those of dropped orders included |
| SnapshotCanon.AliasesTellRelationshipsApart | services/api/src/profile_analysis_snapshot.py:101-126 | two relationships of a snapshot share an alias exactly when they share the related person |
| SnapshotEvidence.ItemOrderReads | services/api/src/profile_analysis_snapshot.py:450-451 | the order of order items, field by field |
| SnapshotEvidence.SnapshotShows | services/api/src/profile_analysis_snapshot.py:82-145 | numbered from one, each kept record is shown with the fields it carries, the least five items of an order and the alias of a relationship's person among them, up to the limit of each kind |
| SnapshotEvidence.QualityShows | services/api/src/profile_analysis_snapshot.py:102-134 | the gaps are those given and the areas whose limit was exceeded; each list of areas is a sorted set |
| SnapshotEvidence.SourceOrderReads | services/api/src/profile_analysis_snapshot.py:373-382 | the order of source records, field by field |
| SnapshotEvidence.OrderOrderReads | services/api/src/profile_analysis_snapshot.py:385-397 | the order of orders, field by field |
| SnapshotEvidence.VehicleOrderReads | services/api/src/profile_analysis_snapshot.py:400-407 | the order of vehicles, field by field |
| SnapshotEvidence.RelationshipOrderReads | services/api/src/profile_analysis_snapshot.py:87-96 | the order of relationships, field by field |
| MembershipNormalizer.BindingOrderReads | services/ingestion/src/crm_identity_associations.py:155-163 | the canonical order, field by field |
| MembershipNormalizer.GatherBindings | services/ingestion/src/crm_identity_associations.py:104-116 | the gathered bindings are those the payloads denote, or the earliest fault in payload order is raised: an unreadable payload's own or a contradiction |
| MembershipNormalizer.BindingIsSaid | services/ingestion/src/crm_identity_associations.py:106-111 | a binding is read from a payload exactly when the payload says it, field by field: the positive decimals of the digits between whitespace, nothing for a missing sort or role, primary exactly for true, 1 and Y and not primary exactly for false, 0 and N |
| Text.SpacesByCode | services/ingestion/src/crm_identity_associations.py:170-172 | the characters a numeral is stripped of, by code point |
| Text.StripExactly | services/ingestion/src/crm_identity_associations.py:170-172 | stripping takes the longest run of such characters off both ends |
| MembershipNormalizer.FaultNamesTheFirstField | services/ingestion/src/crm_identity_associations.py:166-219 | the message names the first field, in the order of the record, that says nothing admissible, and a sort out of range apart from one that is no number |
| MembershipNormalizer.Normalize | services/ingestion/src/crm_identity_associations.py:95-125 | normalisation succeeds exactly on a readable subject and acceptable payloads, with their unique canonical arrangement; it is refused for two primaries exactly when subject and payloads are readable and consistent and more than one is primary; the constructor never rejects; the bindings are those the payloads say |
| MembershipNormalizer.CanonicalIsAccepted | services/ingestion/src/crm_identity_associations.py:42-70 | what normalisation produces passes every constructor check |
| MembershipNormalizer.FirstRejectionIsCalledFor | services/ingestion/src/crm_identity_associations.py:105-116 | the rejection raised is one the payloads call for, and none is raised exactly when all are readable and consistent |
| MembershipNormalizer.CalledForIsRaised | services/ingestion/src/crm_identity_associations.py:105-116 | every rejection the payloads call for is raised under some permutation of them |
| MembershipNormalizer.OnlyTheSetMatters | services/ingestion/src/crm_identity_associations.py:95-125 | permuting or repeating payloads changes neither acceptance nor the snapshot nor a refusal for two primaries, nor any refusal of payloads with one kind of fault |
| MembershipNormalizer.RejectionIsDeterminedExactly | services/ingestion/src/crm_identity_associations.py:95-125 | all permutations are refused alike exactly when the subject is at fault or the payloads have faults of one kind at most |
| MembershipNormalizer.OrderNamesTheMessage | services/ingestion/src/crm_identity_associations.py:105-111 | two payloads whose order decides which message is raised |
| MembershipNormalizer.RenormalizingIsIdentity | services/ingestion/src/crm_identity_associations.py:95-125 | normalising any payloads that say the bindings of an accepted snapshot gives the same bindings |
| MembershipNormalizer.BindingsCanBeSaid | services/ingestion/src/crm_identity_associations.py:166-219 | the bindings of an accepted snapshot can be said in text and in typed values alike |
| HeadCas.BeforeIsStrict | services/ingestion/src/crm_company_contract_primitives.py:16-38 | the head order is strict and total |
| HeadCas.MutationIsAcceptedExactlyWhenItAdvances | services/ingestion/src/crm_company_membership_writer.py:44-63 | a mutation is accepted exactly when it expects no head or lies after the head it expects |
| HeadCas.AdvanceMeansExpectedIsCurrent | services/ingestion/src/crm_company_contracts.py:164-178 | a proposal advances exactly on its expected head and is idempotent afterwards |
| HeadCas.BeforeReadsFields | services/ingestion/src/crm_company_contract_primitives.py:30-38 | the first of instant, version and record key that differs decides |
| HeadCas.DecisionSaysExactly | services/ingestion/src/crm_company_contracts.py:164-178 | what is no advance is idempotent exactly if the proposal is current and lay after what it expected, and stale or in conflict otherwise |
| HeadCas.RunOnlyAdvances | services/ingestion/src/crm_company_contracts.py:164-178 | over any run every advance strictly raises the order and the last head installed is current |
| HeadCas.NoHeadIsReinstalled | services/ingestion/src/crm_company_contracts.py:386-400 | no replaced head comes back |
| HeadCas.StaleProposalsDoNotAdvance | services/ingestion/src/crm_company_contracts.py:386-400 | a proposal built on a replaced head, or on none once there is one, never advances |
| HeadCas.OneProposalWins | services/ingestion/src/crm_company_contracts.py:367-400 | of the proposals against one expected head at most one advances |
| HeadCas.HeadStore.Apply | services/ingestion/src/crm_company_contracts.py:145-178 | the store keeps its installed heads strictly ascending |
| DisconnectPump.RunKeepsInv | services/api/src/request_middleware.py:38-112 | the invariant of all interleavings of pump and application |
| DisconnectPump.AtMostOneReceive | services/api/src/request_middleware.py:47-93 | the server is never asked for two messages at once |
| DisconnectPump.DeliveredInOrder | services/api/src/request_middleware.py:47-63 | the application gets a prefix of the server's messages in order, each once |
| DisconnectPump.OnlyADisconnectIsWithheld | services/api/src/request_middleware.py:74-93 | a message is withheld only when it is a disconnect the pump took, and then the application is cancelled |
| DisconnectPump.RetainedMessagesAreThere | services/api/src/request_middleware.py:50-62 | the guards against a missing message never fire |
| DisconnectPump.CancelledIsQuiet | services/api/src/request_middleware.py:77-90 | after such a disconnect nothing more is taken from the server |
| DisconnectPump.RunReadsAhead | services/api/src/request_middleware.py:74-93 | the pump retains the first message, and reads a second exactly behind a request with no body and none to follow; a disconnect it reads cancels |
| DisconnectPump.PumpReadsItsFill | services/api/src/request_middleware.py:74-93 | a pump that is not cancelled stops only with a disconnect or with all it has to read ahead |
| DisconnectPump.ApplicationIsServed | services/api/src/request_middleware.py:47-63 | a receive is served the first message once it is in, then the message behind a terminal request, and otherwise goes on to the server |
| DisconnectPump.ApplicationActs | services/api/src/request_middleware.py:95-112 | the application acts when it is running, an abandoned wait leaves what it waited for, and the pump is cancelled only once the application is over |
| DisconnectPump.RequestMonitor.FirstMessage | services/api/src/request_middleware.py:76-85 | the shared variables after the pump's first message, and whether it reads on; the invariant of all interleavings is kept |
| DisconnectPump.RequestMonitor.SecondMessage | services/api/src/request_middleware.py:86-93 | the shared variables after the message behind a terminal request; the invariant of all interleavings is kept |
| DisconnectPump.RequestMonitor.InitialReadyPassed | services/api/src/request_middleware.py:47-57 | what the application gets, or waits for, once the first message is in; the invariant is kept and no missing message is met |
| DisconnectPump.RequestMonitor.UnexpectedReadyPassed | services/api/src/request_middleware.py:57-63 | what the application gets behind a terminal request; the invariant is kept and no missing message is met |

## Left out

- LeaseProtocol.Step: the thread's program is a step machine and not a method, because other threads act between its calls; the repository's methods are methods of `LeaseGraph.ProfileAnalysisGraph`.
- LeaseSafety.TerminalStatusStays: requeue is an event without the operator's eligibility rules, and request creation is one without the force budget, so the theorems hold for more runs than the code allows.
- LeaseSafety.LeaseFencing: a Person whose status is null, and driver retries of a transaction that did commit, are not modelled; a call that raised after its commit is.
- Generated text, its repair, its failure codes and its retry times: the provider is a nondeterministic outcome.
- ReleaseContract.ValidateRelease: an entity key stands for entity key and relationship kind together, and type checks of the collections are the types.
- The active projection head of `crm_tenant_projection_release_contracts.py:99-139`, whose checks follow from the release's.
- Materializer.Repository.Materialize: a run that never ends is followed only page by page, by TakePage and the lemmas about parts of runs, because a method here must end; runs over bounded counts end. Summary fields the materializer does not read are left out.
- KnownOwnerRefresher.Refresher.Refresh: the summary's missing and unresolved counts, zero whenever a run returns, and the request count are left out.
- KnownOwnerRefresher.Refresher.CommitUnit: fences, locks and operator states appear as transactions that abort, and an ingestion as its terminal result.
- RefreshRecords.CompleteExactlyWhenBalanced: the counters the census phase hands over are arbitrary; whether they balance at that point is decided in code that is not part of this model.
- Parsing of stage rows and deal rows, month names and report tables.
- GateCutoff.RunnerAdvancesSettledLabels: deal versions, entity keys and invalid parents are the same in both runs; the maxima of the cutoff are over the events the gate reads, where the query takes every active projection, whatever its mapping or policy version.
- GatePaging.PagedEvidence: the store does not change during the read and orders identities as Python compares strings; the deal query's grouping by distinct parents is replaced by reading each row's parent, which adds the same rows.
- Text.ParseDecimal: digits other than ASCII are not modelled, so text made of them is rejected here.
- IdentityLinkBatch.CheckRevision: ISO-8601 parsing is a flag of the timestamp; the append query itself is not part of this model.
- SnapshotCanon.SnapshotIsCanonical: labels are assumed nonempty and free of control characters, as their constructor enforces with regular expressions and Unicode categories that are not modelled.
- The privacy boundary check of serialized snapshots and the snapshot fetch query.
- HeadCas.RunOnlyAdvances: description heads and membership heads share one model, and the compare-and-set is atomic; subject scopes and the membership mutation's observation checks are left out.
- DisconnectPump.RunKeepsInv: requests with a body bypass the monitor and are left out, as are timing headers and error responses; cancellation from outside the request is an application that ends.
- Celery tasks, Redis locks, FastAPI routes, configuration, hashing and encryption.
