# Federation Observatory: a verified model

Federation Observatory collects what publishers say about sites, clusters, accelerator classes,
workloads, placements and migrations of a federation, refuses what it may not believe, survives
restarts, and answers how capacity is used, stranded or fragmented. This project models its
core in Dafny and proves what that core promises.

The project has five parts.

- **The ingest engine.** `Observatory.dfy` is the transition system: a state holds publishers
  (watermark and fence per boot identity), the epoch, counters, the snapshot generation and all
  record tables; `Step` performs a publication, registration, fence, invalidation or restore and
  `Run` a list of them. `Engine.dfy` is the same engine as an object that updates its fields in
  place; every method is proved to reach exactly the state and give exactly the answer of the
  transition system. The theorems about runs are in `Fencing.dfy`, `Sequencing.dfy`,
  `Atomicity.dfy`, `Durability.dfy`, `Generations.dfy`, `Pools.dfy`, `Histories.dfy`,
  `Anchoring.dfy` and `StateFiles.dfy`; what each kind of publication is answered and leaves behind
  is in `Registrations.dfy`, `Placements.dfy` and `Answers.dfy`; `Scenarios.dfy` and `Failures.dfy` hold runs from the empty engine that reach
  what those theorems assume. Records, their validation and migrations are in `Model.dfy` and
  `Migration.dfy`.
- **Framing and codec.** `Crc.dfy`, `LittleEndian.dfy`, `Frames.dfy`, `FrameReader.dfy`, `Codec.dfy`;
  `Polynomials.dfy` shows the checksum to be the remainder RFC 1952 asks for, `WireSamples.dfy` gives
  one sample of each format.
- **Accounting and deciders.** `Capacity.dfy`, `ClusterTotals.dfy`, `Capability.dfy`,
  `Deciders.dfy`, `Compatibility.dfy`, `Assessing.dfy`, `Explanations.dfy`, `Stranding.dfy`,
  `Fragmentation.dfy`; `Requirements.dfy`, `Causes.dfy`, `Coverage.dfy` and `Grouping.dfy` say what requirements,
  policies, verdicts, reports and groups mean without the functions that compute them.
- **Arithmetic with real bounds.** `WideArithmetic.dfy`, `Decimal.dfy`, `Calendar.dfy`, `Versions.dfy`.
- **The hand-off queue.** `Handoff.dfy`: connection threads, workers and stopping threads as
  atomic steps under the queue mutex, with the stop flag set outside it.

Words are subset types of the integers with the width of the source; generations saturate at
2^64 - 1 as `Generation::next` does. The wall clock, the bytes a socket has ready and the order
of records in a state file are parameters. Two records have the same published digest in the
model exactly when they are equal apart from currentness, stamp and evidence.

## Where the code differs from what one would expect

Each of these is a lemma, with the exact condition where one exists.

- A fence demotes what the identity made current among clusters, federations, sites and domains only.
  Accelerator classes, runtimes, backends, policies, artifacts, workload classes, workloads,
  placements, migrations and portability assessments stay as they are
  (`Fencing.FenceSparesOtherTables`; a run: `Failures.FencedPublisherStaysCurrent`).
- A restore fences the old epoch unless it is the last one (`Fencing.RestoreFencesOldEpoch`), and a
  state file older than a fence forgets it (`Fencing.OldStateFileForgetsFence`), takes watermarks back
  (`StateFiles.WatermarkFallsExactly`) and reopens epochs already used
  (`StateFiles.LoadingRepeatsAnswers`, `StateFiles.MessagesCanBeAppliedTwice`).
- First registration does not look at the epoch (`Fencing.FreshRegistrationIgnoresEpoch`).
- Reused sequence numbers are refused on the structural, placement and migration paths and on no
  other: retirements, capability, capacity, stages and portability apply them
  (`Scenarios.ReusedNumbersAreRefusedExactly`).
- A saved state does not load when a migration demands revalidation after its outcome was lost, or
  when unknown identities were fenced beyond the publisher bound
  (`Durability.SavedStateLoadsExactly`, `Durability.LateRevalidationSpoilsSaves`,
  `Durability.FenceCanOverfillPublishers`; runs: `Failures.RevalidationCanSpoilASave`,
  `Failures.FencesFillTheEngine`).
- Repeating a capacity publication is a conflict unless its pools already carry the annotations the
  engine adds (`Pools.RepeatedCapacityPublication`; a run: `Failures.RepeatedCapacityCanConflict`).
- A placement of the latest identifier that is published again as of an earlier time stays the latest,
  whatever is newer (`Placements.IndexIsKeptExactly`; a run: `Failures.LatestPlacementCanBeMislaid`).
- Snapshot generations stop identifying contents at 2^64 - 1 (`Atomicity.LastSnapshotGenerationIsReused`;
  a run: `Failures.LastSnapshotGenerationIsReached`).
- Merging breakdowns can stop closing, and the closing test passes for one family of overflowing
  tallies (`Capacity.MergeCloses`, `Capacity.ValidateBreakdown`).
- The compatibility query may judge a cluster by a class it does not have
  (`Failures.AdmittedOnAnAbsentClass`; what an admission is worth for a pool of any class:
  `Assessing.AdmissionIsWorth`).
- `percent_string` wraps around for the last forty-nine values of the millionths below 2^64 - 1
  (`WideArithmetic.PercentString`, `WideArithmetic.RoundingWraps`).
- Distinct version strings can compare equal, exactly when they read as the same tokens
  (`Versions.VersionsCompareEqualExactly`).

## Model

| member | source | states |
|---|---|---|
| Fencing.CurrentRecordsAreBacked | src/observatory.cpp:232-1817 | after any run from the empty engine, restores included, every cluster, site, federation and domain that claims to be current carries the stamp of a registered identity that is not fenced |
| Fencing.CurrentRecordsAreBackedWithFiles | src/observatory.cpp:1631-1794 | the same over runs that also load arbitrary state files that validate |
| Anchoring.CurrentRecordsAreAnchored | src/observatory.cpp:335-1372 | over the same runs, whatever is current in the ten tables a fence spares carries the stamp of an identity the engine knows |
| Anchoring.PublicationStampsEverything | src/observatory.cpp:203-1372 | in all fourteen tables, whatever a publication leaves current was current before or carries the stamp of that very publication |
| Anchoring.OnlyFreshPublicationsMakeAnythingCurrent | src/observatory.cpp:232-1817 | in all fourteen tables, a record becomes current only through an accepted publication under the current epoch by a registered, unfenced identity, which leaves its own stamp; fence, invalidation, registration and restore make nothing current |
| Fencing.BackedStep | src/observatory.cpp:232-1817 | one operation of any kind keeps that invariant |
| Fencing.PublicationStamps | src/observatory.cpp:203-1372 | clusters, federations, sites and domains: whatever a publication leaves current was current before or carries the stamp of that very publication |
| Fencing.OnlyFreshPublicationsMakeCurrent | src/observatory.cpp:232-1372 | clusters, federations, sites and domains: a record becomes current only through an accepted publication under the current epoch by a registered, unfenced identity, which leaves its own stamp |
| Fencing.FenceTakesEffect | src/observatory.cpp:482-538 | a fence of any named identity, known or not, fences it |
| Fencing.FenceSurvivesStep | src/observatory.cpp:232-1817 | no operation lifts a fence or moves a fenced watermark, and the fenced identity gets an error and changes no record |
| Fencing.FenceIsPermanent | src/observatory.cpp:232-538 | over any run with saves and restores a fenced identity stays fenced, its watermark is frozen, and everything it sends is answered FencedPublisher (InvalidArgument when malformed) without effect |
| Fencing.FenceDemotesFourTables | src/observatory.cpp:482-538 | after the fence of a known identity no cluster, federation, site or domain it published is current |
| Fencing.FenceSparesOtherTables | src/observatory.cpp:482-538 | the ten other tables are left as they are; each that was backed by live identities stays so exactly when it holds no current entry of the fenced identity |
| Fencing.LoadLeavesNothingCurrent | src/observatory.cpp:1631-1794 | whatever state file is loaded, no loaded record is current |
| Fencing.RestoreKeepsAuthority | src/observatory.cpp:1588-1794 | saving and restoring keeps every identity with its watermark and fence and sets the epoch to the successor of the saved one |
| Fencing.RestoreFencesOldEpoch | src/observatory.cpp:232-282 | after a restore an unfenced known identity that still uses the old epoch is refused as StaleEpoch, exactly unless that epoch was the last representable one |
| StateFiles.LastEpochIsReached | src/observatory.cpp:1631-1794 | one state file reaches the last epoch; a publisher registered under it is still let through after the next restart |
| Fencing.EpochsNeverFall | src/observatory.cpp:1631-1794 | no run lowers the epoch when what it restores is the saved state of the moment |
| Fencing.OldEpochStaysRefused | src/observatory.cpp:232-282 | an epoch left behind by a restore is refused for every identity and every publication in every later state |
| Fencing.FreshRegistrationIgnoresEpoch | src/observatory.cpp:433-480 | registration of an unseen identity succeeds exactly when there is room, whatever epoch it names; what it then publishes under a foreign epoch is refused |
| Fencing.LoadReplacesFences | src/observatory.cpp:1631-1794 | after loading any state file exactly the identities fenced in the file are fenced |
| Fencing.OldStateFileForgetsFence | src/observatory.cpp:1631-1794 | so a file saved before a fence and loaded after it forgets the fence |
| StateFiles.WatermarkFallsExactly | src/observatory.cpp:1631-1794 | a watermark falls exactly when a file that validates is loaded and holds a lower one, or none |
| StateFiles.WatermarksFallOnlyWithFiles | src/observatory.cpp:1631-1794 | over runs with files, a watermark is lower at the end only if such a file was loaded |
| StateFiles.EpochRisesExactly | src/observatory.cpp:1631-1794 | loading raises the epoch exactly when the file was not written by an earlier one |
| StateFiles.LoadingRepeatsAnswers | src/observatory.cpp:1631-1794 | what the engine answers after loading a file is a matter of the file: whatever was accepted since it was last loaded gets the same answer again, under the same epoch |
| StateFiles.MessagesCanBeAppliedTwice | src/observatory.cpp:232-312 | from the empty engine, the very same message, epoch and sequence number included, is applied, and applied again after the file is loaded again |
| Sequencing.WatermarkStep | src/observatory.cpp:270-312 | each operation moves a watermark by one plus the reported gap when its acknowledgement advanced it, and not otherwise |
| Sequencing.WatermarkAccounting | src/observatory.cpp:270-312 | over any run, restarts included, the growth of a watermark is the number of acknowledgements that advanced it plus the sum of the gaps they reported |
| Sequencing.ReplayIsNeverApplied | src/observatory.cpp:363-371 | on the structural, placement and migration paths a reused sequence number is refused, a duplicate or superseded, never applied |
| Sequencing.AppliedIsAboveWatermark | src/observatory.cpp:284-312 | on those paths an applied publication has a sequence strictly above the watermark, and becomes the watermark |
| Sequencing.WatermarkNeverFalls | src/observatory.cpp:284-312 | no run lowers a watermark |
| Sequencing.AppliedSequencesIncrease | src/observatory.cpp:363-371 | the sequence numbers applied for one identity on those paths strictly increase over any run, so none is applied twice |
| Sequencing.OtherVerdictsIgnoreWatermarks | src/observatory.cpp:754-1372 | the retirement, capability, capacity, stage and portability paths decide the same whatever the publisher table, and so the watermark, says |
| Sequencing.ReplaysAreAppliedAlike | src/observatory.cpp:754-1372 | so on these paths a reused number gets the answer an unused one would get |
| Scenarios.ReusedNumbersAreRefusedExactly | src/observatory.cpp:363-371 | for every kind of publication: no run ever applies it under a reused number if and only if its path looks, which structural registrations, placements and migrations do, and retirements, capability, capacity, stages and portability do not |
| Scenarios.RepeatIsReapplied | src/observatory.cpp:754-1372 | in one reachable engine a publication of each of the five other kinds is applied under the number its sender used last |
| Scenarios.StoryRuns | src/observatory.cpp:335-1219 | the first n of ten operations from the empty engine leave exactly the records of n chapters, each publication having added its own |
| Sequencing.CapabilitySequencesCanBeReused | src/observatory.cpp:796-876 | an instance: two capability publications under one sequence number are both applied whenever their generations rise |
| Atomicity.RefusedPublicationIsAtomic | src/observatory.cpp:220-230 | a refused publication leaves records, watermarks, fences, epoch and snapshot generation as they were; only counters move |
| Atomicity.RefusalsAreAtomic | src/observatory.cpp:220-1372 | the same for every registration and every publication the interface can construct |
| Atomicity.RefusedCapabilityTearsExactly | src/observatory.cpp:861-870 | if capability sets could be built without puts, a refused publication would change records exactly when its keys are invalid and it would also have advanced the cluster generation |
| Atomicity.ChangeRaisesSnapshotGeneration | src/observatory.cpp:232-1817 | an operation changes the records only together with a strictly higher snapshot generation, below the last one |
| Atomicity.EqualSnapshotsEqualRecords | src/observatory.cpp:232-1817 | two moments of a run with one snapshot generation, not the last one, have the same records |
| Atomicity.LastSnapshotGenerationIsReused | include/federation_observatory/ids.hpp:136-140 | at the last generation the promise is void, because the successor saturates: evidence is dropped under an unchanged generation |
| Failures.LastSnapshotGenerationIsReached | src/observatory.cpp:1796-1817 | from the empty engine, invalidations reach the last generation; the first federation registered then changes the records under it |
| Atomicity.EveryPublicationIsCountedOnce | src/observatory.cpp:220-312 | each publication moves exactly one of the answer counters, the one of the answer it got |
| Atomicity.RegistrationsAreCounted | src/observatory.cpp:405-480 | each registration is counted once too, except malformed and over-bound ones, which are not counted |
| Durability.RunsStayInOrder | src/observatory.cpp:335-1794 | every run keeps the records mutually consistent and within bounds, and never forgets a registered federation, site, cluster, class, runtime, policy, artifact or workload |
| Durability.ReachableStatesAreInOrder | src/observatory.cpp:335-1794 | every reachable state is consistent: keys match records, references resolve, records validate, tables respect their bounds |
| Durability.RestoreKeepsBooks | src/observatory.cpp:1588-1794 | a restart changes no record content: everything comes back as it was, clusters without pools and readiness |
| Durability.SavedStateLoadsExactly | src/state_store.cpp:216-435 | the file written from a consistent state validates exactly when the publishers fit their bound and every stored migration outcome matches its stage |
| Durability.ReachableStatesReloadExactly | src/state_store.cpp:216-435 | the same for every reachable state |
| Durability.FenceCanOverfillPublishers | src/observatory.cpp:482-538 | fencing an unknown identity is not bounded: in a full engine it succeeds and the next saved state does not load |
| Failures.FencesFillTheEngine | src/observatory.cpp:482-538 | from the empty engine, one fence more than publishers fit, each of an unknown identity, leads to a state whose file does not load |
| Failures.RevalidationCanSpoilASave | src/observatory.cpp:1221-1320 | from the empty engine, a planned migration that loses its outcome and is to be revalidated, each report accepted, leads to a state whose file does not load |
| Failures.FencedPublisherStaysCurrent | src/observatory.cpp:482-538 | from the empty engine, fencing the only publisher leaves classes, workloads and migrations current with nobody behind them who may speak |
| Durability.RevalidationOutcome | src/observatory.cpp:1306-1320 | what an accepted demand for revalidation stores: the stage moves, the outcome stays |
| Durability.LateRevalidationSpoilsSaves | src/observatory.cpp:1306-1320 | after an accepted demand for revalidation the next saved state loads exactly when the outcome had not been lost before |
| Generations.StepFollows | src/observatory.cpp:686-1028 | each operation keeps what is promised about one cluster: generation, capability and capacity each follow from what they were |
| Generations.ClusterGenerationNeverFalls | src/observatory.cpp:754-1028 | over every run, restarts included, a cluster is never forgotten and its generation never falls |
| Generations.CapabilityFollowsOverRuns | src/observatory.cpp:796-876 | until the cluster is registered again its capability generation never falls, and content established under a generation never changes |
| Generations.CapacityFollowsOverRuns | src/observatory.cpp:878-1028 | likewise capacity pools, until a registration, an invalidation or a restore clears them |
| Generations.CapabilityGenerationIsSpent | src/observatory.cpp:831-860 | after an accepted capability publication and any run without a re-registration, a publication under the same generation is a duplicate of the same content, a conflict or stale |
| Pools.CapacityGenerationIsSpent | src/observatory.cpp:968-1000 | after an accepted capacity publication and any run that does not clear the pools, a publication under the same generation is never applied; it is accepted, as a duplicate, only when it publishes the pools as they were stored, in any order |
| Pools.SortedPools | src/observatory.cpp:1003-1022 | the stored pools are the published ones in identifier order: sorted, a permutation, the same nominal total |
| Pools.SortingFindsDuplicates | src/observatory.cpp:952-956 | sorting by identifier brings repeated identifiers next to each other: the neighbour test finds exactly the lists that repeat one |
| Pools.RepetitionIsRecognised | src/observatory.cpp:968-1022 | the stored pools equal a repetition of the publication exactly when each published pool already carried the precision and evidence class of the publication and a generation |
| Pools.RepeatedCapacityPublication | src/observatory.cpp:878-1028 | so repeating an accepted capacity publication is answered as a duplicate exactly then, and as a conflict otherwise |
| Failures.RepeatedCapacityCanConflict | src/observatory.cpp:878-1028 | from the empty engine, a capacity publication whose pool has no generation of its own is applied, and sent again it is a conflict |
| Histories.HistoryIsAppendOnly | src/observatory.cpp:1140-1320 | for one migration and generation the stage history only grows, through every operation and restart, what is appended leads from the stored stage to the new one by acceptable steps with rising sequences, and a terminal stage is final |
| Histories.ReachableHistoriesAreSound | src/migration.cpp:164-244 | in every reachable state every stored history has strictly increasing sequences and acceptable steps, ends in the stored stage, and its outcome matches the stage except that RevalidationRequired may keep an unknown outcome |
| Histories.UnknownOutcomesAreExplained | src/observatory.cpp:1140-1320 | in every reachable state an unknown outcome was lost by the last event that did not merely demand revalidation, or there is no such event and the migration was published with its outcome lost |
| Histories.CommitsWereRestored | src/migration.cpp:76-117 | between any two moments of any run, a migration that was Planned and is Committed under the same generation was observed at RestoreComplete or OutcomeUnknown in between, whether or not its planning is a recorded event |
| Histories.ReachableCommitsWereRestored | src/migration.cpp:76-117 | read off one record: a reachable history that opens with a Planned event and ends Committed contains RestoreComplete or OutcomeUnknown |
| Histories.StaleEventsAreRefused | src/migration.cpp:310-325 | an event the staleness test calls stale is refused by the engine and changes no record |
| Histories.StageSequencesCanBeReused | src/observatory.cpp:1221-1320 | one sequence number can carry accepted stage events of two migrations: this path does not look for reused numbers |
| Registrations.FederationSettles | src/observatory.cpp:550-557 | a valid federation through an open gate is a duplicate exactly when its content is stored, a conflict exactly when other content comes under a reused number, over bound exactly when it is new and the table full, superseded exactly when the stored generation is strictly newer, and in every other case replaces its own key, and nothing else, as current under this stamp |
| Registrations.SiteSettles | src/observatory.cpp:559-572 | the same for a site whose references resolve |
| Registrations.AcceleratorClassSettles | src/observatory.cpp:574-582 | the same for an accelerator class |
| Registrations.RuntimeSettles | src/observatory.cpp:584-591 | the same for a runtime |
| Registrations.BackendSettles | src/observatory.cpp:593-606 | the same for a backend whose references resolve |
| Registrations.DomainSettles | src/observatory.cpp:608-627 | the same for a domain whose references resolve |
| Registrations.PolicySettles | src/observatory.cpp:629-636 | the same for a policy |
| Registrations.ArtifactSettles | src/observatory.cpp:638-645 | the same for an artifact |
| Registrations.WorkloadClassSettles | src/observatory.cpp:647-655 | the same for a workload class; it carries no generation, so changed content under an unused number is always installed |
| Registrations.WorkloadSettles | src/observatory.cpp:657-684 | the same for a workload whose references resolve |
| Registrations.ClusterSettles | src/observatory.cpp:686-752 | the same for a cluster; a newer generation than the stored one is stored without pools and readiness and with its capacity generation as it came |
| Placements.PlacementSettles | src/observatory.cpp:1097-1138 | a placement that may be stored becomes current and the latest of its workload, unless the latest one was observed after the time the record itself carries or at that time under a higher generation; then it is kept as stale and the index stays |
| Placements.OtherPlacementsSettle | src/observatory.cpp:1072-1105 | the other answers, each exactly when: repeated content, a reused number, an outdated or equal generation, a full table; they change no record |
| Placements.IndexIsKeptExactly | src/observatory.cpp:1107-1138 | when the index names for every workload a placement that none of its placements was observed after, storing one more keeps that exactly under a condition on the identifier and the two times |
| Placements.LoadedIndexIsNewest | src/observatory.cpp:1631-1794 | after any state file is loaded the index names for each workload a placement that none of its placements was observed after, and of several the last in the file |
| Placements.IndexStep | src/observatory.cpp:1030-1794 | every operation and every loaded file keeps the meaning of the index, except exactly the placements that mislay it |
| Placements.LatestIsNewestOverRuns | src/observatory.cpp:1030-1794 | over every run, restarts and files included, in which no such placement is stored, the index means what it should |
| Failures.LatestPlacementCanBeMislaid | src/observatory.cpp:1107-1138 | from the empty engine: a placement published again under a higher generation but as of an earlier time is kept as stale and stays the latest, although another placement is newer |
| Answers.GateAnswers | src/observatory.cpp:232-282 | whatever is published, who is heard and which error everyone else gets: malformed, unknown, fenced, foreign epoch, or behind the own numbers |
| Answers.AcceptedAnswers | src/observatory.cpp:284-312 | an accepted publication makes its number the watermark, reports how many numbers were skipped, and touches no other identity |
| Answers.SenderIsCounted | src/observatory.cpp:220-312 | what a publication makes of the counters of its sender |
| Answers.RefusalsAreCounted | src/observatory.cpp:220-282 | what a publication makes of the counters of refusals |
| Answers.UnfitRegistrationsSettle | src/observatory.cpp:550-752 | a registration whose record is not valid is refused for that, one that refers to anything unregistered as not found; neither changes a record |
| Answers.EvidenceIsHeard | src/observatory.cpp:796-830 | evidence about a cluster is heard exactly when the sender speaks for a known federation and the cluster is known and not retired, and each failure has its error |
| Answers.PlacementIsFit | src/observatory.cpp:1040-1070 | a placement is fit exactly when it is valid, names the federation of its sender, and its workload and all clusters it names are registered |
| Answers.MigrationIsFit | src/observatory.cpp:1150-1170 | the same for a migration |
| Answers.UnfitEvidenceSettles | src/observatory.cpp:754-1372 | what is not fit, or about something unknown, is refused with that error and changes no record |
| Answers.PublisherRegistrationAnswers | src/observatory.cpp:405-480 | each answer to a registration, exactly when it is given, and what it leaves |
| Answers.RetirementSettles | src/observatory.cpp:754-790 | each answer to a retirement, exactly when it is given; an accepted one keeps the content, moves to the named or next generation and is final |
| Answers.CapabilitySettles | src/observatory.cpp:796-876 | each answer to a capability publication, exactly when it is given, and the one cluster entry an accepted one replaces |
| Answers.CapacitySettles | src/observatory.cpp:878-1028 | each answer to a capacity publication, exactly when it is given, and the one cluster entry an accepted one replaces |
| Answers.StoredPoolsAreThePublished | src/observatory.cpp:1003-1022 | what an accepted capacity publication stores: the published pools in identifier order, each under the evidence of the publication and with its own generation or, lacking one, that of the publication |
| Answers.BadCapacitySettles | src/observatory.cpp:878-968 | capacity that is not outdated and not acceptable is refused for the first thing wrong with it |
| Answers.FirstBadPool | src/observatory.cpp:922-951 | of several bad pools the first one names the error |
| Answers.BadPool | src/observatory.cpp:922-951 | what is wrong with one pool, by its first failing test |
| Answers.MigrationSettles | src/observatory.cpp:1140-1219 | each answer to a migration, exactly when it is given; an accepted one becomes the latest of its workload and demotes the one it supersedes and no other |
| Answers.StageSettles | src/observatory.cpp:1240-1320 | each answer to a stage event that reaches its migration, exactly when it is given; an accepted one is appended, and stage, outcome and the demand for revalidation follow it |
| Answers.OtherStagesSettle | src/observatory.cpp:1221-1265 | each answer to a stage event that does not reach its migration, exactly when it is given; nothing changes |
| Answers.PortabilitySettles | src/observatory.cpp:1322-1372 | each answer to a portability assessment, exactly when it is given, and the one entry an accepted one replaces |
| Engine.FederationObservatory.constructor | src/observatory.cpp:165-171 | a new engine is the initial state |
| Engine.FederationObservatory.CheckAuthority | src/observatory.cpp:232-282 | opens the gate for a registered, unfenced identity of the current epoch whose sequence may follow, and otherwise counts the refusal under the reason of the first failing test |
| Engine.FederationObservatory.Accept | src/observatory.cpp:284-312 | finishes an accepted publication: watermark, reported gap, counters and acknowledgement |
| Engine.FederationObservatory.RegisterStructural | src/observatory.cpp:335-399 | the shared path of structural registrations: bound, reused sequence, generation and content decide between installing, duplicate and refusal |
| Engine.FederationObservatory.RegisterPublisher | src/observatory.cpp:405-480 | the object reaches exactly the state and gives exactly the answer the transition system assigns to a registration: reconnection, fresh identity, fence and both bounds |
| Engine.FederationObservatory.FencePublisher | src/observatory.cpp:482-538 | the object reaches exactly the state and gives exactly the answer the transition system assigns to a fence: the identity is fenced and everything it made current in the listed tables is demoted |
| Engine.FederationObservatory.RegisterFederation | src/observatory.cpp:550-557 | the object reaches exactly the state and gives exactly the answer the transition system assigns to this publication |
| Engine.FederationObservatory.RegisterSite | src/observatory.cpp:559-572 | the object reaches exactly the state and gives exactly the answer the transition system assigns to this publication |
| Engine.FederationObservatory.RegisterAcceleratorClass | src/observatory.cpp:574-582 | the object reaches exactly the state and gives exactly the answer the transition system assigns to this publication |
| Engine.FederationObservatory.RegisterRuntime | src/observatory.cpp:584-591 | the object reaches exactly the state and gives exactly the answer the transition system assigns to this publication |
| Engine.FederationObservatory.RegisterBackend | src/observatory.cpp:593-606 | the object reaches exactly the state and gives exactly the answer the transition system assigns to this publication |
| Engine.FederationObservatory.RegisterDomain | src/observatory.cpp:608-627 | the object reaches exactly the state and gives exactly the answer the transition system assigns to this publication |
| Engine.FederationObservatory.RegisterPolicy | src/observatory.cpp:629-636 | the object reaches exactly the state and gives exactly the answer the transition system assigns to this publication |
| Engine.FederationObservatory.RegisterArtifact | src/observatory.cpp:638-645 | the object reaches exactly the state and gives exactly the answer the transition system assigns to this publication |
| Engine.FederationObservatory.RegisterWorkloadClass | src/observatory.cpp:647-655 | the object reaches exactly the state and gives exactly the answer the transition system assigns to this publication |
| Engine.FederationObservatory.RegisterWorkload | src/observatory.cpp:657-684 | the object reaches exactly the state and gives exactly the answer the transition system assigns to this publication |
| Engine.FederationObservatory.RegisterCluster | src/observatory.cpp:686-752 | the object reaches exactly the state and gives exactly the answer the transition system assigns to this publication; a newer generation drops the pools and readiness of the previous incarnation |
| Engine.FederationObservatory.RetireCluster | src/observatory.cpp:754-790 | the object reaches exactly the state and gives exactly the answer the transition system assigns to a retirement |
| Engine.FederationObservatory.PublishCapability | src/observatory.cpp:796-876 | the object reaches exactly the state and gives exactly the answer the transition system assigns to a capability publication, with the cluster generation written before the keys are looked at |
| Engine.FederationObservatory.PublishCapacity | src/observatory.cpp:878-1028 | the object reaches exactly the state and gives exactly the answer the transition system assigns to a capacity publication: pools checked, stamped, sorted and compared |
| Engine.FederationObservatory.RepeatsIdentifier | src/observatory.cpp:952-956 | the sort and the neighbour test report exactly the lists that repeat an identifier |
| Engine.FederationObservatory.PublishPlacement | src/observatory.cpp:1030-1138 | the object reaches exactly the state and gives exactly the answer the transition system assigns to a placement publication, the newest per workload included |
| Engine.FederationObservatory.PublishMigration | src/observatory.cpp:1140-1219 | the object reaches exactly the state and gives exactly the answer the transition system assigns to a migration publication; an older migration of the workload is demoted |
| Engine.FederationObservatory.PublishMigrationStage | src/observatory.cpp:1221-1320 | the object reaches exactly the state and gives exactly the answer the transition system assigns to a stage event |
| Engine.FederationObservatory.PublishPortability | src/observatory.cpp:1322-1372 | the object reaches exactly the state and gives exactly the answer the transition system assigns to a portability assessment |
| Engine.FederationObservatory.CaptureDurableState | src/observatory.cpp:1588-1629 | returns the durable part of the state |
| Engine.FederationObservatory.ApplyDurableState | src/observatory.cpp:1631-1794 | loads a file that validates and becomes exactly the restored state; otherwise reports an error and changes nothing |
| Engine.FederationObservatory.InvalidateDynamicEvidence | src/observatory.cpp:1796-1817 | the object reaches exactly the state and gives exactly the answer the transition system assigns to an invalidation |
| Migration.CommitNeedsRestoreOrUnknown | src/migration.cpp:76-121 | any path of acceptable events from Planned to Committed contains RestoreComplete or OutcomeUnknown |
| Migration.TerminalIsForever | src/migration.cpp:52-121 | no acceptable event leaves a terminal stage |
| Migration.RankNeverFalls | src/migration.cpp:57-121 | ranked progress never runs backwards unless the outcome was unknown |
| Migration.ValidateRecord | src/migration.cpp:164-244 | one walk over the history reports exactly the first problem of header, history and outcome, or none |
| Migration.HistoryIsWellFormed | src/migration.cpp:199-244 | a history the walk accepts has strictly increasing sequences, set generations none newer than the record, and acceptable steps only, and conversely |
| Migration.SoundRecordValidates | src/migration.cpp:164-244 | a record validates exactly when it is sound and does not keep an unknown outcome behind a demand for revalidation |
| Migration.AdvanceKeepsSound | src/observatory.cpp:1306-1320 | appending an acceptable event keeps a record sound, and makes it invalid exactly when revalidation is demanded with the outcome unknown |
| Migration.ProgressIsExact | src/migration.cpp:76-117 | progress is one stage forward in a list of ten stages or one of three named shortcuts, and nothing else |
| Migration.OtherTransitionsAreExact | src/migration.cpp:76-117 | aborts are allowed from every stage before the end, an unknown outcome has four ways out, and the three ends have none |
| Versions.VersionOrderIsTotalPreorder | src/capability.cpp:707-747 | the comparison is reflexive, sign-antisymmetric and transitive on all byte strings |
| Versions.VersionsCompareEqualExactly | src/capability.cpp:707-747 | two strings compare equal exactly when they read as the same (number, separator) tokens up to (0, NUL) tokens at the end |
| Versions.ParsedVersionsCompareEqualExactly | src/capability.cpp:707-783 | two strings the parser accepts compare equal exactly when they have the same components |
| Versions.VersionOrderIdentifiesDistinctStrings | src/capability.cpp:707-747 | two instances: a leading zero and a trailing NUL byte are invisible to it |
| Versions.CompareVersionStrings | src/capability.cpp:707-747 | the two index loops, with their wrapping accumulator, return the sign of the lexicographic order of (number, separator) tokens padded with (0, NUL) |
| Versions.ParseVersionString | src/capability.cpp:749-783 | the parser returns exactly the components, or the error of the first offending one |
| Versions.ParsedVersionsCompareByComponents | src/capability.cpp:707-783 | on two strings the parser accepts, the comparison is the lexicographic order of the component lists, a proper prefix being smaller |
| Versions.EndSortsFirst | src/capability.cpp:731-736 | after one and the same number the end of the string sorts before every separator |
| Versions.DotSortsBeforeOthers | src/capability.cpp:737-738 | a dot sorts before every other separator |
| Versions.SeparatorsSortAsSignedCharacters | src/capability.cpp:739-741 | any two others sort as signed characters, bytes from 128 up first |
| Versions.SamePrefixLeavesRest | src/capability.cpp:731-744 | after the same number and the same separator what follows decides |
| Versions.SampleVersions | src/capability.cpp:707-783 | 1.10 reads as its two components and comes after 1.9; a colon or a slash after a digit does not parse |
| Capability.NumericComparisonIsExact | src/capability.cpp:49-69 | comparing signed and unsigned integers in any mix gives the sign of their difference as mathematical integers |
| Capability.SingletonSet | src/capability.cpp:303-318 | a one-member value set is refused exactly when the member is too long |
| Capability.PutThenFind | src/capability.cpp:422-452 | a put is a map update: the key reads back the entry, every other key is untouched, and the set stays sorted with valid, distinct keys |
| Capability.PutIsRefusedExactly | src/capability.cpp:422-443 | a put fails for an invalid key, and for a new one in a full set, and for nothing else |
| Capability.LookupsDetermineSet | src/capability.cpp:422-452 | two sets that answer all lookups alike are the same list: insertion order leaves no trace |
| Capability.CapabilityTable.Put | src/capability.cpp:422-443 | the in-place put equals the map update, refuses invalid keys and overfull sets without effect, and keeps the set canonical |
| Capability.OppositeComparators | src/capability.cpp:551-695 | opposite comparators give opposite answers, and undecided is its own opposite |
| Requirements.ValidKeys | src/capability.cpp:240-248 | a capability key is given by its number, and by a name exactly when it is a custom one |
| Requirements.IdentifierOrder | src/capability.cpp:422-452 | identifiers, and with them sets, pools and domains, are ordered byte by byte, a proper prefix first |
| Requirements.IntegerRequirement | src/capability.cpp:598-636 | on published integers, signed or not, a bound or an equality is met exactly when the mathematical integers say so |
| Requirements.VersionRequirement | src/capability.cpp:626-645 | on version texts the parser accepts, a bound is met exactly when the component lists are in that order |
| Requirements.ComponentOrder | src/capability.cpp:707-783 | that order: a proper prefix comes first, otherwise the first difference decides |
| Requirements.EqualityRequirement | src/capability.cpp:598-625 | equality of texts and flags, and membership of a text in a published set |
| Requirements.SetRequirement | src/capability.cpp:646-690 | one of several is met exactly when the published text or some published member is listed; all of several exactly when every listed member is published |
| Requirements.PresenceRequirement | src/capability.cpp:556-597 | a key is present when it is published, unless it is a flag that is off |
| Requirements.OpenRequirement | src/capability.cpp:551-695 | a requirement stays open exactly when nothing is published or the two kinds of value do not compare |
| Foundation.CheckedSum | src/foundation.cpp:218-227 | sums words and fails exactly when the mathematical sum is not a word |
| Foundation.SaturatingAdd | src/foundation.cpp:213-216 | the exact sum when it is a word, the largest word otherwise |
| Capacity.FromComponents | src/capacity.cpp:37-66 | succeeds exactly when the components fit the nominal capacity; the result satisfies the accounting identity and keeps the components |
| Capacity.ValidateLedger | src/capacity.cpp:84-97 | accepts exactly the ledgers that satisfy the accounting identity |
| Capacity.PrecedenceIsInjective | src/capacity.cpp:185-207 | every reason has its own precedence, so the strongest reason is unique |
| Capacity.PrecedenceIsPlaceInList | src/capacity.cpp:185-207 | the precedence of a reason is its place in a list of all reasons, strongest first, that holds each once |
| Capacity.AddAmountConserves | src/capacity.cpp:221-233 | adding to a tally raises its total by the amount under the named reason only, or reports overflow and changes nothing |
| Capacity.TallyTotal | src/capacity.cpp:240-243 | the sum of a tally, or the largest word when it overflows |
| Capacity.ValidateBreakdown | src/capacity.cpp:263-287 | the closing test accepts exactly the breakdowns whose usable, unknown and stranded parts partition idle, and the overflowing tallies claimed to be the largest possible idle capacity |
| Capacity.ClosedBreakdownPartitionsIdle | src/capacity.cpp:258-272 | for a partition the derived stranded amount is the total under primary reasons |
| Capacity.DifferencesStopAtZero | src/capacity.cpp:258-262 | what is derived when the parts do not add up stops at zero |
| Capacity.MergedBreakdown.Include | src/capacity.cpp:293-313 | merging in place adds field by field and skips what would overflow |
| Capacity.MergeCloses | src/capacity.cpp:293-313 | merging two partitions gives a partition of the combined idle capacity exactly when that is a word; beyond a word the closing test still passes exactly when nothing was added or both are stranded as a whole at the limit |
| Capacity.MergeOverflowBreaksClosure | src/capacity.cpp:293-313 | a concrete pair of partitions whose merge does not close |
| ClusterTotals.ClosedLedgersFit | src/model.cpp:441-470 | over closed ledgers every running total fits exactly when the final nominal total is a word |
| ClusterTotals.TotalLedger | src/model.cpp:441-470 | fails exactly when a running total does not fit; otherwise each component is the exact sum over the pools of the kind, and over closed ledgers so is idle |
| Deciders.MergeCapabilities | src/analysis.cpp:21-47 | repeated puts of catalogue, cluster and runtime entries give a canonical set, the failing puts being skipped |
| Deciders.EvaluatePool | src/analysis.cpp:144-328 | the evaluation with its running flags and notes returns the eligibility that the votes of all checks define |
| Deciders.CountsAreExact | src/analysis.cpp:135-142 | each reason is counted as often as a check exhibited it |
| Deciders.PrimaryIsStrongest | src/analysis.cpp:135-142 | the primary reason is an exhibited one of least precedence |
| Deciders.VotesAreReasoned | src/analysis.cpp:144-328 | every failed check names a reason |
| Compatibility.AssessCompatibility | src/compatibility.cpp:373-665 | the assessment built check by check equals the list of checks, their weakest outcome and the policy verdict |
| Compatibility.Builder.Add | src/compatibility.cpp:74-96 | adding a check keeps the overall outcome the weakest so far |
| Compatibility.OverallIsWeakest | src/compatibility.cpp:205-233 | the overall outcome is at least as weak as every check and is one of them (or full compatibility), so it is in the compatible family exactly when all checks are |
| Compatibility.DecidersAgree | src/compatibility.cpp:373-665 | admission together with the questions only the pool evaluation asks holds exactly when the pool is eligible and the questions only the assessment asks are answered well |
| Compatibility.AdmittedPoolsAreEligible | src/compatibility.cpp:277-279 | so a pool of an admitted target is decided and eligible, when readiness, class, state format and over-long formats raise no objection |
| Requirements.UnmetRequirementRefuses | src/analysis.cpp:254-270 | a requirement that is not met and not optional, or that cannot be answered, makes the pool ineligible and refuses admission |
| Requirements.MissedBoundRefuses | src/compatibility.cpp:551-556 | for instance a bound on an integer that the published integer misses |
| Requirements.PolicyPermits | src/model.cpp:726-747 | a policy permits what it does not deny and, when it lists what it allows, what it lists |
| Requirements.PolicyIsHonoured | src/analysis.cpp:286-310 | what a policy rules out is neither admitted nor, where its site is known, eligible; what it does not rule out is never refused on its account |
| Causes.ReasonOfKey | src/analysis.cpp:49-113 | the reason an unmet requirement is booked under, by its capability key |
| Causes.ReasonsAreCauses | src/analysis.cpp:144-328 | a pool exhibits a reason exactly when one of its listed causes is there: an unmet requirement under its keys, another architecture, text, ABI, too little memory, a policy; and is left undecided exactly when something it is asked cannot be told |
| Causes.EligibleExactly | src/analysis.cpp:144-328 | a pool is eligible exactly when it is not declined, no reason has a cause and nothing is left open; decided exactly when it is not declined and some reason has a cause or nothing is left open |
| Causes.OutcomesAreCauses | src/compatibility.cpp:373-665 | an assessment records an outcome exactly when one of its listed causes is there |
| Causes.SeverityIsPlaceInList | src/compatibility.cpp:205-242 | the severity of an outcome is its place in a list of all sixteen, weakest first; the last four are the compatible family |
| Causes.OverallIsFirstFound | src/compatibility.cpp:205-233 | the overall outcome is the first in that list that has a cause, or full compatibility |
| Causes.AdmittedExactly | src/compatibility.cpp:277-279 | a placement is admitted exactly when nothing has a cause but an optional requirement that falls back, and no policy rules out the cluster or its site |
| Causes.PolicyCheckIsRecorded | src/compatibility.cpp:595-625 | a check for the policy is recorded exactly when there is one and it rules out neither the cluster nor its site; what it rules out is tracked beside the checks |
| Coverage.GatheringIsRead | src/observatory.cpp:2039-2097 | the compatibility query judges by the class its workload prefers when the snapshot has it, else by the first class of the cluster the snapshot has, and by the first runtime of the cluster alone |
| Assessing.LaterEvidenceWins | src/analysis.cpp:21-47 | when everything fits, a lookup in the merged capabilities answers with the runtime, else the cluster, else the catalogue |
| Assessing.CollectInputs | src/observatory.cpp:2039-2097 | gathers class, runtime, policy and capabilities into a set it adds to without clearing |
| Assessing.AssessCluster | src/observatory.cpp:2101-2117 | the compatibility query on a fresh set |
| Assessing.AssessPlacement | src/observatory.cpp:1958-1990 | explaining assesses the selection and then every other row that claims to be selected, one after the other into a set that is never cleared |
| Assessing.ValidPlacementsAreAssessedAfresh | src/observatory.cpp:1958-1990 | for a placement that validates that is exactly the answer of the compatibility query for its selection |
| Explanations.StoredPlacementsAreAssessedAfresh | src/observatory.cpp:1958-1990 | so for every placement stored in any reachable state |
| Assessing.AdmittedPoolsAreUsable | src/observatory.cpp:2039-2117 | on one snapshot, when the query admits a workload to a cluster, the stranded-capacity analysis finds all idle capacity usable in every pool both look at alike |
| Assessing.AdmittedPoolsAreUsableExactly | src/analysis.cpp:144-328 | for a pool of any class that reads like what the query looked at (architecture, memory, runtime ABI, effective capabilities), an admitted workload finds the idle capacity usable exactly when the pool raises none of the objections only it raises |
| Assessing.AdmissionIsWorth | src/observatory.cpp:2062-2080 | for a pool of any class, an admitted workload finds it eligible exactly when the cluster is ready, a class its kind needs is published, and the pool itself passes the questions on architecture, formats, runtime, requirements and memory |
| Assessing.AdmissionMayRestOnAnAbsentClass | src/observatory.cpp:2062-2074 | the query looks at the first class the workload accepts even when the cluster has none of it: a workload can be admitted while the whole idle capacity of the cluster is stranded for lack of memory |
| Failures.AdmittedOnAnAbsentClass | src/observatory.cpp:2062-2074 | the same on every untruncated snapshot of a reachable engine |
| Failures.AbsentClassIsReached | src/observatory.cpp:878-1028 | eleven operations from the empty engine reach it |
| Stranding.SelectWorkload | src/analysis.cpp:330-342 | the loop selects the workload the specification selects |
| Stranding.SelectedIsLeast | src/analysis.cpp:330-342 | that is the workload of the class with the least identifier |
| Stranding.AnalyzePool | src/analysis.cpp:451-605 | one pool yields the finding that its eligibility and ledger define |
| Stranding.AnalyzeStrandedCapacity | src/analysis.cpp:451-605 | the nested loops return the report that findings, saturating totals and the closing test define, errors included |
| Stranding.FindingPartitionsIdle | src/analysis.cpp:526-550 | idle capacity of a pool is usable, unknown or stranded as a whole, and the parts add up to it |
| Stranding.StrandedUnderStrongestReason | src/analysis.cpp:526-550 | stranded capacity is booked under the earliest exhibited reason in the list of all reasons, strongest first, and noted once under every exhibited reason |
| Stranding.NominalDecides | src/analysis.cpp:451-605 | only the nominal total can overflow into an error |
| Stranding.TotalsAreExact | src/analysis.cpp:451-605 | over closed ledgers no saturating addition saturates |
| Stranding.StrandedReportIsExact | src/analysis.cpp:392-605 | over closed ledgers the analysis fails only for an unknown workload class or a nominal total beyond a word; otherwise totals are the exact sums, idle is usable, unknown or stranded in each finding and in total, and the closing test passes |
| Coverage.ReportCovers | src/analysis.cpp:475-560 | a report holds one finding for every pool of the kind and class asked for in every cluster in scope whose evidence is current or asked for, and no other; the clusters it passes over are named |
| Coverage.TargetIsRead | src/analysis.cpp:462-500 | a pool is judged by its own cluster and class, the policy and artifact its workload names, the first runtime of the cluster the snapshot knows and the site of the cluster, each where the snapshot has it |
| Coverage.FindingIsJudged | src/analysis.cpp:526-550 | a finding splits the idle capacity of its pool: usable when nothing speaks against the pool and nothing is left open, unknown when it is declined or something is left open, stranded otherwise |
| Fragmentation.AnalyzeFragmentation | src/analysis.cpp:666-838 | the loops over findings and domains return the report the specification defines |
| Fragmentation.GroupingConserves | src/analysis.cpp:710-746 | grouping by domain neither loses nor invents capacity |
| Grouping.GroupsAreExact | src/analysis.cpp:710-746 | each domain holds exactly the capacity of the findings whose cluster belongs to it: its own domain, or itself when it has none; domains come in identifier order, each once |
| Grouping.GroupsAreListed | src/analysis.cpp:680-746 | the table lists exactly the registered domains in scope and the domains of the findings |
| Grouping.HomeIsUnique | src/analysis.cpp:722-735 | every finding belongs to one domain |
| Fragmentation.AggregationIsExact | src/analysis.cpp:748-762 | the aggregated totals are the sums over the domains, the largest group is attained, and the legal domains are those that hold the required group |
| Fragmentation.ReasonsAreExact | src/analysis.cpp:740-746 | the reasons account for all stranded capacity and never overflow |
| Fragmentation.FragmentationConserves | src/analysis.cpp:666-838 | nominal, usable, stranded and unknown totals equal those of the stranded-capacity report and the sums over the domains |
| Fragmentation.ClassificationIsExact | src/analysis.cpp:764-814 | with a group to place: shortage exactly when total usable is too small, no fragmentation exactly when some domain holds the group, and every other class means two domains with usable capacity and none large enough |
| Fragmentation.SpreadCapacityIsClassified | src/analysis.cpp:764-814 | which of the other classes it is follows from what strands capacity in the pools: two families of reasons make it mixed, one names the class, none leaves it physical, and for a workload that spans the federation policy alone decides |
| Fragmentation.ReasonsComeFromPools | src/analysis.cpp:740-746 | a reason has an amount in the combined tally exactly when some pool has capacity booked under it |
| Crc.CrcTable | src/foundation.cpp:77-90 | entry i of the table is the bit-serial division of byte i (section 8 of RFC 1952) |
| Crc.Crc32 | src/foundation.cpp:229-237 | the table-driven loop equals the bit-by-bit checksum on every byte string |
| Crc.RegisterIsInjective | src/foundation.cpp:229-237 | absorbing bytes is injective in the running register |
| Crc.BurstsAreDetected | src/foundation.cpp:229-237 | two strings that differ only inside at most four consecutive bytes have different checksums |
| Crc.BurstsChangeTheValue | src/foundation.cpp:229-237 | the same for the number stored in a header |
| Polynomials.RegisterIsRemainder | src/foundation.cpp:77-90 | the register after a message M of k bits is the remainder of x^32 M + x^k (x^31 + ... + 1) modulo the generator polynomial of section 8 of RFC 1952, given by its exponents |
| Polynomials.ChecksumIsRemainder | src/foundation.cpp:229-237 | the checksum is the complement of that remainder: nothing else is a remainder |
| Polynomials.RemainderIsUnique | src/foundation.cpp:77-90 | division by the generator leaves one remainder of degree below 32 |
| Polynomials.ConstantIsGenerator | src/foundation.cpp:83-83 | the constant is the generator without its leading term: bit 31 - e is set exactly for its exponents e |
| Polynomials.CheckValue | src/foundation.cpp:229-237 | the checksum of "123456789" is 0xCBF43926 |
| LittleEndian.ReadsBack | src/protocol.cpp:17-53 | reading what was written returns every number of the width |
| LittleEndian.WritesBack | src/protocol.cpp:17-53 | writing what was read returns every byte string |
| LittleEndian.Write | src/protocol.cpp:17-32 | the byte stores put the number into the buffer and touch nothing else |
| LittleEndian.Read | src/protocol.cpp:34-53 | the byte loads assemble the number |
| Frames.EncodeFrame | src/protocol.cpp:234-258 | fills a buffer with header and payload, or refuses unknown types and oversized payloads |
| Frames.DecodeFrame | src/protocol.cpp:260-306 | decodes or refuses with the first failing test |
| Frames.DecodeInvertsEncode | src/protocol.cpp:234-306 | decoding the encoding of any in-bound frame of a known type gives the frame |
| Frames.EncodeInvertsDecode | src/protocol.cpp:234-306 | whatever decodes is exactly the encoding of what it decodes to |
| Frames.AlteredPayloadIsRefused | src/protocol.cpp:294-299 | a frame altered inside up to four consecutive payload bytes is refused as an integrity failure |
| FrameReader.Reader.Next | src/protocol.cpp:308-349 | one call decodes exactly the first pending frame and leaves exactly the rest, or changes nothing: closed, nothing ready, or an oversized header |
| FrameReader.StreamsAreUniquelyDecodable | src/protocol.cpp:234-349 | no byte stream is the concatenation of two different lists of frames |
| FrameReader.ReceiveAll | src/protocol.cpp:308-349 | for every list of frames and every division of their bytes into reads, empty reads included, repeated calls return these frames in order, none lost, repeated or merged |
| Codec.ContextRoundTrip | src/protocol.cpp:61-134 | a valid context followed by anything decodes to itself and leaves exactly what followed |
| Codec.ContextIsCanonical | src/protocol.cpp:61-134 | whatever decodes as a context is valid and is the encoding of what it decodes to |
| Codec.ContextSurvivesExactly | src/protocol.cpp:61-134 | a context survives the wire exactly when it is valid |
| Codec.AckRoundTrip | src/protocol.cpp:425-457 | the same round trip for acknowledgements |
| Codec.AckIsCanonical | src/protocol.cpp:425-457 | acknowledgements are canonical |
| Codec.AckSurvivesExactly | src/protocol.cpp:425-457 | an acknowledgement survives exactly when it is within its bounds |
| Codec.ReplyRoundTrip | src/protocol.cpp:459-524 | the same for replies with nested rows |
| Codec.ReplyIsCanonical | src/protocol.cpp:459-524 | replies are canonical |
| Codec.ReplySurvivesExactly | src/protocol.cpp:459-524 | a reply survives exactly when its counts and texts are within bounds |
| Codec.Encoder.WriteText | src/foundation.cpp:342-371 | a text over its limit fails the encoder, and a failed encoder appends no more texts |
| Codec.Encoder.WriteContext | src/protocol.cpp:61-73 | the in-place encoder appends exactly the specified encoding, or fails for an over-long identifier |
| Codec.Decoder.Number | src/foundation.cpp:381-434 | reads a number at the cursor and advances it, or fails without moving |
| Codec.Decoder.ReadText | src/foundation.cpp:466-482 | reads a bounded text at the cursor as specified |
| Codec.Decoder.ReadRows | src/protocol.cpp:477-524 | the row loop returns what the recursive specification reads, failing with the first row that fails |
| WireSamples.SampleFrame | src/protocol.cpp:234-258 | one frame byte for byte, with values that tell its fields apart: magic, version, type, flags, request number, length and checksum at their places |
| WireSamples.SampleContext | src/protocol.cpp:61-73 | one publication context byte for byte |
| WireSamples.SampleAck | src/protocol.cpp:425-431 | one acknowledgement byte for byte |
| WireSamples.SampleReply | src/protocol.cpp:459-475 | one reply byte for byte |
| Frames.HeaderFields | src/protocol.cpp:234-258 | the fields of any header, at their offsets |
| Foundation.Next | include/federation_observatory/ids.hpp:136-140 | the successor is larger except at the last representable value, where it saturates |
| WideArithmetic.MulU64 | src/foundation.cpp:35-51 | the two result words are the exact 128-bit product; no intermediate value overflows its word |
| WideArithmetic.DivU128ByU64 | src/foundation.cpp:55-75 | 128 rounds of shift and subtract, with the carry out of the remainder, give the exact floor quotient for every nonzero divisor, or the largest word when it does not fit |
| WideArithmetic.BasisPointsOf | src/foundation.cpp:252-259 | the minimum of floor(10000 part / whole) and 2^32 - 1, and 0 for an empty whole |
| WideArithmetic.TwoStageRounding | src/foundation.cpp:261-276 | rounding the truncated value is rounding the true value |
| WideArithmetic.PercentString | src/foundation.cpp:261-276 | prints the percentage rounded half up for every ratio whose millionths leave room for rounding, the capped text beyond the range, and zero for the forty-nine values of the millionths where the rounding wraps |
| WideArithmetic.RoundingWraps | src/foundation.cpp:261-276 | each of the forty-nine values occurs: with a whole of 1000000 the part is its own millionths, and the true rounded percentage is not zero |
| WideArithmetic.PartOfWholePercent | src/foundation.cpp:261-276 | for a part of a whole the rounding never wraps and the printed percentage is at most one hundred |
| WideArithmetic.RoundingError | src/foundation.cpp:261-276 | the printed hundredths are the nearest ones, ties going up |
| Decimal.PadDenotes | src/foundation.cpp:107-113 | a padded number reads back as the number |
| Decimal.PadWidth | src/foundation.cpp:107-113 | a number that fits is padded to exactly the width |
| Calendar.EpochIsDayZero | src/foundation.cpp:93-105 | day 0 is 1970-01-01 |
| Calendar.CivilDatesAreValid | src/foundation.cpp:93-105 | every day has a date that is valid under the leap-year rule of Appendix C of RFC 3339 |
| Calendar.CivilSucceeds | src/foundation.cpp:93-105 | the date of day z + 1 is the calendar successor of the date of day z, for all integers z |
| Calendar.CivilIsInvertible | src/foundation.cpp:93-105 | different days have different dates |
| Calendar.FormatTimestamp | src/foundation.cpp:545-586 | the truncating arithmetic of the source, corrected for negative instants, prints the specified text |
| Calendar.TimestampDenotesInstant | src/foundation.cpp:545-586 | the text denotes the instant floored to milliseconds, negative instants included |
| Calendar.TimestampsIdentifyMilliseconds | src/foundation.cpp:545-586 | two instants print alike exactly when both are unset (0), or neither is and they lie in the same millisecond |
| Handoff.StepMoves | src/coordinator.cpp:902-1067 | what one atomic step does to one request: it may enter, be applied, be answered or be dropped, and its count in every place changes accordingly |
| Handoff.InvStep | src/coordinator.cpp:902-1067 | every step keeps the invariant |
| Handoff.EveryRequestIsInOnePlace | src/coordinator.cpp:902-1067 | in every interleaving each accepted request is in exactly one place, a refused one in none; no promise is fulfilled twice; the queue never exceeds its bound |
| Handoff.DrainedQueueStaysEmpty | src/coordinator.cpp:1052-1070 | after a stopping thread has seen the queue empty it is empty in every later state, and no push is under way |
| Handoff.AnswersAreTruthful | src/coordinator.cpp:905-943 | a request refused, or answered as not applied at shutdown, is never applied, then or later; one answered with a reply was applied |
| Handoff.ArrivalOrderIsKept | src/coordinator.cpp:902-999 | with any number of workers the requests of one connection are applied in arrival order, each at most once |
| Handoff.NothingIsLost | src/coordinator.cpp:977-1067 | once no thread holds a request and the queue is empty, every accepted request has been answered: with its reply when applied, as not applied otherwise, and the connection that waits for it can go on |
| Handoff.IngestQueue.TryEnqueue | src/coordinator.cpp:905-937 | the test under the mutex admits exactly when there is room and the coordinator is not stopping |
| Handoff.IngestQueue.TakeWork | src/coordinator.cpp:980-994 | a worker takes the oldest item, leaves when stopping and nothing is queued, and waits otherwise |
| Handoff.IngestQueue.TakeLeftover | src/coordinator.cpp:1052-1065 | a stopping thread takes the oldest item or sees the queue empty |
| Handoff.IngestQueue.DrainLeftovers | src/coordinator.cpp:1052-1065 | run alone, the loop answers everything queued, in order, as not applied, and applies nothing |

## Left out

- FrameReader.ReceiveAll: a closed connection ends the loop; a malformed frame in the stream, after which the connection is dropped, is covered by `Reader.Next` only.
- Engine.FederationObservatory.ApplyDurableState: reports one error code for every file that does not validate; the source distinguishes reasons.
- Deciders.EvaluatePool: the textual notes beside the reasons are not part of the model.
- Compatibility.AssessCompatibility: checks carry their outcome only; subject, evidence, remediation and precision are not part of the model.
- Stranding.AnalyzeStrandedCapacity: findings are kept in the order found; the source sorts them at the end, which changes no total.
- Capability.OppositeComparators: floating-point values are opaque and undecided, so numeric comparison covers the integer kinds.
- Atomicity.EveryPublicationIsCountedOnce: counters are unbounded; their wrap-around at 2^64 is not modelled.
- Calendar.CivilSucceeds: days are mathematical integers; overflow of the 64-bit intermediate sum for days beyond any representable instant is not modelled.
- Handoff.EveryRequestIsInOnePlace: safety only; that a sleeping worker is woken at shutdown is not claimed, because the stop flag is set and notified outside the queue mutex.
- Handoff.NothingIsLost: the model covers one life of the coordinator, from start to the end of the joins; the source then resets the stop flag (src/coordinator.cpp:1078), and a second start is not modelled.
- Handoff.IngestQueue.TryEnqueue: the frame itself, the socket and its failures are not part of the model; a connection that ends simply takes no further step.
- The record tables of the engine are fields of one record value that the object reassigns, so aliasing between tables is not modelled.
- Evidence lists, `render`, `to_string` and 64-bit digests: text; content equality stands for digest equality.
- Durability.SavedStateLoadsExactly: covers the validation of the durable content; the file codec also refuses over-long publisher identifiers and fence reasons (src/state_store.cpp:78-102), which is not modelled.
- Engine.FederationObservatory.RegisterCluster: the published digest of a cluster covers the evidence of its pools and not the limit of its capability set (src/records_codec.cpp:480-490); the model compares records without pool evidence and with the limit, so where only these differ it can answer Duplicate for Applied or the reverse.
- Record codecs, state-file bytes and their checksum: only the durable content and its validation are modelled.
- Hello, fence, retirement and query payloads: flat lists of the same fields, with no further property.
- Aggregate findings stored in state files: written and read back, never consulted by ingest.
- Snapshots are values given to the analyses, not truncated by the snapshot byte bound where they are tied to an engine state (`Failures.Shows`); how they are assembled and looked up is not modelled.
- Mismatch, drift, portability and migration analysis, and explanation texts: reporting loops over the same decisions.
- Liveness of publishers: `live` is not consulted by the authority check.
- Sockets, processes, hardware probing, clients, command line and benchmarks.
