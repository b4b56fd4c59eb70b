/** The tables a fence leaves alone: over every run, whatever is current in them was published by
    an identity the engine knows (src/observatory.cpp). */
module Anchoring {
  import opened Foundation
  import opened Capability
  import opened Model
  import opened Observatory
  import opened Fencing
  import Migration

  /** Current entries of the table carry the stamp of an identity the engine knows. */
  ghost predicate TableAnchored<K, R>(t: map<K, Entry<R>>, publishers: map<PublisherKey, Authority>) {
    forall id :: id in t && t[id].currentness.Current? ==>
      t[id].stamp.publisher != [] && PublisherKey(t[id].stamp.publisher, t[id].stamp.boot) in publishers
  }

  /** The ten tables a fence spares. */
  ghost predicate Anchored(s: State) {
    && TableAnchored(s.records.acceleratorClasses, s.publishers) && TableAnchored(s.records.runtimes, s.publishers)
    && TableAnchored(s.records.backends, s.publishers) && TableAnchored(s.records.policies, s.publishers)
    && TableAnchored(s.records.artifacts, s.publishers) && TableAnchored(s.records.workloadClasses, s.publishers)
    && TableAnchored(s.records.workloads, s.publishers) && TableAnchored(s.records.placements, s.publishers)
    && TableAnchored(s.records.migrations, s.publishers) && TableAnchored(s.records.portability, s.publishers)
  }

  ghost predicate OthersStamped(a: Records, b: Records, stamp: Stamp) {
    && TableStamped(a.acceleratorClasses, b.acceleratorClasses, stamp) && TableStamped(a.runtimes, b.runtimes, stamp)
    && TableStamped(a.backends, b.backends, stamp) && TableStamped(a.policies, b.policies, stamp)
    && TableStamped(a.artifacts, b.artifacts, stamp) && TableStamped(a.workloadClasses, b.workloadClasses, stamp)
    && TableStamped(a.workloads, b.workloads, stamp) && TableStamped(a.placements, b.placements, stamp)
    && TableStamped(a.migrations, b.migrations, stamp) && TableStamped(a.portability, b.portability, stamp)
  }

  lemma NothingElseTouched(a: Records, stamp: Stamp)
    ensures OthersStamped(a, a, stamp)
  {
  }

  lemma AcceleratorClassStamped(s: State, ctx: Context, now: I64, r: AcceleratorClassRecord)
    requires AcceleratorClassVerdict(s, ctx, now, r).Store?
    ensures OthersStamped(s.records, AcceleratorClassVerdict(s, ctx, now, r).records, StampFor(ctx, now))
  {
    hide TableStamped, AcceleratorClassRecord.Problem, ReplayedSequence;
    NothingElseTouched(s.records, StampFor(ctx, now));
    var t := s.records.acceleratorClasses;
    ChosenIsStamped(t, r.id, r, r.Problem(), ReplayedSequence(s, ctx), s.bounds.acceleratorClasses,
                    if r.id in t then t[r.id].record.capabilityGeneration else 0, r.capabilityGeneration, StampFor(ctx, now));
  }

  lemma RuntimeStamped(s: State, ctx: Context, now: I64, r: RuntimeRecord)
    requires RuntimeVerdict(s, ctx, now, r).Store?
    ensures OthersStamped(s.records, RuntimeVerdict(s, ctx, now, r).records, StampFor(ctx, now))
  {
    hide TableStamped, RuntimeRecord.Problem, ReplayedSequence;
    NothingElseTouched(s.records, StampFor(ctx, now));
    var t := s.records.runtimes;
    ChosenIsStamped(t, r.id, r, r.Problem(), ReplayedSequence(s, ctx), s.bounds.runtimes,
                    if r.id in t then t[r.id].record.generation else 0, r.generation, StampFor(ctx, now));
  }

  lemma BackendStamped(s: State, ctx: Context, now: I64, r: BackendRecord)
    requires BackendVerdict(s, ctx, now, r).Store?
    ensures OthersStamped(s.records, BackendVerdict(s, ctx, now, r).records, StampFor(ctx, now))
  {
    hide TableStamped, BackendRecord.Problem, ReplayedSequence;
    NothingElseTouched(s.records, StampFor(ctx, now));
    var t := s.records.backends;
    ChosenIsStamped(t, r.id, r, Either(r.Problem(), Missing(r.runtime !in s.records.runtimes)), ReplayedSequence(s, ctx), s.bounds.backends,
                    if r.id in t then t[r.id].record.generation else 0, r.generation, StampFor(ctx, now));
  }

  lemma PolicyStamped(s: State, ctx: Context, now: I64, r: PolicyRecord)
    requires PolicyVerdict(s, ctx, now, r).Store?
    ensures OthersStamped(s.records, PolicyVerdict(s, ctx, now, r).records, StampFor(ctx, now))
  {
    hide TableStamped, PolicyRecord.Problem, ReplayedSequence;
    NothingElseTouched(s.records, StampFor(ctx, now));
    var t := s.records.policies;
    ChosenIsStamped(t, r.id, r, r.Problem(), ReplayedSequence(s, ctx), s.bounds.policies,
                    if r.id in t then t[r.id].record.generation else 0, r.generation, StampFor(ctx, now));
  }

  lemma ArtifactStamped(s: State, ctx: Context, now: I64, r: ArtifactRecord)
    requires ArtifactVerdict(s, ctx, now, r).Store?
    ensures OthersStamped(s.records, ArtifactVerdict(s, ctx, now, r).records, StampFor(ctx, now))
  {
    hide TableStamped, ArtifactRecord.Problem, ReplayedSequence;
    NothingElseTouched(s.records, StampFor(ctx, now));
    var t := s.records.artifacts;
    ChosenIsStamped(t, r.id, r, r.Problem(), ReplayedSequence(s, ctx), s.bounds.artifacts,
                    if r.id in t then t[r.id].record.generation else 0, r.generation, StampFor(ctx, now));
  }

  lemma WorkloadClassStamped(s: State, ctx: Context, now: I64, r: WorkloadClassRecord)
    requires WorkloadClassVerdict(s, ctx, now, r).Store?
    ensures OthersStamped(s.records, WorkloadClassVerdict(s, ctx, now, r).records, StampFor(ctx, now))
  {
    hide TableStamped, WorkloadClassRecord.Problem, ReplayedSequence;
    NothingElseTouched(s.records, StampFor(ctx, now));
    var t := s.records.workloadClasses;
    ChosenIsStamped(t, r.id, r, r.Problem(), ReplayedSequence(s, ctx), s.bounds.workloadClasses,
                    0, 0, StampFor(ctx, now));
  }

  lemma WorkloadStamped(s: State, ctx: Context, now: I64, r: WorkloadRecord)
    requires WorkloadVerdict(s, ctx, now, r).Store?
    ensures OthersStamped(s.records, WorkloadVerdict(s, ctx, now, r).records, StampFor(ctx, now))
  {
    hide TableStamped, WorkloadRecord.Problem, ReplayedSequence, WorkloadProblem;
    NothingElseTouched(s.records, StampFor(ctx, now));
    var t := s.records.workloads;
    ChosenIsStamped(t, r.id, r, WorkloadProblem(s, r), ReplayedSequence(s, ctx), s.bounds.workloads,
                    if r.id in t then t[r.id].record.generation else 0, r.generation, StampFor(ctx, now));
  }

  lemma PlacementStamped(s: State, ctx: Context, now: I64, r: PlacementRecord, at: I64)
    requires PlacementVerdict(s, ctx, now, r, at).Store?
    ensures OthersStamped(s.records, PlacementVerdict(s, ctx, now, r, at).records, StampFor(ctx, now))
  {
    hide PlacementProblem, ReplayedSequence, LatestIsNewer;
    var stamp, after := StampFor(ctx, now), PlacementVerdict(s, ctx, now, r, at).records;
    NothingElseTouched(s.records, stamp);
    assert TableStamped(s.records.placements, after.placements, stamp);
    hide TableStamped;
  }

  lemma MigrationStamped(s: State, ctx: Context, now: I64, r: Migration.MigrationRecord)
    requires MigrationVerdict(s, ctx, now, r).Store?
    ensures OthersStamped(s.records, MigrationVerdict(s, ctx, now, r).records, StampFor(ctx, now))
  {
    hide MigrationProblem, ReplayedSequence;
    var stamp, after := StampFor(ctx, now), MigrationVerdict(s, ctx, now, r).records;
    NothingElseTouched(s.records, stamp);
    assert TableStamped(s.records.migrations, after.migrations, stamp);
    hide TableStamped;
  }

  lemma StageStamped(s: State, ctx: Context, now: I64, id: Id, g: U64, stage: Migration.Stage, detail: Text)
    requires StageVerdict(s, ctx, now, id, g, stage, detail).Store?
    ensures OthersStamped(s.records, StageVerdict(s, ctx, now, id, g, stage, detail).records, StampFor(ctx, now))
  {
    hide Migration.Advance, Migration.IsAcceptableEvent, Migration.IsTerminal, Migration.Last;
    var stamp, after := StampFor(ctx, now), StageVerdict(s, ctx, now, id, g, stage, detail).records;
    NothingElseTouched(s.records, stamp);
    assert TableStamped(s.records.migrations, after.migrations, stamp);
    hide TableStamped;
  }

  lemma PortabilityStamped(s: State, ctx: Context, now: I64, r: PortabilityRecord, c: Currentness, at: I64)
    requires PortabilityVerdict(s, ctx, now, r, c, at).Store?
    ensures OthersStamped(s.records, PortabilityVerdict(s, ctx, now, r, c, at).records, StampFor(ctx, now))
  {
    hide PortabilityRecord.Problem, SameAssessment;
    var stamp, after := StampFor(ctx, now), PortabilityVerdict(s, ctx, now, r, c, at).records;
    NothingElseTouched(s.records, stamp);
    assert TableStamped(s.records.portability, after.portability, stamp);
    hide TableStamped;
  }

  lemma StructureStamped(s: State, ctx: Context, now: I64, p: Publication)
    requires p.PublishedFederation? || p.PublishedSite? || p.PublishedDomain? || p.PublishedCluster?
    requires VerdictOn(s, ctx, now, p).Store?
    ensures OthersStamped(s.records, VerdictOn(s, ctx, now, p).records, StampFor(ctx, now))
  {
    hide TableStamped, SiteProblem, DomainProblem, ClusterChoice, FederationRecord.Problem, ReplayedSequence,
         ClusterTable, NewIncarnation;
    NothingElseTouched(s.records, StampFor(ctx, now));
  }

  lemma EvidenceStamped(s: State, ctx: Context, now: I64, p: Publication)
    requires p.PublishedRetirement? || p.PublishedCapability? || p.PublishedCapacity?
    requires VerdictOn(s, ctx, now, p).Store?
    ensures OthersStamped(s.records, VerdictOn(s, ctx, now, p).records, StampFor(ctx, now))
  {
    hide TableStamped, EvidenceProblem, FirstPoolProblem, HasDuplicates, Nominals, PoolIds, SamePools, SortPools,
         StampPools, Sum, KeysValid;
    NothingElseTouched(s.records, StampFor(ctx, now));
  }

  lemma PublicationStampsOthers(s: State, ctx: Context, now: I64, p: Publication)
    requires VerdictOn(s, ctx, now, p).Store?
    ensures OthersStamped(s.records, VerdictOn(s, ctx, now, p).records, StampFor(ctx, now))
  {
    hide OthersStamped, AcceleratorClassVerdict, RuntimeVerdict, BackendVerdict, PolicyVerdict, ArtifactVerdict,
         WorkloadClassVerdict, WorkloadVerdict, PlacementVerdict, MigrationVerdict, StageVerdict, PortabilityVerdict,
         FederationVerdict, SiteVerdict, DomainVerdict, ClusterVerdict, RetireVerdict, CapabilityVerdict, CapacityVerdict;
    match p
    case PublishedAcceleratorClass(r) => AcceleratorClassStamped(s, ctx, now, r);
    case PublishedRuntime(r) => RuntimeStamped(s, ctx, now, r);
    case PublishedBackend(r) => BackendStamped(s, ctx, now, r);
    case PublishedPolicy(r) => PolicyStamped(s, ctx, now, r);
    case PublishedArtifact(r) => ArtifactStamped(s, ctx, now, r);
    case PublishedWorkloadClass(r) => WorkloadClassStamped(s, ctx, now, r);
    case PublishedWorkload(r) => WorkloadStamped(s, ctx, now, r);
    case PublishedPlacement(r, at) => PlacementStamped(s, ctx, now, r, at);
    case PublishedMigration(r) => MigrationStamped(s, ctx, now, r);
    case PublishedStage(id, g, stage, detail) => StageStamped(s, ctx, now, id, g, stage, detail);
    case PublishedPortability(r, c, at) => PortabilityStamped(s, ctx, now, r, c, at);
    case _ =>
      if p.Structural() {
        StructureStamped(s, ctx, now, p);
      } else {
        EvidenceStamped(s, ctx, now, p);
      }
  }

  lemma StampedStaysAnchored<K, R>(
    a: map<K, Entry<R>>, b: map<K, Entry<R>>, before: map<PublisherKey, Authority>, after: map<PublisherKey, Authority>, stamp: Stamp)
    requires TableAnchored(a, before) && TableStamped(a, b, stamp) && before.Keys <= after.Keys
    requires stamp.publisher != [] && PublisherKey(stamp.publisher, stamp.boot) in before
    ensures TableAnchored(b, after)
  {
  }

  lemma RecordsStayAnchored(s: State, t: State, stamp: Stamp)
    requires Anchored(s) && OthersStamped(s.records, t.records, stamp) && s.publishers.Keys <= t.publishers.Keys
    requires stamp.publisher != [] && PublisherKey(stamp.publisher, stamp.boot) in s.publishers
    ensures Anchored(t)
  {
    hide TableAnchored, TableStamped;
    var a, b, before, after := s.records, t.records, s.publishers, t.publishers;
    StampedStaysAnchored(a.acceleratorClasses, b.acceleratorClasses, before, after, stamp);
    StampedStaysAnchored(a.runtimes, b.runtimes, before, after, stamp);
    StampedStaysAnchored(a.backends, b.backends, before, after, stamp);
    StampedStaysAnchored(a.policies, b.policies, before, after, stamp);
    StampedStaysAnchored(a.artifacts, b.artifacts, before, after, stamp);
    StampedStaysAnchored(a.workloadClasses, b.workloadClasses, before, after, stamp);
    StampedStaysAnchored(a.workloads, b.workloads, before, after, stamp);
    StampedStaysAnchored(a.placements, b.placements, before, after, stamp);
    StampedStaysAnchored(a.migrations, b.migrations, before, after, stamp);
    StampedStaysAnchored(a.portability, b.portability, before, after, stamp);
  }

  lemma KeptStaysAnchored<K, R>(t: map<K, Entry<R>>, before: map<PublisherKey, Authority>, after: map<PublisherKey, Authority>)
    requires TableAnchored(t, before) && before.Keys <= after.Keys
    ensures TableAnchored(t, after)
  {
  }

  /** No identity is lost and the ten tables are as they were. */
  ghost predicate OthersKept(s: State, t: State) {
    && s.publishers.Keys <= t.publishers.Keys
    && t.records.(clusters := s.records.clusters, federations := s.records.federations, sites := s.records.sites,
                  domains := s.records.domains) == s.records
  }

  lemma OthersKeptStayAnchored(s: State, t: State)
    requires Anchored(s) && OthersKept(s, t)
    ensures Anchored(t)
  {
    hide TableAnchored;
    var r := s.records;
    KeptStaysAnchored(r.acceleratorClasses, s.publishers, t.publishers);
    KeptStaysAnchored(r.runtimes, s.publishers, t.publishers);
    KeptStaysAnchored(r.backends, s.publishers, t.publishers);
    KeptStaysAnchored(r.policies, s.publishers, t.publishers);
    KeptStaysAnchored(r.artifacts, s.publishers, t.publishers);
    KeptStaysAnchored(r.workloadClasses, s.publishers, t.publishers);
    KeptStaysAnchored(r.workloads, s.publishers, t.publishers);
    KeptStaysAnchored(r.placements, s.publishers, t.publishers);
    KeptStaysAnchored(r.migrations, s.publishers, t.publishers);
    KeptStaysAnchored(r.portability, s.publishers, t.publishers);
  }

  lemma AnchoredAfterConclusion(s: State, ctx: Context, now: I64, v: Verdict)
    requires Anchored(s) && !v.Spoil? && (v.Store? ==> OthersStamped(s.records, v.records, StampFor(ctx, now)))
    ensures Anchored(Conclude(s, ctx, now, v).0)
  {
    hide Anchored, OthersStamped, AdvanceAuthority, CountAccepted, CountRefusal, CountMilestone, Bumped;
    var t := Conclude(s, ctx, now, v).0;
    assert s.publishers.Keys <= t.publishers.Keys;
    if Gate(s, ctx).Open? && v.Store? {
      RecordsStayAnchored(s, t, StampFor(ctx, now));
    } else {
      OthersKeptStayAnchored(s, t);
    }
  }

  lemma AnchoredAfterLoad(s: State, d: DurableState, order: FileOrder)
    requires OrderOf(order, d.records)
    ensures Anchored(Apply(s, d, order))
  {
    LoadLeavesNothingCurrent(s, d, order);
    hide Apply;
  }

  lemma SilentStepsKeepOthers(s: State, op: Op)
    requires !op.Ingest? && !op.Restore?
    ensures OthersKept(s, Step(s, op))
  {
    hide Demote, InvalidateClusters, Publish, Apply, Restores, RegisterPublisher;
    if op.Register? {
      RegistrationKeepsRecords(s, op.ctx, op.now);
      RegistrationKeepsIdentities(s, op.ctx, op.now);
    }
  }

  lemma RegistrationKeepsIdentities(s: State, ctx: Context, now: I64)
    ensures s.publishers.Keys <= RegisterPublisher(s, ctx, now).0.publishers.Keys
  {
    hide AdvanceAuthority, CountAccepted, CountRefusal, Members;
  }

  lemma SilentStepsStayAnchored(s: State, op: Op)
    requires Anchored(s) && !op.Ingest? && !op.Restore?
    ensures Anchored(Step(s, op))
  {
    hide Step, Anchored, OthersKept;
    SilentStepsKeepOthers(s, op);
    OthersKeptStayAnchored(s, Step(s, op));
  }

  lemma AnchoredStep(s: State, op: Op)
    requires Anchored(s) && op.Constructible()
    ensures Anchored(Step(s, op))
  {
    hide VerdictOn, Conclude, RegisterPublisher, FencePublisher, InvalidateDynamicEvidence, Apply, Loadable, Anchored,
         OthersStamped, OnlyStamped;
    match op
    case Ingest(ctx, now, p) =>
      PublicationStamps(s, ctx, now, p);
      if VerdictOn(s, ctx, now, p).Store? {
        PublicationStampsOthers(s, ctx, now, p);
      }
      AnchoredAfterConclusion(s, ctx, now, VerdictOn(s, ctx, now, p));
    case Restore(order) =>
      if Restores(s, order) {
        AnchoredAfterLoad(s, Saved(s), order);
      }
    case _ =>
      SilentStepsStayAnchored(s, op);
  }

  /** In every reachable state current records of the ten other tables carry the stamp of a known
      identity too; only a fence can make that identity one that may not speak. */
  lemma {:induction false} CurrentRecordsAreAnchored(bounds: Bounds, events: seq<Event>)
    requires Feasible(events)
    ensures Anchored(RunWithFiles(Initial(bounds), events))
  {
    if events == [] {
      return;
    }
    hide Step, Apply, Anchored;
    var before, e := events[..|events| - 1], events[|events| - 1];
    CurrentRecordsAreAnchored(bounds, before);
    var s := RunWithFiles(Initial(bounds), before);
    match e
    case Operation(op) =>
      AnchoredStep(s, op);
    case LoadFile(d, order) =>
      if Loadable(d, s.bounds) && OrderOf(order, d.records) {
        AnchoredAfterLoad(s, d, order);
      }
  }

  // ---------------------------------------------------------------------------------
  // What makes a record of any table current
  // ---------------------------------------------------------------------------------

  ghost predicate NothingElseBecomesCurrent(a: Records, b: Records) {
    && NothingNewlyCurrent(a.acceleratorClasses, b.acceleratorClasses) && NothingNewlyCurrent(a.runtimes, b.runtimes)
    && NothingNewlyCurrent(a.backends, b.backends) && NothingNewlyCurrent(a.policies, b.policies)
    && NothingNewlyCurrent(a.artifacts, b.artifacts) && NothingNewlyCurrent(a.workloadClasses, b.workloadClasses)
    && NothingNewlyCurrent(a.workloads, b.workloads) && NothingNewlyCurrent(a.placements, b.placements)
    && NothingNewlyCurrent(a.migrations, b.migrations) && NothingNewlyCurrent(a.portability, b.portability)
  }

  lemma TableKept<K, R>(t: map<K, Entry<R>>)
    ensures NothingNewlyCurrent(t, t)
  {
  }

  lemma TableEmptied<K, R>(a: map<K, Entry<R>>, b: map<K, Entry<R>>)
    requires NothingCurrent(b)
    ensures NothingNewlyCurrent(a, b)
  {
  }

  lemma OthersKeptMakesNothingCurrent(s: State, t: State)
    requires OthersKept(s, t)
    ensures NothingElseBecomesCurrent(s.records, t.records)
  {
    hide NothingNewlyCurrent;
    var r := s.records;
    TableKept(r.acceleratorClasses);
    TableKept(r.runtimes);
    TableKept(r.backends);
    TableKept(r.policies);
    TableKept(r.artifacts);
    TableKept(r.workloadClasses);
    TableKept(r.workloads);
    TableKept(r.placements);
    TableKept(r.migrations);
    TableKept(r.portability);
  }

  lemma UnchangedMakesNothingCurrent(s: State)
    ensures NothingBecomesCurrent(s.records, s.records) && NothingElseBecomesCurrent(s.records, s.records)
  {
    hide NothingElseBecomesCurrent, NothingBecomesCurrent;
    OthersKeptMakesNothingCurrent(s, s);
    NothingChanged(s.records);
  }

  lemma HistoricalMakesNothingCurrent(a: Records, b: Records)
    requires AllHistorical(b)
    ensures NothingElseBecomesCurrent(a, b) && NothingBecomesCurrent(a, b)
  {
    hide NothingNewlyCurrent, NothingCurrent;
    TableEmptied(a.acceleratorClasses, b.acceleratorClasses);
    TableEmptied(a.runtimes, b.runtimes);
    TableEmptied(a.backends, b.backends);
    TableEmptied(a.policies, b.policies);
    TableEmptied(a.artifacts, b.artifacts);
    TableEmptied(a.workloadClasses, b.workloadClasses);
    TableEmptied(a.workloads, b.workloads);
    TableEmptied(a.placements, b.placements);
    TableEmptied(a.migrations, b.migrations);
    TableEmptied(a.portability, b.portability);
    TableEmptied(a.clusters, b.clusters);
    TableEmptied(a.federations, b.federations);
    TableEmptied(a.sites, b.sites);
    TableEmptied(a.domains, b.domains);
  }

  /** In every one of the fourteen tables, what is current after a publication was current before,
      just like that, or carries the stamp of that very publication. */
  lemma PublicationStampsEverything(s: State, ctx: Context, now: I64, p: Publication)
    requires p.Constructible()
    ensures OnlyStamped(s.records, Publish(s, ctx, now, p).0.records, StampFor(ctx, now))
    ensures OthersStamped(s.records, Publish(s, ctx, now, p).0.records, StampFor(ctx, now))
  {
    hide VerdictOn, OnlyStamped, OthersStamped, StampFor;
    PublicationStamps(s, ctx, now, p);
    NothingTouched(s.records, StampFor(ctx, now));
    NothingElseTouched(s.records, StampFor(ctx, now));
    if VerdictOn(s, ctx, now, p).Store? {
      PublicationStampsOthers(s, ctx, now, p);
    }
  }

  /** Whatever the table, only an accepted publication of the current epoch by a registered, unfenced
      identity makes a record current, and it leaves its own stamp on it. */
  lemma OnlyFreshPublicationsMakeAnythingCurrent(s: State, op: Op)
    requires op.Constructible()
    ensures || (NothingBecomesCurrent(s.records, Step(s, op).records) && NothingElseBecomesCurrent(s.records, Step(s, op).records))
            || (&& op.Ingest? && FreshlyAccepted(s, op.ctx, op.now, op.publication)
                && OnlyStamped(s.records, Step(s, op).records, StampFor(op.ctx, op.now))
                && OthersStamped(s.records, Step(s, op).records, StampFor(op.ctx, op.now)))
  {
    hide Publish, FreshlyAccepted, OnlyStamped, OthersStamped, OthersKept, NothingBecomesCurrent, NothingElseBecomesCurrent,
         StampFor, Apply, Loadable, RegisterPublisher, FencePublisher, InvalidateDynamicEvidence, AllHistorical;
    match op
    case Ingest(ctx, now, p) =>
      PublicationMakesCurrent(s, ctx, now, p);
      PublicationStampsEverything(s, ctx, now, p);
      if Publish(s, ctx, now, p).0.records == s.records {
        UnchangedMakesNothingCurrent(s);
      }
    case Restore(order) =>
      if Restores(s, order) {
        LoadLeavesNothingCurrent(s, Saved(s), order);
        HistoricalMakesNothingCurrent(s.records, Step(s, op).records);
      } else {
        UnchangedMakesNothingCurrent(s);
      }
    case _ =>
      SilentStepsMakeNothingCurrent(s, op);
      SilentStepsKeepOthers(s, op);
      OthersKeptMakesNothingCurrent(s, Step(s, op));
  }
}
