/** Fences, epochs and the meaning of "current" over every run of the engine. */
module Fencing {
  import opened Foundation
  import opened Capability
  import opened Model
  import opened Observatory
  import Migration

  // ---------------------------------------------------------------------------------
  // Current records are backed by a registered, unfenced identity
  // ---------------------------------------------------------------------------------

  predicate Live(publishers: map<PublisherKey, Authority>, stamp: Stamp) {
    var key := PublisherKey(stamp.publisher, stamp.boot);
    stamp.publisher != [] && key in publishers && !publishers[key].fenced
  }

  ghost predicate TableBacked<K, R>(t: map<K, Entry<R>>, publishers: map<PublisherKey, Authority>) {
    forall id :: id in t && t[id].currentness.Current? ==> Live(publishers, t[id].stamp)
  }

  /** Every current cluster, federation, site and domain was stamped by a live identity. */
  ghost predicate Backed(s: State) {
    && TableBacked(s.records.clusters, s.publishers)
    && TableBacked(s.records.federations, s.publishers)
    && TableBacked(s.records.sites, s.publishers)
    && TableBacked(s.records.domains, s.publishers)
  }

  /** An entry that is current in `b` was already there, or carries this stamp. */
  ghost predicate TableStamped<K, R>(a: map<K, Entry<R>>, b: map<K, Entry<R>>, stamp: Stamp) {
    forall id :: id in b && b[id].currentness.Current? ==> (id in a && a[id] == b[id]) || b[id].stamp == stamp
  }

  ghost predicate OnlyStamped(a: Records, b: Records, stamp: Stamp) {
    && TableStamped(a.clusters, b.clusters, stamp)
    && TableStamped(a.federations, b.federations, stamp)
    && TableStamped(a.sites, b.sites, stamp)
    && TableStamped(a.domains, b.domains, stamp)
  }

  /** What a verdict leaves behind in the tables fences speak about. */
  ghost predicate Stamps(v: Verdict, s: State, stamp: Stamp) {
    !v.Spoil? && (v.Store? ==> v.bumps > 0 && OnlyStamped(s.records, v.records, stamp))
  }

  lemma NothingTouched(a: Records, stamp: Stamp)
    ensures OnlyStamped(a, a, stamp)
  {
  }

  lemma ChosenIsStamped<R>(
    table: map<Id, Entry<R>>, id: Id, record: R, problem: Option<ErrorCode>, replayed: bool,
    limit: nat, stored: U64, incoming: U64, stamp: Stamp)
    requires Choose(table, id, record, problem, replayed, limit, stored, incoming, stamp).Installed?
    ensures TableStamped(table, Choose(table, id, record, problem, replayed, limit, stored, incoming, stamp).table, stamp)
  {
  }

  lemma FederationStamps(s: State, ctx: Context, now: I64, r: FederationRecord)
    ensures Stamps(FederationVerdict(s, ctx, now, r), s, StampFor(ctx, now))
  {
    hide TableStamped, FederationRecord.Problem, ReplayedSequence, StampFor;
    NothingTouched(s.records, StampFor(ctx, now));
    var t := s.records.federations;
    var c := Choose(t, r.id, r, r.Problem(), ReplayedSequence(s, ctx), s.bounds.federations,
                    if r.id in t then t[r.id].record.generation else 0, r.generation, StampFor(ctx, now));
    if c.Installed? {
      ChosenIsStamped(t, r.id, r, r.Problem(), ReplayedSequence(s, ctx), s.bounds.federations,
                      if r.id in t then t[r.id].record.generation else 0, r.generation, StampFor(ctx, now));
    }
  }

  lemma SiteStamps(s: State, ctx: Context, now: I64, r: SiteRecord)
    ensures Stamps(SiteVerdict(s, ctx, now, r), s, StampFor(ctx, now))
  {
    hide TableStamped, SiteProblem, ReplayedSequence, StampFor;
    NothingTouched(s.records, StampFor(ctx, now));
    var t := s.records.sites;
    var c := Choose(t, r.id, r, SiteProblem(s, r), ReplayedSequence(s, ctx), s.bounds.sites,
                    if r.id in t then t[r.id].record.generation else 0, r.generation, StampFor(ctx, now));
    if c.Installed? {
      ChosenIsStamped(t, r.id, r, SiteProblem(s, r), ReplayedSequence(s, ctx), s.bounds.sites,
                      if r.id in t then t[r.id].record.generation else 0, r.generation, StampFor(ctx, now));
    }
  }

  lemma DomainStamps(s: State, ctx: Context, now: I64, r: DomainRecord)
    ensures Stamps(DomainVerdict(s, ctx, now, r), s, StampFor(ctx, now))
  {
    hide TableStamped, DomainProblem, ReplayedSequence, StampFor;
    NothingTouched(s.records, StampFor(ctx, now));
    var t := s.records.domains;
    var c := Choose(t, r.id, r, DomainProblem(s, r), ReplayedSequence(s, ctx), s.bounds.domains,
                    if r.id in t then t[r.id].record.topologyGeneration else 0, r.topologyGeneration, StampFor(ctx, now));
    if c.Installed? {
      ChosenIsStamped(t, r.id, r, DomainProblem(s, r), ReplayedSequence(s, ctx), s.bounds.domains,
                      if r.id in t then t[r.id].record.topologyGeneration else 0, r.topologyGeneration, StampFor(ctx, now));
    }
  }

  lemma ClusterStamps(s: State, ctx: Context, now: I64, r: ClusterRecord)
    ensures Stamps(ClusterVerdict(s, ctx, now, r), s, StampFor(ctx, now))
  {
    hide ClusterProblem, ReplayedSequence, StampFor, NewIncarnation, Cleared;
    var c := ClusterChoice(s, ctx, now, r);
    if c.Installed? {
      assert TableStamped(s.records.clusters, ClusterTable(s, ctx, now, r), StampFor(ctx, now));
    }
    hide TableStamped;
    NothingTouched(s.records, StampFor(ctx, now));
  }

  lemma RegistrationStamps(s: State, ctx: Context, now: I64, p: Publication)
    requires p.Structural()
    ensures Stamps(VerdictOn(s, ctx, now, p), s, StampFor(ctx, now))
  {
    hide OnlyStamped, WorkloadProblem, AcceleratorClassRecord.Problem, RuntimeRecord.Problem, BackendRecord.Problem,
         PolicyRecord.Problem, ArtifactRecord.Problem, WorkloadClassRecord.Problem, ReplayedSequence, StampFor,
         FederationVerdict, SiteVerdict, DomainVerdict, ClusterVerdict;
    match p
    case PublishedFederation(r) => FederationStamps(s, ctx, now, r);
    case PublishedSite(r) => SiteStamps(s, ctx, now, r);
    case PublishedDomain(r) => DomainStamps(s, ctx, now, r);
    case PublishedCluster(r) => ClusterStamps(s, ctx, now, r);
    case _ =>
      hide Stamps;
      OtherRegistrationStamps(s, ctx, now, p);
  }

  lemma OtherRegistrationStamps(s: State, ctx: Context, now: I64, p: Publication)
    requires p.Structural() && !p.PublishedFederation? && !p.PublishedSite? && !p.PublishedDomain? && !p.PublishedCluster?
    ensures Stamps(VerdictOn(s, ctx, now, p), s, StampFor(ctx, now))
  {
    hide TableStamped, WorkloadProblem, AcceleratorClassRecord.Problem, RuntimeRecord.Problem, BackendRecord.Problem,
         PolicyRecord.Problem, ArtifactRecord.Problem, WorkloadClassRecord.Problem, ReplayedSequence, StampFor;
    NothingTouched(s.records, StampFor(ctx, now));
  }

  lemma CapabilityStamps(s: State, ctx: Context, now: I64, p: Publication)
    requires p.PublishedCapability? && p.Constructible()
    ensures Stamps(VerdictOn(s, ctx, now, p), s, StampFor(ctx, now))
  {
    hide EvidenceProblem, Sorted, StampFor;
  }

  lemma EvidenceStamps(s: State, ctx: Context, now: I64, p: Publication)
    requires p.PublishedRetirement? || p.PublishedCapacity?
    ensures Stamps(VerdictOn(s, ctx, now, p), s, StampFor(ctx, now))
  {
    hide EvidenceProblem, FirstPoolProblem, HasDuplicates, Nominals, PoolIds, SamePools, SortPools, StampPools, Sum, StampFor;
  }

  lemma ActivityStamps(s: State, ctx: Context, now: I64, p: Publication)
    requires p.PublishedPlacement? || p.PublishedMigration? || p.PublishedStage? || p.PublishedPortability?
    ensures Stamps(VerdictOn(s, ctx, now, p), s, StampFor(ctx, now))
  {
    hide TableStamped, PlacementProblem, MigrationProblem, LatestIsNewer, PortabilityRecord.Problem, SameAssessment,
         Migration.Advance, Migration.IsAcceptableEvent, Migration.IsTerminal, Migration.Last, ReplayedSequence, StampFor;
    NothingTouched(s.records, StampFor(ctx, now));
  }

  /** Whatever a publication makes current carries the publication's own stamp. */
  lemma PublicationStamps(s: State, ctx: Context, now: I64, p: Publication)
    requires p.Constructible()
    ensures Stamps(VerdictOn(s, ctx, now, p), s, StampFor(ctx, now))
  {
    hide VerdictOn, Stamps;
    if p.Structural() {
      RegistrationStamps(s, ctx, now, p);
    } else if p.PublishedCapability? {
      CapabilityStamps(s, ctx, now, p);
    } else if p.PublishedRetirement? || p.PublishedCapacity? {
      EvidenceStamps(s, ctx, now, p);
    } else {
      ActivityStamps(s, ctx, now, p);
    }
  }

  // ---------------------------------------------------------------------------------
  // Every step keeps current records backed
  // ---------------------------------------------------------------------------------

  /** Identities that were live stay live. */
  ghost predicate KeepsLive(before: map<PublisherKey, Authority>, after: map<PublisherKey, Authority>) {
    forall k :: k in before && !before[k].fenced ==> k in after && !after[k].fenced
  }

  lemma BackedAfterConclusion(s: State, ctx: Context, now: I64, v: Verdict)
    requires Backed(s) && Stamps(v, s, StampFor(ctx, now))
    ensures Backed(Conclude(s, ctx, now, v).0)
  {
    assert KeepsLive(s.publishers, Conclude(s, ctx, now, v).0.publishers);
  }

  lemma BackedAfterRegistration(s: State, ctx: Context, now: I64)
    requires Backed(s)
    ensures Backed(RegisterPublisher(s, ctx, now).0)
  {
    assert KeepsLive(s.publishers, RegisterPublisher(s, ctx, now).0.publishers);
  }

  lemma BackedAfterFence(s: State, publisher: Id, boot: U64, reason: Text)
    requires Backed(s)
    ensures Backed(FencePublisher(s, publisher, boot, reason).0)
  {
  }

  lemma BackedAfterRestore(s: State, d: DurableState, order: FileOrder)
    requires OrderOf(order, d.records) && NothingCurrent(d.records.federations) && NothingCurrent(d.records.sites)
    ensures Backed(Apply(s, d, order))
  {
    hide RebuildLatest, RebuildMigrations;
  }

  lemma BackedStep(s: State, op: Op)
    requires Backed(s) && op.Constructible()
    ensures Backed(Step(s, op))
  {
    hide VerdictOn, Conclude, RegisterPublisher, FencePublisher, Apply, Stamps, Loadable;
    match op
    case Register(ctx, now) =>
      BackedAfterRegistration(s, ctx, now);
    case Ingest(ctx, now, p) =>
      PublicationStamps(s, ctx, now, p);
      BackedAfterConclusion(s, ctx, now, VerdictOn(s, ctx, now, p));
    case Fence(publisher, boot, reason) =>
      BackedAfterFence(s, publisher, boot, reason);
    case Invalidate =>
    case Restore(order) =>
      if Restores(s, order) {
        BackedAfterRestore(s, Saved(s), order);
      }
  }

  /** In every reachable state a current cluster, federation, site or domain was stamped by
      an identity that is registered and not fenced. */
  lemma {:induction false} CurrentRecordsAreBacked(bounds: Bounds, ops: seq<Op>)
    requires Constructible(ops)
    ensures Backed(Run(Initial(bounds), ops))
  {
    if ops != [] {
      CurrentRecordsAreBacked(bounds, ops[..|ops| - 1]);
      BackedStep(Run(Initial(bounds), ops[..|ops| - 1]), ops[|ops| - 1]);
    }
  }

  /** Whatever is current in `b` was already there, just like that. */
  ghost predicate NothingNewlyCurrent<K, R>(a: map<K, Entry<R>>, b: map<K, Entry<R>>) {
    forall id :: id in b && b[id].currentness.Current? ==> id in a && a[id] == b[id]
  }

  ghost predicate NothingBecomesCurrent(a: Records, b: Records) {
    && NothingNewlyCurrent(a.clusters, b.clusters)
    && NothingNewlyCurrent(a.federations, b.federations)
    && NothingNewlyCurrent(a.sites, b.sites)
    && NothingNewlyCurrent(a.domains, b.domains)
  }

  /** The publication was let through the gate and changed what is stored. */
  ghost predicate FreshlyAccepted(s: State, ctx: Context, now: I64, p: Publication) {
    && Publish(s, ctx, now, p).1.Ok? && !Publish(s, ctx, now, p).1.value.disposition.Duplicate?
    && ctx.epoch == s.epoch
    && KeyOf(ctx) in s.publishers && !s.publishers[KeyOf(ctx)].fenced
    && ctx.sequence >= s.publishers[KeyOf(ctx)].watermark
  }

  lemma PublicationMakesCurrent(s: State, ctx: Context, now: I64, p: Publication)
    requires p.Constructible()
    ensures || Publish(s, ctx, now, p).0.records == s.records
            || (&& FreshlyAccepted(s, ctx, now, p)
                && OnlyStamped(s.records, Publish(s, ctx, now, p).0.records, StampFor(ctx, now)))
  {
    hide VerdictOn, OnlyStamped, StampFor;
    PublicationStamps(s, ctx, now, p);
    StoringIsNoDuplicate(s, ctx, now, p);
  }

  lemma RegistrationKeepsRecords(s: State, ctx: Context, now: I64)
    ensures RegisterPublisher(s, ctx, now).0.records == s.records
  {
    hide AdvanceAuthority, CountAccepted, CountRefusal, Members;
  }

  lemma NothingChanged(r: Records)
    ensures NothingBecomesCurrent(r, r)
  {
  }

  lemma DemotionMakesNothingCurrent<R>(t: map<Id, Entry<R>>, key: PublisherKey)
    ensures NothingNewlyCurrent(t, Demote(t, key)) && NothingNewlyCurrent(t, t)
  {
  }

  lemma FenceMakesNothingCurrent(s: State, publisher: Id, boot: U64, reason: Text)
    ensures NothingBecomesCurrent(s.records, FencePublisher(s, publisher, boot, reason).0.records)
  {
    hide NothingNewlyCurrent, Demote;
    var key, r := PublisherKey(publisher, boot), s.records;
    if publisher == [] || boot == 0 || key !in s.publishers {
      NothingChanged(r);
    } else {
      var after := FencePublisher(s, publisher, boot, reason).0.records;
      assert after.clusters == Demote(r.clusters, key) && after.federations == Demote(r.federations, key);
      assert after.sites == Demote(r.sites, key) && after.domains == Demote(r.domains, key);
      hide FencePublisher;
      DemotionMakesNothingCurrent(r.clusters, key);
      DemotionMakesNothingCurrent(r.federations, key);
      DemotionMakesNothingCurrent(r.sites, key);
      DemotionMakesNothingCurrent(r.domains, key);
    }
  }

  lemma InvalidationMakesNothingCurrent(s: State)
    ensures NothingBecomesCurrent(s.records, InvalidateDynamicEvidence(s).records)
  {
    hide Dormant;
  }

  lemma SilentStepsMakeNothingCurrent(s: State, op: Op)
    requires !op.Ingest? && !op.Restore?
    ensures NothingBecomesCurrent(s.records, Step(s, op).records)
  {
    hide RegisterPublisher, FencePublisher, InvalidateDynamicEvidence, NothingBecomesCurrent, Publish, Apply, Restores;
    match op
    case Register(ctx, now) =>
      RegistrationKeepsRecords(s, ctx, now);
      NothingChanged(s.records);
    case Fence(publisher, boot, reason) =>
      FenceMakesNothingCurrent(s, publisher, boot, reason);
    case Invalidate =>
      InvalidationMakesNothingCurrent(s);
  }

  /** Only an accepted publication of the current epoch by a registered, unfenced identity
      makes a record current, and it leaves its own stamp on it. */
  lemma OnlyFreshPublicationsMakeCurrent(s: State, op: Op)
    requires op.Constructible()
    ensures || NothingBecomesCurrent(s.records, Step(s, op).records)
            || (&& op.Ingest? && FreshlyAccepted(s, op.ctx, op.now, op.publication)
                && OnlyStamped(s.records, Step(s, op).records, StampFor(op.ctx, op.now)))
  {
    hide Publish, FreshlyAccepted, OnlyStamped, StampFor, Apply, Loadable, RegisterPublisher, FencePublisher,
         InvalidateDynamicEvidence;
    match op
    case Ingest(ctx, now, p) =>
      PublicationMakesCurrent(s, ctx, now, p);
    case Restore(order) =>
      if Restores(s, order) {
        LoadLeavesNothingCurrent(s, Saved(s), order);
      }
    case _ =>
      SilentStepsMakeNothingCurrent(s, op);
  }

  lemma StoringIsNoDuplicate(s: State, ctx: Context, now: I64, p: Publication)
    ensures VerdictOn(s, ctx, now, p).Store? ==> !VerdictOn(s, ctx, now, p).disposition.Duplicate?
  {
    hide Sum, SortPools, HasDuplicates, Sorted, Migration.Advance;
  }

  // ---------------------------------------------------------------------------------
  // The tables a fence does not demote
  // ---------------------------------------------------------------------------------

  /** Some current entry of the table was published by the identity. */
  ghost predicate CurrentUnder<K, R>(t: map<K, Entry<R>>, key: PublisherKey) {
    exists id :: id in t && t[id].currentness.Current? && StampedBy(t[id].stamp, key)
  }

  /** A table that is left as it is stays backed exactly when it has no current entry of the
      fenced identity. */
  ghost predicate SparedByFence<K, R>(
    before: map<K, Entry<R>>, after: map<K, Entry<R>>, s: State, t: State, key: PublisherKey)
  {
    && after == before
    && (TableBacked(before, s.publishers) ==> (TableBacked(after, t.publishers) <==> !CurrentUnder(before, key)))
  }

  lemma FenceSparesTable<K, R>(table: map<K, Entry<R>>, s: State, publisher: Id, boot: U64, reason: Text)
    requires publisher != [] && boot != 0
    ensures SparedByFence(table, table, s, FencePublisher(s, publisher, boot, reason).0, PublisherKey(publisher, boot))
  {
    var key := PublisherKey(publisher, boot);
    var t := FencePublisher(s, publisher, boot, reason).0;
    if TableBacked(table, s.publishers) && CurrentUnder(table, key) {
      var id :| id in table && table[id].currentness.Current? && StampedBy(table[id].stamp, key);
      assert !Live(t.publishers, table[id].stamp);
    }
  }

  /** A fence demotes what the identity made current among clusters, federations, sites and
      domains, and leaves the ten other tables as they are: each of these stays backed exactly
      when the fenced identity has no current entry in it. */
  lemma FenceSparesOtherTables(s: State, publisher: Id, boot: U64, reason: Text)
    requires publisher != [] && boot != 0
    ensures var key := PublisherKey(publisher, boot);
            var t := FencePublisher(s, publisher, boot, reason).0;
            && SparedByFence(s.records.acceleratorClasses, t.records.acceleratorClasses, s, t, key)
            && SparedByFence(s.records.runtimes, t.records.runtimes, s, t, key)
            && SparedByFence(s.records.backends, t.records.backends, s, t, key)
            && SparedByFence(s.records.policies, t.records.policies, s, t, key)
            && SparedByFence(s.records.artifacts, t.records.artifacts, s, t, key)
            && SparedByFence(s.records.workloadClasses, t.records.workloadClasses, s, t, key)
            && SparedByFence(s.records.workloads, t.records.workloads, s, t, key)
            && SparedByFence(s.records.placements, t.records.placements, s, t, key)
            && SparedByFence(s.records.migrations, t.records.migrations, s, t, key)
            && SparedByFence(s.records.portability, t.records.portability, s, t, key)
  {
    hide SparedByFence, Demote;
    var r := s.records;
    FenceSparesTable(r.acceleratorClasses, s, publisher, boot, reason);
    FenceSparesTable(r.runtimes, s, publisher, boot, reason);
    FenceSparesTable(r.backends, s, publisher, boot, reason);
    FenceSparesTable(r.policies, s, publisher, boot, reason);
    FenceSparesTable(r.artifacts, s, publisher, boot, reason);
    FenceSparesTable(r.workloadClasses, s, publisher, boot, reason);
    FenceSparesTable(r.workloads, s, publisher, boot, reason);
    FenceSparesTable(r.placements, s, publisher, boot, reason);
    FenceSparesTable(r.migrations, s, publisher, boot, reason);
    FenceSparesTable(r.portability, s, publisher, boot, reason);
  }

  /** The four other tables: nothing of the fenced identity stays current in them. */
  lemma FenceDemotesFourTables(s: State, publisher: Id, boot: U64, reason: Text)
    requires publisher != [] && boot != 0 && PublisherKey(publisher, boot) in s.publishers
    ensures var key := PublisherKey(publisher, boot);
            var r := FencePublisher(s, publisher, boot, reason).0.records;
            && !CurrentUnder(r.clusters, key) && !CurrentUnder(r.federations, key)
            && !CurrentUnder(r.sites, key) && !CurrentUnder(r.domains, key)
  {
  }

  // ---------------------------------------------------------------------------------
  // A fence is permanent
  // ---------------------------------------------------------------------------------

  predicate Fenced(s: State, key: PublisherKey) {
    key in s.publishers && s.publishers[key].fenced
  }

  lemma FenceTakesEffect(s: State, publisher: Id, boot: U64, reason: Text)
    requires publisher != [] && boot != 0
    ensures Fenced(FencePublisher(s, publisher, boot, reason).0, PublisherKey(publisher, boot))
  {
  }

  lemma FenceSurvivesStep(s: State, op: Op, key: PublisherKey)
    requires Fenced(s, key)
    ensures Fenced(Step(s, op), key)
    ensures Step(s, op).publishers[key].watermark == s.publishers[key].watermark
    ensures (op.Register? || op.Ingest?) && KeyOf(op.ctx) == key ==>
              && ReplyTo(s, op) == Err(if op.ctx.Valid() then FencedPublisher else InvalidArgument)
              && Step(s, op).records == s.records
  {
    hide VerdictOn, Loadable, RebuildLatest, RebuildMigrations;
  }

  /** Once fenced, an identity stays fenced through every later operation and restart, its
      watermark is frozen, and everything it sends is refused. */
  lemma {:induction false} FenceIsPermanent(s: State, ops: seq<Op>, key: PublisherKey)
    requires Fenced(s, key)
    ensures Fenced(Run(s, ops), key)
    ensures Run(s, ops).publishers[key].watermark == s.publishers[key].watermark
    ensures forall op: Op :: (op.Register? || op.Ingest?) && KeyOf(op.ctx) == key ==>
              && ReplyTo(Run(s, ops), op) == Err(if op.ctx.Valid() then FencedPublisher else InvalidArgument)
              && Step(Run(s, ops), op).records == Run(s, ops).records
  {
    hide Step, ReplyTo;
    if ops != [] {
      FenceIsPermanent(s, ops[..|ops| - 1], key);
      FenceSurvivesStep(Run(s, ops[..|ops| - 1]), ops[|ops| - 1], key);
    }
    forall op: Op | (op.Register? || op.Ingest?) && KeyOf(op.ctx) == key
      ensures ReplyTo(Run(s, ops), op) == Err(if op.ctx.Valid() then FencedPublisher else InvalidArgument)
      ensures Step(Run(s, ops), op).records == Run(s, ops).records
    {
      FenceSurvivesStep(Run(s, ops), op, key);
    }
  }

  // ---------------------------------------------------------------------------------
  // Restores
  // ---------------------------------------------------------------------------------

  ghost predicate AllHistorical(r: Records) {
    && NothingCurrent(r.federations) && NothingCurrent(r.sites) && NothingCurrent(r.clusters)
    && NothingCurrent(r.acceleratorClasses) && NothingCurrent(r.runtimes) && NothingCurrent(r.backends)
    && NothingCurrent(r.domains) && NothingCurrent(r.policies) && NothingCurrent(r.artifacts)
    && NothingCurrent(r.workloadClasses) && NothingCurrent(r.workloads) && NothingCurrent(r.placements)
    && NothingCurrent(r.migrations) && NothingCurrent(r.portability)
  }

  lemma TableIsHistorical<K, R>(t: map<K, Entry<R>>)
    ensures NothingCurrent(StaleTable(t)) && NothingCurrent(History(t))
  {
  }

  /** Whatever file is loaded, nothing in the loaded model is current. */
  lemma LoadLeavesNothingCurrent(s: State, d: DurableState, order: FileOrder)
    requires OrderOf(order, d.records)
    ensures AllHistorical(Apply(s, d, order).records)
  {
    hide RebuildLatest, RebuildMigrations, StaleTable, History, NothingCurrent;
    var r := d.records;
    TableIsHistorical(r.federations);
    TableIsHistorical(r.sites);
    TableIsHistorical(r.acceleratorClasses);
    TableIsHistorical(r.runtimes);
    TableIsHistorical(r.backends);
    TableIsHistorical(r.domains);
    TableIsHistorical(r.policies);
    TableIsHistorical(r.artifacts);
    TableIsHistorical(r.workloadClasses);
    TableIsHistorical(r.workloads);
    TableIsHistorical(r.placements);
    TableIsHistorical(r.migrations);
    TableIsHistorical(r.portability);
    ClustersAreHistorical(r.clusters);
  }

  lemma ClustersAreHistorical(t: map<Id, Entry<ClusterRecord>>)
    ensures NothingCurrent(InvalidateClusters(t))
  {
  }

  /** Saving and restoring keeps every identity with its watermark and fence and opens a new
      epoch. */
  lemma RestoreKeepsAuthority(s: State, order: FileOrder)
    requires OrderOf(order, Saved(s).records)
    ensures var after := Apply(s, Saved(s), order);
            && after.publishers.Keys == s.publishers.Keys
            && (forall k :: k in s.publishers ==> WatermarkOf(after.publishers[k]) == WatermarkOf(s.publishers[k]))
            && after.epoch == (if s.epoch == 0 then 1 else Next(s.epoch))
  {
    hide RebuildLatest, RebuildMigrations, StaleTable, History, InvalidateClusters;
  }

  /** The restored epoch refuses every publication of the epoch before it, except at the last
      epoch, which has no successor. */
  lemma RestoreFencesOldEpoch(s: State, order: FileOrder, ctx: Context)
    requires OrderOf(order, Saved(s).records) && s.epoch != 0
    requires ctx.Valid() && ctx.epoch == s.epoch && KeyOf(ctx) in s.publishers && !s.publishers[KeyOf(ctx)].fenced
    ensures Gate(Apply(s, Saved(s), order), ctx) == Closed(StaleEpoch) <==> s.epoch != U64_MAX
  {
    hide RebuildLatest, RebuildMigrations;
  }

  lemma {:induction false} EpochsNeverFall(s: State, ops: seq<Op>)
    ensures Run(s, ops).epoch >= s.epoch
  {
    hide VerdictOn, Loadable, RebuildLatest, RebuildMigrations;
    if ops != [] {
      EpochsNeverFall(s, ops[..|ops| - 1]);
    }
  }

  /** An epoch that was left behind by a restore is never accepted again, by any identity,
      whatever happens later. */
  lemma OldEpochStaysRefused(s: State, order: FileOrder, ops: seq<Op>, ctx: Context, now: I64, p: Publication)
    requires Restores(s, order) && s.epoch != U64_MAX && ctx.epoch == s.epoch
    ensures var later := Run(Step(s, Restore(order)), ops);
            Publish(later, ctx, now, p).1.Err? && Publish(later, ctx, now, p).0.records == later.records
  {
    hide VerdictOn, Loadable, RebuildLatest, RebuildMigrations;
    EpochsNeverFall(Step(s, Restore(order)), ops);
  }

  /** Registration of an identity the engine has never seen does not look at the epoch: it
      succeeds exactly when there is room. What the identity then publishes under a foreign
      epoch is refused. */
  lemma FreshRegistrationIgnoresEpoch(s: State, ctx: Context, now: I64)
    requires ctx.Valid() && KeyOf(ctx) !in s.publishers
    ensures RegisterPublisher(s, ctx, now).1.Ok? <==>
              && |s.publishers| < s.bounds.publishers
              && |Members(s.publishers, ctx.federation)| < s.bounds.publishersPerFederation
    ensures RegisterPublisher(s, ctx, now).1.Ok? && ctx.epoch != s.epoch ==>
              forall next: Context, p: Publication :: next.Valid() && KeyOf(next) == KeyOf(ctx) && next.epoch == ctx.epoch ==>
                Publish(RegisterPublisher(s, ctx, now).0, next, now, p).1 == Err(StaleEpoch)
  {
    hide VerdictOn;
  }

  /** Loading any state file makes its fences the engine's fences, no more and no less. */
  lemma LoadReplacesFences(s: State, d: DurableState, order: FileOrder, key: PublisherKey)
    requires OrderOf(order, d.records)
    ensures Fenced(Apply(s, d, order), key) <==> key in d.watermarks && d.watermarks[key].fenced
  {
    hide RebuildLatest, RebuildMigrations;
  }

  /** So a state file written before a fence forgets the fence when it is loaded after it. */
  lemma OldStateFileForgetsFence(s: State, key: PublisherKey, reason: Text, order: FileOrder)
    requires key.publisher != [] && key.boot != 0 && !Fenced(s, key) && OrderOf(order, Saved(s).records)
    ensures var fenced := FencePublisher(s, key.publisher, key.boot, reason).0;
            Fenced(fenced, key) && !Fenced(Apply(fenced, Saved(s), order), key)
  {
    FenceTakesEffect(s, key.publisher, key.boot, reason);
    LoadReplacesFences(FencePublisher(s, key.publisher, key.boot, reason).0, Saved(s), order, key);
  }

  // ---------------------------------------------------------------------------------
  // Runs that load any state file
  // ---------------------------------------------------------------------------------

  /** Besides the operations of a run, an engine may load any file that validates. */
  datatype Event = Operation(op: Op) | LoadFile(file: DurableState, order: FileOrder)

  ghost function Happen(s: State, e: Event): State {
    match e
    case Operation(op) => Step(s, op)
    case LoadFile(d, order) => if Loadable(d, s.bounds) && OrderOf(order, d.records) then Apply(s, d, order) else s
  }

  ghost function RunWithFiles(s: State, events: seq<Event>): State {
    if events == [] then s else Happen(RunWithFiles(s, events[..|events| - 1]), events[|events| - 1])
  }

  ghost predicate Feasible(events: seq<Event>) {
    forall i :: 0 <= i < |events| && events[i].Operation? ==> events[i].op.Constructible()
  }

  /** Current records stay backed whatever valid state files are loaded in between. */
  lemma {:induction false} CurrentRecordsAreBackedWithFiles(bounds: Bounds, events: seq<Event>)
    requires Feasible(events)
    ensures Backed(RunWithFiles(Initial(bounds), events))
  {
    hide Step, Apply;
    if events != [] {
      var before, e := events[..|events| - 1], events[|events| - 1];
      CurrentRecordsAreBackedWithFiles(bounds, before);
      var s := RunWithFiles(Initial(bounds), before);
      match e
      case Operation(op) =>
        BackedStep(s, op);
      case LoadFile(d, order) =>
        if Loadable(d, s.bounds) && OrderOf(order, d.records) {
          BackedAfterRestore(s, d, order);
        }
    }
  }
}
