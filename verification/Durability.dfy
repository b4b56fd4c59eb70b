/** Internal consistency of the stored records over every run, and exactly when a saved state
    can be loaded again (src/observatory.cpp, src/state_store.cpp). */
module Durability {
  import opened Foundation
  import opened Capability
  import opened Capacity
  import opened Model
  import opened Observatory
  import opened Fencing
  import Migration

  // ---------------------------------------------------------------------------------
  // Consistent records
  // ---------------------------------------------------------------------------------

  ghost predicate FederationsSound(r: Records) {
    forall id :: id in r.federations ==> FederationSound(r, id)
  }

  ghost predicate SitesSound(r: Records) {
    forall id :: id in r.sites ==> SiteSound(r, id)
  }

  ghost predicate ClustersSound(r: Records) {
    forall id :: id in r.clusters ==> ClusterSound(r, id)
  }

  ghost predicate WorkloadsSound(r: Records) {
    forall id :: id in r.workloads ==> WorkloadSound(r, id)
  }

  ghost predicate PlacementsSound(r: Records) {
    forall id :: id in r.placements ==> PlacementSound(r, id)
  }

  ghost predicate MigrationsSound(r: Records) {
    forall id :: id in r.migrations ==> MigrationResolved(r, id) && Migration.Sound(r.migrations[id].record)
  }

  ghost predicate AssessmentsSound(r: Records) {
    forall key :: key in r.portability ==> PortabilitySound(r, key)
  }

  /** Every record is filed under its own identifier, validates, and resolves its references. */
  ghost predicate Consistent(r: Records) {
    && FederationsSound(r) && SitesSound(r) && ClustersSound(r) && WorkloadsSound(r)
    && PlacementsSound(r) && MigrationsSound(r) && AssessmentsSound(r)
  }

  // ---------------------------------------------------------------------------------
  // Consistency is about content and survives growth
  // ---------------------------------------------------------------------------------

  /** No record of `a` disappears in `b`. */
  ghost predicate Grows(a: Records, b: Records) {
    && a.federations.Keys <= b.federations.Keys && a.sites.Keys <= b.sites.Keys
    && a.clusters.Keys <= b.clusters.Keys && a.acceleratorClasses.Keys <= b.acceleratorClasses.Keys
    && a.runtimes.Keys <= b.runtimes.Keys && a.policies.Keys <= b.policies.Keys
    && a.artifacts.Keys <= b.artifacts.Keys && a.workloadClasses.Keys <= b.workloadClasses.Keys
    && a.workloads.Keys <= b.workloads.Keys
  }

  /** The same records under different annotations. */
  ghost predicate SameContent<K, R>(a: map<K, Entry<R>>, b: map<K, Entry<R>>) {
    b.Keys == a.Keys && forall id :: id in a ==> b[id].record == a[id].record
  }

  ghost predicate SameClusters(a: map<Id, Entry<ClusterRecord>>, b: map<Id, Entry<ClusterRecord>>) {
    b.Keys == a.Keys && forall id :: id in a ==> Cleared(b[id].record) == Cleared(a[id].record)
  }

  lemma NothingMissingAfterGrowth<T>(ids: seq<Id>, a: map<Id, T>, b: map<Id, T>)
    requires a.Keys <= b.Keys && !SomeMissing(ids, a)
    ensures !SomeMissing(ids, b)
  {
    forall i | 0 <= i < |ids| ensures ids[i] in b {
      assert ids[i] in a.Keys;
    }
  }

  lemma SitesSurviveGrowth(a: Records, b: Records)
    requires FederationsSound(a) && SitesSound(a) && Grows(a, b)
    ensures SameContent(a.federations, b.federations) ==> FederationsSound(b)
    ensures SameContent(a.sites, b.sites) ==> SitesSound(b)
  {
    hide FederationRecord.Problem, SiteRecord.Problem;
    assert SameContent(a.federations, b.federations) ==> forall id :: id in b.federations ==> FederationSound(a, id);
    assert SameContent(a.sites, b.sites) ==> forall id :: id in b.sites ==> SiteSound(a, id);
  }

  lemma ClustersSurviveGrowth(a: Records, b: Records)
    requires ClustersSound(a) && Grows(a, b) && SameClusters(a.clusters, b.clusters)
    ensures ClustersSound(b)
  {
    hide ClusterRecord.Problem, SomeMissing, Cleared;
    forall id | id in b.clusters ensures ClusterSound(b, id) {
      assert ClusterSound(a, id);
      var x := b.clusters[id].record;
      ClearingKeepsBindings(a.clusters[id].record, x);
      NothingMissingAfterGrowth(x.acceleratorClasses, a.acceleratorClasses, b.acceleratorClasses);
      NothingMissingAfterGrowth(x.runtimes, a.runtimes, b.runtimes);
    }
  }

  lemma WorkloadsSurviveGrowth(a: Records, b: Records)
    requires WorkloadsSound(a) && Grows(a, b) && SameContent(a.workloads, b.workloads)
    ensures WorkloadsSound(b)
  {
    hide WorkloadRecord.Problem;
    forall id | id in b.workloads ensures WorkloadSound(b, id) {
      assert WorkloadSound(a, id);
    }
  }

  lemma PlacementsSurviveGrowth(a: Records, b: Records)
    requires PlacementsSound(a) && Grows(a, b) && SameContent(a.placements, b.placements)
    ensures PlacementsSound(b)
  {
    hide PlacementRecord.Problem, SomeMissing, PlacementRecord.CandidateIds;
    forall id | id in b.placements ensures PlacementSound(b, id) {
      assert PlacementSound(a, id);
      NothingMissingAfterGrowth(b.placements[id].record.CandidateIds(), a.clusters, b.clusters);
    }
  }

  lemma MigrationsSurviveGrowth(a: Records, b: Records)
    requires MigrationsSound(a) && Grows(a, b) && SameContent(a.migrations, b.migrations)
    ensures MigrationsSound(b)
  {
    hide Migration.Sound;
    forall id | id in b.migrations ensures MigrationResolved(b, id) && Migration.Sound(b.migrations[id].record) {
      assert MigrationResolved(a, id) && Migration.Sound(a.migrations[id].record);
    }
  }

  lemma AssessmentsSurviveGrowth(a: Records, b: Records)
    requires AssessmentsSound(a) && Grows(a, b) && SameContent(a.portability, b.portability)
    ensures AssessmentsSound(b)
  {
    hide PortabilityRecord.Problem;
    forall key | key in b.portability ensures PortabilitySound(b, key) {
      assert PortabilitySound(a, key);
    }
  }

  /** A table whose content did not change stays sound while the tables around it grow. */
  lemma SoundnessSurvivesGrowth(a: Records, b: Records)
    requires Consistent(a) && Grows(a, b)
    ensures SameContent(a.federations, b.federations) ==> FederationsSound(b)
    ensures SameContent(a.sites, b.sites) ==> SitesSound(b)
    ensures SameClusters(a.clusters, b.clusters) ==> ClustersSound(b)
    ensures SameContent(a.workloads, b.workloads) ==> WorkloadsSound(b)
    ensures SameContent(a.placements, b.placements) ==> PlacementsSound(b)
    ensures SameContent(a.migrations, b.migrations) ==> MigrationsSound(b)
    ensures SameContent(a.portability, b.portability) ==> AssessmentsSound(b)
  {
    hide FederationsSound, SitesSound, ClustersSound, WorkloadsSound, PlacementsSound, MigrationsSound,
         AssessmentsSound, Grows, SameContent, SameClusters;
    SitesSurviveGrowth(a, b);
    if SameClusters(a.clusters, b.clusters) { ClustersSurviveGrowth(a, b); }
    if SameContent(a.workloads, b.workloads) { WorkloadsSurviveGrowth(a, b); }
    if SameContent(a.placements, b.placements) { PlacementsSurviveGrowth(a, b); }
    if SameContent(a.migrations, b.migrations) { MigrationsSurviveGrowth(a, b); }
    if SameContent(a.portability, b.portability) { AssessmentsSurviveGrowth(a, b); }
  }

  lemma ClearingKeepsBindings(a: ClusterRecord, b: ClusterRecord)
    requires Cleared(a) == Cleared(b)
    ensures a.id == b.id && a.federation == b.federation && a.site == b.site
    ensures a.acceleratorClasses == b.acceleratorClasses && a.runtimes == b.runtimes
  {
    assert Cleared(a).id == a.id && Cleared(b).id == b.id;
    assert Cleared(a).federation == a.federation && Cleared(b).federation == b.federation;
    assert Cleared(a).site == a.site && Cleared(b).site == b.site;
    assert Cleared(a).acceleratorClasses == a.acceleratorClasses && Cleared(b).acceleratorClasses == b.acceleratorClasses;
    assert Cleared(a).runtimes == a.runtimes && Cleared(b).runtimes == b.runtimes;
  }

  /** Annotations and dynamic cluster evidence do not matter to consistency. */
  lemma ConsistencyIsAboutContent(a: Records, b: Records)
    requires Consistent(a)
    requires SameContent(a.federations, b.federations) && SameContent(a.sites, b.sites)
    requires SameClusters(a.clusters, b.clusters) && SameContent(a.acceleratorClasses, b.acceleratorClasses)
    requires SameContent(a.runtimes, b.runtimes) && SameContent(a.policies, b.policies)
    requires SameContent(a.artifacts, b.artifacts) && SameContent(a.workloadClasses, b.workloadClasses)
    requires SameContent(a.workloads, b.workloads) && SameContent(a.placements, b.placements)
    requires SameContent(a.migrations, b.migrations) && SameContent(a.portability, b.portability)
    ensures Consistent(b)
  {
    SoundnessSurvivesGrowth(a, b);
  }

  // ---------------------------------------------------------------------------------
  // Publications keep the records consistent and within their bounds
  // ---------------------------------------------------------------------------------

  ghost predicate InOrder(r: Records, b: Bounds) {
    Consistent(r) && WithinBounds(r, b)
  }

  ghost predicate StoresInOrder(v: Verdict, s: State) {
    v.Store? ==> InOrder(v.records, s.bounds) && Grows(s.records, v.records)
  }

  lemma TableUpdate<K, V>(t: map<K, V>, k: K, v: V, limit: nat)
    requires |t| <= limit && (k in t || |t| < limit)
    ensures |t[k := v]| <= limit && t.Keys <= t[k := v].Keys
  {
    if k in t {
      assert t[k := v].Keys == t.Keys;
    } else {
      assert t[k := v].Keys == t.Keys + {k};
    }
    assert |t| == |t.Keys| && |t[k := v]| == |t[k := v].Keys|;
  }

  /** Tables whose entries nothing is checked about may grow freely. */
  lemma UnreferencedTablesMayGrow(a: Records, b: Records)
    requires Consistent(a) && Grows(a, b)
    requires a.federations == b.federations && a.sites == b.sites && a.clusters == b.clusters
    requires a.workloads == b.workloads && a.placements == b.placements && a.migrations == b.migrations
    requires a.portability == b.portability
    ensures Consistent(b)
  {
    SoundnessSurvivesGrowth(a, b);
  }

  lemma AcceleratorClassStoresInOrder(s: State, ctx: Context, now: I64, r: AcceleratorClassRecord)
    requires InOrder(s.records, s.bounds)
    ensures StoresInOrder(AcceleratorClassVerdict(s, ctx, now, r), s)
  {
    hide Consistent, SomeMissing, ReplayedSequence, AcceleratorClassRecord.Problem;
    var v := AcceleratorClassVerdict(s, ctx, now, r);
    if v.Store? {
      TableUpdate(s.records.acceleratorClasses, r.id, Entry(r, Currentness.Current, StampFor(ctx, now)), s.bounds.acceleratorClasses);
      UnreferencedTablesMayGrow(s.records, v.records);
    }
  }

  lemma RuntimeStoresInOrder(s: State, ctx: Context, now: I64, r: RuntimeRecord)
    requires InOrder(s.records, s.bounds)
    ensures StoresInOrder(RuntimeVerdict(s, ctx, now, r), s)
  {
    hide Consistent, SomeMissing, ReplayedSequence, RuntimeRecord.Problem;
    var v := RuntimeVerdict(s, ctx, now, r);
    if v.Store? {
      TableUpdate(s.records.runtimes, r.id, Entry(r, Currentness.Current, StampFor(ctx, now)), s.bounds.runtimes);
      UnreferencedTablesMayGrow(s.records, v.records);
    }
  }

  lemma BackendStoresInOrder(s: State, ctx: Context, now: I64, r: BackendRecord)
    requires InOrder(s.records, s.bounds)
    ensures StoresInOrder(BackendVerdict(s, ctx, now, r), s)
  {
    hide Consistent, SomeMissing, ReplayedSequence, Either, BackendRecord.Problem;
    var v := BackendVerdict(s, ctx, now, r);
    if v.Store? {
      TableUpdate(s.records.backends, r.id, Entry(r, Currentness.Current, StampFor(ctx, now)), s.bounds.backends);
      UnreferencedTablesMayGrow(s.records, v.records);
    }
  }

  lemma DomainStoresInOrder(s: State, ctx: Context, now: I64, r: DomainRecord)
    requires InOrder(s.records, s.bounds)
    ensures StoresInOrder(DomainVerdict(s, ctx, now, r), s)
  {
    hide Consistent, SomeMissing, ReplayedSequence, DomainProblem;
    var v := DomainVerdict(s, ctx, now, r);
    if v.Store? {
      TableUpdate(s.records.domains, r.id, Entry(r, Currentness.Current, StampFor(ctx, now)), s.bounds.domains);
      UnreferencedTablesMayGrow(s.records, v.records);
    }
  }

  lemma PolicyStoresInOrder(s: State, ctx: Context, now: I64, r: PolicyRecord)
    requires InOrder(s.records, s.bounds)
    ensures StoresInOrder(PolicyVerdict(s, ctx, now, r), s)
  {
    hide Consistent, SomeMissing, ReplayedSequence, PolicyRecord.Problem;
    var v := PolicyVerdict(s, ctx, now, r);
    if v.Store? {
      TableUpdate(s.records.policies, r.id, Entry(r, Currentness.Current, StampFor(ctx, now)), s.bounds.policies);
      UnreferencedTablesMayGrow(s.records, v.records);
    }
  }

  lemma ArtifactStoresInOrder(s: State, ctx: Context, now: I64, r: ArtifactRecord)
    requires InOrder(s.records, s.bounds)
    ensures StoresInOrder(ArtifactVerdict(s, ctx, now, r), s)
  {
    hide Consistent, SomeMissing, ReplayedSequence, ArtifactRecord.Problem;
    var v := ArtifactVerdict(s, ctx, now, r);
    if v.Store? {
      TableUpdate(s.records.artifacts, r.id, Entry(r, Currentness.Current, StampFor(ctx, now)), s.bounds.artifacts);
      UnreferencedTablesMayGrow(s.records, v.records);
    }
  }

  lemma WorkloadClassStoresInOrder(s: State, ctx: Context, now: I64, r: WorkloadClassRecord)
    requires InOrder(s.records, s.bounds)
    ensures StoresInOrder(WorkloadClassVerdict(s, ctx, now, r), s)
  {
    hide Consistent, SomeMissing, ReplayedSequence, WorkloadClassRecord.Problem;
    var v := WorkloadClassVerdict(s, ctx, now, r);
    if v.Store? {
      TableUpdate(s.records.workloadClasses, r.id, Entry(r, Currentness.Current, StampFor(ctx, now)), s.bounds.workloadClasses);
      UnreferencedTablesMayGrow(s.records, v.records);
    }
  }

  lemma FederationStoresInOrder(s: State, ctx: Context, now: I64, r: FederationRecord)
    requires InOrder(s.records, s.bounds)
    ensures StoresInOrder(FederationVerdict(s, ctx, now, r), s)
  {
    hide SitesSound, ClustersSound, WorkloadsSound, PlacementsSound, MigrationsSound, AssessmentsSound,
         HasDuplicates, ReplayedSequence;
    var v := FederationVerdict(s, ctx, now, r);
    if v.Store? {
      TableUpdate(s.records.federations, r.id, Entry(r, Currentness.Current, StampFor(ctx, now)), s.bounds.federations);
      SoundnessSurvivesGrowth(s.records, v.records);
    }
  }

  lemma SiteStoresInOrder(s: State, ctx: Context, now: I64, r: SiteRecord)
    requires InOrder(s.records, s.bounds)
    ensures StoresInOrder(SiteVerdict(s, ctx, now, r), s)
  {
    hide FederationsSound, ClustersSound, WorkloadsSound, PlacementsSound, MigrationsSound, AssessmentsSound,
         HasDuplicates, ReplayedSequence;
    var v := SiteVerdict(s, ctx, now, r);
    if v.Store? {
      TableUpdate(s.records.sites, r.id, Entry(r, Currentness.Current, StampFor(ctx, now)), s.bounds.sites);
      SoundnessSurvivesGrowth(s.records, v.records);
    }
  }

  lemma WorkloadStoresInOrder(s: State, ctx: Context, now: I64, r: WorkloadRecord)
    requires InOrder(s.records, s.bounds)
    ensures StoresInOrder(WorkloadVerdict(s, ctx, now, r), s)
  {
    hide FederationsSound, SitesSound, ClustersSound, PlacementsSound, MigrationsSound, AssessmentsSound,
         WorkloadRecord.Problem, SomeMissing, ReplayedSequence;
    var v := WorkloadVerdict(s, ctx, now, r);
    if v.Store? {
      TableUpdate(s.records.workloads, r.id, Entry(r, Currentness.Current, StampFor(ctx, now)), s.bounds.workloads);
      SoundnessSurvivesGrowth(s.records, v.records);
    }
  }

  /** What is checked about a cluster whose dynamic evidence does not count. */
  lemma ClusterContent(x: ClusterRecord)
    ensures Cleared(x).Problem() == None <==>
              && x.id != [] && x.generation != 0 && x.epoch != 0 && x.federation != [] && x.site != []
              && !HasDuplicates(x.acceleratorClasses) && !HasDuplicates(x.runtimes) && !HasDuplicates(x.backends)
              && KeysValid(x.capabilities.entries)
    ensures x.Problem() == None ==> Cleared(x).Problem() == None
  {
  }

  lemma ClustersSoundAfterUpdate(a: Records, b: Records, id: Id, e: Entry<ClusterRecord>)
    requires ClustersSound(a) && b == a.(clusters := a.clusters[id := e]) && ClusterSound(b, id)
    ensures ClustersSound(b)
  {
    hide ClusterRecord.Problem, SomeMissing;
    forall other | other in b.clusters ensures ClusterSound(b, other) {
      if other != id {
        assert ClusterSound(a, other);
      }
    }
  }

  lemma ClusterUpdateInOrder(a: Records, b: Records, id: Id, e: Entry<ClusterRecord>, bounds: Bounds)
    requires InOrder(a, bounds) && b == a.(clusters := a.clusters[id := e])
    requires id in a.clusters || |a.clusters| < bounds.clusters
    requires ClusterSound(b, id)
    ensures InOrder(b, bounds) && Grows(a, b)
  {
    hide ClusterSound, FederationsSound, SitesSound, WorkloadsSound, PlacementsSound, MigrationsSound, AssessmentsSound,
         ClustersSound, SameClusters;
    TableUpdate(a.clusters, id, e, bounds.clusters);
    SoundnessSurvivesGrowth(a, b);
    ClustersSoundAfterUpdate(a, b, id, e);
  }

  lemma StoredClusterIsSound(r: Records, id: Id)
    requires Consistent(r) && id in r.clusters
    ensures ClusterSound(r, id)
  {
  }

  lemma ClusterStoresInOrder(s: State, ctx: Context, now: I64, r: ClusterRecord)
    requires InOrder(s.records, s.bounds)
    ensures StoresInOrder(ClusterVerdict(s, ctx, now, r), s)
  {
    hide ClusterRecord.Problem, Consistent, HasDuplicates, SomeMissing, ReplayedSequence, KeysValid;
    var v := ClusterVerdict(s, ctx, now, r);
    if v.Store? {
      ClusterContent(r);
      ClusterContent(v.records.clusters[r.id].record);
      assert v.records.clusters == s.records.clusters[r.id := v.records.clusters[r.id]];
      ClusterUpdateInOrder(s.records, v.records, r.id, v.records.clusters[r.id], s.bounds);
    }
  }

  lemma RetirementStoresInOrder(s: State, ctx: Context, now: I64, id: Id, generation: U64)
    requires InOrder(s.records, s.bounds)
    ensures StoresInOrder(RetireVerdict(s, ctx, now, id, generation), s)
  {
    hide ClusterRecord.Problem, Consistent, HasDuplicates, SomeMissing, KeysValid;
    var v := RetireVerdict(s, ctx, now, id, generation);
    if v.Store? {
      StoredClusterIsSound(s.records, id);
      ClusterContent(s.records.clusters[id].record);
      ClusterContent(v.records.clusters[id].record);
      assert v.records.clusters == s.records.clusters[id := v.records.clusters[id]];
      ClusterUpdateInOrder(s.records, v.records, id, v.records.clusters[id], s.bounds);
    }
  }

  lemma CapabilityStoresInOrder(s: State, ctx: Context, now: I64, id: Id, g: U64, cg: U64, caps: CapabilitySet)
    requires InOrder(s.records, s.bounds)
    ensures StoresInOrder(CapabilityVerdict(s, ctx, now, id, g, cg, caps), s)
  {
    hide ClusterRecord.Problem, Consistent, HasDuplicates, SomeMissing, FederationProblem, KeysValid;
    var v := CapabilityVerdict(s, ctx, now, id, g, cg, caps);
    if v.Store? {
      StoredClusterIsSound(s.records, id);
      ClusterContent(s.records.clusters[id].record);
      ClusterContent(v.records.clusters[id].record);
      assert v.records.clusters == s.records.clusters[id := v.records.clusters[id]];
      ClusterUpdateInOrder(s.records, v.records, id, v.records.clusters[id], s.bounds);
    }
  }

  lemma CapacityStoresInOrder(s: State, ctx: Context, now: I64, id: Id, g: U64, cg: U64, pools: seq<Pool>)
    requires InOrder(s.records, s.bounds)
    ensures StoresInOrder(CapacityVerdict(s, ctx, now, id, g, cg, pools), s)
  {
    hide ClusterRecord.Problem, Consistent, HasDuplicates, SomeMissing, FederationProblem, FirstPoolProblem,
         SamePools, SortPools, StampPools, Sum, KeysValid;
    var v := CapacityVerdict(s, ctx, now, id, g, cg, pools);
    if v.Store? {
      StoredClusterIsSound(s.records, id);
      ClusterContent(s.records.clusters[id].record);
      ClusterContent(v.records.clusters[id].record);
      assert v.records.clusters == s.records.clusters[id := v.records.clusters[id]];
      ClusterUpdateInOrder(s.records, v.records, id, v.records.clusters[id], s.bounds);
    }
  }

  lemma PlacementStoresInOrder(s: State, ctx: Context, now: I64, r: PlacementRecord, observedAt: I64)
    requires InOrder(s.records, s.bounds)
    ensures StoresInOrder(PlacementVerdict(s, ctx, now, r, observedAt), s)
  {
    hide FederationsSound, SitesSound, ClustersSound, WorkloadsSound, MigrationsSound, AssessmentsSound,
         SomeMissing, PlacementRecord.Problem, PlacementRecord.CandidateIds, LatestIsNewer, FederationProblem,
         ReplayedSequence;
    var v := PlacementVerdict(s, ctx, now, r, observedAt);
    if v.Store? {
      TableUpdate(s.records.placements, r.id, v.records.placements[r.id], s.bounds.placementHistory);
      SoundnessSurvivesGrowth(s.records, v.records);
    }
  }

  lemma MigrationsSoundAfterUpdate(a: Records, b: Records, id: Id, e: Entry<Migration.MigrationRecord>)
    requires MigrationsSound(a) && SameContent(a.migrations[id := e], b.migrations)
    requires a.workloads == b.workloads && a.clusters == b.clusters
    requires MigrationResolved(b, id) && Migration.Sound(e.record)
    ensures MigrationsSound(b)
  {
    hide Migration.Sound;
    forall other | other in b.migrations
      ensures MigrationResolved(b, other) && Migration.Sound(b.migrations[other].record)
    {
      if other != id {
        assert MigrationResolved(a, other) && Migration.Sound(a.migrations[other].record);
      }
    }
  }

  lemma MigrationUpdateInOrder(a: Records, b: Records, id: Id, e: Entry<Migration.MigrationRecord>, bounds: Bounds)
    requires InOrder(a, bounds)
    requires id in a.migrations || |a.migrations| < bounds.migrationHistory
    requires SameContent(a.migrations[id := e], b.migrations)
    requires b == a.(migrations := b.migrations, superseded := b.superseded, latestMigration := b.latestMigration)
    requires MigrationResolved(b, id) && Migration.Sound(e.record)
    ensures InOrder(b, bounds) && Grows(a, b)
  {
    hide Migration.Sound, MigrationResolved, FederationsSound, SitesSound, WorkloadsSound, PlacementsSound, ClustersSound,
         AssessmentsSound, MigrationsSound;
    TableUpdate(a.migrations, id, e, bounds.migrationHistory);
    assert |b.migrations| == |b.migrations.Keys| && |a.migrations[id := e]| == |a.migrations[id := e].Keys|;
    SoundnessSurvivesGrowth(a, b);
    MigrationsSoundAfterUpdate(a, b, id, e);
  }

  lemma MigrationStoresInOrder(s: State, ctx: Context, now: I64, r: Migration.MigrationRecord)
    requires InOrder(s.records, s.bounds)
    ensures StoresInOrder(MigrationVerdict(s, ctx, now, r), s)
  {
    hide Consistent, Migration.RecordProblem, Migration.Sound, FederationProblem, ReplayedSequence;
    var v := MigrationVerdict(s, ctx, now, r);
    if v.Store? {
      Migration.SoundRecordValidates(r);
      MigrationUpdateInOrder(s.records, v.records, r.id, Entry(r, Currentness.Current, StampFor(ctx, now)), s.bounds);
    }
  }

  lemma StoredMigrationIsSound(r: Records, id: Id)
    requires Consistent(r) && id in r.migrations
    ensures MigrationResolved(r, id) && Migration.Sound(r.migrations[id].record)
  {
  }

  lemma StageStoresInOrder(s: State, ctx: Context, now: I64, id: Id, g: U64, stage: Migration.Stage, detail: Text)
    requires InOrder(s.records, s.bounds)
    ensures StoresInOrder(StageVerdict(s, ctx, now, id, g, stage, detail), s)
  {
    hide Consistent, Migration.Sound, Migration.Advance, Migration.IsAcceptableEvent, Migration.Last;
    var v := StageVerdict(s, ctx, now, id, g, stage, detail);
    if v.Store? {
      StoredMigrationIsSound(s.records, id);
      StageKeepsSound(s, ctx, now, id, g, stage, detail);
      MigrationUpdateInOrder(s.records, v.records, id, v.records.migrations[id], s.bounds);
    }
  }

  lemma AssessmentStoresInOrder(s: State, ctx: Context, now: I64, r: PortabilityRecord, c: Currentness, observedAt: I64)
    requires InOrder(s.records, s.bounds)
    ensures StoresInOrder(PortabilityVerdict(s, ctx, now, r, c, observedAt), s)
  {
    hide FederationsSound, SitesSound, ClustersSound, WorkloadsSound, PlacementsSound, MigrationsSound,
         HasDuplicates, SameAssessment;
    var v := PortabilityVerdict(s, ctx, now, r, c, observedAt);
    if v.Store? {
      TableUpdate(s.records.portability, PortabilityKey(r.workload, r.destination), v.records.portability[PortabilityKey(r.workload, r.destination)], s.bounds.portabilityRecords);
      SoundnessSurvivesGrowth(s.records, v.records);
    }
  }

  lemma StageKeepsSound(
    s: State, ctx: Context, now: I64, id: Id, generation: U64, stage: Migration.Stage, detail: Text)
    requires id in s.records.migrations && Migration.Sound(s.records.migrations[id].record)
    requires StageVerdict(s, ctx, now, id, generation, stage, detail).Store?
    ensures var m := s.records.migrations[id].record;
            var after := Migration.Advance(m, StageEventFor(ctx, now, generation, stage, detail));
            Migration.Sound(after) && after.id == m.id && after.workload == m.workload
            && after.source == m.source && after.destination == m.destination
  {
    hide Migration.HistoryProblem, Migration.HeaderProblem, Migration.ExpectedOutcome, Migration.IsAcceptableEvent;
    Migration.AdvanceKeepsSound(s.records.migrations[id].record, StageEventFor(ctx, now, generation, stage, detail));
  }

  lemma PublicationStoresInOrder(s: State, ctx: Context, now: I64, p: Publication)
    requires InOrder(s.records, s.bounds)
    ensures StoresInOrder(VerdictOn(s, ctx, now, p), s)
  {
    hide FederationVerdict, SiteVerdict, WorkloadVerdict, ClusterVerdict, RetireVerdict, CapabilityVerdict,
         CapacityVerdict, PlacementVerdict, MigrationVerdict, StageVerdict, PortabilityVerdict, AcceleratorClassVerdict,
         RuntimeVerdict, BackendVerdict, DomainVerdict, PolicyVerdict, ArtifactVerdict, WorkloadClassVerdict,
         InOrder, StoresInOrder;
    match p
    case PublishedFederation(r) => FederationStoresInOrder(s, ctx, now, r);
    case PublishedSite(r) => SiteStoresInOrder(s, ctx, now, r);
    case PublishedWorkload(r) => WorkloadStoresInOrder(s, ctx, now, r);
    case PublishedCluster(r) => ClusterStoresInOrder(s, ctx, now, r);
    case PublishedRetirement(id, g) => RetirementStoresInOrder(s, ctx, now, id, g);
    case PublishedCapability(id, g, cg, caps) => CapabilityStoresInOrder(s, ctx, now, id, g, cg, caps);
    case PublishedCapacity(id, g, cg, pools) => CapacityStoresInOrder(s, ctx, now, id, g, cg, pools);
    case PublishedPlacement(r, at) => PlacementStoresInOrder(s, ctx, now, r, at);
    case PublishedMigration(r) => MigrationStoresInOrder(s, ctx, now, r);
    case PublishedStage(id, g, stage, detail) => StageStoresInOrder(s, ctx, now, id, g, stage, detail);
    case PublishedPortability(r, c, at) => AssessmentStoresInOrder(s, ctx, now, r, c, at);
    case PublishedPolicy(r) => PolicyStoresInOrder(s, ctx, now, r);
    case PublishedArtifact(r) => ArtifactStoresInOrder(s, ctx, now, r);
    case PublishedWorkloadClass(r) => WorkloadClassStoresInOrder(s, ctx, now, r);
    case PublishedAcceleratorClass(r) => AcceleratorClassStoresInOrder(s, ctx, now, r);
    case PublishedRuntime(r) => RuntimeStoresInOrder(s, ctx, now, r);
    case PublishedBackend(r) => BackendStoresInOrder(s, ctx, now, r);
    case PublishedDomain(r) => DomainStoresInOrder(s, ctx, now, r);
  }

  // ---------------------------------------------------------------------------------
  // Every reachable state is consistent
  // ---------------------------------------------------------------------------------

  ghost predicate SameBooks(a: Records, b: Records) {
    && SameContent(a.federations, b.federations) && SameContent(a.sites, b.sites)
    && SameClusters(a.clusters, b.clusters) && SameContent(a.acceleratorClasses, b.acceleratorClasses)
    && SameContent(a.runtimes, b.runtimes) && SameContent(a.backends, b.backends)
    && SameContent(a.domains, b.domains) && SameContent(a.policies, b.policies)
    && SameContent(a.artifacts, b.artifacts) && SameContent(a.workloadClasses, b.workloadClasses)
    && SameContent(a.workloads, b.workloads) && SameContent(a.placements, b.placements)
    && SameContent(a.migrations, b.migrations) && SameContent(a.portability, b.portability)
  }

  lemma SameKeysSameSize<K, V, W>(a: map<K, V>, b: map<K, W>)
    requires a.Keys == b.Keys
    ensures |a| == |b|
  {
    assert |a| == |a.Keys| && |b| == |b.Keys|;
  }

  lemma SameBooksStayInOrder(a: Records, b: Records, bounds: Bounds)
    requires InOrder(a, bounds) && SameBooks(a, b)
    ensures InOrder(b, bounds) && Grows(a, b)
  {
    hide FederationsSound, SitesSound, ClustersSound, WorkloadsSound, PlacementsSound, MigrationsSound, AssessmentsSound;
    SameKeysSameSize(a.federations, b.federations);
    SameKeysSameSize(a.sites, b.sites);
    SameKeysSameSize(a.clusters, b.clusters);
    SameKeysSameSize(a.acceleratorClasses, b.acceleratorClasses);
    SameKeysSameSize(a.runtimes, b.runtimes);
    SameKeysSameSize(a.backends, b.backends);
    SameKeysSameSize(a.domains, b.domains);
    SameKeysSameSize(a.policies, b.policies);
    SameKeysSameSize(a.artifacts, b.artifacts);
    SameKeysSameSize(a.workloadClasses, b.workloadClasses);
    SameKeysSameSize(a.workloads, b.workloads);
    SameKeysSameSize(a.placements, b.placements);
    SameKeysSameSize(a.migrations, b.migrations);
    SameKeysSameSize(a.portability, b.portability);
    ConsistencyIsAboutContent(a, b);
  }

  lemma DemotionKeepsBooks(s: State, publisher: Id, boot: U64, reason: Text)
    ensures SameBooks(s.records, FencePublisher(s, publisher, boot, reason).0.records)
  {
  }

  lemma InvalidationKeepsBooks(s: State)
    ensures SameBooks(s.records, InvalidateDynamicEvidence(s).records)
  {
  }

  lemma AnnotationsKeepContent<K, R>(t: map<K, Entry<R>>)
    ensures SameContent(t, t) && SameContent(t, StaleTable(t)) && SameContent(t, History(t))
  {
  }

  lemma ClearingKeepsClusters(t: map<Id, Entry<ClusterRecord>>)
    ensures SameClusters(t, InvalidateClusters(t))
  {
  }

  /** What is saved has the content of what is stored. */
  lemma SavingKeepsBooks(s: State)
    ensures SameBooks(s.records, Saved(s).records)
  {
    hide SameContent, SameClusters, StaleTable, InvalidateClusters;
    ReannotationKeepsContent(s.records);
  }

  lemma ReannotationKeepsContent(r: Records)
    ensures SameContent(r.federations, r.federations) && SameContent(r.federations, StaleTable(r.federations))
    ensures SameContent(r.sites, r.sites) && SameContent(r.sites, StaleTable(r.sites))
    ensures SameClusters(r.clusters, InvalidateClusters(r.clusters))
    ensures SameContent(r.acceleratorClasses, r.acceleratorClasses)
    ensures SameContent(r.acceleratorClasses, StaleTable(r.acceleratorClasses))
    ensures SameContent(r.runtimes, r.runtimes) && SameContent(r.runtimes, StaleTable(r.runtimes))
    ensures SameContent(r.backends, r.backends) && SameContent(r.backends, StaleTable(r.backends))
    ensures SameContent(r.domains, r.domains) && SameContent(r.domains, StaleTable(r.domains))
    ensures SameContent(r.policies, r.policies) && SameContent(r.policies, StaleTable(r.policies))
    ensures SameContent(r.artifacts, r.artifacts) && SameContent(r.artifacts, StaleTable(r.artifacts))
    ensures SameContent(r.workloadClasses, r.workloadClasses)
    ensures SameContent(r.workloadClasses, StaleTable(r.workloadClasses))
    ensures SameContent(r.workloads, r.workloads) && SameContent(r.workloads, StaleTable(r.workloads))
    ensures SameContent(r.placements, StaleTable(r.placements)) && SameContent(r.placements, History(r.placements))
    ensures SameContent(r.migrations, StaleTable(r.migrations)) && SameContent(r.migrations, History(r.migrations))
    ensures SameContent(r.portability, StaleTable(r.portability)) && SameContent(r.portability, History(r.portability))
  {
    hide SameContent, SameClusters, StaleTable, InvalidateClusters, History;
    AnnotationsKeepContent(r.federations);
    AnnotationsKeepContent(r.sites);
    ClearingKeepsClusters(r.clusters);
    AnnotationsKeepContent(r.acceleratorClasses);
    AnnotationsKeepContent(r.runtimes);
    AnnotationsKeepContent(r.backends);
    AnnotationsKeepContent(r.domains);
    AnnotationsKeepContent(r.policies);
    AnnotationsKeepContent(r.artifacts);
    AnnotationsKeepContent(r.workloadClasses);
    AnnotationsKeepContent(r.workloads);
    AnnotationsKeepContent(r.placements);
    AnnotationsKeepContent(r.migrations);
    AnnotationsKeepContent(r.portability);
  }

  /** What is loaded has the content of what was saved. */
  lemma LoadingKeepsBooks(s: State, d: DurableState, order: FileOrder)
    requires OrderOf(order, d.records)
    ensures SameBooks(d.records, Apply(s, d, order).records)
  {
    hide RebuildLatest, RebuildMigrations, SameContent, SameClusters, StaleTable, InvalidateClusters, History;
    ReannotationKeepsContent(d.records);
  }

  lemma BooksAreTransitive(a: Records, b: Records, c: Records)
    requires SameBooks(a, b) && SameBooks(b, c)
    ensures SameBooks(a, c)
  {
    hide Cleared;
  }

  /** A restart changes no record: federations, sites, requests, placements, migrations and
      assessments come back word for word, clusters without their dynamic evidence. */
  lemma RestoreKeepsBooks(s: State, order: FileOrder)
    requires OrderOf(order, Saved(s).records)
    ensures SameBooks(s.records, Apply(s, Saved(s), order).records)
  {
    hide SameBooks, Saved, Apply;
    SavingKeepsBooks(s);
    LoadingKeepsBooks(s, Saved(s), order);
    BooksAreTransitive(s.records, Saved(s).records, Apply(s, Saved(s), order).records);
  }

  lemma PublicationKeepsOrder(s: State, ctx: Context, now: I64, p: Publication)
    requires InOrder(s.records, s.bounds) && p.Constructible()
    ensures InOrder(Publish(s, ctx, now, p).0.records, s.bounds) && Grows(s.records, Publish(s, ctx, now, p).0.records)
  {
    hide VerdictOn, InOrder, OnlyStamped;
    PublicationStamps(s, ctx, now, p);
    PublicationStoresInOrder(s, ctx, now, p);
  }

  lemma InOrderStep(s: State, op: Op)
    requires InOrder(s.records, s.bounds) && op.Constructible()
    ensures InOrder(Step(s, op).records, s.bounds) && Grows(s.records, Step(s, op).records)
    ensures Step(s, op).bounds == s.bounds
  {
    hide InOrder, SameBooks, Grows, VerdictOn, Conclude, Loadable, RebuildLatest, RebuildMigrations, Demote,
         InvalidateClusters, StaleTable, History, Lists;
    NothingIsForgottenAtOnce(s.records);
    match op
    case Register(ctx, now) =>
    case Ingest(ctx, now, p) =>
      PublicationKeepsOrder(s, ctx, now, p);
      ConcludeKeepsBounds(s, ctx, now, VerdictOn(s, ctx, now, p));
    case Fence(publisher, boot, reason) =>
      DemotionKeepsBooks(s, publisher, boot, reason);
      SameBooksStayInOrder(s.records, Step(s, op).records, s.bounds);
    case Invalidate =>
      InvalidationKeepsBooks(s);
      SameBooksStayInOrder(s.records, Step(s, op).records, s.bounds);
    case Restore(order) =>
      if Restores(s, order) {
        RestoreKeepsBooks(s, order);
        SameBooksStayInOrder(s.records, Step(s, op).records, s.bounds);
      }
  }

  lemma ConcludeKeepsBounds(s: State, ctx: Context, now: I64, v: Verdict)
    ensures Conclude(s, ctx, now, v).0.bounds == s.bounds
  {
  }

  lemma GrowthIsTransitive(a: Records, b: Records, c: Records)
    requires Grows(a, b) && Grows(b, c)
    ensures Grows(a, c)
  {
  }

  /** Order is kept by every run, and no federation, site, cluster, class, runtime, policy,
      artifact or workload is ever forgotten. */
  lemma {:induction false} RunsStayInOrder(s: State, ops: seq<Op>)
    requires InOrder(s.records, s.bounds) && Constructible(ops)
    ensures InOrder(Run(s, ops).records, s.bounds) && Grows(s.records, Run(s, ops).records)
    ensures Run(s, ops).bounds == s.bounds
  {
    hide InOrder, Step, Grows;
    if ops == [] {
      assert Grows(s.records, s.records) by { NothingIsForgottenAtOnce(s.records); }
    } else {
      var before := ops[..|ops| - 1];
      RunsStayInOrder(s, before);
      InOrderStep(Run(s, before), ops[|ops| - 1]);
      GrowthIsTransitive(s.records, Run(s, before).records, Run(s, ops).records);
    }
  }

  /** In every reachable state the records are consistent and within their bounds. */
  lemma ReachableStatesAreInOrder(bounds: Bounds, ops: seq<Op>)
    requires Constructible(ops)
    ensures InOrder(Run(Initial(bounds), ops).records, bounds)
    ensures Run(Initial(bounds), ops).bounds == bounds
  {
    hide Run;
    RunsStayInOrder(Initial(bounds), ops);
  }

  lemma NothingIsForgottenAtOnce(r: Records)
    ensures Grows(r, r)
  {
  }

  // ---------------------------------------------------------------------------------
  // When a saved state loads
  // ---------------------------------------------------------------------------------

  ghost predicate OutcomesMatchStages(r: Records) {
    forall id :: id in r.migrations ==> !Migration.KeepsUnknownOutcome(r.migrations[id].record)
  }

  /** The file written from a consistent state loads exactly when the publishers fit their
      bound and no migration asks for revalidation with its outcome still unknown. */
  lemma SavedStateLoadsExactly(s: State)
    requires InOrder(s.records, s.bounds)
    ensures Loadable(Saved(s), s.bounds) <==> |s.publishers| <= s.bounds.publishers && OutcomesMatchStages(s.records)
  {
    hide FederationSound, SiteSound, ClusterSound, WorkloadSound, PlacementSound, MigrationResolved, PortabilitySound,
         Migration.Sound, Migration.RecordProblem, Migration.KeepsUnknownOutcome, SameBooks, Capture, Normalize;
    SavingKeepsBooks(s);
    SameBooksStayInOrder(s.records, Saved(s).records, s.bounds);
    SavedMigrations(s);
    SavedAnnotations(s);
  }

  lemma SavedMigrations(s: State)
    requires InOrder(s.records, s.bounds)
    ensures var saved := Saved(s).records.migrations;
            (forall id :: id in saved ==> Migration.RecordProblem(saved[id].record) == None) <==>
            OutcomesMatchStages(s.records)
  {
    hide Migration.Sound, Migration.RecordProblem, Migration.KeepsUnknownOutcome, FederationsSound, SitesSound,
         WorkloadsSound, PlacementsSound, ClustersSound, AssessmentsSound, MigrationResolved;
    var saved := Saved(s).records.migrations;
    forall id | id in saved
      ensures Migration.RecordProblem(saved[id].record) == None <==>
              !Migration.KeepsUnknownOutcome(s.records.migrations[id].record)
    {
      assert saved[id].record == s.records.migrations[id].record;
      Migration.SoundRecordValidates(saved[id].record);
    }
    assert saved.Keys == s.records.migrations.Keys;
  }

  lemma SavedAnnotations(s: State)
    ensures var r := Saved(s).records;
            && NothingCurrent(r.federations) && NothingCurrent(r.sites) && NothingCurrent(r.placements)
            && NothingCurrent(r.migrations) && NothingCurrent(r.portability)
            && (forall id :: id in r.clusters ==> ClusterNormal(r.clusters[id]))
    ensures |Saved(s).watermarks| == |s.publishers|
  {
    SameKeysSameSize(s.publishers, Saved(s).watermarks);
  }

  /** The same for every state the engine can reach. */
  lemma ReachableStatesReloadExactly(bounds: Bounds, ops: seq<Op>)
    requires Constructible(ops)
    ensures var s := Run(Initial(bounds), ops);
            Loadable(Saved(s), bounds) <==> |s.publishers| <= bounds.publishers && OutcomesMatchStages(s.records)
  {
    hide Run, Loadable, Saved, InOrder;
    ReachableStatesAreInOrder(bounds, ops);
    SavedStateLoadsExactly(Run(Initial(bounds), ops));
  }

  /** Fencing identities the engine never saw is not bounded: in a full engine one more fence
      makes the next saved state unloadable. */
  lemma FenceCanOverfillPublishers(s: State, publisher: Id, boot: U64, reason: Text)
    requires publisher != [] && boot != 0
    requires PublisherKey(publisher, boot) !in s.publishers && |s.publishers| >= s.bounds.publishers
    ensures var after := FencePublisher(s, publisher, boot, reason).0;
            FencePublisher(s, publisher, boot, reason).1 == None && !Loadable(Saved(after), after.bounds)
  {
    hide FederationSound, SiteSound, ClusterSound, WorkloadSound, PlacementSound, MigrationResolved, PortabilitySound;
    var after := FencePublisher(s, publisher, boot, reason).0;
    var key := PublisherKey(publisher, boot);
    assert after.publishers.Keys == s.publishers.Keys + {key};
    assert |after.publishers| == |after.publishers.Keys| && |s.publishers| == |s.publishers.Keys|;
    SavedAnnotations(after);
  }

  /** What an accepted demand for revalidation stores. */
  lemma RevalidationOutcome(s: State, ctx: Context, now: I64, id: Id, generation: U64, detail: Text)
    requires InOrder(s.records, s.bounds) && OutcomesMatchStages(s.records)
    requires StageVerdict(s, ctx, now, id, generation, Migration.RevalidationRequired, detail).Store?
    ensures OutcomesMatchStages(StageVerdict(s, ctx, now, id, generation, Migration.RevalidationRequired, detail).records)
            <==> !s.records.migrations[id].record.outcome.UnknownOutcome?
  {
    hide Consistent, WithinBounds, Migration.Sound, Migration.IsAcceptableEvent, Migration.Last;
    var v := StageVerdict(s, ctx, now, id, generation, Migration.RevalidationRequired, detail);
    forall other | other in v.records.migrations && other != id
      ensures !Migration.KeepsUnknownOutcome(v.records.migrations[other].record)
    {
      assert v.records.migrations[other] == s.records.migrations[other];
    }
    assert v.records.migrations[id].record.outcome == s.records.migrations[id].record.outcome;
  }

  /** An accepted demand for revalidation makes the next saved state unloadable exactly when
      the outcome had been lost. */
  lemma LateRevalidationSpoilsSaves(s: State, ctx: Context, now: I64, id: Id, generation: U64, detail: Text)
    requires InOrder(s.records, s.bounds) && OutcomesMatchStages(s.records) && |s.publishers| <= s.bounds.publishers
    requires Gate(s, ctx).Open?
    requires StageVerdict(s, ctx, now, id, generation, Migration.RevalidationRequired, detail).Store?
    ensures var after := Publish(s, ctx, now, PublishedStage(id, generation, Migration.RevalidationRequired, detail)).0;
            Loadable(Saved(after), after.bounds) <==> !s.records.migrations[id].record.outcome.UnknownOutcome?
  {
    hide InOrder, Loadable, Saved, OutcomesMatchStages, StageVerdict;
    var p := PublishedStage(id, generation, Migration.RevalidationRequired, detail);
    var after := Publish(s, ctx, now, p).0;
    RevalidationOutcome(s, ctx, now, id, generation, detail);
    PublicationKeepsOrder(s, ctx, now, p);
    SavedStateLoadsExactly(after);
    SameKeysSameSize(s.publishers, after.publishers);
  }
}
