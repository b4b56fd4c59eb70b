/** The ingest state engine as a transition system (src/observatory.cpp).

    Every publication is decided by a verdict and concluded in one place: the authority gate
    closes it, or the verdict refuses it, keeps the stored state or installs new records. */
module Observatory {
  import opened Foundation
  import opened Capability
  import opened Capacity
  import opened Model
  import Migration

  // ---------------------------------------------------------------------------------
  // State
  // ---------------------------------------------------------------------------------

  datatype Bounds = Bounds(
    federations: nat, sites: nat, clusters: nat, acceleratorClasses: nat, runtimes: nat, backends: nat,
    domains: nat, policies: nat, artifacts: nat, workloadClasses: nat, workloads: nat,
    placementHistory: nat, migrationHistory: nat, portabilityRecords: nat,
    publishers: nat, publishersPerFederation: nat)

  datatype PublisherKey = PublisherKey(publisher: Id, boot: U64)

  datatype Authority = Authority(
    epoch: U64, federation: Id, watermark: U64, registeredAt: I64, lastPublicationAt: I64,
    accepted: nat, rejected: nat, duplicates: nat, gaps: nat,
    live: bool, fenced: bool, fencedReason: Text, evidenceClass: EvidenceClass)

  datatype PortabilityKey = PortabilityKey(workload: Id, destination: Id)

  /** The record maps. */
  datatype Records = Records(
    federations: map<Id, Entry<FederationRecord>>,
    sites: map<Id, Entry<SiteRecord>>,
    clusters: map<Id, Entry<ClusterRecord>>,
    acceleratorClasses: map<Id, Entry<AcceleratorClassRecord>>,
    runtimes: map<Id, Entry<RuntimeRecord>>,
    backends: map<Id, Entry<BackendRecord>>,
    domains: map<Id, Entry<DomainRecord>>,
    policies: map<Id, Entry<PolicyRecord>>,
    artifacts: map<Id, Entry<ArtifactRecord>>,
    workloadClasses: map<Id, Entry<WorkloadClassRecord>>,
    workloads: map<Id, Entry<WorkloadRecord>>,
    placements: map<Id, Entry<PlacementRecord>>,
    latestPlacement: map<Id, Id>,
    migrations: map<Id, Entry<Migration.MigrationRecord>>,
    latestMigration: map<Id, Id>,
    superseded: map<Id, Id>,
    portability: map<PortabilityKey, Entry<PortabilityRecord>>)

  const NO_RECORDS := Records(map[], map[], map[], map[], map[], map[], map[], map[], map[], map[], map[],
                              map[], map[], map[], map[], map[], map[])

  datatype Stats = Stats(
    applied: nat, duplicate: nat, superseded: nat, rejected: nat, fencedPublications: nat, gaps: nat,
    regressions: nat, boundsRejections: nat, placementsRecorded: nat, migrationsRecorded: nat,
    clusterRetirements: nat, publisherRegistrations: nat, publisherFences: nat, stateLoads: nat)

  const NO_STATS := Stats(0, 0, 0, 0, 0, 0, 0, 0, 0, 0, 0, 0, 0, 0)

  datatype State = State(
    bounds: Bounds,
    publishers: map<PublisherKey, Authority>,
    epoch: U64,
    snapshotGeneration: U64,
    saveSequence: nat,
    records: Records,
    stats: Stats)

  function Initial(bounds: Bounds): State {
    State(bounds, map[], 1, 1, 0, NO_RECORDS, NO_STATS)
  }

  // ---------------------------------------------------------------------------------
  // Answers
  // ---------------------------------------------------------------------------------

  datatype Disposition = Applied | Duplicate | Superseded

  /** An accepted ingest reports the watermark it left and how many sequence numbers it skipped. */
  datatype Ack = Ack(disposition: Disposition, watermark: U64, gap: nat)

  type Reply = Result<Ack>

  // ---------------------------------------------------------------------------------
  // The authority gate
  // ---------------------------------------------------------------------------------

  function KeyOf(ctx: Context): PublisherKey {
    PublisherKey(ctx.publisher, ctx.boot)
  }

  datatype GateResult = Closed(code: ErrorCode) | Open(duplicateSequence: bool)

  function Gate(s: State, ctx: Context): GateResult {
    if !ctx.Valid() then Closed(InvalidArgument)
    else if KeyOf(ctx) !in s.publishers then Closed(StaleBoot)
    else
      var a := s.publishers[KeyOf(ctx)];
      if a.fenced then Closed(FencedPublisher)
      else if ctx.epoch != s.epoch then Closed(StaleEpoch)
      else if ctx.sequence < a.watermark then Closed(SequenceRegression)
      else Open(ctx.sequence == a.watermark && a.watermark != 0)
  }

  predicate ReplayedSequence(s: State, ctx: Context) {
    Gate(s, ctx) == Open(true)
  }

  /** How a refusal is counted besides being a refusal. */
  datatype RefusalKind = Plain | OverBound | Regressed

  function CountRefusal(st: Stats, code: ErrorCode, kind: RefusalKind): Stats {
    st.(rejected := st.rejected + 1,
        fencedPublications := st.fencedPublications + if code.StaleBoot? || code.FencedPublisher? then 1 else 0,
        boundsRejections := st.boundsRejections + if kind.OverBound? then 1 else 0,
        regressions := st.regressions + if kind.Regressed? then 1 else 0)
  }

  /** A refusal moves counters only, the publisher's own when it is known. */
  function Refusing(s: State, ctx: Context, code: ErrorCode, kind: RefusalKind): State {
    var key := KeyOf(ctx);
    s.(publishers := if ctx.Valid() && key in s.publishers
                     then s.publishers[key := s.publishers[key].(rejected := s.publishers[key].rejected + 1)]
                     else s.publishers,
       stats := CountRefusal(s.stats, code, kind))
  }

  function Clock(ctx: Context, now: I64): I64 {
    if ctx.observedAt != 0 then ctx.observedAt else now
  }

  function Gap(ctx: Context, watermark: U64): nat {
    if ctx.sequence > watermark then ctx.sequence - watermark - 1 else 0
  }

  function AdvanceAuthority(a: Authority, ctx: Context, now: I64, d: Disposition): Authority {
    a.(watermark := if ctx.sequence > a.watermark then ctx.sequence else a.watermark,
       gaps := a.gaps + if Gap(ctx, a.watermark) != 0 then 1 else 0,
       lastPublicationAt := Clock(ctx, now),
       accepted := a.accepted + if d.Applied? then 1 else 0,
       duplicates := a.duplicates + if d.Duplicate? then 1 else 0)
  }

  function CountAccepted(st: Stats, gap: nat, d: Disposition): Stats {
    st.(gaps := st.gaps + if gap != 0 then 1 else 0,
        applied := st.applied + if d.Applied? then 1 else 0,
        duplicate := st.duplicate + if d.Duplicate? then 1 else 0,
        superseded := st.superseded + if d.Superseded? then 1 else 0)
  }

  /** The last step of every accepted publication. */
  function Finish(s: State, ctx: Context, now: I64, d: Disposition): (State, Reply)
    requires KeyOf(ctx) in s.publishers
  {
    var a := s.publishers[KeyOf(ctx)];
    var after := AdvanceAuthority(a, ctx, now, d);
    (s.(publishers := s.publishers[KeyOf(ctx) := after], stats := CountAccepted(s.stats, Gap(ctx, a.watermark), d)),
     Ok(Ack(d, after.watermark, Gap(ctx, a.watermark))))
  }

  // ---------------------------------------------------------------------------------
  // Verdicts and their conclusion
  // ---------------------------------------------------------------------------------

  datatype Milestone = NoMilestone | Retirement | PlacementRecorded | MigrationRecorded

  datatype Verdict =
    | Refuse(code: ErrorCode, kind: RefusalKind)
    | Keep(disposition: Disposition)
    | Store(disposition: Disposition, records: Records, bumps: nat, milestone: Milestone)
      // refused after the records were already edited
    | Spoil(code: ErrorCode, edited: Records)

  function Bumped(g: U64, bumps: nat): U64
    decreases bumps
  {
    if bumps == 0 then g else Bumped(Next(g), bumps - 1)
  }

  function CountMilestone(st: Stats, m: Milestone): Stats {
    match m
    case NoMilestone => st
    case Retirement => st.(clusterRetirements := st.clusterRetirements + 1)
    case PlacementRecorded => st.(placementsRecorded := st.placementsRecorded + 1)
    case MigrationRecorded => st.(migrationsRecorded := st.migrationsRecorded + 1)
  }

  function Conclude(s: State, ctx: Context, now: I64, v: Verdict): (State, Reply) {
    match Gate(s, ctx)
    case Closed(code) =>
      (Refusing(s, ctx, code, if code.SequenceRegression? then Regressed else Plain), Err(code))
    case Open(_) =>
      match v
      case Refuse(code, kind) => (Refusing(s, ctx, code, kind), Err(code))
      case Spoil(code, edited) => (Refusing(s.(records := edited), ctx, code, Plain), Err(code))
      case Keep(d) => Finish(s, ctx, now, d)
      case Store(d, records, bumps, milestone) =>
        Finish(s.(records := records, snapshotGeneration := Bumped(s.snapshotGeneration, bumps),
                  stats := CountMilestone(s.stats, milestone)), ctx, now, d)
  }

  // ---------------------------------------------------------------------------------
  // Structural registration: validate, resolve references, deduplicate by content, bound,
  // fence on generation, install
  // ---------------------------------------------------------------------------------

  datatype Choice<R> =
    | Turned(code: ErrorCode, kind: RefusalKind)
    | Retained(disposition: Disposition)
    | Installed(table: map<Id, Entry<R>>)

  function Choose<R(==)>(
    table: map<Id, Entry<R>>, id: Id, record: R, problem: Option<ErrorCode>, replayed: bool,
    limit: nat, stored: U64, incoming: U64, stamp: Stamp): Choice<R>
  {
    if problem.Some? then Turned(problem.value, Plain)
    else if id in table && table[id].record == record then Retained(Duplicate)
    else if replayed then Turned(Conflict, Plain)
    else if id !in table && |table| >= limit then Turned(BoundExceeded, OverBound)
    else if id in table && stored > incoming then Retained(Superseded)
    else Installed(table[id := Entry(record, Currentness.Current, stamp)])
  }

  function AsVerdict<R>(c: Choice<R>, records: Records, bumps: nat): Verdict {
    match c
    case Turned(code, kind) => Refuse(code, kind)
    case Retained(d) => Keep(d)
    case Installed(_) => Store(Applied, records, bumps, NoMilestone)
  }

  /** The first problem of two successive checks. */
  function Either(first: Option<ErrorCode>, second: Option<ErrorCode>): Option<ErrorCode> {
    if first.Some? then first else second
  }

  function Missing(missing: bool): Option<ErrorCode> {
    if missing then Some(NotFound) else None
  }

  predicate SomeMissing<T>(ids: seq<Id>, table: map<Id, T>) {
    exists i :: 0 <= i < |ids| && ids[i] !in table
  }

  function FederationVerdict(s: State, ctx: Context, now: I64, r: FederationRecord): Verdict {
    var t := s.records.federations;
    var c := Choose(t, r.id, r, r.Problem(), ReplayedSequence(s, ctx), s.bounds.federations,
                    if r.id in t then t[r.id].record.generation else 0, r.generation, StampFor(ctx, now));
    AsVerdict(c, if c.Installed? then s.records.(federations := c.table) else s.records, 1)
  }

  function SiteProblem(s: State, r: SiteRecord): Option<ErrorCode> {
    Either(r.Problem(), Missing(r.federation !in s.records.federations))
  }

  function SiteVerdict(s: State, ctx: Context, now: I64, r: SiteRecord): Verdict {
    var t := s.records.sites;
    var c := Choose(t, r.id, r, SiteProblem(s, r), ReplayedSequence(s, ctx), s.bounds.sites,
                    if r.id in t then t[r.id].record.generation else 0, r.generation, StampFor(ctx, now));
    AsVerdict(c, if c.Installed? then s.records.(sites := c.table) else s.records, 1)
  }

  function AcceleratorClassVerdict(s: State, ctx: Context, now: I64, r: AcceleratorClassRecord): Verdict {
    var t := s.records.acceleratorClasses;
    var c := Choose(t, r.id, r, r.Problem(), ReplayedSequence(s, ctx), s.bounds.acceleratorClasses,
                    if r.id in t then t[r.id].record.capabilityGeneration else 0, r.capabilityGeneration,
                    StampFor(ctx, now));
    AsVerdict(c, if c.Installed? then s.records.(acceleratorClasses := c.table) else s.records, 1)
  }

  function RuntimeVerdict(s: State, ctx: Context, now: I64, r: RuntimeRecord): Verdict {
    var t := s.records.runtimes;
    var c := Choose(t, r.id, r, r.Problem(), ReplayedSequence(s, ctx), s.bounds.runtimes,
                    if r.id in t then t[r.id].record.generation else 0, r.generation, StampFor(ctx, now));
    AsVerdict(c, if c.Installed? then s.records.(runtimes := c.table) else s.records, 1)
  }

  function BackendVerdict(s: State, ctx: Context, now: I64, r: BackendRecord): Verdict {
    var t := s.records.backends;
    var c := Choose(t, r.id, r, Either(r.Problem(), Missing(r.runtime !in s.records.runtimes)),
                    ReplayedSequence(s, ctx), s.bounds.backends,
                    if r.id in t then t[r.id].record.generation else 0, r.generation, StampFor(ctx, now));
    AsVerdict(c, if c.Installed? then s.records.(backends := c.table) else s.records, 1)
  }

  function DomainProblem(s: State, r: DomainRecord): Option<ErrorCode> {
    Either(r.Problem(), Missing(r.federation !in s.records.federations || SomeMissing(r.clusters, s.records.clusters)))
  }

  function DomainVerdict(s: State, ctx: Context, now: I64, r: DomainRecord): Verdict {
    var t := s.records.domains;
    var c := Choose(t, r.id, r, DomainProblem(s, r), ReplayedSequence(s, ctx), s.bounds.domains,
                    if r.id in t then t[r.id].record.topologyGeneration else 0, r.topologyGeneration,
                    StampFor(ctx, now));
    AsVerdict(c, if c.Installed? then s.records.(domains := c.table) else s.records, 1)
  }

  function PolicyVerdict(s: State, ctx: Context, now: I64, r: PolicyRecord): Verdict {
    var t := s.records.policies;
    var c := Choose(t, r.id, r, r.Problem(), ReplayedSequence(s, ctx), s.bounds.policies,
                    if r.id in t then t[r.id].record.generation else 0, r.generation, StampFor(ctx, now));
    AsVerdict(c, if c.Installed? then s.records.(policies := c.table) else s.records, 1)
  }

  function ArtifactVerdict(s: State, ctx: Context, now: I64, r: ArtifactRecord): Verdict {
    var t := s.records.artifacts;
    var c := Choose(t, r.id, r, r.Problem(), ReplayedSequence(s, ctx), s.bounds.artifacts,
                    if r.id in t then t[r.id].record.generation else 0, r.generation, StampFor(ctx, now));
    AsVerdict(c, if c.Installed? then s.records.(artifacts := c.table) else s.records, 1)
  }

  /** Workload classes carry no generation, so a changed class is always installed. */
  function WorkloadClassVerdict(s: State, ctx: Context, now: I64, r: WorkloadClassRecord): Verdict {
    var t := s.records.workloadClasses;
    var c := Choose(t, r.id, r, r.Problem(), ReplayedSequence(s, ctx), s.bounds.workloadClasses, 0, 0,
                    StampFor(ctx, now));
    AsVerdict(c, if c.Installed? then s.records.(workloadClasses := c.table) else s.records, 1)
  }

  function WorkloadProblem(s: State, r: WorkloadRecord): Option<ErrorCode> {
    Either(r.Problem(),
           Missing(|| r.workloadClass !in s.records.workloadClasses
                   || (r.artifact != [] && r.artifact !in s.records.artifacts)
                   || (r.policy != [] && r.policy !in s.records.policies)
                   || SomeMissing(r.acceptableClasses, s.records.acceleratorClasses)))
  }

  function WorkloadVerdict(s: State, ctx: Context, now: I64, r: WorkloadRecord): Verdict {
    var t := s.records.workloads;
    var c := Choose(t, r.id, r, WorkloadProblem(s, r), ReplayedSequence(s, ctx), s.bounds.workloads,
                    if r.id in t then t[r.id].record.generation else 0, r.generation, StampFor(ctx, now));
    AsVerdict(c, if c.Installed? then s.records.(workloads := c.table) else s.records, 1)
  }

  // ---------------------------------------------------------------------------------
  // Clusters
  // ---------------------------------------------------------------------------------

  function ClusterProblem(s: State, r: ClusterRecord): Option<ErrorCode> {
    Either(r.Problem(),
           Missing(|| r.federation !in s.records.federations
                   || r.site !in s.records.sites
                   || SomeMissing(r.acceleratorClasses, s.records.acceleratorClasses)
                   || SomeMissing(r.runtimes, s.records.runtimes)
                   || SomeMissing(r.backends, s.records.backends)
                   || (r.domain != [] && r.domain !in s.records.domains)))
  }

  /** Capacity and readiness are evidence about one incarnation only. */
  function Cleared(r: ClusterRecord): ClusterRecord {
    r.(pools := [], readiness := Readiness.Unknown)
  }

  function StoredGeneration(s: State, cluster: Id): U64 {
    if cluster in s.records.clusters then s.records.clusters[cluster].record.generation else 0
  }

  predicate NewIncarnation(s: State, r: ClusterRecord) {
    StoredGeneration(s, r.id) != 0 && r.generation > StoredGeneration(s, r.id)
  }

  function ClusterChoice(s: State, ctx: Context, now: I64, r: ClusterRecord): Choice<ClusterRecord> {
    Choose(s.records.clusters, r.id, r, ClusterProblem(s, r), ReplayedSequence(s, ctx), s.bounds.clusters,
           StoredGeneration(s, r.id), r.generation, StampFor(ctx, now))
  }

  function ClusterTable(s: State, ctx: Context, now: I64, r: ClusterRecord): map<Id, Entry<ClusterRecord>>
    requires ClusterChoice(s, ctx, now, r).Installed?
  {
    if NewIncarnation(s, r)
    then s.records.clusters[r.id := Entry(Cleared(r), Currentness.Current, StampFor(ctx, now))]
    else ClusterChoice(s, ctx, now, r).table
  }

  function ClusterVerdict(s: State, ctx: Context, now: I64, r: ClusterRecord): Verdict {
    var c := ClusterChoice(s, ctx, now, r);
    AsVerdict(c, if c.Installed? then s.records.(clusters := ClusterTable(s, ctx, now, r)) else s.records,
              if NewIncarnation(s, r) then 2 else 1)
  }

  function RetireVerdict(s: State, ctx: Context, now: I64, cluster: Id, generation: U64): Verdict {
    if cluster !in s.records.clusters then Refuse(NotFound, Plain)
    else
      var e := s.records.clusters[cluster];
      if generation != 0 && generation < e.record.generation then Refuse(StaleGeneration, Plain)
      else if e.currentness.Retired? then Keep(Duplicate)
      else
        var r := e.record.(generation := if generation != 0 then generation else Next(e.record.generation),
                           readiness := Readiness.Retired,
                           capacityGeneration := Next(e.record.capacityGeneration));
        Store(Applied, s.records.(clusters := s.records.clusters[cluster :=
                Entry(r, Currentness.Retired, StampFor(ctx, now))]), 1, Retirement)
  }

  function FederationProblem(s: State, ctx: Context): Option<ErrorCode> {
    if ctx.federation !in s.records.federations then Some(NotFound)
    else if ctx.federationGeneration != 0
            && ctx.federationGeneration != s.records.federations[ctx.federation].record.generation
    then Some(StaleGeneration)
    else None
  }

  /** The checks capability and capacity publications share, up to the retirement test. */
  function EvidenceProblem(s: State, ctx: Context, cluster: Id): Option<ErrorCode> {
    if FederationProblem(s, ctx).Some? then FederationProblem(s, ctx)
    else if cluster !in s.records.clusters then Some(NotFound)
    else if s.records.clusters[cluster].currentness.Retired? then Some(Conflict)
    else None
  }

  function CapabilityVerdict(
    s: State, ctx: Context, now: I64, cluster: Id, clusterGeneration: U64, capabilityGeneration: U64,
    capabilities: CapabilitySet): Verdict
  {
    if EvidenceProblem(s, ctx, cluster).Some? then Refuse(EvidenceProblem(s, ctx, cluster).value, Plain)
    else
      var r := s.records.clusters[cluster].record;
      if capabilityGeneration == 0 then Refuse(InvalidArgument, Plain)
      else if clusterGeneration != 0 && clusterGeneration < r.generation then Refuse(StaleGeneration, Plain)
      else if capabilityGeneration < r.capabilityGeneration then Refuse(StaleGeneration, Plain)
      else if capabilityGeneration == r.capabilityGeneration && r.capabilities.entries != [] then
        if r.capabilities.entries == capabilities.entries then Keep(Duplicate) else Refuse(Conflict, Plain)
      else
        var moved := r.(generation := if clusterGeneration > r.generation then clusterGeneration else r.generation);
        if !KeysValid(capabilities.entries) then
          Spoil(InvalidArgument,
                s.records.(clusters := s.records.clusters[cluster := s.records.clusters[cluster].(record := moved)]))
        else
          Store(Applied, s.records.(clusters := s.records.clusters[cluster :=
                  Entry(moved.(capabilities := capabilities, capabilityGeneration := capabilityGeneration,
                               evidenceGeneration := ctx.evidenceGeneration),
                        Currentness.Current, StampFor(ctx, now))]), 1, NoMilestone)
  }

  // ---------------------------------------------------------------------------------
  // Capacity
  // ---------------------------------------------------------------------------------

  function PoolProblem(s: State, pool: Pool): Option<ErrorCode> {
    if pool.id == [] then Some(InvalidArgument)
    else if !pool.ledger.Closes() then Some(CapacityInconsistent)
    else if pool.kind.Accelerator? && pool.acceleratorClass == [] then Some(InvalidArgument)
    else if pool.acceleratorClass != [] && pool.acceleratorClass !in s.records.acceleratorClasses then Some(NotFound)
    else None
  }

  function FirstPoolProblem(s: State, pools: seq<Pool>): Option<ErrorCode> {
    if pools == [] then None
    else Either(FirstPoolProblem(s, pools[..|pools| - 1]), PoolProblem(s, pools[|pools| - 1]))
  }

  function Nominals(pools: seq<Pool>): seq<U64> {
    seq(|pools|, i requires 0 <= i < |pools| => pools[i].ledger.nominal)
  }

  function InsertPool(sorted: seq<Pool>, pool: Pool): seq<Pool> {
    if sorted == [] || TextLess(pool.id, sorted[0].id) then [pool] + sorted
    else [sorted[0]] + InsertPool(sorted[1..], pool)
  }

  /** Pools in identifier order. Identifiers are distinct wherever this is used. */
  function SortPools(pools: seq<Pool>): seq<Pool> {
    if pools == [] then [] else InsertPool(SortPools(pools[..|pools| - 1]), pools[|pools| - 1])
  }

  /** The publication context overrides what the pool says about its own evidence. */
  function StampPool(pool: Pool, ctx: Context, capacityGeneration: U64): Pool {
    pool.(precision := ctx.precision, evidenceClass := ctx.evidenceClass,
          generation := if pool.generation == 0 then capacityGeneration else pool.generation)
  }

  function StampPools(pools: seq<Pool>, ctx: Context, capacityGeneration: U64): seq<Pool> {
    seq(|pools|, i requires 0 <= i < |pools| => StampPool(pools[i], ctx, capacityGeneration))
  }

  predicate SamePools(incoming: seq<Pool>, stored: seq<Pool>) {
    && Sum(Nominals(stored)) == Sum(Nominals(incoming))
    && |incoming| == |stored|
    && SortPools(incoming) == SortPools(stored)
  }

  function CapacityVerdict(
    s: State, ctx: Context, now: I64, cluster: Id, clusterGeneration: U64, capacityGeneration: U64,
    pools: seq<Pool>): Verdict
  {
    if EvidenceProblem(s, ctx, cluster).Some? then Refuse(EvidenceProblem(s, ctx, cluster).value, Plain)
    else
      var r := s.records.clusters[cluster].record;
      if capacityGeneration == 0 then Refuse(InvalidArgument, Plain)
      else if |pools| > MAX_POOLS_PER_CLUSTER then Refuse(BoundExceeded, OverBound)
      else if clusterGeneration != 0 && clusterGeneration < r.generation then Refuse(StaleGeneration, Plain)
      else if capacityGeneration < r.capacityGeneration then Refuse(StaleGeneration, Plain)
      else if FirstPoolProblem(s, pools).Some? then Refuse(FirstPoolProblem(s, pools).value, Plain)
      else if HasDuplicates(PoolIds(pools)) then Refuse(InvalidArgument, Plain)
      else if Sum(Nominals(pools)) > U64_MAX then Refuse(CapacityInconsistent, Plain)
      else if capacityGeneration == r.capacityGeneration && r.pools != [] then
        if SamePools(pools, r.pools) then Keep(Duplicate) else Refuse(Conflict, Plain)
      else
        Store(Applied, s.records.(clusters := s.records.clusters[cluster :=
                Entry(r.(generation := if clusterGeneration > r.generation then clusterGeneration else r.generation,
                         pools := SortPools(StampPools(pools, ctx, capacityGeneration)),
                         capacityGeneration := capacityGeneration,
                         evidenceGeneration := ctx.evidenceGeneration),
                      Currentness.Current, StampFor(ctx, now))]), 1, NoMilestone)
  }

  // ---------------------------------------------------------------------------------
  // Placements
  // ---------------------------------------------------------------------------------

  function PlacementProblem(s: State, ctx: Context, r: PlacementRecord): Option<ErrorCode> {
    if FederationProblem(s, ctx).Some? then FederationProblem(s, ctx)
    else if r.Problem().Some? then r.Problem()
    else if r.federation != ctx.federation then Some(InvalidArgument)
    else Missing(|| r.workload !in s.records.workloads
                 || r.selected !in s.records.clusters
                 || SomeMissing(r.CandidateIds(), s.records.clusters))
  }

  /** A newer placement of the workload is already stored. `observedAt` is the time the
      incoming record itself carries. */
  predicate LatestIsNewer(s: State, r: PlacementRecord, observedAt: I64) {
    && r.workload in s.records.latestPlacement
    && s.records.latestPlacement[r.workload] in s.records.placements
    && var stored := s.records.placements[s.records.latestPlacement[r.workload]];
       || stored.stamp.observedAt > observedAt
       || (stored.stamp.observedAt == observedAt && stored.record.generation > r.generation)
  }

  function PlacementVerdict(s: State, ctx: Context, now: I64, r: PlacementRecord, observedAt: I64): Verdict {
    var t := s.records.placements;
    if PlacementProblem(s, ctx, r).Some? then Refuse(PlacementProblem(s, ctx, r).value, Plain)
    else if r.id in t && t[r.id].record == r then Keep(Duplicate)
    else if ReplayedSequence(s, ctx) then Refuse(Conflict, Plain)
    else if r.id in t && t[r.id].record.generation > r.generation then Keep(Superseded)
    else if r.id in t && t[r.id].record.generation == r.generation then Refuse(Conflict, Plain)
    else if |t| >= s.bounds.placementHistory then Refuse(BoundExceeded, OverBound)
    else
      var history := LatestIsNewer(s, r, observedAt);
      Store(if history then Superseded else Applied,
            s.records.(placements := t[r.id :=
                         Entry(r, if history then Currentness.Stale else Currentness.Current, StampFor(ctx, now))],
                       latestPlacement := if history then s.records.latestPlacement
                                          else s.records.latestPlacement[r.workload := r.id]),
            1, PlacementRecorded)
  }

  // ---------------------------------------------------------------------------------
  // Migrations
  // ---------------------------------------------------------------------------------

  function MigrationProblem(s: State, ctx: Context, r: Migration.MigrationRecord): Option<ErrorCode> {
    if FederationProblem(s, ctx).Some? then FederationProblem(s, ctx)
    else if Migration.RecordProblem(r).Some? then Migration.RecordProblem(r)
    else if r.federation != ctx.federation then Some(InvalidArgument)
    else Missing(|| r.workload !in s.records.workloads
                 || r.source !in s.records.clusters
                 || r.destination !in s.records.clusters)
  }

  function DemoteMigration(t: map<Id, Entry<Migration.MigrationRecord>>, id: Id): map<Id, Entry<Migration.MigrationRecord>> {
    if id in t && t[id].currentness.Current? then t[id := t[id].(currentness := Currentness.Stale)] else t
  }

  function MigrationVerdict(s: State, ctx: Context, now: I64, r: Migration.MigrationRecord): Verdict {
    var t := s.records.migrations;
    if MigrationProblem(s, ctx, r).Some? then Refuse(MigrationProblem(s, ctx, r).value, Plain)
    else if r.id in t && t[r.id].record == r then Keep(Duplicate)
    else if ReplayedSequence(s, ctx) then Refuse(Conflict, Plain)
    else if r.id in t && t[r.id].record.generation > r.generation then Keep(Superseded)
    else if r.id in t && t[r.id].record.generation == r.generation then Refuse(Conflict, Plain)
    else if |t| >= s.bounds.migrationHistory then Refuse(BoundExceeded, OverBound)
    else
      var added := t[r.id := Entry(r, Currentness.Current, StampFor(ctx, now))];
      Store(Applied,
            s.records.(migrations := if r.supersedes == [] then added else DemoteMigration(added, r.supersedes),
                       superseded := if r.supersedes == [] then s.records.superseded
                                     else s.records.superseded[r.workload := r.supersedes],
                       latestMigration := s.records.latestMigration[r.workload := r.id]),
            1, MigrationRecorded)
  }

  function StageEventFor(ctx: Context, now: I64, generation: U64, stage: Migration.Stage, detail: Text): Migration.StageEvent {
    Migration.StageEvent(generation, stage, ctx.sequence, Clock(ctx, now), ctx.precision, ctx.evidenceClass, detail)
  }

  function StageVerdict(
    s: State, ctx: Context, now: I64, id: Id, generation: U64, stage: Migration.Stage, detail: Text): Verdict
  {
    if id !in s.records.migrations then Refuse(NotFound, Plain)
    else
      var e := s.records.migrations[id];
      var m := e.record;
      if generation == 0 then Refuse(InvalidArgument, Plain)
      else if generation < m.generation then Refuse(StaleGeneration, Plain)
      else if generation > m.generation then Refuse(InvalidArgument, Plain)
      else if e.currentness.Retired? then Refuse(Conflict, Plain)
      else if m.workload in s.records.superseded && s.records.superseded[m.workload] == id then
        Refuse(StaleGeneration, Plain)
      else if m.events != [] && ctx.sequence <= Migration.Last(m.events).value.sequence then
        Refuse(SequenceRegression, Regressed)
      else if !Migration.IsAcceptableEvent(m.stage, stage) then Refuse(InvalidTransition, Plain)
      else if Migration.IsTerminal(m.stage) then Keep(Duplicate)
      else if |m.events| >= Migration.MAX_STAGE_EVENTS then Refuse(BoundExceeded, OverBound)
      else
        Store(Applied, s.records.(migrations := s.records.migrations[id :=
                Entry(Migration.Advance(m, StageEventFor(ctx, now, generation, stage, detail)),
                      Currentness.Current, StampFor(ctx, now))]), 1, NoMilestone)
  }

  // ---------------------------------------------------------------------------------
  // Portability
  // ---------------------------------------------------------------------------------

  /** Assessments are fingerprinted with their own currentness and without their federation. */
  predicate SameAssessment(stored: Entry<PortabilityRecord>, r: PortabilityRecord, currentness: Currentness) {
    stored.record.(federation := r.federation) == r && stored.currentness == currentness
  }

  function PortabilityVerdict(
    s: State, ctx: Context, now: I64, r: PortabilityRecord, currentness: Currentness, observedAt: I64): Verdict
  {
    var t := s.records.portability;
    var key := PortabilityKey(r.workload, r.destination);
    if r.Problem().Some? then Refuse(r.Problem().value, Plain)
    else if r.workload !in s.records.workloads || r.destination !in s.records.clusters then Refuse(NotFound, Plain)
    else if key in t && SameAssessment(t[key], r, currentness) then Keep(Duplicate)
    else if key in t && (|| t[key].stamp.observedAt > observedAt
                         || (t[key].stamp.observedAt == observedAt && t[key].stamp.sequence > ctx.sequence)) then
      Keep(Superseded)
    else if |t| >= s.bounds.portabilityRecords && key !in t then Refuse(BoundExceeded, OverBound)
    else
      Store(Applied, s.records.(portability := t[key :=
              Entry(r.(federation := if r.federation == [] then ctx.federation else r.federation),
                    Currentness.Current, StampFor(ctx, now))]), 1, NoMilestone)
  }

  // ---------------------------------------------------------------------------------
  // All publications
  // ---------------------------------------------------------------------------------

  datatype Publication =
    | PublishedFederation(federation: FederationRecord)
    | PublishedSite(site: SiteRecord)
    | PublishedAcceleratorClass(acceleratorClass: AcceleratorClassRecord)
    | PublishedRuntime(runtime: RuntimeRecord)
    | PublishedBackend(backend: BackendRecord)
    | PublishedDomain(domain: DomainRecord)
    | PublishedPolicy(policy: PolicyRecord)
    | PublishedArtifact(artifact: ArtifactRecord)
    | PublishedWorkloadClass(workloadClass: WorkloadClassRecord)
    | PublishedWorkload(workload: WorkloadRecord)
    | PublishedCluster(cluster: ClusterRecord)
    | PublishedRetirement(retired: Id, retiredGeneration: U64)
    | PublishedCapability(
        target: Id, targetGeneration: U64, capabilityGeneration: U64, capabilities: CapabilitySet)
    | PublishedCapacity(host: Id, hostGeneration: U64, capacityGeneration: U64, pools: seq<Pool>)
    | PublishedPlacement(placement: PlacementRecord, placedAt: I64)
    | PublishedMigration(migration: Migration.MigrationRecord)
    | PublishedStage(moving: Id, movingGeneration: U64, stage: Migration.Stage, detail: Text)
    | PublishedPortability(assessment: PortabilityRecord, currentness: Currentness, assessedAt: I64)
  {
    /** Structural registrations share one code path. */
    predicate Structural() {
      || PublishedFederation? || PublishedSite? || PublishedAcceleratorClass? || PublishedRuntime?
      || PublishedBackend? || PublishedDomain? || PublishedPolicy? || PublishedArtifact?
      || PublishedWorkloadClass? || PublishedWorkload? || PublishedCluster?
    }

    /** The paths that refuse a reused sequence number. */
    predicate Sequenced() { Structural() || PublishedPlacement? || PublishedMigration? }

    /** Capability sets can only be built by puts, which check every key. */
    predicate Constructible() { PublishedCapability? ==> Canonical(capabilities.entries) }
  }

  function VerdictOn(s: State, ctx: Context, now: I64, p: Publication): Verdict {
    match p
    case PublishedFederation(r) => FederationVerdict(s, ctx, now, r)
    case PublishedSite(r) => SiteVerdict(s, ctx, now, r)
    case PublishedAcceleratorClass(r) => AcceleratorClassVerdict(s, ctx, now, r)
    case PublishedRuntime(r) => RuntimeVerdict(s, ctx, now, r)
    case PublishedBackend(r) => BackendVerdict(s, ctx, now, r)
    case PublishedDomain(r) => DomainVerdict(s, ctx, now, r)
    case PublishedPolicy(r) => PolicyVerdict(s, ctx, now, r)
    case PublishedArtifact(r) => ArtifactVerdict(s, ctx, now, r)
    case PublishedWorkloadClass(r) => WorkloadClassVerdict(s, ctx, now, r)
    case PublishedWorkload(r) => WorkloadVerdict(s, ctx, now, r)
    case PublishedCluster(r) => ClusterVerdict(s, ctx, now, r)
    case PublishedRetirement(id, g) => RetireVerdict(s, ctx, now, id, g)
    case PublishedCapability(id, g, cg, caps) => CapabilityVerdict(s, ctx, now, id, g, cg, caps)
    case PublishedCapacity(id, g, cg, pools) => CapacityVerdict(s, ctx, now, id, g, cg, pools)
    case PublishedPlacement(r, at) => PlacementVerdict(s, ctx, now, r, at)
    case PublishedMigration(r) => MigrationVerdict(s, ctx, now, r)
    case PublishedStage(id, g, stage, detail) => StageVerdict(s, ctx, now, id, g, stage, detail)
    case PublishedPortability(r, c, at) => PortabilityVerdict(s, ctx, now, r, c, at)
  }

  function Publish(s: State, ctx: Context, now: I64, p: Publication): (State, Reply) {
    Conclude(s, ctx, now, VerdictOn(s, ctx, now, p))
  }

  // ---------------------------------------------------------------------------------
  // Publisher authority
  // ---------------------------------------------------------------------------------

  function Members(publishers: map<PublisherKey, Authority>, federation: Id): set<PublisherKey> {
    set k | k in publishers && publishers[k].federation == federation
  }

  function RegisterPublisher(s: State, ctx: Context, now: I64): (State, Reply) {
    var key := KeyOf(ctx);
    if !ctx.Valid() then (s, Err(InvalidArgument))
    else if key in s.publishers then
      var a := s.publishers[key];
      if a.fenced then (Refusing(s, ctx, FencedPublisher, Plain), Err(FencedPublisher))
      else if ctx.epoch != s.epoch then (Refusing(s, ctx, StaleEpoch, Plain), Err(StaleEpoch))
      else if ctx.sequence < a.watermark then
        (Refusing(s, ctx, SequenceRegression, Regressed), Err(SequenceRegression))
      else
        var renewed := a.(live := true, epoch := ctx.epoch, federation := ctx.federation,
                          evidenceClass := ctx.evidenceClass);
        Finish(s.(publishers := s.publishers[key := renewed]), ctx, now, Duplicate)
    else if |s.publishers| >= s.bounds.publishers
            || |Members(s.publishers, ctx.federation)| >= s.bounds.publishersPerFederation then
      (s.(stats := s.stats.(boundsRejections := s.stats.boundsRejections + 1)), Err(BoundExceeded))
    else
      var a := Authority(ctx.epoch, ctx.federation, ctx.sequence, Clock(ctx, now), Clock(ctx, now),
                         1, 0, 0, 0, true, false, [], ctx.evidenceClass);
      (s.(publishers := s.publishers[key := a],
          snapshotGeneration := Next(s.snapshotGeneration),
          stats := s.stats.(publisherRegistrations := s.stats.publisherRegistrations + 1,
                            applied := s.stats.applied + 1)),
       Ok(Ack(Applied, ctx.sequence, if ctx.sequence > 1 then ctx.sequence - 1 else 0)))
  }

  predicate StampedBy(stamp: Stamp, key: PublisherKey) {
    stamp.publisher == key.publisher && stamp.publisher != [] && stamp.boot == key.boot
  }

  function DemoteEntry<R>(e: Entry<R>, key: PublisherKey): Entry<R> {
    if StampedBy(e.stamp, key) && e.currentness.Current? then e.(currentness := Currentness.Stale) else e
  }

  /** Every record of the table that the identity produced stops being current. */
  function Demote<R>(t: map<Id, Entry<R>>, key: PublisherKey): map<Id, Entry<R>> {
    map id | id in t :: DemoteEntry(t[id], key)
  }

  function FencePublisher(s: State, publisher: Id, boot: U64, reason: Text): (State, Option<ErrorCode>) {
    var key := PublisherKey(publisher, boot);
    if publisher == [] || boot == 0 then (s, Some(InvalidArgument))
    else if key !in s.publishers then
      var a := Authority(s.epoch, [], 0, 0, 0, 0, 0, 0, 0, false, true, reason, UNKNOWN_CLASS);
      (s.(publishers := s.publishers[key := a],
          stats := s.stats.(publisherFences := s.stats.publisherFences + 1)), None)
    else
      var a := s.publishers[key];
      var fenced := if a.fenced then a.(live := false)
                    else a.(live := false, fenced := true, fencedReason := reason);
      (s.(publishers := s.publishers[key := fenced],
          stats := if a.fenced then s.stats else s.stats.(publisherFences := s.stats.publisherFences + 1),
          snapshotGeneration := Next(s.snapshotGeneration),
          records := s.records.(clusters := Demote(s.records.clusters, key),
                                federations := Demote(s.records.federations, key),
                                sites := Demote(s.records.sites, key),
                                domains := Demote(s.records.domains, key))), None)
  }

  function InvalidateEntry(e: Entry<ClusterRecord>): Entry<ClusterRecord> {
    Entry(Cleared(e.record),
          if e.currentness.Retired? then e.currentness else Currentness.RevalidationRequired, e.stamp)
  }

  function InvalidateClusters(t: map<Id, Entry<ClusterRecord>>): map<Id, Entry<ClusterRecord>> {
    map id | id in t :: InvalidateEntry(t[id])
  }

  function Dormant(a: Authority): Authority {
    if a.fenced then a else a.(live := false)
  }

  function InvalidateDynamicEvidence(s: State): State {
    s.(records := s.records.(clusters := InvalidateClusters(s.records.clusters)),
       publishers := map k | k in s.publishers :: Dormant(s.publishers[k]),
       snapshotGeneration := Next(s.snapshotGeneration))
  }

  // ---------------------------------------------------------------------------------
  // Durable state
  // ---------------------------------------------------------------------------------

  datatype Watermark = Watermark(watermark: U64, fenced: bool, fencedReason: Text, lastSeen: I64)

  /** What survives a restart. The latest/superseded indexes are rebuilt on load. */
  datatype DurableState = DurableState(
    writtenByEpoch: U64, saveSequence: nat, records: Records, watermarks: map<PublisherKey, Watermark>)

  function StaleEntry<R>(e: Entry<R>): Entry<R> {
    if e.currentness.Current? then e.(currentness := Currentness.Stale) else e
  }

  function StaleTable<K, R>(t: map<K, Entry<R>>): map<K, Entry<R>> {
    map id | id in t :: StaleEntry(t[id])
  }

  /** History loses every other claim as well. */
  function History<K, R>(t: map<K, Entry<R>>): map<K, Entry<R>> {
    map id | id in t :: t[id].(currentness := Currentness.Stale)
  }

  function WatermarkOf(a: Authority): Watermark {
    Watermark(a.watermark, a.fenced, a.fencedReason, a.lastPublicationAt)
  }

  function Capture(s: State): DurableState {
    DurableState(
      s.epoch, s.saveSequence + 1,
      s.records.(clusters := InvalidateClusters(s.records.clusters),
                 latestPlacement := map[], latestMigration := map[], superseded := map[]),
      map k | k in s.publishers :: WatermarkOf(s.publishers[k]))
  }

  /** The writer also drops the claim to be current from the tables the loader checks. */
  function Normalize(d: DurableState): DurableState {
    d.(records := d.records.(federations := StaleTable(d.records.federations), sites := StaleTable(d.records.sites),
                             placements := StaleTable(d.records.placements), migrations := StaleTable(d.records.migrations),
                             portability := StaleTable(d.records.portability)))
  }

  function Dormancy(w: Watermark, epoch: U64): Authority {
    Authority(epoch, [], w.watermark, 0, w.lastSeen, 0, 0, 0, 0, false, w.fenced, w.fencedReason, UNKNOWN_CLASS)
  }

  /** Rebuilds the latest placement of each workload while loading placements in order. */
  function RebuildLatest(t: map<Id, Entry<PlacementRecord>>, order: seq<Id>): map<Id, Id>
    requires forall i :: 0 <= i < |order| ==> order[i] in t
  {
    if order == [] then map[]
    else
      var before := RebuildLatest(t, order[..|order| - 1]);
      var id := order[|order| - 1];
      var w := t[id].record.workload;
      if w !in before || before[w] !in t || t[before[w]].stamp.observedAt <= t[id].stamp.observedAt
      then before[w := id] else before
  }

  function RebuildMigrations(t: map<Id, Entry<Migration.MigrationRecord>>, order: seq<Id>): (map<Id, Id>, map<Id, Id>)
    requires forall i :: 0 <= i < |order| ==> order[i] in t
  {
    if order == [] then (map[], map[])
    else
      var (latest, superseded) := RebuildMigrations(t, order[..|order| - 1]);
      var id := order[|order| - 1];
      var m := t[id].record;
      (if m.workload in latest then latest else latest[m.workload := id],
       if m.supersedes == [] then superseded else superseded[m.workload := m.supersedes])
  }

  /** The order in which a state file lists its placements and migrations. */
  datatype FileOrder = FileOrder(placements: seq<Id>, migrations: seq<Id>)

  ghost predicate Lists<R>(order: seq<Id>, t: map<Id, Entry<R>>) {
    && (forall i :: 0 <= i < |order| ==> order[i] in t)
    && (forall id :: id in t ==> id in order)
  }

  ghost predicate OrderOf(order: FileOrder, records: Records) {
    Lists(order.placements, records.placements) && Lists(order.migrations, records.migrations)
  }

  /** Replaces the whole model by a validated durable state. */
  ghost function Apply(s: State, d: DurableState, order: FileOrder): State
    requires OrderOf(order, d.records)
  {
    var r := d.records;
    var placements := History(r.placements);
    var migrations := History(r.migrations);
    var (latestMigration, superseded) := RebuildMigrations(migrations, order.migrations);
    s.(records := Records(
         StaleTable(r.federations), StaleTable(r.sites), InvalidateClusters(r.clusters), StaleTable(r.acceleratorClasses),
         StaleTable(r.runtimes), StaleTable(r.backends), StaleTable(r.domains), StaleTable(r.policies), StaleTable(r.artifacts),
         StaleTable(r.workloadClasses), StaleTable(r.workloads), placements, RebuildLatest(placements, order.placements),
         migrations, latestMigration, superseded, History(r.portability)),
       publishers := map k | k in d.watermarks :: Dormancy(d.watermarks[k], d.writtenByEpoch),
       saveSequence := d.saveSequence,
       epoch := if d.writtenByEpoch != 0 then Next(d.writtenByEpoch) else 1,
       snapshotGeneration := Next(s.snapshotGeneration),
       stats := s.stats.(stateLoads := s.stats.stateLoads + 1))
  }

  // ---------------------------------------------------------------------------------
  // What a durable state must satisfy to be loaded (src/state_store.cpp)
  // ---------------------------------------------------------------------------------

  predicate WithinBounds(r: Records, b: Bounds) {
    && |r.federations| <= b.federations && |r.sites| <= b.sites && |r.clusters| <= b.clusters
    && |r.acceleratorClasses| <= b.acceleratorClasses && |r.runtimes| <= b.runtimes
    && |r.backends| <= b.backends && |r.domains| <= b.domains && |r.policies| <= b.policies
    && |r.artifacts| <= b.artifacts && |r.workloadClasses| <= b.workloadClasses
    && |r.workloads| <= b.workloads && |r.placements| <= b.placementHistory
    && |r.migrations| <= b.migrationHistory && |r.portability| <= b.portabilityRecords
  }

  predicate FederationSound(r: Records, id: Id)
    requires id in r.federations
  {
    var x := r.federations[id].record;
    x.id == id && x.Problem() == None
  }

  predicate SiteSound(r: Records, id: Id)
    requires id in r.sites
  {
    var x := r.sites[id].record;
    x.id == id && x.Problem() == None && x.federation in r.federations
  }

  predicate ClusterSound(r: Records, id: Id)
    requires id in r.clusters
  {
    var x := r.clusters[id].record;
    && x.id == id && Cleared(x).Problem() == None
    && x.federation in r.federations && x.site in r.sites
    && !SomeMissing(x.acceleratorClasses, r.acceleratorClasses) && !SomeMissing(x.runtimes, r.runtimes)
  }

  predicate WorkloadSound(r: Records, id: Id)
    requires id in r.workloads
  {
    var x := r.workloads[id].record;
    && x.id == id && x.Problem() == None
    && x.workloadClass in r.workloadClasses
    && (x.artifact != [] ==> x.artifact in r.artifacts) && (x.policy != [] ==> x.policy in r.policies)
  }

  predicate PlacementSound(r: Records, id: Id)
    requires id in r.placements
  {
    var x := r.placements[id].record;
    && x.id == id && x.Problem() == None
    && x.workload in r.workloads && x.selected in r.clusters && !SomeMissing(x.CandidateIds(), r.clusters)
  }

  predicate MigrationResolved(r: Records, id: Id)
    requires id in r.migrations
  {
    var x := r.migrations[id].record;
    x.id == id && x.workload in r.workloads && x.source in r.clusters && x.destination in r.clusters
  }

  predicate PortabilitySound(r: Records, key: PortabilityKey)
    requires key in r.portability
  {
    var x := r.portability[key].record;
    key == PortabilityKey(x.workload, x.destination) && x.Problem() == None && x.workload in r.workloads
  }

  predicate NothingCurrent<K(==), R>(t: map<K, Entry<R>>) {
    forall k :: k in t ==> !t[k].currentness.Current?
  }

  predicate ClusterNormal(e: Entry<ClusterRecord>) {
    && e.record.pools == []
    && (e.record.readiness.Unknown? || e.currentness.Retired?)
    && !e.currentness.Current? && !e.currentness.Stale?
  }

  predicate Loadable(d: DurableState, b: Bounds) {
    var r := d.records;
    && WithinBounds(r, b) && |d.watermarks| <= b.publishers
    && (forall id :: id in r.federations ==> FederationSound(r, id))
    && (forall id :: id in r.sites ==> SiteSound(r, id))
    && (forall id :: id in r.clusters ==> ClusterSound(r, id) && ClusterNormal(r.clusters[id]))
    && (forall id :: id in r.workloads ==> WorkloadSound(r, id))
    && (forall id :: id in r.placements ==> PlacementSound(r, id))
    && (forall id :: id in r.migrations ==>
          MigrationResolved(r, id) && Migration.RecordProblem(r.migrations[id].record) == None)
    && (forall key :: key in r.portability ==> PortabilitySound(r, key))
    && NothingCurrent(r.federations) && NothingCurrent(r.sites) && NothingCurrent(r.placements)
    && NothingCurrent(r.migrations) && NothingCurrent(r.portability)
  }

  /** The state file written now. */
  function Saved(s: State): DurableState {
    Normalize(Capture(s))
  }

  // ---------------------------------------------------------------------------------
  // Runs
  // ---------------------------------------------------------------------------------

  /** A restore saves the current state and loads it back into the engine. */
  datatype Op =
    | Register(ctx: Context, now: I64)
    | Ingest(ctx: Context, now: I64, publication: Publication)
    | Fence(publisher: Id, boot: U64, reason: Text)
    | Invalidate
    | Restore(order: FileOrder)
  {
    predicate Constructible() { Ingest? ==> publication.Constructible() }
  }

  ghost predicate Restores(s: State, order: FileOrder) {
    Loadable(Saved(s), s.bounds) && OrderOf(order, Saved(s).records)
  }

  ghost function Step(s: State, op: Op): State {
    match op
    case Register(ctx, now) => RegisterPublisher(s, ctx, now).0
    case Ingest(ctx, now, p) => Publish(s, ctx, now, p).0
    case Fence(publisher, boot, reason) => FencePublisher(s, publisher, boot, reason).0
    case Invalidate => InvalidateDynamicEvidence(s)
    case Restore(order) => if Restores(s, order) then Apply(s, Saved(s), order) else s
  }

  /** The reply an ingest operation gets. */
  function ReplyTo(s: State, op: Op): Reply
    requires op.Register? || op.Ingest?
  {
    match op
    case Register(ctx, now) => RegisterPublisher(s, ctx, now).1
    case Ingest(ctx, now, p) => Publish(s, ctx, now, p).1
  }

  ghost function Run(s: State, ops: seq<Op>): State {
    if ops == [] then s else Step(Run(s, ops[..|ops| - 1]), ops[|ops| - 1])
  }

  ghost predicate Constructible(ops: seq<Op>) {
    forall i :: 0 <= i < |ops| ==> ops[i].Constructible()
  }
}
