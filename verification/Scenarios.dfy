/** Runs from the empty engine that reach what the theorems about single steps assume, and with
    them the exact answers to when a promise of the engine fails (src/observatory.cpp). */
module Scenarios {
  import opened Foundation
  import opened Capability
  import opened Capacity
  import opened Model
  import opened Observatory
  import opened Fencing
  import opened Sequencing
  import Migration

  // ---------------------------------------------------------------------------------
  // One publisher fills an engine
  // ---------------------------------------------------------------------------------

  const PUBLISHER: Id := [97]
  const FEDERATION: Id := [102]
  const LARGE: Id := [65]
  const SMALL: Id := [66]
  const SITE: Id := [115]
  const SOURCE: Id := [99]
  const TARGET: Id := [100]
  const KIND: Id := [107]
  const WORKLOAD: Id := [119]
  const MOVE: Id := [109]
  const POOL: Id := [112]

  const KEY := PublisherKey(PUBLISHER, 1)

  /** What the publisher sends under a sequence number. */
  function Sent(sequence: U64): Context {
    Context(PUBLISHER, 1, 1, FEDERATION, 0, sequence, 1, 0, 0, 0, 0)
  }

  /** The memory of two accelerator classes and what a workload asks for. */
  datatype Plot = Plot(large: U64, small: U64, memory: U64)

  function ClassOfMemory(id: Id, memory: U64): AcceleratorClassRecord {
    AcceleratorClassRecord(id, 1, [], [], memory, EMPTY_SET, [])
  }

  /** A cluster that has the small class only. */
  function SmallCluster(id: Id): ClusterRecord {
    ClusterRecord(id, 1, 1, FEDERATION, SITE, [], [SMALL], [], [], [], 0, 0, 0, Readiness.Ready, EMPTY_SET, [])
  }

  /** A workload whose first choice is the large class. */
  function LargeWorkload(memory: U64): WorkloadRecord {
    WorkloadRecord(WORKLOAD, 1, KIND, [], 1, memory, [LARGE], [], [], [], DomainKind.Unknown, [], [])
  }

  const PLANNED_MOVE := Migration.MigrationRecord(
    MOVE, 1, WORKLOAD, 1, FEDERATION, [], SOURCE, TARGET, Migration.Planned, Migration.InProgress, [], false, [])

  const THE_FEDERATION := FederationRecord(FEDERATION, 1, 1, [], [], [], [], [], [])
  const THE_SITE := SiteRecord(SITE, 1, FEDERATION, [], [], [])
  const THE_KIND := WorkloadClassRecord(KIND, [])

  /** The story, publication by publication. */
  function Chapter(plot: Plot, n: nat): Publication
    requires 2 <= n <= 10
  {
    if n == 2 then PublishedFederation(THE_FEDERATION)
    else if n == 3 then PublishedAcceleratorClass(ClassOfMemory(LARGE, plot.large))
    else if n == 4 then PublishedAcceleratorClass(ClassOfMemory(SMALL, plot.small))
    else if n == 5 then PublishedSite(THE_SITE)
    else if n == 6 then PublishedCluster(SmallCluster(SOURCE))
    else if n == 7 then PublishedCluster(SmallCluster(TARGET))
    else if n == 8 then PublishedWorkloadClass(THE_KIND)
    else if n == 9 then PublishedWorkload(LargeWorkload(plot.memory))
    else PublishedMigration(PLANNED_MOVE)
  }

  function Fresh<R>(r: R, sequence: U64): Entry<R> {
    Entry(r, Currentness.Current, StampFor(Sent(sequence), 0))
  }

  function Federations(n: nat): map<Id, Entry<FederationRecord>> {
    if n >= 2 then map[FEDERATION := Fresh(THE_FEDERATION, 2)] else map[]
  }

  function Classes(plot: Plot, n: nat): map<Id, Entry<AcceleratorClassRecord>> {
    var large := Fresh(ClassOfMemory(LARGE, plot.large), 3);
    if n >= 4 then map[LARGE := large, SMALL := Fresh(ClassOfMemory(SMALL, plot.small), 4)]
    else if n >= 3 then map[LARGE := large] else map[]
  }

  function Sites(n: nat): map<Id, Entry<SiteRecord>> {
    if n >= 5 then map[SITE := Fresh(THE_SITE, 5)] else map[]
  }

  function Clusters(n: nat): map<Id, Entry<ClusterRecord>> {
    var source := Fresh(SmallCluster(SOURCE), 6);
    if n >= 7 then map[SOURCE := source, TARGET := Fresh(SmallCluster(TARGET), 7)]
    else if n >= 6 then map[SOURCE := source] else map[]
  }

  function Kinds(n: nat): map<Id, Entry<WorkloadClassRecord>> {
    if n >= 8 then map[KIND := Fresh(THE_KIND, 8)] else map[]
  }

  function Workloads(plot: Plot, n: nat): map<Id, Entry<WorkloadRecord>> {
    if n >= 9 then map[WORKLOAD := Fresh(LargeWorkload(plot.memory), 9)] else map[]
  }

  function Moves(n: nat): map<Id, Entry<Migration.MigrationRecord>> {
    if n >= 10 then map[MOVE := Fresh(PLANNED_MOVE, 10)] else map[]
  }

  function LatestMoves(n: nat): map<Id, Id> {
    if n >= 10 then map[WORKLOAD := MOVE] else map[]
  }

  /** The records after the first `n` chapters. */
  function Book(plot: Plot, n: nat): Records {
    Records(Federations(n), Sites(n), Clusters(n), Classes(plot, n), map[], map[], map[], map[], map[], Kinds(n),
            Workloads(plot, n), map[], map[], Moves(n), LatestMoves(n), map[], map[])
  }

  function Story(plot: Plot, n: nat): seq<Op>
    requires 1 <= n <= 10
  {
    if n == 1 then [Register(Sent(1), 0)] else Story(plot, n - 1) + [Ingest(Sent(n), 0, Chapter(plot, n))]
  }

  /** Bounds with room for the story. */
  predicate Roomy(b: Bounds) {
    && b.federations > 0 && b.sites > 0 && b.clusters > 1 && b.acceleratorClasses > 1 && b.workloadClasses > 0
    && b.workloads > 0 && b.policies > 0 && b.migrationHistory > 0 && b.portabilityRecords > 0
    && b.publishers > 0 && b.publishersPerFederation > 0
  }

  /** The publisher is the only one, and may send what follows the watermark. */
  predicate At(s: State, b: Bounds, watermark: U64, records: Records) {
    && s.bounds == b && s.epoch == 1 && s.records == records
    && s.publishers.Keys == {KEY} && !s.publishers[KEY].fenced && s.publishers[KEY].watermark == watermark
  }

  lemma Extended(s: State, ops: seq<Op>, op: Op)
    ensures Run(s, ops + [op]) == Step(Run(s, ops), op)
  {
    assert (ops + [op])[..|ops|] == ops;
  }

  lemma Opened(s: State, b: Bounds, watermark: U64, records: Records, sequence: U64)
    requires At(s, b, watermark, records) && sequence >= watermark && sequence > 0
    ensures Gate(s, Sent(sequence)) == Open(sequence == watermark)
  {
  }

  /** An accepted publication turns the page. */
  lemma Published(s: State, b: Bounds, watermark: U64, records: Records, sequence: U64, p: Publication, after: Records, bumps: nat, m: Milestone)
    requires At(s, b, watermark, records) && sequence >= watermark && sequence > 0
    requires VerdictOn(s, Sent(sequence), 0, p) == Store(Applied, after, bumps, m)
    ensures At(Step(s, Ingest(Sent(sequence), 0, p)), b, sequence, after)
    ensures Publish(s, Sent(sequence), 0, p).1.Ok? && Publish(s, Sent(sequence), 0, p).1.value.disposition.Applied?
  {
    hide VerdictOn;
    Opened(s, b, watermark, records, sequence);
  }

  lemma FederationAccepted(s: State, plot: Plot, b: Bounds)
    requires Roomy(b) && At(s, b, 1, Book(plot, 1))
    ensures FederationVerdict(s, Sent(2), 0, THE_FEDERATION) == Store(Applied, Book(plot, 2), 1, NoMilestone)
  {
    Opened(s, b, 1, Book(plot, 1), 2);
    hide Gate;
    assert Federations(1)[FEDERATION := Fresh(THE_FEDERATION, 2)] == Federations(2);
  }

  lemma LargeClassAccepted(s: State, plot: Plot, b: Bounds)
    requires Roomy(b) && At(s, b, 2, Book(plot, 2))
    ensures AcceleratorClassVerdict(s, Sent(3), 0, ClassOfMemory(LARGE, plot.large)) == Store(Applied, Book(plot, 3), 1, NoMilestone)
  {
    Opened(s, b, 2, Book(plot, 2), 3);
    hide Gate;
    assert Classes(plot, 2)[LARGE := Fresh(ClassOfMemory(LARGE, plot.large), 3)] == Classes(plot, 3);
  }

  lemma SmallClassAccepted(s: State, plot: Plot, b: Bounds)
    requires Roomy(b) && At(s, b, 3, Book(plot, 3))
    ensures AcceleratorClassVerdict(s, Sent(4), 0, ClassOfMemory(SMALL, plot.small)) == Store(Applied, Book(plot, 4), 1, NoMilestone)
  {
    Opened(s, b, 3, Book(plot, 3), 4);
    hide Gate;
    assert Classes(plot, 3)[SMALL := Fresh(ClassOfMemory(SMALL, plot.small), 4)] == Classes(plot, 4);
    assert Classes(plot, 3).Keys == {LARGE} && |Classes(plot, 3)| == |Classes(plot, 3).Keys|;
  }

  lemma SiteAccepted(s: State, plot: Plot, b: Bounds)
    requires Roomy(b) && At(s, b, 4, Book(plot, 4))
    ensures SiteVerdict(s, Sent(5), 0, THE_SITE) == Store(Applied, Book(plot, 5), 1, NoMilestone)
  {
    Opened(s, b, 4, Book(plot, 4), 5);
    hide Gate;
    assert Sites(4)[SITE := Fresh(THE_SITE, 5)] == Sites(5);
  }

  lemma SourceAccepted(s: State, plot: Plot, b: Bounds)
    requires Roomy(b) && At(s, b, 5, Book(plot, 5))
    ensures ClusterVerdict(s, Sent(6), 0, SmallCluster(SOURCE)) == Store(Applied, Book(plot, 6), 1, NoMilestone)
  {
    Opened(s, b, 5, Book(plot, 5), 6);
    hide Gate;
    assert Clusters(5)[SOURCE := Fresh(SmallCluster(SOURCE), 6)] == Clusters(6);
  }

  lemma TargetAccepted(s: State, plot: Plot, b: Bounds)
    requires Roomy(b) && At(s, b, 6, Book(plot, 6))
    ensures ClusterVerdict(s, Sent(7), 0, SmallCluster(TARGET)) == Store(Applied, Book(plot, 7), 1, NoMilestone)
  {
    Opened(s, b, 6, Book(plot, 6), 7);
    hide Gate;
    assert Clusters(6)[TARGET := Fresh(SmallCluster(TARGET), 7)] == Clusters(7);
    assert Clusters(6).Keys == {SOURCE} && |Clusters(6)| == |Clusters(6).Keys|;
  }

  lemma KindAccepted(s: State, plot: Plot, b: Bounds)
    requires Roomy(b) && At(s, b, 7, Book(plot, 7))
    ensures WorkloadClassVerdict(s, Sent(8), 0, THE_KIND) == Store(Applied, Book(plot, 8), 1, NoMilestone)
  {
    Opened(s, b, 7, Book(plot, 7), 8);
    hide Gate;
    assert Kinds(7)[KIND := Fresh(THE_KIND, 8)] == Kinds(8);
  }

  lemma WorkloadAccepted(s: State, plot: Plot, b: Bounds)
    requires Roomy(b) && At(s, b, 8, Book(plot, 8))
    ensures WorkloadVerdict(s, Sent(9), 0, LargeWorkload(plot.memory)) == Store(Applied, Book(plot, 9), 1, NoMilestone)
  {
    Opened(s, b, 8, Book(plot, 8), 9);
    hide Gate;
    assert Workloads(plot, 8)[WORKLOAD := Fresh(LargeWorkload(plot.memory), 9)] == Workloads(plot, 9);
  }

  lemma MoveAccepted(s: State, plot: Plot, b: Bounds)
    requires Roomy(b) && At(s, b, 9, Book(plot, 9))
    ensures MigrationVerdict(s, Sent(10), 0, PLANNED_MOVE) == Store(Applied, Book(plot, 10), 1, MigrationRecorded)
  {
    Opened(s, b, 9, Book(plot, 9), 10);
    hide Gate;
    assert Moves(9)[MOVE := Fresh(PLANNED_MOVE, 10)] == Moves(10);
    assert LatestMoves(9)[WORKLOAD := MOVE] == LatestMoves(10);
  }

  /** Each chapter is accepted. */
  lemma Accepted(s: State, plot: Plot, b: Bounds, n: nat)
    requires 2 <= n <= 10 && Roomy(b) && At(s, b, n - 1, Book(plot, n - 1))
    ensures VerdictOn(s, Sent(n), 0, Chapter(plot, n)) ==
            Store(Applied, Book(plot, n), 1, if n == 10 then MigrationRecorded else NoMilestone)
  {
    hide Book, Roomy, At, FederationVerdict, AcceleratorClassVerdict, SiteVerdict, ClusterVerdict, WorkloadClassVerdict,
         WorkloadVerdict, MigrationVerdict, ClassOfMemory, SmallCluster, LargeWorkload;
    if n == 2 { FederationAccepted(s, plot, b); }
    else if n == 3 { LargeClassAccepted(s, plot, b); }
    else if n == 4 { SmallClassAccepted(s, plot, b); }
    else if n == 5 { SiteAccepted(s, plot, b); }
    else if n == 6 { SourceAccepted(s, plot, b); }
    else if n == 7 { TargetAccepted(s, plot, b); }
    else if n == 8 { KindAccepted(s, plot, b); }
    else if n == 9 { WorkloadAccepted(s, plot, b); }
    else { MoveAccepted(s, plot, b); }
  }

  lemma StoryStarts(plot: Plot, b: Bounds)
    requires Roomy(b)
    ensures At(Run(Initial(b), Story(plot, 1)), b, 1, Book(plot, 1))
  {
    Extended(Initial(b), [], Register(Sent(1), 0));
    assert [] + [Register(Sent(1), 0)] == Story(plot, 1);
    assert Members(map[], FEDERATION) == {};
    assert Book(plot, 1) == NO_RECORDS;
  }

  /** The whole story is accepted: it leaves exactly the book. */
  lemma {:induction false} StoryRuns(plot: Plot, b: Bounds, n: nat)
    requires 1 <= n <= 10 && Roomy(b)
    ensures At(Run(Initial(b), Story(plot, n)), b, n, Book(plot, n)) && Constructible(Story(plot, n))
  {
    hide Book, At, Chapter, Step, Roomy, Run, Initial;
    if n == 1 {
      StoryStarts(plot, b);
    } else {
      StoryRuns(plot, b, n - 1);
      var s := Run(Initial(b), Story(plot, n - 1));
      Accepted(s, plot, b, n);
      ChapterIsConstructible(plot, n);
      Extended(Initial(b), Story(plot, n - 1), Ingest(Sent(n), 0, Chapter(plot, n)));
      Published(s, b, n - 1, Book(plot, n - 1), n, Chapter(plot, n), Book(plot, n), 1,
                if n == 10 then MigrationRecorded else NoMilestone);
    }
  }

  lemma ChapterIsConstructible(plot: Plot, n: nat)
    requires 2 <= n <= 10
    ensures Chapter(plot, n).Constructible()
  {
  }

  // ---------------------------------------------------------------------------------
  // Reused sequence numbers
  // ---------------------------------------------------------------------------------

  datatype PublicationKind =
    | FederationKind | SiteKind | AcceleratorClassKind | RuntimeKind | BackendKind | DomainKind | PolicyKind
    | ArtifactKind | WorkloadClassKind | WorkloadKind | ClusterKind | RetirementKind | CapabilityKind | CapacityKind
    | PlacementKind | MigrationKind | StageKind | PortabilityKind
  {
    /** The kinds whose path looks whether the sequence number was used before. */
    predicate Sequenced() {
      !RetirementKind? && !CapabilityKind? && !CapacityKind? && !StageKind? && !PortabilityKind?
    }
  }

  function KindOf(p: Publication): PublicationKind {
    match p
    case PublishedFederation(_) => FederationKind
    case PublishedSite(_) => SiteKind
    case PublishedAcceleratorClass(_) => AcceleratorClassKind
    case PublishedRuntime(_) => RuntimeKind
    case PublishedBackend(_) => BackendKind
    case PublishedDomain(_) => PublicationKind.DomainKind
    case PublishedPolicy(_) => PolicyKind
    case PublishedArtifact(_) => PublicationKind.ArtifactKind
    case PublishedWorkloadClass(_) => WorkloadClassKind
    case PublishedWorkload(_) => WorkloadKind
    case PublishedCluster(_) => ClusterKind
    case PublishedRetirement(_, _) => RetirementKind
    case PublishedCapability(_, _, _, _) => CapabilityKind
    case PublishedCapacity(_, _, _, _) => CapacityKind
    case PublishedPlacement(_, _) => PlacementKind
    case PublishedMigration(_) => MigrationKind
    case PublishedStage(_, _, _, _) => StageKind
    case PublishedPortability(_, _, _) => PortabilityKind
  }

  /** The publication reuses the sequence number its sender used last, and is applied. */
  predicate Reapplied(s: State, ctx: Context, now: I64, p: Publication) {
    ReplayedSequence(s, ctx) && Publish(s, ctx, now, p).1.Ok? && Publish(s, ctx, now, p).1.value.disposition.Applied?
  }

  function ThePool(idle: U64): Pool {
    Pool(POOL, Accelerator, SMALL, [], Ledger(idle, 0, 0, 0, 0, 0, idle), 1, 0, 0)
  }

  /** One publication of each kind that does not look. */
  function Repeat(kind: PublicationKind, idle: U64): (p: Publication)
    requires !kind.Sequenced()
    ensures KindOf(p) == kind && p.Constructible()
  {
    match kind
    case RetirementKind => PublishedRetirement(TARGET, 0)
    case CapabilityKind => PublishedCapability(SOURCE, 0, 1, EMPTY_SET)
    case CapacityKind => PublishedCapacity(SOURCE, 0, 1, [ThePool(idle)])
    case StageKind => PublishedStage(MOVE, 1, Migration.OutcomeUnknown, [])
    case PortabilityKind => PublishedPortability(PortabilityRecord(WORKLOAD, 1, TARGET, [], [], []), Currentness.Current, 1)
  }

  /** What the pool publication leaves behind. */
  function Stocked(plot: Plot, idle: U64): Records {
    var r := Book(plot, 10);
    r.(clusters := r.clusters[SOURCE :=
         Entry(SmallCluster(SOURCE).(pools := [ThePool(idle)], capacityGeneration := 1),
               Currentness.Current, StampFor(Sent(10), 0))])
  }

  lemma CapacityIsStored(s: State, plot: Plot, b: Bounds, idle: U64)
    requires At(s, b, 10, Book(plot, 10))
    ensures CapacityVerdict(s, Sent(10), 0, SOURCE, 0, 1, [ThePool(idle)]) == Store(Applied, Stocked(plot, idle), 1, NoMilestone)
  {
    var pools := [ThePool(idle)];
    assert pools[..0] == [] && FirstPoolProblem(s, []) == None;
    assert FirstPoolProblem(s, pools) == None;
    assert Nominals(pools) == [idle] && [idle][..0] == [] && Sum([idle]) == idle;
    assert StampPools(pools, Sent(10), 1) == pools;
    assert SortPools([]) == [] && SortPools(pools) == pools;
  }

  lemma StageIsStored(s: State, plot: Plot, b: Bounds)
    requires At(s, b, 10, Book(plot, 10))
    ensures StageVerdict(s, Sent(10), 0, MOVE, 1, Migration.OutcomeUnknown, []).Store?
    ensures StageVerdict(s, Sent(10), 0, MOVE, 1, Migration.OutcomeUnknown, []).disposition.Applied?
  {
  }

  lemma OthersAreStored(s: State, plot: Plot, b: Bounds)
    requires At(s, b, 10, Book(plot, 10)) && b.portabilityRecords > 0
    ensures RetireVerdict(s, Sent(10), 0, TARGET, 0).Store? && RetireVerdict(s, Sent(10), 0, TARGET, 0).disposition.Applied?
    ensures var v := CapabilityVerdict(s, Sent(10), 0, SOURCE, 0, 1, EMPTY_SET);
            v.Store? && v.disposition.Applied?
    ensures var v := PortabilityVerdict(s, Sent(10), 0, PortabilityRecord(WORKLOAD, 1, TARGET, [], [], []), Currentness.Current, 1);
            v.Store? && v.disposition.Applied?
  {
  }

  lemma StoredIsReapplied(s: State, b: Bounds, records: Records, p: Publication)
    requires At(s, b, 10, records)
    requires VerdictOn(s, Sent(10), 0, p).Store? && VerdictOn(s, Sent(10), 0, p).disposition.Applied?
    ensures Reapplied(s, Sent(10), 0, p)
  {
    hide VerdictOn;
    Opened(s, b, 10, records, 10);
  }

  /** Every kind that does not look applies a reused number somewhere. */
  lemma RepeatIsReapplied(s: State, plot: Plot, b: Bounds, kind: PublicationKind, idle: U64)
    requires Roomy(b) && At(s, b, 10, Book(plot, 10)) && !kind.Sequenced()
    ensures Reapplied(s, Sent(10), 0, Repeat(kind, idle))
  {
    hide CapacityVerdict, StageVerdict, RetireVerdict, CapabilityVerdict, PortabilityVerdict, Stocked, Book, At, Reapplied;
    CapacityIsStored(s, plot, b, idle);
    StageIsStored(s, plot, b);
    OthersAreStored(s, plot, b);
    StoredIsReapplied(s, b, Book(plot, 10), Repeat(kind, idle));
  }

  /** No run ever applies a reused number to a publication of the kind. */
  ghost predicate NeverReapplied(kind: PublicationKind) {
    forall b: Bounds, ops: seq<Op>, ctx: Context, now: I64, p: Publication ::
      Constructible(ops) && p.Constructible() && KindOf(p) == kind ==> !Reapplied(Run(Initial(b), ops), ctx, now, p)
  }

  lemma SequencedKinds(p: Publication)
    ensures p.Sequenced() <==> KindOf(p).Sequenced()
  {
  }

  /** A kind of publication is never applied under a reused sequence number, in any run, if and
      only if its path looks: structural registrations, placements and migrations do; retirements,
      capability, capacity, stages and portability do not. */
  lemma ReusedNumbersAreRefusedExactly(kind: PublicationKind)
    ensures NeverReapplied(kind) <==> kind.Sequenced()
  {
    hide Run, Publish, VerdictOn;
    if kind.Sequenced() {
      forall b: Bounds, ops: seq<Op>, ctx: Context, now: I64, p: Publication | Constructible(ops) && KindOf(p) == kind
        ensures !Reapplied(Run(Initial(b), ops), ctx, now, p)
      {
        SequencedKinds(p);
        ReplayedIsNotApplied(Run(Initial(b), ops), ctx, now, p);
      }
    } else {
      var plot, b := Plot(2, 1, 2), Bounds(2, 2, 2, 2, 2, 2, 2, 2, 2, 2, 2, 2, 2, 2, 2, 2);
      StoryRuns(plot, b, 10);
      RepeatIsReapplied(Run(Initial(b), Story(plot, 10)), plot, b, kind, 1);
    }
  }

  lemma ReplayedIsNotApplied(s: State, ctx: Context, now: I64, p: Publication)
    requires p.Sequenced()
    ensures !Reapplied(s, ctx, now, p)
  {
    hide VerdictOn;
    if ReplayedSequence(s, ctx) {
      ReplayIsNeverApplied(s, ctx, now, p);
    }
  }
}
