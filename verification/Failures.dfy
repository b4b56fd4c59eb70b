/** Runs from the empty engine in which a promise one might expect does not hold. */
module Failures {
  import opened Foundation
  import opened Capability
  import opened Capacity
  import opened Model
  import opened Observatory
  import opened Fencing
  import opened Durability
  import opened Pools
  import opened Placements
  import opened Registrations
  import opened Scenarios
  import opened Deciders
  import opened Compatibility
  import opened Stranding
  import opened Assessing
  import Migration

  // ---------------------------------------------------------------------------------
  // Fences
  // ---------------------------------------------------------------------------------

  /** The only publisher is fenced: classes, workloads and migrations stay current, and nobody
      who may still speak stands behind them. */
  lemma FencedPublisherStaysCurrent(plot: Plot, b: Bounds, reason: Text)
    requires Roomy(b)
    ensures var before := Run(Initial(b), Story(plot, 10));
            var after := Run(Initial(b), Story(plot, 10) + [Fence(PUBLISHER, 1, reason)]);
            && TableBacked(before.records.acceleratorClasses, before.publishers)
            && !TableBacked(after.records.acceleratorClasses, after.publishers)
            && !TableBacked(after.records.workloads, after.publishers)
            && !TableBacked(after.records.migrations, after.publishers)
  {
    hide Run, Story, FencePublisher, SparedByFence;
    StoryRuns(plot, b, 10);
    var s := Run(Initial(b), Story(plot, 10));
    Extended(Initial(b), Story(plot, 10), Fence(PUBLISHER, 1, reason));
    FenceTakesEffect(s, PUBLISHER, 1, reason);
    FenceSparesOtherTables(s, PUBLISHER, 1, reason);
    var after := FencePublisher(s, PUBLISHER, 1, reason).0;
    assert SparedByFence(s.records.acceleratorClasses, after.records.acceleratorClasses, s, after, KEY);
    Unbacked(s, after, s.records.acceleratorClasses, after.records.acceleratorClasses, LARGE);
    Unbacked(s, after, s.records.workloads, after.records.workloads, WORKLOAD);
    Unbacked(s, after, s.records.migrations, after.records.migrations, MOVE);
  }

  lemma Unbacked<R>(s: State, t: State, before: map<Id, Entry<R>>, after: map<Id, Entry<R>>, id: Id)
    requires SparedByFence(before, after, s, t, KEY) && Fenced(t, KEY)
    requires id in before && before[id].currentness.Current? && StampedBy(before[id].stamp, KEY)
    ensures !TableBacked(after, t.publishers)
  {
    assert after[id] == before[id] && !Live(t.publishers, after[id].stamp);
  }

  function Fences(n: nat): seq<Op>
    requires n <= U64_MAX
  {
    if n == 0 then [] else Fences(n - 1) + [Fence(PUBLISHER, n, [])]
  }

  lemma FenceAddsOne(s: State, n: U64)
    requires n > 0 && PublisherKey(PUBLISHER, n) !in s.publishers
    ensures FencePublisher(s, PUBLISHER, n, []).0.publishers.Keys == s.publishers.Keys + {PublisherKey(PUBLISHER, n)}
    ensures |FencePublisher(s, PUBLISHER, n, []).0.publishers| == |s.publishers| + 1
  {
    var t := FencePublisher(s, PUBLISHER, n, []).0;
    assert t.publishers.Keys == s.publishers.Keys + {PublisherKey(PUBLISHER, n)};
    assert |t.publishers| == |t.publishers.Keys| && |s.publishers| == |s.publishers.Keys|;
  }

  lemma {:induction false} FencesAddUp(b: Bounds, n: nat)
    requires n <= U64_MAX
    ensures var s := Run(Initial(b), Fences(n));
            |s.publishers| == n && forall key :: key in s.publishers ==> key.boot <= n
    ensures Constructible(Fences(n))
  {
    hide FencePublisher, RegisterPublisher, Publish, InvalidateDynamicEvidence, Apply, Restores;
    if n > 0 {
      FencesAddUp(b, n - 1);
      FenceAddsOne(Run(Initial(b), Fences(n - 1)), n);
      Extended(Initial(b), Fences(n - 1), Fence(PUBLISHER, n, []));
    }
  }

  /** Fencing one unknown identity more than publishers fit, and nothing else, leaves a state whose
      file does not load. */
  lemma FencesFillTheEngine(b: Bounds)
    requires b.publishers < U64_MAX
    ensures var s := Run(Initial(b), Fences(b.publishers + 1));
            !Loadable(Saved(s), b)
  {
    hide Run, Loadable, Saved, OutcomesMatchStages;
    FencesAddUp(b, b.publishers + 1);
    ReachableStatesReloadExactly(b, Fences(b.publishers + 1));
  }

  // ---------------------------------------------------------------------------------
  // Revalidation after the outcome was lost
  // ---------------------------------------------------------------------------------

  /** The stage the publisher reports under a sequence number. */
  function Report(sequence: U64): Publication {
    PublishedStage(MOVE, 1, if sequence == 11 then Migration.OutcomeUnknown else Migration.RevalidationRequired, [])
  }

  /** The move after the outcome was lost, and after revalidation was demanded. */
  function Lost(sequence: U64): Migration.MigrationRecord {
    var unknown := Migration.Advance(PLANNED_MOVE, StageEventFor(Sent(11), 0, 1, Migration.OutcomeUnknown, []));
    if sequence == 11 then unknown
    else Migration.Advance(unknown, StageEventFor(Sent(12), 0, 1, Migration.RevalidationRequired, []))
  }

  function LostBook(plot: Plot, sequence: U64): Records {
    Book(plot, 10).(migrations := Book(plot, 10).migrations[MOVE := Fresh(Lost(sequence), sequence)])
  }

  lemma LossAccepted(s: State, plot: Plot, b: Bounds)
    requires At(s, b, 10, Book(plot, 10))
    ensures VerdictOn(s, Sent(11), 0, Report(11)) == Store(Applied, LostBook(plot, 11), 1, NoMilestone)
  {
    var v := StageVerdict(s, Sent(11), 0, MOVE, 1, Migration.OutcomeUnknown, []);
    assert v == Store(Applied, LostBook(plot, 11), 1, NoMilestone);
    hide StageVerdict;
  }

  lemma DemandAccepted(s: State, plot: Plot, b: Bounds)
    requires At(s, b, 11, LostBook(plot, 11))
    ensures VerdictOn(s, Sent(12), 0, Report(12)) == Store(Applied, LostBook(plot, 12), 1, NoMilestone)
  {
    hide Book;
    var before := Book(plot, 10).migrations;
    assert before[MOVE := Fresh(Lost(11), 11)][MOVE := Fresh(Lost(12), 12)] == before[MOVE := Fresh(Lost(12), 12)];
    NothingSuperseded(plot);
    assert Migration.Last(Lost(11).events).value.sequence == 11;
    hide Migration.Advance;
    var v := StageVerdict(s, Sent(12), 0, MOVE, 1, Migration.RevalidationRequired, []);
    assert v == Store(Applied, LostBook(plot, 12), 1, NoMilestone);
    hide StageVerdict;
  }

  lemma NothingSuperseded(plot: Plot)
    ensures Book(plot, 10).superseded == map[]
  {
  }

  /** A migration is planned, loses its outcome and is to be revalidated: each report is accepted,
      and the state saved then does not load. */
  lemma RevalidationCanSpoilASave(plot: Plot, b: Bounds)
    requires Roomy(b)
    ensures var planned := Story(plot, 10);
            var lost := planned + [Ingest(Sent(11), 0, Report(11))];
            && Publish(Run(Initial(b), planned), Sent(11), 0, Report(11)).1.Ok?
            && Publish(Run(Initial(b), lost), Sent(12), 0, Report(12)).1.Ok?
            && !Loadable(Saved(Run(Initial(b), lost + [Ingest(Sent(12), 0, Report(12))])), b)
  {
    hide Run, Story, VerdictOn, Publish, Loadable, Saved, At, Book, Step;
    StoryRuns(plot, b, 10);
    var first := Story(plot, 10) + [Ingest(Sent(11), 0, Report(11))];
    var s := Run(Initial(b), Story(plot, 10));
    LossAccepted(s, plot, b);
    Published(s, b, 10, Book(plot, 10), 11, Report(11), LostBook(plot, 11), 1, NoMilestone);
    Extended(Initial(b), Story(plot, 10), Ingest(Sent(11), 0, Report(11)));
    var t := Run(Initial(b), first);
    DemandAccepted(t, plot, b);
    Published(t, b, 11, LostBook(plot, 11), 12, Report(12), LostBook(plot, 12), 1, NoMilestone);
    Extended(Initial(b), first, Ingest(Sent(12), 0, Report(12)));
    Spoiled(plot, b, Run(Initial(b), first + [Ingest(Sent(12), 0, Report(12))]));
    ReachableStatesReloadExactly(b, first + [Ingest(Sent(12), 0, Report(12))]);
  }

  lemma Spoiled(plot: Plot, b: Bounds, s: State)
    requires At(s, b, 12, LostBook(plot, 12))
    ensures !OutcomesMatchStages(s.records)
  {
    hide Book;
    assert MOVE in s.records.migrations && s.records.migrations[MOVE].record == Lost(12);
  }

  // ---------------------------------------------------------------------------------
  // Admission and pools of another class
  // ---------------------------------------------------------------------------------

  function RecordsOf<R>(t: map<Id, Entry<R>>): map<Id, R> {
    map id | id in t :: t[id].record
  }

  /** A snapshot of the records that was not truncated. */
  ghost predicate Shows(snapshot: Snapshot, r: Records) {
    && snapshot.sites == r.sites.Keys
    && snapshot.acceleratorClasses == RecordsOf(r.acceleratorClasses) && snapshot.runtimes == RecordsOf(r.runtimes)
    && snapshot.artifacts == RecordsOf(r.artifacts) && snapshot.policies == RecordsOf(r.policies)
    && (forall e :: e in snapshot.clusters <==> exists id :: id in r.clusters && r.clusters[id] == e)
    && (forall w :: w in snapshot.workloads <==> exists id :: id in r.workloads && r.workloads[id].record == w)
  }

  lemma LargeClassAdmits(plot: Plot, idle: U64, snapshot: Snapshot)
    requires 0 < plot.memory <= plot.large && Shows(snapshot, Stocked(plot, idle))
    ensures Assessed(snapshot, Some(LargeWorkload(plot.memory)), Stocked(plot, idle).clusters[SOURCE]).AdmitsPlacement()
  {
    hide Overall, PutAll;
    var w, e := LargeWorkload(plot.memory), Stocked(plot, idle).clusters[SOURCE];
    var t := Gathered(snapshot, Some(w), e.record);
    assert MemoryOutcomes(t) == [Compatible];
    assert Checks(t, Some(t.observed), Currentness.Current) == [Compatible, Compatible];
    OverallIsWeakest(Checks(t, Some(t.observed), Currentness.Current));
  }

  lemma SmallPoolIsStranded(plot: Plot, idle: U64, snapshot: Snapshot)
    requires 0 < plot.small < plot.memory && Shows(snapshot, Stocked(plot, idle))
    ensures var w, e := LargeWorkload(plot.memory), Stocked(plot, idle).clusters[SOURCE];
            FindingOf(snapshot, Some(w), e.record, ThePool(idle)).breakdown.Stranded() == idle
  {
    hide Noted, PutAll, BreakdownOf, Index;
    var w, e, pool := LargeWorkload(plot.memory), Stocked(plot, idle).clusters[SOURCE], ThePool(idle);
    var t := TargetOf(snapshot, Some(w), e.record, pool);
    assert MemoryVote(t) == Fails(MemoryInsufficient);
    var votes := Votes(t);
    assert votes[1] == AbiVote(t) && votes[2] == MemoryVote(t);
    var eligibility := PoolEligibility(t, pool.kind);
    assert eligibility.decided && !eligibility.eligible;
    FindingPartitionsIdle(eligibility, idle);
  }

  /** The workload wants more memory than the cluster's only class has. The query admits it, on the
      strength of a class the cluster does not have; all idle capacity of the cluster is stranded. */
  lemma AdmittedOnAnAbsentClass(plot: Plot, idle: U64, snapshot: Snapshot)
    requires 0 < plot.small < plot.memory <= plot.large && Shows(snapshot, Stocked(plot, idle))
    ensures var w, e := LargeWorkload(plot.memory), Stocked(plot, idle).clusters[SOURCE];
            && w in snapshot.workloads && e in snapshot.clusters && LARGE !in e.record.acceleratorClasses
            && Assessed(snapshot, Some(w), e).AdmitsPlacement()
            && e.record.pools == [ThePool(idle)]
            && FindingOf(snapshot, Some(w), e.record, ThePool(idle)).breakdown.Stranded() == idle
  {
    LargeClassAdmits(plot, idle, snapshot);
    SmallPoolIsStranded(plot, idle, snapshot);
    hide Assessed, FindingOf;
    var r := Stocked(plot, idle);
    assert r.workloads[WORKLOAD].record == LargeWorkload(plot.memory) && r.clusters[SOURCE] in snapshot.clusters;
  }

  /** An engine in that situation is reached by eleven operations. */
  lemma AbsentClassIsReached(plot: Plot, b: Bounds, idle: U64)
    requires Roomy(b)
    ensures Run(Initial(b), Story(plot, 10) + [Ingest(Sent(10), 0, PublishedCapacity(SOURCE, 0, 1, [ThePool(idle)]))]).records ==
            Stocked(plot, idle)
  {
    hide Run, Story, CapacityVerdict, At, Book, Step;
    var p := PublishedCapacity(SOURCE, 0, 1, [ThePool(idle)]);
    StoryRuns(plot, b, 10);
    var s := Run(Initial(b), Story(plot, 10));
    CapacityIsStored(s, plot, b, idle);
    Published(s, b, 10, Book(plot, 10), 10, p, Stocked(plot, idle), 1, NoMilestone);
    Extended(Initial(b), Story(plot, 10), Ingest(Sent(10), 0, p));
    Recorded(Run(Initial(b), Story(plot, 10) + [Ingest(Sent(10), 0, p)]), b, 10, Stocked(plot, idle));
  }

  lemma Recorded(s: State, b: Bounds, watermark: U64, records: Records)
    requires At(s, b, watermark, records)
    ensures s.records == records
  {
  }

  // ---------------------------------------------------------------------------------
  // Repeated capacity
  // ---------------------------------------------------------------------------------

  /** The same pool without a generation of its own. */
  function BarePool(idle: U64): Pool {
    ThePool(idle).(generation := 0)
  }

  lemma BareCapacityIsStored(s: State, plot: Plot, b: Bounds, idle: U64)
    requires At(s, b, 10, Book(plot, 10))
    ensures CapacityVerdict(s, Sent(11), 0, SOURCE, 0, 1, [BarePool(idle)]).Store?
    ensures CapacityVerdict(s, Sent(11), 0, SOURCE, 0, 1, [BarePool(idle)]).disposition.Applied?
    ensures FederationProblem(s, Sent(12)).None?
  {
    var pools := [BarePool(idle)];
    assert pools[..0] == [] && FirstPoolProblem(s, []) == None;
    assert FirstPoolProblem(s, pools) == None;
    assert Nominals(pools) == [idle] && [idle][..0] == [] && Sum([idle]) == idle;
    hide SortPools, StampPools;
  }

  lemma FederationsStay(s: State, ctx: Context, now: I64, pools: seq<Pool>, next: Context)
    requires CapacityVerdict(s, ctx, now, SOURCE, 0, 1, pools).Store? && Gate(s, ctx).Open?
    requires KeyOf(next) == KeyOf(ctx) && next.Valid() && next.epoch == s.epoch && next.sequence > ctx.sequence
    ensures var t := Publish(s, ctx, now, PublishedCapacity(SOURCE, 0, 1, pools)).0;
            Gate(t, next).Open? && (FederationProblem(s, next).None? ==> FederationProblem(t, next).None?)
  {
    hide SortPools, StampPools, SamePools, Sum, HasDuplicates, FirstPoolProblem;
  }

  /** From the empty engine: a capacity publication whose pool has no generation of its own is
      applied, and the same publication sent again is refused as a conflict. */
  lemma RepeatedCapacityCanConflict(plot: Plot, b: Bounds, idle: U64)
    requires Roomy(b)
    ensures var s := Run(Initial(b), Story(plot, 10));
            var p := PublishedCapacity(SOURCE, 0, 1, [BarePool(idle)]);
            var first := Publish(s, Sent(11), 0, p);
            && first.1.Ok? && first.1.value.disposition.Applied?
            && Publish(first.0, Sent(12), 0, p).1 == Err(Conflict)
  {
    hide Run, Story, CapacityVerdict, Book;
    StoryRuns(plot, b, 10);
    var s, pools := Run(Initial(b), Story(plot, 10)), [BarePool(idle)];
    BareCapacityIsStored(s, plot, b, idle);
    Opened(s, b, 10, Book(plot, 10), 11);
    FederationsStay(s, Sent(11), 0, pools, Sent(12));
    hide FederationProblem, Gate, At;
    RepeatedCapacityPublication(s, Sent(11), 0, SOURCE, 0, 1, pools, Sent(12), 0);
    assert pools[0].generation == 0;
  }

  // ---------------------------------------------------------------------------------
  // A mislaid placement
  // ---------------------------------------------------------------------------------

  const EARLIER: Id := [49]
  const LATER: Id := [50]

  function PlacementOf(id: Id, generation: U64): PlacementRecord {
    PlacementRecord(id, generation, WORKLOAD, 1, FEDERATION, SOURCE, [], true, [])
  }

  /** What the publisher sends about something it observed at the given time. */
  function Seen(sequence: U64, time: I64): Context {
    Sent(sequence).(observedAt := time)
  }

  /** Two placements, and the second one again under the next generation but as of an earlier time. */
  function Filed(n: nat): (Context, PlacementRecord, I64)
    requires 1 <= n <= 3
  {
    if n == 1 then (Seen(11, 10), PlacementOf(EARLIER, 1), 10)
    else if n == 2 then (Seen(12, 20), PlacementOf(LATER, 1), 20)
    else (Seen(13, 5), PlacementOf(LATER, 2), 5)
  }

  function FiledOp(n: nat): Op
    requires 1 <= n <= 3
  {
    var (ctx, r, time) := Filed(n);
    Ingest(ctx, 0, PublishedPlacement(r, time))
  }

  function Filing(n: nat): seq<Op>
    requires n <= 3
  {
    if n == 0 then [] else Filing(n - 1) + [FiledOp(n)]
  }

  function FiledEntry(n: nat): Entry<PlacementRecord>
    requires 1 <= n <= 3
  {
    var (ctx, r, time) := Filed(n);
    Entry(r, if n == 3 then Currentness.Stale else Currentness.Current, StampFor(ctx, 0))
  }

  /** The placements stored after each of them. */
  function Shelf(n: nat): map<Id, Entry<PlacementRecord>> {
    if n == 0 then map[]
    else if n == 1 then map[EARLIER := FiledEntry(1)]
    else if n == 2 then map[EARLIER := FiledEntry(1), LATER := FiledEntry(2)]
    else map[EARLIER := FiledEntry(1), LATER := FiledEntry(3)]
  }

  function Shelved(plot: Plot, n: nat): Records {
    Book(plot, 10).(placements := Shelf(n),
                    latestPlacement := if n == 0 then map[] else if n == 1 then map[WORKLOAD := EARLIER] else map[WORKLOAD := LATER])
  }

  lemma Advanced(s: State, b: Bounds, watermark: U64, records: Records, ctx: Context, p: Publication)
    requires At(s, b, watermark, records) && watermark < ctx.sequence && ctx == Seen(ctx.sequence, ctx.observedAt)
    requires Publish(s, ctx, 0, p).1.Ok?
    ensures var t := Publish(s, ctx, 0, p).0; At(t, b, ctx.sequence, t.records)
  {
    hide VerdictOn, StampFor;
  }

  lemma FiledIsValid(s: State, plot: Plot, ctx: Context, id: Id, generation: U64)
    requires ctx.federation == FEDERATION && ctx.federationGeneration == 0 && id != [] && generation > 0
    requires s.records.federations == Federations(10) && s.records.workloads == Workloads(plot, 10)
    requires s.records.clusters == Clusters(10)
    ensures PlacementProblem(s, ctx, PlacementOf(id, generation)).None?
  {
    hide Fresh;
  }

  lemma FiledIsStorable(s: State, plot: Plot, b: Bounds, n: nat)
    requires 1 <= n <= 3 && At(s, b, 9 + n, Shelved(plot, n - 1)) && b.placementHistory > 2
    ensures Storable(s, Filed(n).0, Filed(n).1)
  {
    hide PlacementProblem, Federations, Workloads, Clusters, Classes, Sites, Kinds, Moves, LatestMoves, StampFor;
    var (ctx, r, time) := Filed(n);
    FiledIsValid(s, plot, ctx, r.id, r.generation);
    ShelfIsSmall(n - 1);
  }

  lemma ShelfIsSmall(n: nat)
    ensures |Shelf(n)| <= 2
  {
    hide FiledEntry;
    assert Shelf(n).Keys <= {EARLIER, LATER};
    assert |Shelf(n)| == |Shelf(n).Keys|;
    SmallKeys(Shelf(n).Keys);
  }

  lemma SmallKeys(ids: set<Id>)
    requires ids <= {EARLIER, LATER}
    ensures |ids| <= 2
  {
    assert ids == {} || ids == {EARLIER} || ids == {LATER} || ids == {EARLIER, LATER};
  }

  lemma FiledStep(s: State, plot: Plot, b: Bounds, n: nat)
    requires 1 <= n <= 3 && At(s, b, 9 + n, Shelved(plot, n - 1)) && b.placementHistory > 2
    ensures At(Step(s, FiledOp(n)), b, 10 + n, Shelved(plot, n))
  {
    hide Publish, Book, Storable;
    var (ctx, r, time) := Filed(n);
    FiledIsStorable(s, plot, b, n);
    PlacementSettles(s, ctx, 0, r, time);
    Advanced(s, b, 9 + n, Shelved(plot, n - 1), ctx, PublishedPlacement(r, time));
    FiledShelf(plot, n);
  }

  /** Filing puts the entry on the shelf. */
  lemma FiledShelf(plot: Plot, n: nat)
    requires 1 <= n <= 3
    ensures Shelf(n) == Shelf(n - 1)[Filed(n).1.id := FiledEntry(n)]
    ensures n < 3 ==> Shelved(plot, n).latestPlacement == Shelved(plot, n - 1).latestPlacement[WORKLOAD := Filed(n).1.id]
  {
    hide StampFor, Book;
  }

  lemma {:induction false} FilingRuns(plot: Plot, b: Bounds, n: nat)
    requires n <= 3 && Roomy(b) && b.placementHistory > 2
    ensures At(Run(Initial(b), Story(plot, 10) + Filing(n)), b, 10 + n, Shelved(plot, n))
  {
    hide Run, Step, Story, Book, Roomy, FiledOp, At, Initial;
    if n == 0 {
      StoryRuns(plot, b, 10);
      assert Story(plot, 10) + Filing(0) == Story(plot, 10);
      NothingShelved(plot);
    } else {
      FilingRuns(plot, b, n - 1);
      FiledStep(Run(Initial(b), Story(plot, 10) + Filing(n - 1)), plot, b, n);
      Extended(Initial(b), Story(plot, 10) + Filing(n - 1), FiledOp(n));
      assert Story(plot, 10) + Filing(n) == (Story(plot, 10) + Filing(n - 1)) + [FiledOp(n)];
    }
  }

  lemma NothingShelved(plot: Plot)
    ensures Shelved(plot, 0) == Book(plot, 10)
  {
    hide Federations, Classes, Sites, Clusters, Kinds, Workloads, Moves, LatestMoves;
  }

  /** From the empty engine: a placement observed at 10 and one observed at 20 are applied. The
      second is published again under the next generation but as of 5: it is stored as stale and
      stays in the index, although the first one is newer. */
  lemma LatestPlacementCanBeMislaid(plot: Plot, b: Bounds)
    requires Roomy(b) && b.placementHistory > 2
    ensures var right := Run(Initial(b), Story(plot, 10) + Filing(2)).records;
            var wrong := Run(Initial(b), Story(plot, 10) + Filing(3)).records;
            && IndexIsNewest(right) && !IndexIsNewest(wrong)
            && HasLatest(wrong, WORKLOAD) && EARLIER in wrong.placements
            && LatestOf(wrong, WORKLOAD).stamp.observedAt < wrong.placements[EARLIER].stamp.observedAt
  {
    hide Run, Story, Roomy, Initial, Shelved, IndexIsNewest;
    FilingRuns(plot, b, 2);
    FilingRuns(plot, b, 3);
    ShelvesCompared(plot);
  }

  lemma ShelvesCompared(plot: Plot)
    ensures IndexIsNewest(Shelved(plot, 2)) && !IndexIsNewest(Shelved(plot, 3))
    ensures var wrong := Shelved(plot, 3);
            && HasLatest(wrong, WORKLOAD) && EARLIER in wrong.placements
            && LatestOf(wrong, WORKLOAD).stamp.observedAt < wrong.placements[EARLIER].stamp.observedAt
  {
    hide Book;
    assert EARLIER in Shelved(plot, 3).placements;
  }

  // ---------------------------------------------------------------------------------
  // The last snapshot generation
  // ---------------------------------------------------------------------------------

  function Invalidations(n: nat): seq<Op> {
    if n == 0 then [] else Invalidations(n - 1) + [Invalidate]
  }

  lemma {:induction false} InvalidationsCount(b: Bounds, n: nat)
    requires n < U64_MAX
    ensures Run(Initial(b), Invalidations(n)) == Initial(b).(snapshotGeneration := n + 1)
  {
    if n > 0 {
      InvalidationsCount(b, n - 1);
      Extended(Initial(b), Invalidations(n - 1), Invalidate);
      var s := Initial(b).(snapshotGeneration := n);
      assert InvalidateClusters(map[]) == map[];
      assert InvalidateDynamicEvidence(s).publishers == map[];
      assert InvalidateDynamicEvidence(s).records == NO_RECORDS;
    }
  }

  /** An empty engine invalidated until its snapshot generation is the last one, and the same engine
      after its first federation: one generation, different records. */
  lemma LastSnapshotGenerationIsReached(plot: Plot, b: Bounds)
    requires Roomy(b)
    ensures var still := Invalidations(U64_MAX - 1);
            var busy := still + [Register(Sent(1), 0)] + [Ingest(Sent(2), 0, Chapter(plot, 2))];
            && Run(Initial(b), still).snapshotGeneration == U64_MAX == Run(Initial(b), busy).snapshotGeneration
            && Run(Initial(b), still).records != Run(Initial(b), busy).records
  {
    hide Run, Invalidations, FederationVerdict;
    var still := Invalidations(U64_MAX - 1);
    InvalidationsCount(b, U64_MAX - 1);
    var s := Run(Initial(b), still);
    Extended(Initial(b), still, Register(Sent(1), 0));
    assert Members(map[], FEDERATION) == {};
    assert Book(plot, 1) == NO_RECORDS;
    var t := RegisterPublisher(s, Sent(1), 0).0;
    assert At(t, b, 1, Book(plot, 1)) && t.snapshotGeneration == U64_MAX;
    FederationAccepted(t, plot, b);
    var v := FederationVerdict(t, Sent(2), 0, THE_FEDERATION);
    Opened(t, b, 1, Book(plot, 1), 2);
    assert Bumped(U64_MAX, 1) == Bumped(U64_MAX, 0) == U64_MAX;
    Extended(Initial(b), still + [Register(Sent(1), 0)], Ingest(Sent(2), 0, Chapter(plot, 2)));
    assert FEDERATION in Book(plot, 2).federations && FEDERATION !in NO_RECORDS.federations;
  }
}
