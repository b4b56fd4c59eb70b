/** What loading an arbitrary state file does to watermarks and epochs (src/observatory.cpp). */
module StateFiles {
  import opened Foundation
  import opened Capability
  import opened Model
  import opened Observatory
  import opened Fencing
  import opened Sequencing
  import opened Durability
  import opened Scenarios
  import Migration

  // ---------------------------------------------------------------------------------
  // Watermarks
  // ---------------------------------------------------------------------------------

  /** The watermark a file holds for an identity; 0 when it holds none. */
  function FileMark(d: DurableState, key: PublisherKey): U64 {
    if key in d.watermarks then d.watermarks[key].watermark else 0
  }

  /** The event loads a file. */
  ghost predicate Loads(s: State, e: Event) {
    e.LoadFile? && Loadable(e.file, s.bounds) && OrderOf(e.order, e.file.records)
  }

  lemma LoadedMark(s: State, d: DurableState, order: FileOrder, key: PublisherKey)
    requires OrderOf(order, d.records)
    ensures Mark(Apply(s, d, order), key) == FileMark(d, key)
  {
    hide StaleTable, History, InvalidateClusters, RebuildLatest, RebuildMigrations;
  }

  /** A watermark falls exactly when a file is loaded that holds a lower one. */
  lemma WatermarkFallsExactly(s: State, e: Event, key: PublisherKey)
    ensures Mark(Happen(s, e), key) < Mark(s, key) <==> Loads(s, e) && FileMark(e.file, key) < Mark(s, key)
  {
    hide Step, Apply, Loadable, Mark, FileMark;
    match e
    case Operation(op) =>
      WatermarkStep(s, op, key);
    case LoadFile(d, order) =>
      if Loads(s, e) {
        LoadedMark(s, d, order, key);
      }
  }

  /** A file that takes back a watermark is loaded somewhere in the run. */
  ghost predicate TakesBack(s: State, events: seq<Event>, key: PublisherKey, i: nat)
    requires i < |events|
  {
    var before := RunWithFiles(s, events[..i]);
    Loads(before, events[i]) && FileMark(events[i].file, key) < Mark(before, key)
  }

  /** Over a run a watermark is lower at the end only if such a file was loaded. */
  lemma {:induction false} WatermarksFallOnlyWithFiles(s: State, events: seq<Event>, key: PublisherKey)
    requires forall i: nat :: i < |events| ==> !TakesBack(s, events, key, i)
    ensures Mark(RunWithFiles(s, events), key) >= Mark(s, key)
  {
    hide Happen, Mark, FileMark, Loads;
    if events != [] {
      var n := |events| - 1;
      var before := events[..n];
      forall i: nat | i < n ensures !TakesBack(s, before, key, i) {
        assert before[..i] == events[..i];
        assert !TakesBack(s, events, key, i);
      }
      WatermarksFallOnlyWithFiles(s, before, key);
      assert !TakesBack(s, events, key, n);
      WatermarkFallsExactly(RunWithFiles(s, before), events[n], key);
    }
  }

  // ---------------------------------------------------------------------------------
  // Epochs
  // ---------------------------------------------------------------------------------

  /** Loading raises the epoch exactly when the file was not written by an earlier epoch. */
  lemma EpochRisesExactly(s: State, e: Event)
    requires Loads(s, e) && 0 < s.epoch < U64_MAX
    ensures Happen(s, e).epoch > s.epoch <==> e.file.writtenByEpoch >= s.epoch
  {
    hide StaleTable, History, InvalidateClusters, RebuildLatest, RebuildMigrations, Loadable;
  }

  /** Everything an answer depends on. */
  predicate SameModel(s: State, t: State) {
    s.bounds == t.bounds && s.publishers == t.publishers && s.epoch == t.epoch && s.records == t.records
  }

  lemma {:induction false} SamePoolAnswers(s: State, t: State, pools: seq<Pool>)
    requires s.records == t.records
    ensures FirstPoolProblem(s, pools) == FirstPoolProblem(t, pools)
  {
    if pools != [] {
      SamePoolAnswers(s, t, pools[..|pools| - 1]);
    }
  }

  predicate Standalone(p: Publication) {
    || p.PublishedFederation? || p.PublishedAcceleratorClass? || p.PublishedRuntime? || p.PublishedPolicy?
    || p.PublishedArtifact? || p.PublishedWorkloadClass?
  }

  lemma SameStandaloneVerdicts(s: State, t: State, ctx: Context, now: I64, p: Publication)
    requires SameModel(s, t) && Standalone(p)
    ensures VerdictOn(s, ctx, now, p) == VerdictOn(t, ctx, now, p)
  {
    assert ReplayedSequence(s, ctx) == ReplayedSequence(t, ctx);
    hide Choose, FederationRecord.Problem, AcceleratorClassRecord.Problem, RuntimeRecord.Problem, PolicyRecord.Problem,
         ArtifactRecord.Problem, WorkloadClassRecord.Problem, StampFor, AsVerdict, ReplayedSequence;
  }

  lemma SameLookups(s: State, t: State)
    requires SameModel(s, t)
    ensures forall r: SiteRecord :: SiteProblem(s, r) == SiteProblem(t, r)
    ensures forall r: DomainRecord :: DomainProblem(s, r) == DomainProblem(t, r)
    ensures forall r: WorkloadRecord :: WorkloadProblem(s, r) == WorkloadProblem(t, r)
    ensures forall r: ClusterRecord :: ClusterProblem(s, r) == ClusterProblem(t, r)
  {
    hide SiteRecord.Problem, DomainRecord.Problem, WorkloadRecord.Problem, ClusterRecord.Problem, SomeMissing;
  }

  lemma SameReferringVerdicts(s: State, t: State, ctx: Context, now: I64, p: Publication)
    requires SameModel(s, t) && p.Structural() && !Standalone(p) && !p.PublishedCluster?
    ensures VerdictOn(s, ctx, now, p) == VerdictOn(t, ctx, now, p)
  {
    assert ReplayedSequence(s, ctx) == ReplayedSequence(t, ctx);
    SameLookups(s, t);
    hide Choose, SiteProblem, DomainProblem, WorkloadProblem, BackendRecord.Problem, StampFor, AsVerdict, ReplayedSequence;
  }

  lemma SameClusterVerdicts(s: State, t: State, ctx: Context, now: I64, r: ClusterRecord)
    requires SameModel(s, t)
    ensures ClusterVerdict(s, ctx, now, r) == ClusterVerdict(t, ctx, now, r)
  {
    assert ReplayedSequence(s, ctx) == ReplayedSequence(t, ctx);
    SameLookups(s, t);
    hide Choose, ClusterProblem, StampFor, AsVerdict, ReplayedSequence, Cleared;
    assert ClusterChoice(s, ctx, now, r) == ClusterChoice(t, ctx, now, r);
  }

  lemma SameRegistrationVerdicts(s: State, t: State, ctx: Context, now: I64, p: Publication)
    requires SameModel(s, t) && p.Structural()
    ensures VerdictOn(s, ctx, now, p) == VerdictOn(t, ctx, now, p)
  {
    if p.PublishedCluster? {
      hide ClusterVerdict, SameModel;
      SameClusterVerdicts(s, t, ctx, now, p.cluster);
    } else {
      hide VerdictOn, SameModel;
      if Standalone(p) {
        SameStandaloneVerdicts(s, t, ctx, now, p);
      } else {
        SameReferringVerdicts(s, t, ctx, now, p);
      }
    }
  }

  lemma SameEvidenceVerdicts(s: State, t: State, ctx: Context, now: I64, p: Publication)
    requires SameModel(s, t) && (p.PublishedRetirement? || p.PublishedCapability? || p.PublishedCapacity?)
    ensures VerdictOn(s, ctx, now, p) == VerdictOn(t, ctx, now, p)
  {
    hide FirstPoolProblem, HasDuplicates, Nominals, PoolIds, SamePools, SortPools, StampPools, Sum, KeysValid, StampFor;
    if p.PublishedCapacity? {
      SamePoolAnswers(s, t, p.pools);
    }
  }

  lemma SameHistoryVerdicts(s: State, t: State, ctx: Context, now: I64, p: Publication)
    requires SameModel(s, t) && (p.PublishedPlacement? || p.PublishedMigration?)
    ensures VerdictOn(s, ctx, now, p) == VerdictOn(t, ctx, now, p)
  {
    assert ReplayedSequence(s, ctx) == ReplayedSequence(t, ctx);
    assert FederationProblem(s, ctx) == FederationProblem(t, ctx);
    hide PlacementRecord.Problem, Migration.RecordProblem, SomeMissing, DemoteMigration, StampFor, ReplayedSequence,
         FederationProblem, Gate;
  }

  lemma SameReportVerdicts(s: State, t: State, ctx: Context, now: I64, p: Publication)
    requires SameModel(s, t) && (p.PublishedStage? || p.PublishedPortability?)
    ensures VerdictOn(s, ctx, now, p) == VerdictOn(t, ctx, now, p)
  {
    hide PortabilityRecord.Problem, SameAssessment, Migration.Advance, Migration.IsAcceptableEvent, Migration.IsTerminal,
         Migration.Last, StampFor;
  }

  lemma SameAnswers(s: State, t: State, ctx: Context, now: I64, p: Publication)
    requires SameModel(s, t)
    ensures Publish(s, ctx, now, p).1 == Publish(t, ctx, now, p).1
  {
    hide VerdictOn;
    if p.Structural() {
      SameRegistrationVerdicts(s, t, ctx, now, p);
    } else if p.PublishedRetirement? || p.PublishedCapability? || p.PublishedCapacity? {
      SameEvidenceVerdicts(s, t, ctx, now, p);
    } else if p.PublishedPlacement? || p.PublishedMigration? {
      SameHistoryVerdicts(s, t, ctx, now, p);
    } else {
      SameReportVerdicts(s, t, ctx, now, p);
    }
    assert Gate(s, ctx) == Gate(t, ctx);
  }

  /** What an engine answers after loading a file is a matter of the file alone: whatever happened
      before, and whatever was accepted since the file was last loaded, each publication gets the
      same answer again, under the same epoch and sequence number. */
  lemma LoadingRepeatsAnswers(s: State, t: State, d: DurableState, order: FileOrder, ctx: Context, now: I64, p: Publication)
    requires s.bounds == t.bounds && OrderOf(order, d.records)
    ensures Apply(s, d, order).epoch == Apply(t, d, order).epoch
    ensures Publish(Apply(s, d, order), ctx, now, p).1 == Publish(Apply(t, d, order), ctx, now, p).1
  {
    hide Publish, StaleTable, History, InvalidateClusters, RebuildLatest, RebuildMigrations;
    SameAnswers(Apply(s, d, order), Apply(t, d, order), ctx, now, p);
  }

  // ---------------------------------------------------------------------------------
  // A message applied twice
  // ---------------------------------------------------------------------------------

  function Operations(ops: seq<Op>): seq<Event> {
    seq(|ops|, i requires 0 <= i < |ops| => Operation(ops[i]))
  }

  lemma {:induction false} OperationsRun(s: State, ops: seq<Op>)
    ensures RunWithFiles(s, Operations(ops)) == Run(s, ops)
    ensures Constructible(ops) ==> Feasible(Operations(ops))
  {
    hide Step;
    if ops != [] {
      var n := |ops| - 1;
      OperationsRun(s, ops[..n]);
      assert Operations(ops)[..n] == Operations(ops[..n]);
    }
  }

  lemma OneMoreEvent(s: State, events: seq<Event>, e: Event)
    ensures RunWithFiles(s, events + [e]) == Happen(RunWithFiles(s, events), e)
  {
    assert (events + [e])[..|events|] == events;
  }

  const NO_ORDER := FileOrder([], [])

  /** The third message, under the epoch that the first restart opens. */
  const MESSAGE := Sent(3).(epoch := 2)

  const RULE := PublishedPolicy(PolicyRecord([121], 1, [], [], [], [], []))

  /** The file of an engine that knows one publisher and one federation. */
  lemma EarlyFileLoads(plot: Plot, b: Bounds)
    requires Roomy(b)
    ensures var s := Run(Initial(b), Story(plot, 2));
            Loadable(Saved(s), b) && OrderOf(NO_ORDER, Saved(s).records)
  {
    hide Run, Loadable, OutcomesMatchStages, Story;
    StoryRuns(plot, b, 2);
    var s := Run(Initial(b), Story(plot, 2));
    ReachableStatesReloadExactly(b, Story(plot, 2));
    assert |s.publishers| == |s.publishers.Keys| == 1;
    assert s.records == Book(plot, 2);
    assert Book(plot, 2).migrations == map[] && Book(plot, 2).placements == map[];
    assert OutcomesMatchStages(s.records) by {
      NoMigrations(s.records);
    }
    assert Saved(s).records.placements == map[] && Saved(s).records.migrations == map[];
  }

  lemma NoMigrations(r: Records)
    requires r.migrations == map[]
    ensures OutcomesMatchStages(r)
  {
  }

  lemma RestartIsOpen(plot: Plot, b: Bounds, s: State)
    requires At(s, b, 2, Book(plot, 2)) && OrderOf(NO_ORDER, Saved(s).records)
    ensures var t := Apply(s, Saved(s), NO_ORDER);
            t.bounds == b && t.records.policies == map[] && Gate(t, MESSAGE) == Open(false)
  {
    hide StampFor, RebuildLatest, RebuildMigrations, InvalidateClusters, History;
    var t := Apply(s, Saved(s), NO_ORDER);
    assert t.epoch == 2 && KEY in t.publishers && t.publishers[KEY].watermark == 2 && !t.publishers[KEY].fenced;
    assert t.records.policies == map[];
  }

  lemma MessageIsApplied(plot: Plot, b: Bounds, s: State)
    requires Roomy(b) && At(s, b, 2, Book(plot, 2)) && OrderOf(NO_ORDER, Saved(s).records)
    ensures var reply := Publish(Apply(s, Saved(s), NO_ORDER), MESSAGE, 0, RULE).1;
            reply.Ok? && reply.value.disposition.Applied?
  {
    RestartIsOpen(plot, b, s);
    hide Apply, Saved, Gate, At, Book, AdvanceAuthority, CountAccepted;
    var t := Apply(s, Saved(s), NO_ORDER);
    assert VerdictOn(t, MESSAGE, 0, RULE).Store? && VerdictOn(t, MESSAGE, 0, RULE).disposition.Applied?;
    hide VerdictOn;
  }

  /** From the empty engine: a file is loaded, a message is applied, the same file is loaded again
      and the very same message, epoch and sequence number included, is applied again. */
  lemma MessagesCanBeAppliedTwice(plot: Plot, b: Bounds)
    requires Roomy(b)
    ensures var d := Saved(Run(Initial(b), Story(plot, 2)));
            var once := Operations(Story(plot, 2)) + [LoadFile(d, NO_ORDER)];
            var twice := once + [Operation(Ingest(MESSAGE, 0, RULE))] + [LoadFile(d, NO_ORDER)];
            var first := Publish(RunWithFiles(Initial(b), once), MESSAGE, 0, RULE).1;
            var second := Publish(RunWithFiles(Initial(b), twice), MESSAGE, 0, RULE).1;
            && first.Ok? && first.value.disposition.Applied?
            && second.Ok? && second.value.disposition.Applied?
  {
    hide Run, RunWithFiles, Publish, Apply, Loadable, Saved, Story, Operations, At, Roomy;
    var s := Run(Initial(b), Story(plot, 2));
    StoryRuns(plot, b, 2);
    EarlyFileLoads(plot, b);
    BoundsOf(s, b, plot);
    var d := Saved(s);
    OperationsRun(Initial(b), Story(plot, 2));
    var once := Operations(Story(plot, 2)) + [LoadFile(d, NO_ORDER)];
    OneMoreEvent(Initial(b), Operations(Story(plot, 2)), LoadFile(d, NO_ORDER));
    MessageIsApplied(plot, b, s);
    var sent := once + [Operation(Ingest(MESSAGE, 0, RULE))];
    OneMoreEvent(Initial(b), once, Operation(Ingest(MESSAGE, 0, RULE)));
    OneMoreEvent(Initial(b), sent, LoadFile(d, NO_ORDER));
    var t := Apply(s, d, NO_ORDER);
    var u := Publish(t, MESSAGE, 0, RULE).0;
    LoadKeepsBounds(s, d, NO_ORDER);
    PublishingKeepsBounds(t, MESSAGE, 0, RULE);
    LoadingRepeatsAnswers(s, u, d, NO_ORDER, MESSAGE, 0, RULE);
  }

  lemma BoundsOf(s: State, b: Bounds, plot: Plot)
    requires At(s, b, 2, Book(plot, 2))
    ensures s.bounds == b
  {
  }

  lemma LoadKeepsBounds(s: State, d: DurableState, order: FileOrder)
    requires OrderOf(order, d.records)
    ensures Apply(s, d, order).bounds == s.bounds
  {
  }

  lemma PublishingKeepsBounds(s: State, ctx: Context, now: I64, p: Publication)
    ensures Publish(s, ctx, now, p).0.bounds == s.bounds
  {
    hide VerdictOn;
    ConcludeKeepsBounds(s, ctx, now, VerdictOn(s, ctx, now, p));
  }

  // ---------------------------------------------------------------------------------
  // The last epoch
  // ---------------------------------------------------------------------------------

  /** A file of the epoch before the last, empty otherwise. */
  const LAST_FILE := DurableState(U64_MAX - 1, 0, NO_RECORDS, map[])

  const LAST_SENT := Sent(1).(epoch := U64_MAX)

  /** One file reaches the last epoch; a publisher that registers under it is still let through
      after the next restart, which cannot open another. */
  lemma LastEpochIsReached(b: Bounds)
    requires b.publishers > 0 && b.publishersPerFederation > 0
    ensures var s := RunWithFiles(Initial(b), [LoadFile(LAST_FILE, NO_ORDER), Operation(Register(LAST_SENT, 0))]);
            && s.epoch == U64_MAX && Restores(s, NO_ORDER)
            && Gate(Step(s, Restore(NO_ORDER)), LAST_SENT).Open?
  {
    hide RunWithFiles, Apply, Loadable, RegisterPublisher, Restores, Gate;
    var e0, e1 := LoadFile(LAST_FILE, NO_ORDER), Operation(Register(LAST_SENT, 0));
    assert [] + [e0] == [e0] && [e0] + [e1] == [e0, e1];
    OneMoreEvent(Initial(b), [], e0);
    OneMoreEvent(Initial(b), [e0], e1);
    NoEvents(Initial(b));
    LastFileLoads(b);
    LastRegistration(b);
    LastRestart(b, RegisterPublisher(Apply(Initial(b), LAST_FILE, NO_ORDER), LAST_SENT, 0).0);
  }

  lemma NoEvents(s: State)
    ensures RunWithFiles(s, []) == s
  {
  }

  lemma LastFileLoads(b: Bounds)
    ensures Loadable(LAST_FILE, b) && OrderOf(NO_ORDER, LAST_FILE.records)
    ensures var t := Apply(Initial(b), LAST_FILE, NO_ORDER);
            t.bounds == b && t.epoch == U64_MAX && t.publishers == map[] && EmptyTables(t.records)
  {
  }

  predicate EmptyTables(r: Records) {
    r == NO_RECORDS
  }

  lemma LastRegistration(b: Bounds)
    requires b.publishers > 0 && b.publishersPerFederation > 0
    ensures var s := RegisterPublisher(Apply(Initial(b), LAST_FILE, NO_ORDER), LAST_SENT, 0).0;
            && s.bounds == b && s.epoch == U64_MAX && EmptyTables(s.records)
            && s.publishers.Keys == {KEY} && !s.publishers[KEY].fenced && s.publishers[KEY].watermark == 1
  {
    LastFileLoads(b);
    hide Apply;
    assert Members(map[], FEDERATION) == {};
  }

  lemma LastRestart(b: Bounds, s: State)
    requires s.bounds == b && b.publishers > 0 && s.epoch == U64_MAX && EmptyTables(s.records)
    requires s.publishers.Keys == {KEY} && !s.publishers[KEY].fenced && s.publishers[KEY].watermark == 1
    ensures Restores(s, NO_ORDER) && Gate(Apply(s, Saved(s), NO_ORDER), LAST_SENT).Open?
  {
    var d := Saved(s);
    assert d.records == NO_RECORDS by {
      assert StaleTable<Id, FederationRecord>(map[]) == map[];
    }
    assert d.watermarks.Keys == {KEY} && |d.watermarks| == |d.watermarks.Keys| == 1;
    assert Loadable(d, b);
  }
}
