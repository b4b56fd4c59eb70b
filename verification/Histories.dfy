/** Migration histories over runs of the engine (src/observatory.cpp, src/migration.cpp). */
module Histories {
  import opened Foundation
  import opened Capability
  import opened Model
  import opened Observatory
  import opened Fencing
  import opened Durability
  import opened Migration

  // ---------------------------------------------------------------------------------
  // One step of one migration
  // ---------------------------------------------------------------------------------

  function StagesOf(events: seq<StageEvent>): seq<Stage> {
    seq(|events|, i requires 0 <= i < |events| => events[i].stage)
  }

  /** The stored stage and the stages appended to it since. */
  function Onward(a: MigrationRecord, b: MigrationRecord): seq<Stage>
    requires |a.events| <= |b.events|
  {
    [a.stage] + StagesOf(b.events[|a.events|..])
  }

  /** The same history, possibly longer: whatever was recorded stays; what is added leads from the
      stored stage to the new one by acceptable steps with rising sequence numbers; everything but
      the stage, outcome and pending flag is fixed; and a finished migration is frozen. */
  ghost predicate Continues(a: MigrationRecord, b: MigrationRecord) {
    && a.events <= b.events
    && b == a.(events := b.events, stage := b.stage, outcome := b.outcome, revalidationPending := b.revalidationPending)
    && (forall j :: |a.events| <= j < |b.events| && j > 0 ==> b.events[j - 1].sequence < b.events[j].sequence)
    && IsPath(Onward(a, b)) && Onward(a, b)[|b.events| - |a.events|] == b.stage
    && (|a.events| == |b.events| ==> b == a)
    && (IsTerminal(a.stage) ==> b == a)
  }

  /** Within one generation a migration continues; otherwise a newer generation replaced it. */
  ghost predicate Succeeds(a: MigrationRecord, b: MigrationRecord) {
    a.generation < b.generation || Continues(a, b)
  }

  lemma PathsJoin(p: seq<Stage>, q: seq<Stage>)
    requires IsPath(p) && IsPath(q) && p != [] && q != [] && p[|p| - 1] == q[0]
    ensures IsPath(p + q[1..])
  {
    hide IsAcceptableEvent;
    var joined := p + q[1..];
    forall i | 0 < i < |joined| ensures IsAcceptableEvent(joined[i - 1], joined[i]) {
      if i < |p| {
        assert IsAcceptableEvent(p[i - 1], p[i]);
      } else {
        assert IsAcceptableEvent(q[i - |p|], q[i - |p| + 1]);
      }
    }
  }

  /** Two stretches of a history join. */
  lemma OnwardComposes(a: MigrationRecord, b: MigrationRecord, c: MigrationRecord)
    requires a.events <= b.events <= c.events
    requires IsPath(Onward(a, b)) && Onward(a, b)[|b.events| - |a.events|] == b.stage
    requires IsPath(Onward(b, c)) && Onward(b, c)[|c.events| - |b.events|] == c.stage
    ensures IsPath(Onward(a, c)) && Onward(a, c)[|c.events| - |a.events|] == c.stage
  {
    hide IsPath;
    var more := StagesOf(c.events[|b.events|..]);
    assert c.events[|a.events|..] == b.events[|a.events|..] + c.events[|b.events|..];
    assert Onward(a, c) == Onward(a, b) + more && Onward(b, c)[1..] == more;
    PathsJoin(Onward(a, b), Onward(b, c));
    if more != [] {
      assert Onward(a, c)[|c.events| - |a.events|] == more[|more| - 1] == Onward(b, c)[|more|];
    }
  }

  lemma ContinuationsCompose(a: MigrationRecord, b: MigrationRecord, c: MigrationRecord)
    requires Succeeds(a, b) && Succeeds(b, c)
    ensures Succeeds(a, c)
  {
    hide IsPath, Onward;
    if Continues(a, b) && Continues(b, c) {
      OnwardComposes(a, b, c);
    }
  }

  lemma StageContinues(s: State, ctx: Context, now: I64, id: Id, g: U64, stage: Stage, detail: Text)
    requires StageVerdict(s, ctx, now, id, g, stage, detail).Store?
    ensures var a := s.records.migrations[id].record;
            var b := StageVerdict(s, ctx, now, id, g, stage, detail).records.migrations[id].record;
            && Continues(a, b) && |b.events| == |a.events| + 1
            && IsAcceptableEvent(a.stage, b.stage) && b.stage == b.events[|a.events|].stage == stage
            && !IsTerminal(a.stage)
  {
    hide Sound;
  }

  lemma MigrationPublicationSucceeds(s: State, ctx: Context, now: I64, p: Publication, id: Id)
    requires p.PublishedMigration? || p.PublishedStage?
    requires VerdictOn(s, ctx, now, p).Store? && id in s.records.migrations
    ensures var t := VerdictOn(s, ctx, now, p).records.migrations;
            id in t && Succeeds(s.records.migrations[id].record, t[id].record)
  {
    match p
    case PublishedMigration(r) =>
      hide RecordProblem, MigrationProblem, ReplayedSequence;
    case PublishedStage(moving, g, stage, detail) =>
      StageContinues(s, ctx, now, moving, g, stage, detail);
  }

  lemma RegistrationsLeaveMigrations(s: State, ctx: Context, now: I64, p: Publication)
    requires p.Structural() && VerdictOn(s, ctx, now, p).Store?
    ensures VerdictOn(s, ctx, now, p).records.migrations == s.records.migrations
  {
    hide SiteProblem, DomainProblem, WorkloadProblem, ReplayedSequence, ClusterChoice, Choose, StampFor,
         FederationRecord.Problem, AcceleratorClassRecord.Problem, RuntimeRecord.Problem, BackendRecord.Problem,
         PolicyRecord.Problem, ArtifactRecord.Problem, WorkloadClassRecord.Problem, ClusterTable, NewIncarnation;
  }

  lemma EvidenceLeavesMigrations(s: State, ctx: Context, now: I64, p: Publication)
    requires !p.Structural() && !p.PublishedMigration? && !p.PublishedStage? && VerdictOn(s, ctx, now, p).Store?
    ensures VerdictOn(s, ctx, now, p).records.migrations == s.records.migrations
  {
    hide ReplayedSequence, PlacementProblem, EvidenceProblem, PortabilityRecord.Problem, SameAssessment, LatestIsNewer,
         FirstPoolProblem, SamePools, SortPools, StampPools, Sum, KeysValid, HasDuplicates, StampFor;
  }

  lemma OtherPublicationsLeaveMigrations(s: State, ctx: Context, now: I64, p: Publication)
    requires !p.PublishedMigration? && !p.PublishedStage? && VerdictOn(s, ctx, now, p).Store?
    ensures VerdictOn(s, ctx, now, p).records.migrations == s.records.migrations
  {
    hide VerdictOn;
    if p.Structural() {
      RegistrationsLeaveMigrations(s, ctx, now, p);
    } else {
      EvidenceLeavesMigrations(s, ctx, now, p);
    }
  }

  lemma PublicationSucceeds(s: State, ctx: Context, now: I64, p: Publication, id: Id)
    requires p.Constructible() && id in s.records.migrations
    ensures id in Publish(s, ctx, now, p).0.records.migrations
    ensures Succeeds(s.records.migrations[id].record, Publish(s, ctx, now, p).0.records.migrations[id].record)
  {
    hide VerdictOn, OnlyStamped;
    PublicationStamps(s, ctx, now, p);
    if VerdictOn(s, ctx, now, p).Store? {
      if p.PublishedMigration? || p.PublishedStage? {
        MigrationPublicationSucceeds(s, ctx, now, p, id);
      } else {
        OtherPublicationsLeaveMigrations(s, ctx, now, p);
      }
    }
  }

  lemma AdministrationLeavesMigrations(s: State, op: Op)
    requires op.Register? || op.Fence? || op.Invalidate?
    ensures Step(s, op).records.migrations == s.records.migrations
  {
    hide Demote, InvalidateClusters, AdvanceAuthority, CountAccepted, CountRefusal, Members, Dormant, VerdictOn, Conclude,
         Apply, Loadable, Saved;
  }

  lemma RestoredMigration(s: State, order: FileOrder, id: Id)
    requires OrderOf(order, Saved(s).records) && id in s.records.migrations
    ensures id in Apply(s, Saved(s), order).records.migrations
    ensures Apply(s, Saved(s), order).records.migrations[id].record == s.records.migrations[id].record
  {
    hide RebuildLatest, RebuildMigrations, InvalidateClusters;
  }

  lemma StepSucceeds(s: State, op: Op, id: Id)
    requires op.Constructible() && id in s.records.migrations
    ensures id in Step(s, op).records.migrations
    ensures Succeeds(s.records.migrations[id].record, Step(s, op).records.migrations[id].record)
  {
    hide Publish, Apply, Loadable, RegisterPublisher, FencePublisher, InvalidateDynamicEvidence;
    match op
    case Ingest(ctx, now, p) =>
      PublicationSucceeds(s, ctx, now, p, id);
    case Restore(order) =>
      if Restores(s, order) {
        RestoredMigration(s, order, id);
      }
    case _ =>
      AdministrationLeavesMigrations(s, op);
  }

  // ---------------------------------------------------------------------------------
  // Over runs
  // ---------------------------------------------------------------------------------

  /** For one migration and generation the history is append-only through every operation and
      restart: what was observed stays, and a terminal stage is final. */
  lemma {:induction false} HistoryIsAppendOnly(s: State, ops: seq<Op>, id: Id)
    requires Constructible(ops) && id in s.records.migrations
    ensures id in Run(s, ops).records.migrations
    ensures Succeeds(s.records.migrations[id].record, Run(s, ops).records.migrations[id].record)
  {
    hide Step, Succeeds;
    if ops == [] {
      NothingHappened(s.records.migrations[id].record);
    } else {
      var before := ops[..|ops| - 1];
      HistoryIsAppendOnly(s, before, id);
      StepSucceeds(Run(s, before), ops[|ops| - 1], id);
      ContinuationsCompose(s.records.migrations[id].record, Run(s, before).records.migrations[id].record,
                           Run(s, ops).records.migrations[id].record);
    }
  }

  lemma NothingHappened(m: MigrationRecord)
    ensures Succeeds(m, m)
  {
  }

  /** The recorded stages form a path of the stage machine with strictly increasing sequences
      that ends in the stored stage, and the outcome agrees with the stage unless revalidation
      was demanded after the outcome was lost. */
  ghost predicate SoundHistory(m: MigrationRecord) {
    && IsPath(StagesOf(m.events))
    && (forall i, j :: 0 <= i < j < |m.events| ==> m.events[i].sequence < m.events[j].sequence)
    && (m.events != [] ==> m.events[|m.events| - 1].stage == m.stage)
    && (m.outcome == ExpectedOutcome(m.stage) || KeepsUnknownOutcome(m))
  }

  lemma SoundRecordsHaveSoundHistories(m: MigrationRecord)
    requires Sound(m)
    ensures SoundHistory(m)
  {
    hide ExpectedOutcome, HeaderProblem, HistoryProblem;
    HistoryIsWellFormed(m.events, m.generation);
    forall i, j | 0 <= i < j < |m.events| ensures m.events[i].sequence < m.events[j].sequence {
      SequencesIncrease(m.events, m.generation, i, j);
    }
  }

  /** Every migration of every reachable state has a sound history. */
  lemma ReachableHistoriesAreSound(bounds: Bounds, ops: seq<Op>, id: Id)
    requires Constructible(ops) && id in Run(Initial(bounds), ops).records.migrations
    ensures SoundHistory(Run(Initial(bounds), ops).records.migrations[id].record)
  {
    hide Run, SoundHistory, Sound, MigrationResolved, Consistent;
    ReachableStatesAreInOrder(bounds, ops);
    StoredMigrationIsSound(Run(Initial(bounds), ops).records, id);
    SoundRecordsHaveSoundHistories(Run(Initial(bounds), ops).records.migrations[id].record);
  }

  // ---------------------------------------------------------------------------------
  // Unknown outcomes
  // ---------------------------------------------------------------------------------

  /** From event `k` on only revalidation was demanded, and before it the outcome was lost: by the
      event before, or by the state in which the migration was first published. */
  predicate LostAt(m: MigrationRecord, k: nat) {
    && k <= |m.events|
    && (k > 0 ==> m.events[k - 1].stage == OutcomeUnknown)
    && (forall i :: k <= i < |m.events| ==> m.events[i].stage == Stage.RevalidationRequired)
  }

  predicate Explained(m: MigrationRecord) {
    m.outcome.UnknownOutcome? ==> exists k: nat :: k <= |m.events| && LostAt(m, k)
  }

  ghost predicate AllExplained(r: Records) {
    forall id :: id in r.migrations ==> Explained(r.migrations[id].record)
  }

  lemma ValidRecordsAreExplained(m: MigrationRecord)
    requires RecordProblem(m) == None
    ensures Explained(m)
  {
    hide HeaderProblem, HistoryProblem;
    assert m.outcome.UnknownOutcome? ==> LostAt(m, |m.events|);
  }

  lemma AdvanceKeepsExplained(m: MigrationRecord, event: StageEvent)
    requires Explained(m) && Sound(m) && !IsTerminal(m.stage) && IsAcceptableEvent(m.stage, event.stage)
    ensures Explained(Advance(m, event))
  {
    hide HeaderProblem, HistoryProblem;
    var after := Advance(m, event);
    if after.outcome.UnknownOutcome? {
      if event.stage == OutcomeUnknown {
        assert LostAt(after, |after.events|);
      } else {
        assert m.outcome.UnknownOutcome?;
        var k: nat :| k <= |m.events| && LostAt(m, k);
        assert LostAt(after, k);
      }
    }
  }

  lemma PublicationKeepsExplained(s: State, ctx: Context, now: I64, p: Publication)
    requires p.PublishedMigration? || p.PublishedStage?
    requires VerdictOn(s, ctx, now, p).Store? && AllExplained(s.records)
    requires forall id :: id in s.records.migrations ==> Sound(s.records.migrations[id].record)
    ensures AllExplained(VerdictOn(s, ctx, now, p).records)
  {
    hide Sound, Explained, RecordProblem, Advance, IsAcceptableEvent, IsTerminal, ReplayedSequence, SomeMissing, FederationProblem;
    match p
    case PublishedMigration(r) =>
      ValidRecordsAreExplained(r);
    case PublishedStage(id, g, stage, detail) =>
      AdvanceKeepsExplained(s.records.migrations[id].record, StageEventFor(ctx, now, g, stage, detail));
  }

  lemma ExplainedStep(s: State, op: Op)
    requires op.Constructible() && AllExplained(s.records)
    requires forall id :: id in s.records.migrations ==> Sound(s.records.migrations[id].record)
    ensures AllExplained(Step(s, op).records)
  {
    hide VerdictOn, OnlyStamped, Apply, Loadable, RegisterPublisher, FencePublisher, InvalidateDynamicEvidence, Explained, Sound;
    match op
    case Ingest(ctx, now, p) =>
      PublicationStamps(s, ctx, now, p);
      if VerdictOn(s, ctx, now, p).Store? {
        if p.PublishedMigration? || p.PublishedStage? {
          PublicationKeepsExplained(s, ctx, now, p);
        } else {
          OtherPublicationsLeaveMigrations(s, ctx, now, p);
        }
      }
    case Restore(order) =>
      if Restores(s, order) {
        forall id | id in Apply(s, Saved(s), order).records.migrations
          ensures Explained(Apply(s, Saved(s), order).records.migrations[id].record)
        {
          RestoredTable(s, order);
          RestoredMigration(s, order, id);
        }
      }
    case _ =>
      AdministrationLeavesMigrations(s, op);
  }

  lemma RestoredTable(s: State, order: FileOrder)
    requires OrderOf(order, Saved(s).records)
    ensures Apply(s, Saved(s), order).records.migrations.Keys == s.records.migrations.Keys
  {
    hide RebuildLatest, RebuildMigrations, InvalidateClusters;
  }

  /** In every reachable state an unknown outcome is explained: the last event that did not just
      demand revalidation lost the outcome, or there is none such and the migration was published
      with its outcome already lost. */
  lemma {:induction false} UnknownOutcomesAreExplained(bounds: Bounds, ops: seq<Op>)
    requires Constructible(ops)
    ensures AllExplained(Run(Initial(bounds), ops).records)
  {
    hide Step, Explained, Sound, Consistent, MigrationResolved;
    if ops != [] {
      var before := ops[..|ops| - 1];
      UnknownOutcomesAreExplained(bounds, before);
      ReachableStatesAreInOrder(bounds, before);
      var s := Run(Initial(bounds), before);
      forall id | id in s.records.migrations ensures Sound(s.records.migrations[id].record) {
        StoredMigrationIsSound(s.records, id);
      }
      ExplainedStep(s, ops[|ops| - 1]);
    }
  }

  /** Between any two moments of any run, a migration that was Planned and is Committed under the
      same generation had its restore confirmed or its outcome lost by an event in between, whether
      or not its planning was itself recorded as an event. */
  lemma CommitsWereRestored(s: State, ops: seq<Op>, id: Id)
    requires Constructible(ops) && id in s.records.migrations
    requires s.records.migrations[id].record.stage == Planned
    requires id in Run(s, ops).records.migrations && Run(s, ops).records.migrations[id].record.stage == Committed
    requires Run(s, ops).records.migrations[id].record.generation == s.records.migrations[id].record.generation
    ensures var a, b := s.records.migrations[id].record, Run(s, ops).records.migrations[id].record;
            && |a.events| <= |b.events|
            && exists i :: |a.events| <= i < |b.events|
                           && (b.events[i].stage == RestoreComplete || b.events[i].stage == OutcomeUnknown)
  {
    hide Run;
    HistoryIsAppendOnly(s, ops, id);
    var a, b := s.records.migrations[id].record, Run(s, ops).records.migrations[id].record;
    var stages := Onward(a, b);
    CommitNeedsRestoreOrUnknown(stages);
    var k :| 0 <= k < |stages| && (stages[k] == RestoreComplete || stages[k] == OutcomeUnknown);
    assert b.events[|a.events| + k - 1].stage == stages[k];
  }

  /** A reachable migration observed from its planning to its commit had its restore confirmed
      or its outcome lost in between. */
  lemma ReachableCommitsWereRestored(bounds: Bounds, ops: seq<Op>, id: Id)
    requires Constructible(ops) && id in Run(Initial(bounds), ops).records.migrations
    requires var m := Run(Initial(bounds), ops).records.migrations[id].record;
             m.events != [] && m.events[0].stage == Planned && m.stage == Committed
    ensures var m := Run(Initial(bounds), ops).records.migrations[id].record;
            exists i :: 0 <= i < |m.events| && (m.events[i].stage == RestoreComplete || m.events[i].stage == OutcomeUnknown)
  {
    hide Run;
    ReachableHistoriesAreSound(bounds, ops, id);
    var m := Run(Initial(bounds), ops).records.migrations[id].record;
    var stages := StagesOf(m.events);
    CommitNeedsRestoreOrUnknown(stages);
    var k :| 0 <= k < |stages| && (stages[k] == RestoreComplete || stages[k] == OutcomeUnknown);
    assert m.events[k].stage == stages[k];
  }

  // ---------------------------------------------------------------------------------
  // Late events
  // ---------------------------------------------------------------------------------

  /** A stage event the staleness test calls stale is refused and changes nothing. */
  lemma StaleEventsAreRefused(
    s: State, ctx: Context, now: I64, id: Id, g: U64, stage: Stage, detail: Text)
    requires id in s.records.migrations && IsStaleEvent(s.records.migrations[id].record, g, ctx.sequence)
    ensures Publish(s, ctx, now, PublishedStage(id, g, stage, detail)).1.Err?
    ensures Publish(s, ctx, now, PublishedStage(id, g, stage, detail)).0.records == s.records
  {
  }

  /** One sequence number can carry stage events of two migrations: the stage path does not
      look for reused sequence numbers. */
  lemma StageSequencesCanBeReused(s: State, ctx: Context, now: I64, a: Id, b: Id, stage: Stage, detail: Text)
    requires a != b && a in s.records.migrations && b in s.records.migrations && Gate(s, ctx).Open?
    requires StageVerdict(s, ctx, now, a, s.records.migrations[a].record.generation, stage, detail).Store?
    requires StageVerdict(s, ctx, now, b, s.records.migrations[b].record.generation, stage, detail).Store?
    ensures var first := Publish(s, ctx, now, PublishedStage(a, s.records.migrations[a].record.generation, stage, detail));
            var second := Publish(first.0, ctx, now, PublishedStage(b, s.records.migrations[b].record.generation, stage, detail));
            && first.1.Ok? && first.1.value.disposition.Applied?
            && second.1.Ok? && second.1.value.disposition.Applied?
  {
    hide Advance, IsAcceptableEvent;
  }
}
