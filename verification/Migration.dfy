/** The observed migration stage machine and the records that carry it (src/migration.cpp). */
module Migration {
  import opened Foundation

  datatype Stage =
    | Planned
    | SourceQuiescing
    | StateCaptured
    | TransferStarted
    | TransferComplete
    | DestinationPrepared
    | RestoreStarted
    | RestoreComplete
    | RevalidationRequired
    | Committed
    | RolledBack
    | Failed
    | OutcomeUnknown

  datatype Outcome = InProgress | CommittedOutcome | RolledBackOutcome | FailedOutcome | UnknownOutcome

  const MAX_STAGE_EVENTS := 256

  predicate IsTerminal(stage: Stage) {
    stage.Committed? || stage.RolledBack? || stage.Failed?
  }

  /** Stages any live migration may fall into. */
  predicate IsAbort(stage: Stage) {
    stage.Failed? || stage.RolledBack? || stage.OutcomeUnknown?
  }

  predicate IsValidTransition(from: Stage, to: Stage) {
    match from
    case Planned => to.SourceQuiescing? || IsAbort(to)
    case SourceQuiescing => to.StateCaptured? || IsAbort(to)
    case StateCaptured => to.TransferStarted? || to.DestinationPrepared? || IsAbort(to)
    case TransferStarted => to.TransferComplete? || IsAbort(to)
    case TransferComplete => to.DestinationPrepared? || to.RestoreStarted? || IsAbort(to)
    case DestinationPrepared => to.RestoreStarted? || IsAbort(to)
    case RestoreStarted => to.RestoreComplete? || IsAbort(to)
    case RestoreComplete => to.RevalidationRequired? || to.Committed? || IsAbort(to)
    case RevalidationRequired => to.Committed? || IsAbort(to)
    case Committed => false
    case RolledBack => false
    case Failed => false
    case OutcomeUnknown => to.Committed? || to.RolledBack? || to.Failed? || to.RevalidationRequired?
  }

  predicate IsAcceptableEvent(from: Stage, to: Stage) {
    from == to || IsValidTransition(from, to)
  }

  function Rank(stage: Stage): int {
    match stage
    case Planned => 0
    case SourceQuiescing => 1
    case StateCaptured => 2
    case TransferStarted => 3
    case TransferComplete => 4
    case DestinationPrepared => 5
    case RestoreStarted => 6
    case RestoreComplete => 7
    case RevalidationRequired => 8
    case Committed => 9
    case _ => -1
  }

  /** The stages of a migration that goes well, in order. */
  const PROGRESS: seq<Stage> := [
    Planned, SourceQuiescing, StateCaptured, TransferStarted, TransferComplete, DestinationPrepared, RestoreStarted,
    RestoreComplete, RevalidationRequired, Committed]

  /** Progress is one stage forward or one of three shortcuts. */
  lemma ProgressIsExact(i: nat, j: nat)
    requires i < |PROGRESS| && j < |PROGRESS|
    ensures IsValidTransition(PROGRESS[i], PROGRESS[j]) <==>
            j == i + 1 || (i == 2 && j == 5) || (i == 4 && j == 6) || (i == 7 && j == 9)
  {
  }

  /** The rest of the machine: an abort from anywhere before the end, four ways out of an unknown
      outcome, and no way out of the three ends. */
  lemma OtherTransitionsAreExact(i: nat, other: Stage)
    requires i < |PROGRESS|
    ensures other in [RolledBack, Failed, OutcomeUnknown] ==> (IsValidTransition(PROGRESS[i], other) <==> i < 9)
    ensures IsValidTransition(OutcomeUnknown, other) <==> other in [RevalidationRequired, Committed, RolledBack, Failed]
    ensures !IsValidTransition(Committed, other) && !IsValidTransition(RolledBack, other) && !IsValidTransition(Failed, other)
    ensures other in PROGRESS || other in [RolledBack, Failed, OutcomeUnknown]
  {
    match other
    case Planned => assert PROGRESS[0] == other;
    case SourceQuiescing => assert PROGRESS[1] == other;
    case StateCaptured => assert PROGRESS[2] == other;
    case TransferStarted => assert PROGRESS[3] == other;
    case TransferComplete => assert PROGRESS[4] == other;
    case DestinationPrepared => assert PROGRESS[5] == other;
    case RestoreStarted => assert PROGRESS[6] == other;
    case RestoreComplete => assert PROGRESS[7] == other;
    case RevalidationRequired => assert PROGRESS[8] == other;
    case Committed => assert PROGRESS[9] == other;
    case _ =>
  }

  // ---------------------------------------------------------------------------------
  // Paths through the machine
  // ---------------------------------------------------------------------------------

  ghost predicate IsPath(stages: seq<Stage>) {
    forall i :: 0 < i < |stages| ==> IsAcceptableEvent(stages[i - 1], stages[i])
  }

  /** A path that reaches Committed had its restore confirmed or its outcome lost on the way. */
  lemma {:induction false} CommitNeedsRestoreOrUnknown(stages: seq<Stage>)
    requires IsPath(stages) && stages != []
    requires stages[0] == Planned && stages[|stages| - 1] == Committed
    ensures RestoreComplete in stages || OutcomeUnknown in stages
  {
    if RestoreComplete !in stages && OutcomeUnknown !in stages {
      EarlyStagesStayEarly(stages, |stages| - 1);
    }
  }

  /** Without RestoreComplete or OutcomeUnknown a migration stays before its restore or dies. */
  lemma {:induction false} EarlyStagesStayEarly(stages: seq<Stage>, k: nat)
    requires IsPath(stages) && k < |stages| && stages[0] == Planned
    requires RestoreComplete !in stages && OutcomeUnknown !in stages
    ensures 0 <= Rank(stages[k]) < 7 || stages[k].RolledBack? || stages[k].Failed?
  {
    if k > 0 {
      EarlyStagesStayEarly(stages, k - 1);
      assert IsAcceptableEvent(stages[k - 1], stages[k]);
      assert stages[k] in stages;
    }
  }

  /** A terminal stage is never left. */
  lemma {:induction false} TerminalIsForever(stages: seq<Stage>, i: nat, j: nat)
    requires IsPath(stages) && i <= j < |stages| && IsTerminal(stages[i])
    ensures stages[j] == stages[i]
  {
    if i < j {
      TerminalIsForever(stages, i, j - 1);
      assert IsAcceptableEvent(stages[j - 1], stages[j]);
    }
  }

  /** Ranked progress never runs backwards as long as the outcome is known. */
  lemma {:induction false} RankNeverFalls(stages: seq<Stage>, i: nat, j: nat)
    requires IsPath(stages) && i <= j < |stages| && OutcomeUnknown !in stages
    requires Rank(stages[j]) >= 0
    ensures 0 <= Rank(stages[i]) <= Rank(stages[j])
  {
    if i < j {
      assert IsAcceptableEvent(stages[j - 1], stages[j]);
      assert stages[j - 1] in stages;
      RankNeverFalls(stages, i, j - 1);
    }
  }

  // ---------------------------------------------------------------------------------
  // Records
  // ---------------------------------------------------------------------------------

  datatype StageEvent = StageEvent(
    generation: U64, stage: Stage, sequence: U64, observedAt: int, precision: int, evidenceClass: int, detail: Text)

  /** An observed migration. `body` stands for its descriptive bindings. */
  datatype MigrationRecord = MigrationRecord(
    id: Id,
    generation: U64,
    workload: Id,
    workloadGeneration: U64,
    federation: Id,
    supersedes: Id,
    source: Id,
    destination: Id,
    stage: Stage,
    outcome: Outcome,
    events: seq<StageEvent>,
    revalidationPending: bool,
    body: Text)

  function ExpectedOutcome(stage: Stage): Outcome {
    match stage
    case Committed => CommittedOutcome
    case RolledBack => RolledBackOutcome
    case Failed => FailedOutcome
    case OutcomeUnknown => UnknownOutcome
    case _ => InProgress
  }

  function HeaderProblem(m: MigrationRecord): Option<ErrorCode> {
    if m.id == [] || m.generation == 0 || m.workload == [] || m.workloadGeneration == 0
       || m.federation == [] || m.source == [] || m.destination == [] || m.source == m.destination
    then Some(InvalidArgument)
    else if |m.events| > MAX_STAGE_EVENTS then Some(BoundExceeded)
    else None
  }

  /** Why one event may not follow the previous one (None at the start of a history). */
  function EventProblem(previous: Option<StageEvent>, event: StageEvent, generation: U64): Option<ErrorCode> {
    if event.generation == 0 || event.generation > generation then Some(InvalidArgument)
    else if previous.Some? && event.sequence <= previous.value.sequence then Some(SequenceRegression)
    else if previous.Some? && !IsAcceptableEvent(previous.value.stage, event.stage) then Some(InvalidTransition)
    else None
  }

  function Last(events: seq<StageEvent>): Option<StageEvent> {
    if events == [] then None else Some(events[|events| - 1])
  }

  /** The first problem found while walking a history. */
  function HistoryProblem(events: seq<StageEvent>, generation: U64): Option<ErrorCode> {
    if events == [] then None
    else
      var before := events[..|events| - 1];
      match HistoryProblem(before, generation)
      case Some(code) => Some(code)
      case None => EventProblem(Last(before), events[|events| - 1], generation)
  }

  function RecordProblem(m: MigrationRecord): Option<ErrorCode> {
    if HeaderProblem(m).Some? then HeaderProblem(m)
    else if HistoryProblem(m.events, m.generation).Some? then HistoryProblem(m.events, m.generation)
    else if m.events != [] && Last(m.events).value.stage != m.stage then Some(InvalidTransition)
    else if m.outcome != ExpectedOutcome(m.stage) then Some(InvalidTransition)
    else if m.supersedes == m.id then Some(InvalidArgument)
    else None
  }

  lemma {:induction false} FirstProblemWins(events: seq<StageEvent>, generation: U64, k: nat)
    requires k <= |events| && HistoryProblem(events[..k], generation).Some?
    ensures HistoryProblem(events, generation) == HistoryProblem(events[..k], generation)
  {
    if k == |events| {
      assert events[..k] == events;
    } else {
      assert events[..|events| - 1][..k] == events[..k];
      FirstProblemWins(events[..|events| - 1], generation, k);
    }
  }

  /** Validation walks the history once, carrying the previous sequence and stage. */
  method ValidateRecord(m: MigrationRecord) returns (problem: Option<ErrorCode>)
    ensures problem == RecordProblem(m)
  {
    var header := HeaderProblem(m);
    if header.Some? {
      return header;
    }
    var previousSequence: U64 := 0;
    var previousStage := Planned;
    var first := true;
    for i := 0 to |m.events|
      invariant first <==> i == 0
      invariant i > 0 ==> previousSequence == m.events[i - 1].sequence && previousStage == m.events[i - 1].stage
      invariant HistoryProblem(m.events[..i], m.generation) == None
    {
      var event := m.events[i];
      assert m.events[..i + 1][..i] == m.events[..i];
      problem := None;
      if event.generation == 0 || event.generation > m.generation {
        problem := Some(InvalidArgument);
      } else if !first {
        if event.sequence <= previousSequence {
          problem := Some(SequenceRegression);
        } else if !IsAcceptableEvent(previousStage, event.stage) {
          problem := Some(InvalidTransition);
        }
      }
      assert HistoryProblem(m.events[..i + 1], m.generation) == problem;
      if problem.Some? {
        FirstProblemWins(m.events, m.generation, i + 1);
        return;
      }
      previousSequence, previousStage, first := event.sequence, event.stage, false;
    }
    assert m.events[..|m.events|] == m.events;
    if m.events != [] && Last(m.events).value.stage != m.stage {
      return Some(InvalidTransition);
    }
    if m.outcome != ExpectedOutcome(m.stage) {
      return Some(InvalidTransition);
    }
    if m.supersedes == m.id && m.supersedes != [] {
      return Some(InvalidArgument);
    }
    return None;
  }

  // ---------------------------------------------------------------------------------
  // What a history without problems looks like
  // ---------------------------------------------------------------------------------

  ghost predicate WellFormedHistory(events: seq<StageEvent>, generation: U64) {
    && (forall i :: 0 <= i < |events| ==> 0 < events[i].generation <= generation)
    && (forall i :: 0 < i < |events| ==> events[i - 1].sequence < events[i].sequence)
    && (forall i :: 0 < i < |events| ==> IsAcceptableEvent(events[i - 1].stage, events[i].stage))
  }

  lemma {:induction false} HistoryIsWellFormed(events: seq<StageEvent>, generation: U64)
    ensures HistoryProblem(events, generation) == None <==> WellFormedHistory(events, generation)
  {
    if events != [] {
      var n := |events| - 1;
      var before := events[..n];
      HistoryIsWellFormed(before, generation);
      if HistoryProblem(events, generation) == None {
        assert forall i :: 0 <= i < n ==> events[i] == before[i];
      }
      if WellFormedHistory(events, generation) {
        assert forall i :: 0 <= i < n ==> before[i] == events[i];
      }
    }
  }

  lemma {:induction false} SequencesIncrease(events: seq<StageEvent>, generation: U64, i: nat, j: nat)
    requires WellFormedHistory(events, generation) && i < j < |events|
    ensures events[i].sequence < events[j].sequence
  {
    if i + 1 < j {
      SequencesIncrease(events, generation, i, j - 1);
    }
  }

  /** The one way a stored outcome may disagree with its stage: revalidation demanded after
      the outcome was lost keeps the outcome unknown. */
  predicate KeepsUnknownOutcome(m: MigrationRecord) {
    m.stage == RevalidationRequired && m.outcome == UnknownOutcome
  }

  /** What the engine maintains for every stored migration. */
  predicate Sound(m: MigrationRecord) {
    && HeaderProblem(m) == None
    && HistoryProblem(m.events, m.generation) == None
    && (m.events != [] ==> Last(m.events).value.stage == m.stage)
    && (m.outcome == ExpectedOutcome(m.stage) || KeepsUnknownOutcome(m))
    && m.supersedes != m.id
  }

  /** A sound record validates exactly when its outcome matches its stage. */
  lemma SoundRecordValidates(m: MigrationRecord)
    ensures RecordProblem(m) == None <==> Sound(m) && !KeepsUnknownOutcome(m)
  {
  }

  /** The in-place effect of an accepted stage event. */
  function Advance(m: MigrationRecord, event: StageEvent): MigrationRecord {
    var appended := m.(events := m.events + [event], stage := event.stage);
    if event.stage.RevalidationRequired? then appended.(revalidationPending := true)
    else appended.(outcome := ExpectedOutcome(event.stage))
  }

  lemma AdvanceKeepsSound(m: MigrationRecord, event: StageEvent)
    requires Sound(m) && |m.events| < MAX_STAGE_EVENTS && !IsTerminal(m.stage)
    requires event.generation == m.generation
    requires m.events != [] ==> event.sequence > Last(m.events).value.sequence
    requires IsAcceptableEvent(m.stage, event.stage)
    ensures Sound(Advance(m, event))
    ensures KeepsUnknownOutcome(Advance(m, event)) <==>
              event.stage.RevalidationRequired? && m.outcome.UnknownOutcome?
  {
    hide IsAcceptableEvent, HistoryProblem, HeaderProblem;
    var after := Advance(m, event);
    HeaderIgnoresProgress(m, event);
    AppendedHistory(m.events, event, m.generation);
    assert Last(after.events) == Some(event);
  }

  lemma HeaderIgnoresProgress(m: MigrationRecord, event: StageEvent)
    ensures HeaderProblem(Advance(m, event)) == None <==> HeaderProblem(m) == None && |m.events| < MAX_STAGE_EVENTS
    ensures HeaderProblem(m) == None ==> m.generation > 0
  {
  }

  lemma AppendedHistory(events: seq<StageEvent>, event: StageEvent, generation: U64)
    requires HistoryProblem(events, generation) == None && EventProblem(Last(events), event, generation) == None
    ensures HistoryProblem(events + [event], generation) == None
  {
    hide EventProblem, Last;
    assert (events + [event])[..|events|] == events;
  }

  // ---------------------------------------------------------------------------------
  // Late events
  // ---------------------------------------------------------------------------------

  predicate IsStaleEvent(current: MigrationRecord, generation: U64, sequence: U64) {
    if generation == 0 then true
    else if generation < current.generation then true
    else if generation > current.generation then false
    else current.events != [] && sequence <= Last(current.events).value.sequence
  }
}
