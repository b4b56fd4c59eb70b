/** Watermarks, sequence numbers and what a refused publication may change. */
module Sequencing {
  import opened Foundation
  import opened Capability
  import opened Model
  import opened Observatory
  import opened Fencing
  import Migration

  // ---------------------------------------------------------------------------------
  // Watermark accounting
  // ---------------------------------------------------------------------------------

  /** The watermark of an identity; 0 until the engine knows it. */
  function Mark(s: State, key: PublisherKey): U64 {
    if key in s.publishers then s.publishers[key].watermark else 0
  }

  /** The operation was sent by this identity and acknowledged. */
  predicate Acknowledged(s: State, op: Op, key: PublisherKey) {
    (op.Register? || op.Ingest?) && KeyOf(op.ctx) == key && ReplyTo(s, op).Ok?
  }

  /** How many acknowledgements of a run reported a watermark above the previous one. */
  ghost function Advances(s: State, ops: seq<Op>, key: PublisherKey): nat {
    if ops == [] then 0
    else
      var before := Run(s, ops[..|ops| - 1]);
      var op := ops[|ops| - 1];
      Advances(s, ops[..|ops| - 1], key)
      + if Acknowledged(before, op, key) && ReplyTo(before, op).value.watermark > Mark(before, key) then 1 else 0
  }

  /** The sum of the sequence gaps reported by the acknowledgements of a run. */
  ghost function ReportedGaps(s: State, ops: seq<Op>, key: PublisherKey): nat {
    if ops == [] then 0
    else
      var before := Run(s, ops[..|ops| - 1]);
      var op := ops[|ops| - 1];
      ReportedGaps(s, ops[..|ops| - 1], key)
      + if Acknowledged(before, op, key) then ReplyTo(before, op).value.gap else 0
  }

  lemma WatermarkStep(s: State, op: Op, key: PublisherKey)
    ensures Mark(Step(s, op), key) >= Mark(s, key)
    ensures Acknowledged(s, op, key) ==>
              var ack := ReplyTo(s, op).value;
              && ack.watermark == Mark(Step(s, op), key)
              && Mark(Step(s, op), key) == Mark(s, key) + (if ack.watermark > Mark(s, key) then 1 else 0) + ack.gap
    ensures !Acknowledged(s, op, key) ==> Mark(Step(s, op), key) == Mark(s, key)
  {
    hide VerdictOn, Loadable, RebuildLatest, RebuildMigrations, StaleTable, History, InvalidateClusters, Demote;
  }

  /** Over any run a watermark grows by one for every acknowledgement that advanced it and by
      the gaps those acknowledgements reported; so it never falls, restarts included. */
  lemma {:induction false} WatermarkAccounting(s: State, ops: seq<Op>, key: PublisherKey)
    ensures Mark(Run(s, ops), key) == Mark(s, key) + Advances(s, ops, key) + ReportedGaps(s, ops, key)
  {
    hide Step, Mark, Acknowledged, ReplyTo;
    if ops != [] {
      WatermarkAccounting(s, ops[..|ops| - 1], key);
      WatermarkStep(Run(s, ops[..|ops| - 1]), ops[|ops| - 1], key);
    }
  }

  lemma {:induction false} RunComposes(s: State, ops: seq<Op>, k: nat)
    requires k <= |ops|
    ensures Run(s, ops) == Run(Run(s, ops[..k]), ops[k..])
  {
    hide Step;
    if k == |ops| {
      assert ops[..k] == ops;
    } else {
      var n := |ops| - 1;
      RunComposes(s, ops[..n], k);
      assert ops[..n][..k] == ops[..k];
      assert ops[..n][k..] == ops[k..][..n - k];
    }
  }

  // ---------------------------------------------------------------------------------
  // Each sequence number is applied at most once
  // ---------------------------------------------------------------------------------

  predicate Applies(s: State, op: Op) {
    op.Ingest? && op.publication.Sequenced() && ReplyTo(s, op).Ok? && ReplyTo(s, op).value.disposition.Applied?
  }

  lemma ReplayIsNeverApplied(s: State, ctx: Context, now: I64, p: Publication)
    requires p.Sequenced() && ReplayedSequence(s, ctx)
    ensures var v := VerdictOn(s, ctx, now, p);
            v.Refuse? || (v.Keep? && !v.disposition.Applied?)
  {
    hide SiteProblem, DomainProblem, WorkloadProblem, ClusterProblem, PlacementProblem, MigrationProblem,
         FederationRecord.Problem, AcceleratorClassRecord.Problem, RuntimeRecord.Problem, BackendRecord.Problem,
         PolicyRecord.Problem, ArtifactRecord.Problem, WorkloadClassRecord.Problem;
  }

  /** On the paths that look at reused sequence numbers, what is applied is above the
      watermark and becomes the watermark. */
  lemma AppliedIsAboveWatermark(s: State, op: Op)
    requires Applies(s, op)
    ensures Mark(s, KeyOf(op.ctx)) < op.ctx.sequence == Mark(Step(s, op), KeyOf(op.ctx))
  {
    hide VerdictOn;
    if ReplayedSequence(s, op.ctx) {
      ReplayIsNeverApplied(s, op.ctx, op.now, op.publication);
    }
  }

  lemma {:induction false} WatermarkNeverFalls(s: State, ops: seq<Op>, key: PublisherKey)
    ensures Mark(Run(s, ops), key) >= Mark(s, key)
  {
    hide Step, Mark, Run, Advances, ReportedGaps;
    WatermarkAccounting(s, ops, key);
  }

  /** Sequence numbers applied for one identity strictly increase over a run, so none is
      applied twice. */
  lemma AppliedSequencesIncrease(s: State, ops: seq<Op>, i: nat, j: nat)
    requires i < j < |ops| && Applies(Run(s, ops[..i]), ops[i]) && Applies(Run(s, ops[..j]), ops[j])
    requires KeyOf(ops[i].ctx) == KeyOf(ops[j].ctx)
    ensures ops[i].ctx.sequence < ops[j].ctx.sequence
  {
    hide Step, Mark, ReplyTo;
    var key := KeyOf(ops[i].ctx);
    AppliedIsAboveWatermark(Run(s, ops[..i]), ops[i]);
    AppliedIsAboveWatermark(Run(s, ops[..j]), ops[j]);
    assert ops[..i + 1][..i] == ops[..i];
    RunComposes(s, ops[..j], i + 1);
    assert ops[..j][..i + 1] == ops[..i + 1];
    WatermarkNeverFalls(Run(s, ops[..i + 1]), ops[..j][i + 1..], key);
  }

  /** The other paths do not look: what they decide is the same whatever the publisher table, and
      so the watermark, says. */
  lemma OtherVerdictsIgnoreWatermarks(
    s: State, publishers: map<PublisherKey, Authority>, ctx: Context, now: I64, p: Publication)
    requires !p.Sequenced()
    ensures VerdictOn(s.(publishers := publishers), ctx, now, p) == VerdictOn(s, ctx, now, p)
  {
    hide Sum, SortPools, StampPools, SamePools, HasDuplicates, Migration.Advance;
    if p.PublishedCapacity? {
      SamePoolProblems(s, publishers, p.pools);
    }
  }

  lemma {:induction false} SamePoolProblems(s: State, publishers: map<PublisherKey, Authority>, pools: seq<Pool>)
    ensures FirstPoolProblem(s.(publishers := publishers), pools) == FirstPoolProblem(s, pools)
  {
    if pools != [] {
      SamePoolProblems(s, publishers, pools[..|pools| - 1]);
    }
  }

  /** So a replayed number of theirs is applied exactly when the same publication would be applied
      by an identity that had never sent anything. */
  lemma ReplaysAreAppliedAlike(s: State, ctx: Context, now: I64, p: Publication)
    requires !p.Sequenced() && Gate(s, ctx).Open?
    ensures var blank := s.(publishers := s.publishers[KeyOf(ctx) := s.publishers[KeyOf(ctx)].(watermark := 0)]);
            var reply, first := Publish(s, ctx, now, p).1, Publish(blank, ctx, now, p).1;
            && (reply.Ok? <==> first.Ok?)
            && (reply.Ok? ==> reply.value.disposition == first.value.disposition)
            && (reply.Err? ==> reply.code == first.code)
  {
    hide VerdictOn;
    OtherVerdictsIgnoreWatermarks(s, s.publishers[KeyOf(ctx) := s.publishers[KeyOf(ctx)].(watermark := 0)], ctx, now, p);
  }

  /** On the capability path, for instance, one sequence number can be applied twice. */
  lemma CapabilitySequencesCanBeReused(
    s: State, ctx: Context, now: I64, cluster: Id, first: U64, second: U64, a: CapabilitySet, b: CapabilitySet)
    requires Gate(s, ctx).Open? && EvidenceProblem(s, ctx, cluster).None?
    requires s.records.clusters[cluster].record.capabilityGeneration < first < second
    requires KeysValid(a.entries) && KeysValid(b.entries)
    ensures var once := Publish(s, ctx, now, PublishedCapability(cluster, 0, first, a));
            var twice := Publish(once.0, ctx, now, PublishedCapability(cluster, 0, second, b));
            && once.1.Ok? && once.1.value.disposition.Applied?
            && twice.1.Ok? && twice.1.value.disposition.Applied?
            && twice.0.records.clusters[cluster].record.capabilities == b
  {
  }
}
