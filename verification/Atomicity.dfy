/** What a refusal may change, what a snapshot generation identifies, and how every
    publication is counted. */
module Atomicity {
  import opened Foundation
  import opened Capability
  import opened Capacity
  import opened Model
  import opened Observatory
  import opened Fencing
  import Migration

  // ---------------------------------------------------------------------------------
  // A refusal moves counters only
  // ---------------------------------------------------------------------------------

  predicate SameButCounters(before: State, after: State) {
    && after == before.(publishers := after.publishers, stats := after.stats)
    && after.publishers.Keys == before.publishers.Keys
    && forall k :: k in before.publishers ==>
         after.publishers[k] == before.publishers[k].(rejected := after.publishers[k].rejected)
  }

  lemma RefusedPublicationIsAtomic(s: State, ctx: Context, now: I64, v: Verdict)
    requires !v.Spoil? && Conclude(s, ctx, now, v).1.Err?
    ensures SameButCounters(s, Conclude(s, ctx, now, v).0)
  {
  }

  lemma RefusedRegistrationIsAtomic(s: State, ctx: Context, now: I64)
    requires RegisterPublisher(s, ctx, now).1.Err?
    ensures SameButCounters(s, RegisterPublisher(s, ctx, now).0)
  {
    hide AdvanceAuthority, CountAccepted, CountRefusal, Members;
  }

  /** Every registration or publication that returns an error leaves the records, every
      watermark and fence, the epoch and the snapshot generation as they were. */
  lemma RefusalsAreAtomic(s: State, op: Op)
    requires (op.Register? || op.Ingest?) && op.Constructible() && ReplyTo(s, op).Err?
    ensures SameButCounters(s, Step(s, op))
  {
    hide VerdictOn, OnlyStamped, Conclude, SameButCounters, RegisterPublisher, FencePublisher, InvalidateDynamicEvidence,
         Apply, Restores;
    match op
    case Register(ctx, now) =>
      RefusedRegistrationIsAtomic(s, ctx, now);
    case Ingest(ctx, now, p) =>
      PublicationStamps(s, ctx, now, p);
      RefusedPublicationIsAtomic(s, ctx, now, VerdictOn(s, ctx, now, p));
  }

  /** Without the guarantee that sets come from puts, exactly one family of publications would
      break this: an invalid key in a publication that also advances the cluster generation. */
  lemma RefusedCapabilityTearsExactly(
    s: State, ctx: Context, now: I64, cluster: Id, clusterGeneration: U64, capabilityGeneration: U64, caps: CapabilitySet)
    ensures var p := PublishedCapability(cluster, clusterGeneration, capabilityGeneration, caps);
            && Publish(s, ctx, now, p).1.Err? && Publish(s, ctx, now, p).0.records != s.records
            <==>
            && Gate(s, ctx).Open? && EvidenceProblem(s, ctx, cluster).None? && !KeysValid(caps.entries)
            && clusterGeneration > s.records.clusters[cluster].record.generation
            && var r := s.records.clusters[cluster].record;
               && capabilityGeneration != 0
               && (capabilityGeneration > r.capabilityGeneration
                   || (capabilityGeneration == r.capabilityGeneration && r.capabilities.entries == []))
  {
    if EvidenceProblem(s, ctx, cluster).None? {
      var e := s.records.clusters[cluster];
      var moved := e.(record := e.record.(generation := clusterGeneration));
      assert s.records.clusters[cluster := moved][cluster] == moved;
      assert s.records.clusters[cluster := e] == s.records.clusters;
    }
  }

  // ---------------------------------------------------------------------------------
  // A snapshot generation identifies the records
  // ---------------------------------------------------------------------------------

  lemma {:induction false} BumpedRises(g: U64, bumps: nat)
    ensures Bumped(g, bumps) >= g
    ensures bumps > 0 && g != U64_MAX ==> Bumped(g, bumps) > g
    decreases bumps
  {
    if bumps > 0 {
      BumpedRises(Next(g), bumps - 1);
    }
  }

  /** A step changes the records only together with the snapshot generation. */
  lemma ChangeRaisesSnapshotGeneration(s: State, op: Op)
    requires op.Constructible()
    ensures Step(s, op).snapshotGeneration >= s.snapshotGeneration
    ensures s.snapshotGeneration != U64_MAX && Step(s, op).records != s.records ==>
              Step(s, op).snapshotGeneration > s.snapshotGeneration
  {
    if op.Ingest? {
      hide VerdictOn, OnlyStamped;
      PublicationStamps(s, op.ctx, op.now, op.publication);
      var v := VerdictOn(s, op.ctx, op.now, op.publication);
      if v.Store? {
        BumpedRises(s.snapshotGeneration, v.bumps);
      }
    } else {
      hide Loadable, RebuildLatest, RebuildMigrations, StaleTable, History, InvalidateClusters, Demote;
    }
  }

  lemma {:induction false} SnapshotGenerationNeverFalls(s: State, ops: seq<Op>)
    requires Constructible(ops)
    ensures Run(s, ops).snapshotGeneration >= s.snapshotGeneration
  {
    hide Step;
    if ops != [] {
      SnapshotGenerationNeverFalls(s, ops[..|ops| - 1]);
      ChangeRaisesSnapshotGeneration(Run(s, ops[..|ops| - 1]), ops[|ops| - 1]);
    }
  }

  /** Two moments of a run with the same snapshot generation have the same records, unless
      the generation has run out of successors. */
  lemma {:induction false} EqualSnapshotsEqualRecords(s: State, ops: seq<Op>)
    requires Constructible(ops)
    requires Run(s, ops).snapshotGeneration == s.snapshotGeneration != U64_MAX
    ensures Run(s, ops).records == s.records
  {
    hide Step;
    if ops != [] {
      var before := ops[..|ops| - 1];
      SnapshotGenerationNeverFalls(s, before);
      ChangeRaisesSnapshotGeneration(Run(s, before), ops[|ops| - 1]);
      EqualSnapshotsEqualRecords(s, before);
    }
  }

  /** At the last generation the promise is void: evidence can be dropped under it. */
  lemma LastSnapshotGenerationIsReused(s: State, cluster: Id)
    requires s.snapshotGeneration == U64_MAX
    requires cluster in s.records.clusters && s.records.clusters[cluster].record.pools != []
    ensures Step(s, Invalidate).snapshotGeneration == s.snapshotGeneration
    ensures Step(s, Invalidate).records != s.records
  {
    assert Step(s, Invalidate).records.clusters[cluster].record.pools == [];
  }

  // ---------------------------------------------------------------------------------
  // Counting
  // ---------------------------------------------------------------------------------

  function Answered(st: Stats): nat {
    st.applied + st.duplicate + st.superseded + st.rejected
  }

  /** The answer moved the counter of its own disposition and, if it reported a gap, the
      counter of gaps. */
  predicate Counted(before: Stats, after: Stats, reply: Reply, known: bool) {
    && after.applied == before.applied + (if reply.Ok? && reply.value.disposition.Applied? then 1 else 0)
    && after.duplicate == before.duplicate + (if reply.Ok? && reply.value.disposition.Duplicate? then 1 else 0)
    && after.superseded == before.superseded + (if reply.Ok? && reply.value.disposition.Superseded? then 1 else 0)
    && after.gaps == before.gaps + (if reply.Ok? && reply.value.gap != 0 && known then 1 else 0)
  }

  lemma ConclusionIsCounted(s: State, ctx: Context, now: I64, v: Verdict)
    ensures var (after, reply) := Conclude(s, ctx, now, v);
            && Counted(s.stats, after.stats, reply, true)
            && Answered(after.stats) == Answered(s.stats) + 1
  {
  }

  /** Each publication is counted exactly once, under the answer it got. */
  lemma EveryPublicationIsCountedOnce(s: State, ctx: Context, now: I64, p: Publication)
    ensures var (after, reply) := Publish(s, ctx, now, p);
            && Counted(s.stats, after.stats, reply, true)
            && Answered(after.stats) == Answered(s.stats) + 1
  {
    hide VerdictOn, Conclude;
    ConclusionIsCounted(s, ctx, now, VerdictOn(s, ctx, now, p));
  }

  /** So is each registration, except that malformed and over-bound ones are not counted as
      refusals and the gap of a first registration is not counted as a gap. */
  lemma RegistrationsAreCounted(s: State, ctx: Context, now: I64)
    ensures var (after, reply) := RegisterPublisher(s, ctx, now);
            && Counted(s.stats, after.stats, reply, KeyOf(ctx) in s.publishers)
            && Answered(after.stats) == Answered(s.stats) + if !ctx.Valid() || reply == Err(BoundExceeded) then 0 else 1
  {
  }
}
