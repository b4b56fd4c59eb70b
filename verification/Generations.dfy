/** Generation fencing of cluster evidence over runs: what a generation fixes, and for how
    long (src/observatory.cpp). */
module Generations {
  import opened Foundation
  import opened Capability
  import opened Capacity
  import opened Model
  import opened Observatory
  import opened Fencing
  import opened Durability
  import Migration

  // ---------------------------------------------------------------------------------
  // One step of one cluster
  // ---------------------------------------------------------------------------------

  predicate Reregisters(op: Op, id: Id) {
    op.Ingest? && op.publication.PublishedCluster? && op.publication.cluster.id == id
  }

  /** Operations that drop a cluster's pools without a new capacity publication. */
  predicate Clears(op: Op, id: Id) {
    Reregisters(op, id) || op.Invalidate? || op.Restore?
  }

  /** Capability evidence is ordered: the generation never falls, and content once
      established under a generation stays. */
  predicate CapabilityFollows(a: ClusterRecord, b: ClusterRecord) {
    && a.capabilityGeneration <= b.capabilityGeneration
    && (a.capabilityGeneration == b.capabilityGeneration && a.capabilities.entries != [] ==>
          b.capabilities == a.capabilities)
  }

  predicate CapacityFollows(a: ClusterRecord, b: ClusterRecord) {
    && a.capacityGeneration <= b.capacityGeneration
    && (a.capacityGeneration == b.capacityGeneration && a.pools != [] ==> b.pools == a.pools)
  }

  predicate Follows(a: ClusterRecord, b: ClusterRecord, op: Op) {
    && a.generation <= b.generation
    && (!Reregisters(op, a.id) ==> CapabilityFollows(a, b))
    && (!Clears(op, a.id) ==> CapacityFollows(a, b))
  }

  lemma RegistrationsLeaveClusters(s: State, ctx: Context, now: I64, p: Publication)
    requires p.Structural() && !p.PublishedCluster? && VerdictOn(s, ctx, now, p).Store?
    ensures VerdictOn(s, ctx, now, p).records.clusters == s.records.clusters
  {
    hide SiteProblem, DomainProblem, WorkloadProblem, ReplayedSequence, Choose, StampFor,
         FederationRecord.Problem, AcceleratorClassRecord.Problem, RuntimeRecord.Problem, BackendRecord.Problem,
         PolicyRecord.Problem, ArtifactRecord.Problem, WorkloadClassRecord.Problem;
  }

  lemma ActivitiesLeaveClusters(s: State, ctx: Context, now: I64, p: Publication)
    requires p.PublishedPlacement? || p.PublishedMigration? || p.PublishedStage? || p.PublishedPortability?
    requires VerdictOn(s, ctx, now, p).Store?
    ensures VerdictOn(s, ctx, now, p).records.clusters == s.records.clusters
  {
    hide ReplayedSequence, PlacementProblem, MigrationProblem, PortabilityRecord.Problem, SameAssessment, LatestIsNewer,
         Migration.Advance, Migration.IsAcceptableEvent, Migration.IsTerminal, Migration.Last, DemoteMigration, StampFor;
  }

  lemma OtherPublicationsLeaveClusters(s: State, ctx: Context, now: I64, p: Publication)
    requires !p.PublishedCluster? && !p.PublishedRetirement? && !p.PublishedCapability? && !p.PublishedCapacity?
    requires VerdictOn(s, ctx, now, p).Store?
    ensures VerdictOn(s, ctx, now, p).records.clusters == s.records.clusters
  {
    hide VerdictOn;
    if p.Structural() {
      RegistrationsLeaveClusters(s, ctx, now, p);
    } else {
      ActivitiesLeaveClusters(s, ctx, now, p);
    }
  }

  lemma ClusterPublicationFollows(s: State, ctx: Context, now: I64, p: Publication, id: Id)
    requires p.PublishedCluster? || p.PublishedRetirement? || p.PublishedCapability? || p.PublishedCapacity?
    requires VerdictOn(s, ctx, now, p).Store?
    requires id in s.records.clusters && s.records.clusters[id].record.id == id
    ensures id in VerdictOn(s, ctx, now, p).records.clusters
    ensures Follows(s.records.clusters[id].record, VerdictOn(s, ctx, now, p).records.clusters[id].record, Ingest(ctx, now, p))
  {
    hide ClusterProblem, ReplayedSequence, FederationProblem, FirstPoolProblem, SamePools, SortPools, StampPools, Sum,
         KeysValid, HasDuplicates;
  }

  lemma PublicationFollows(s: State, ctx: Context, now: I64, p: Publication, id: Id)
    requires p.Constructible() && id in s.records.clusters && s.records.clusters[id].record.id == id
    ensures id in Publish(s, ctx, now, p).0.records.clusters
    ensures Follows(s.records.clusters[id].record, Publish(s, ctx, now, p).0.records.clusters[id].record, Ingest(ctx, now, p))
  {
    hide VerdictOn, Follows, OnlyStamped;
    PublicationStamps(s, ctx, now, p);
    StandingStillFollows(s.records.clusters[id].record, Ingest(ctx, now, p));
    if VerdictOn(s, ctx, now, p).Store? {
      if p.PublishedCluster? || p.PublishedRetirement? || p.PublishedCapability? || p.PublishedCapacity? {
        ClusterPublicationFollows(s, ctx, now, p, id);
      } else {
        OtherPublicationsLeaveClusters(s, ctx, now, p);
      }
    }
  }

  lemma ClearingFollows(r: ClusterRecord, op: Op)
    requires op.Restore? || op.Invalidate?
    ensures Follows(r, Cleared(r), op)
  {
  }

  lemma AdministrationFollows(s: State, op: Op, id: Id)
    requires op.Register? || op.Fence? || op.Invalidate?
    requires id in s.records.clusters && s.records.clusters[id].record.id == id
    ensures id in Step(s, op).records.clusters
    ensures Follows(s.records.clusters[id].record, Step(s, op).records.clusters[id].record, op)
  {
    hide Follows, RegisterPublisher, FencePublisher;
    var r := s.records.clusters[id].record;
    StandingStillFollows(r, op);
    match op
    case Register(ctx, now) =>
      RegistrationLeavesRecords(s, ctx, now);
    case Fence(publisher, boot, reason) =>
      FenceLeavesContent(s, publisher, boot, reason, id);
    case Invalidate =>
      ClearingFollows(r, op);
  }

  lemma FenceLeavesContent(s: State, publisher: Id, boot: U64, reason: Text, id: Id)
    requires id in s.records.clusters
    ensures var after := FencePublisher(s, publisher, boot, reason).0.records.clusters;
            id in after && after[id].record == s.records.clusters[id].record
  {
  }

  lemma RegistrationLeavesRecords(s: State, ctx: Context, now: I64)
    ensures RegisterPublisher(s, ctx, now).0.records == s.records
  {
  }

  lemma StepFollows(s: State, op: Op, id: Id)
    requires op.Constructible() && id in s.records.clusters && s.records.clusters[id].record.id == id
    ensures id in Step(s, op).records.clusters
    ensures Follows(s.records.clusters[id].record, Step(s, op).records.clusters[id].record, op)
  {
    hide Publish, Follows, Apply, Loadable, RegisterPublisher, FencePublisher, InvalidateDynamicEvidence;
    match op
    case Ingest(ctx, now, p) =>
      PublicationFollows(s, ctx, now, p, id);
    case Restore(order) =>
      StandingStillFollows(s.records.clusters[id].record, op);
      if Restores(s, order) {
        RestoredCluster(s, order, id);
        ClearingFollows(s.records.clusters[id].record, op);
      }
    case _ =>
      AdministrationFollows(s, op, id);
  }

  lemma StandingStillFollows(r: ClusterRecord, op: Op)
    ensures Follows(r, r, op)
  {
  }

  lemma RestoredCluster(s: State, order: FileOrder, id: Id)
    requires OrderOf(order, Saved(s).records) && id in s.records.clusters
    ensures id in Apply(s, Saved(s), order).records.clusters
    ensures Apply(s, Saved(s), order).records.clusters[id].record == Cleared(s.records.clusters[id].record)
  {
    hide RebuildLatest, RebuildMigrations, StaleTable, History;
  }

  // ---------------------------------------------------------------------------------
  // Over runs
  // ---------------------------------------------------------------------------------

  lemma {:induction false} ClustersKeepTheirNames(s: State, ops: seq<Op>, id: Id)
    requires InOrder(s.records, s.bounds) && Constructible(ops) && id in s.records.clusters
    ensures id in Run(s, ops).records.clusters && Run(s, ops).records.clusters[id].record.id == id
  {
    hide Run;
    RunsStayInOrder(s, ops);
    StoredClusterIsSound(Run(s, ops).records, id);
  }

  /** A cluster's generation never falls, through every operation and restart. */
  lemma {:induction false} ClusterGenerationNeverFalls(s: State, ops: seq<Op>, id: Id)
    requires InOrder(s.records, s.bounds) && Constructible(ops) && id in s.records.clusters
    ensures id in Run(s, ops).records.clusters
    ensures s.records.clusters[id].record.generation <= Run(s, ops).records.clusters[id].record.generation
  {
    hide Step, InOrder;
    if ops != [] {
      var before := ops[..|ops| - 1];
      ClusterGenerationNeverFalls(s, before, id);
      ClustersKeepTheirNames(s, before, id);
      StepFollows(Run(s, before), ops[|ops| - 1], id);
    }
  }

  /** Until the cluster is registered again, its capability generation never falls and
      established content under one generation never changes. */
  lemma {:induction false} CapabilityFollowsOverRuns(s: State, ops: seq<Op>, id: Id)
    requires InOrder(s.records, s.bounds) && Constructible(ops) && id in s.records.clusters
    requires forall i :: 0 <= i < |ops| ==> !Reregisters(ops[i], id)
    ensures id in Run(s, ops).records.clusters
    ensures CapabilityFollows(s.records.clusters[id].record, Run(s, ops).records.clusters[id].record)
  {
    hide Step, InOrder, Reregisters;
    if ops != [] {
      var before := ops[..|ops| - 1];
      CapabilityFollowsOverRuns(s, before, id);
      ClustersKeepTheirNames(s, before, id);
      StepFollows(Run(s, before), ops[|ops| - 1], id);
    }
  }

  /** Likewise capacity pools, until a registration, invalidation or restart clears them. */
  lemma {:induction false} CapacityFollowsOverRuns(s: State, ops: seq<Op>, id: Id)
    requires InOrder(s.records, s.bounds) && Constructible(ops) && id in s.records.clusters
    requires forall i :: 0 <= i < |ops| ==> !Clears(ops[i], id)
    ensures id in Run(s, ops).records.clusters
    ensures CapacityFollows(s.records.clusters[id].record, Run(s, ops).records.clusters[id].record)
  {
    hide Step, InOrder, Clears;
    if ops != [] {
      var before := ops[..|ops| - 1];
      CapacityFollowsOverRuns(s, before, id);
      ClustersKeepTheirNames(s, before, id);
      StepFollows(Run(s, before), ops[|ops| - 1], id);
    }
  }

  lemma AcceptedCapability(s: State, ctx: Context, now: I64, id: Id, target: U64, g: U64, caps: CapabilitySet)
    requires Publish(s, ctx, now, PublishedCapability(id, target, g, caps)).1.Ok?
    requires Publish(s, ctx, now, PublishedCapability(id, target, g, caps)).1.value.disposition.Applied?
    ensures var t := Publish(s, ctx, now, PublishedCapability(id, target, g, caps)).0;
            && id in t.records.clusters
            && t.records.clusters[id].record.capabilityGeneration == g != 0
            && t.records.clusters[id].record.capabilities == caps
  {
    hide FederationProblem, KeysValid, Gate;
  }

  lemma LaterCapability(t: State, ctx: Context, now: I64, id: Id, target: U64, g: U64, other: CapabilitySet)
    requires id in t.records.clusters && g <= t.records.clusters[id].record.capabilityGeneration
    requires g == t.records.clusters[id].record.capabilityGeneration ==>
               t.records.clusters[id].record.capabilities.entries != []
    ensures var reply := Publish(t, ctx, now, PublishedCapability(id, target, g, other)).1;
            && (reply.Ok? ==> && reply.value.disposition.Duplicate?
                              && g == t.records.clusters[id].record.capabilityGeneration
                              && other.entries == t.records.clusters[id].record.capabilities.entries)
            && (Gate(t, ctx).Open? && EvidenceProblem(t, ctx, id).None? && g != 0 ==>
                  reply.Ok? || reply.code.Conflict? || reply.code.StaleGeneration?)
  {
    hide FederationProblem, KeysValid, Gate;
  }

  /** After an accepted capability publication, its generation is spent: until the cluster is
      registered again, whatever is published under it, for whichever cluster generation, is a
      duplicate of the same content, a conflict or stale. */
  lemma CapabilityGenerationIsSpent(
    s: State, ctx: Context, now: I64, id: Id, target: U64, g: U64, caps: CapabilitySet, ops: seq<Op>,
    later: Context, time: I64, aim: U64, other: CapabilitySet)
    requires InOrder(s.records, s.bounds) && Canonical(caps.entries) && caps.entries != []
    requires Publish(s, ctx, now, PublishedCapability(id, target, g, caps)).1.Ok?
    requires Publish(s, ctx, now, PublishedCapability(id, target, g, caps)).1.value.disposition.Applied?
    requires Constructible(ops) && forall i :: 0 <= i < |ops| ==> !Reregisters(ops[i], id)
    ensures var t := Run(Publish(s, ctx, now, PublishedCapability(id, target, g, caps)).0, ops);
            var reply := Publish(t, later, time, PublishedCapability(id, aim, g, other)).1;
            && (reply.Ok? ==> reply.value.disposition.Duplicate? && other.entries == caps.entries)
            && (Gate(t, later).Open? && EvidenceProblem(t, later, id).None? ==>
                  reply.Ok? || reply.code.Conflict? || reply.code.StaleGeneration?)
  {
    var p := PublishedCapability(id, target, g, caps);
    assert p.Constructible();
    hide InOrder, Run, Publish, EvidenceProblem, Gate, Canonical, Grows;
    var t := Publish(s, ctx, now, p).0;
    AcceptedCapability(s, ctx, now, id, target, g, caps);
    PublicationKeepsOrder(s, ctx, now, p);
    PublishKeepsBounds(s, ctx, now, p);
    CapabilityFollowsOverRuns(t, ops, id);
    LaterCapability(Run(t, ops), later, time, id, aim, g, other);
  }

  lemma PublishKeepsBounds(s: State, ctx: Context, now: I64, p: Publication)
    ensures Publish(s, ctx, now, p).0.bounds == s.bounds
  {
    hide VerdictOn;
    ConcludeKeepsBounds(s, ctx, now, VerdictOn(s, ctx, now, p));
  }
}
