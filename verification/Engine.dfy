/** The ingest engine as the object it is: record maps, publisher authorities, counters, epoch
    and snapshot generation updated in place under one lock (src/observatory.cpp). Every
    method is proved against the transition system of module Observatory. */
module Engine {
  import opened Foundation
  import opened Capability
  import opened Capacity
  import opened Model
  import opened Observatory
  import opened Pools
  import Migration

  /** Installing the new table after the authority was advanced is the same as before it. */
  lemma InstalledLast<R>(s: State, ctx: Context, now: I64, c: Choice<R>, records: Records)
    ensures var early := Conclude(s, ctx, now, AsVerdict(c, records, 1));
            var late := Conclude(s, ctx, now, AsVerdict(c, s.records, 1));
            && early.1 == late.1
            && early.0 == (if Gate(s, ctx).Open? && c.Installed? then late.0.(records := records) else late.0)
  {
    hide Gate;
  }

  /** A second bump after the authority was advanced is the same as two bumps before it. */
  lemma BumpedLast<R>(s: State, ctx: Context, now: I64, c: Choice<R>, records: Records)
    ensures var early := Conclude(s, ctx, now, AsVerdict(c, records, 2));
            var late := Conclude(s, ctx, now, AsVerdict(c, s.records, 1));
            && early.1 == late.1
            && early.0 == (if Gate(s, ctx).Open? && c.Installed?
                           then late.0.(records := records, snapshotGeneration := Next(late.0.snapshotGeneration))
                           else late.0)
  {
    hide Gate;
    assert Bumped(s.snapshotGeneration, 2) == Bumped(Next(s.snapshotGeneration), 1);
  }

  /** Which answers mean that the record was installed. */
  lemma AppliedMeansInstalled<R>(s: State, ctx: Context, now: I64, c: Choice<R>, records: Records, bumps: nat)
    requires c.Retained? ==> !c.disposition.Applied?
    ensures var reply := Conclude(s, ctx, now, AsVerdict(c, records, bumps)).1;
            reply.Ok? && reply.value.disposition.Applied? <==> Gate(s, ctx).Open? && c.Installed?
  {
    hide Gate;
  }

  class FederationObservatory {
    const bounds: Bounds

    var publishers: map<PublisherKey, Authority>
    var coordinatorEpoch: U64
    var snapshotGeneration: U64
    var saveSequence: nat
    var stats: Stats
    /** The record maps. */
    var records: Records

    /** The engine as a state of the transition system. */
    ghost function Abs(): State
      reads this
    {
      State(bounds, publishers, coordinatorEpoch, snapshotGeneration, saveSequence, records, stats)
    }

    constructor (bounds: Bounds)
      ensures Abs() == Initial(bounds)
    {
      this.bounds := bounds;
      publishers, coordinatorEpoch, snapshotGeneration, saveSequence, stats := map[], 1, 1, 0, NO_STATS;
      records := NO_RECORDS;
    }

    // -------------------------------------------------------------------------------
    // Refusing, checking authority and finishing
    // -------------------------------------------------------------------------------

    method Refuse(code: ErrorCode, authority: Option<PublisherKey>, fenced: bool) returns (reply: Reply)
      requires authority.Some? ==> authority.value in publishers
      modifies this`publishers, this`stats
      ensures reply == Err(code)
      ensures publishers ==
              if authority.None? then old(publishers)
              else old(publishers)[authority.value :=
                     old(publishers)[authority.value].(rejected := old(publishers)[authority.value].rejected + 1)]
      ensures stats == old(stats).(rejected := old(stats).rejected + 1,
                                   fencedPublications := old(stats).fencedPublications + if fenced then 1 else 0)
    {
      if authority.Some? {
        var a := publishers[authority.value];
        publishers := publishers[authority.value := a.(rejected := a.rejected + 1)];
      }
      stats := stats.(rejected := stats.rejected + 1);
      if fenced {
        stats := stats.(fencedPublications := stats.fencedPublications + 1);
      }
      return Err(code);
    }

    method CheckAuthority(ctx: Context) returns (failure: Option<ErrorCode>, duplicateSequence: bool)
      modifies this`publishers, this`stats
      ensures failure.None? ==> ctx.Valid() && KeyOf(ctx) in publishers
      ensures match Gate(old(Abs()), ctx)
              case Open(replayed) => failure == None && duplicateSequence == replayed && Abs() == old(Abs())
              case Closed(code) =>
                && failure == Some(code)
                && Abs() == Refusing(old(Abs()), ctx, code, if code.SequenceRegression? then Regressed else Plain)
    {
      duplicateSequence := false;
      var refusal: Reply;
      if !ctx.Valid() {
        refusal := Refuse(InvalidArgument, None, false);
        return Some(InvalidArgument), false;
      }
      var key := KeyOf(ctx);
      if key !in publishers {
        refusal := Refuse(StaleBoot, None, true);
        return Some(StaleBoot), false;
      }
      if publishers[key].fenced {
        refusal := Refuse(FencedPublisher, Some(key), true);
        return Some(FencedPublisher), false;
      }
      if ctx.epoch != coordinatorEpoch {
        refusal := Refuse(StaleEpoch, Some(key), false);
        return Some(StaleEpoch), false;
      }
      if ctx.sequence < publishers[key].watermark {
        stats := stats.(regressions := stats.regressions + 1);
        refusal := Refuse(SequenceRegression, Some(key), false);
        return Some(SequenceRegression), false;
      }
      return None, ctx.sequence == publishers[key].watermark && publishers[key].watermark != 0;
    }

    /** Refusal of a publication that passed the authority check. */
    method Deny(ctx: Context, code: ErrorCode, kind: RefusalKind) returns (reply: Reply)
      requires ctx.Valid() && KeyOf(ctx) in publishers && !code.StaleBoot? && !code.FencedPublisher?
      modifies this`publishers, this`stats
      ensures Abs() == Refusing(old(Abs()), ctx, code, kind) && reply == Err(code)
    {
      hide Context.Valid;
      if kind.OverBound? {
        stats := stats.(boundsRejections := stats.boundsRejections + 1);
      }
      if kind.Regressed? {
        stats := stats.(regressions := stats.regressions + 1);
      }
      reply := Refuse(code, Some(KeyOf(ctx)), false);
    }

    method Accept(ctx: Context, now: I64, disposition: Disposition) returns (reply: Reply)
      requires KeyOf(ctx) in publishers
      modifies this`publishers, this`stats
      ensures (Abs(), reply) == Finish(old(Abs()), ctx, now, disposition)
    {
      var authority := publishers[KeyOf(ctx)];
      var gap := 0;
      if ctx.sequence > authority.watermark {
        gap := ctx.sequence - authority.watermark - 1;
        authority := authority.(watermark := ctx.sequence);
      }
      if gap != 0 {
        stats := stats.(gaps := stats.gaps + 1);
        authority := authority.(gaps := authority.gaps + 1);
      }
      authority := authority.(lastPublicationAt := Clock(ctx, now));
      match disposition {
        case Applied =>
          authority := authority.(accepted := authority.accepted + 1);
          stats := stats.(applied := stats.applied + 1);
        case Duplicate =>
          authority := authority.(duplicates := authority.duplicates + 1);
          stats := stats.(duplicate := stats.duplicate + 1);
        case Superseded =>
          stats := stats.(superseded := stats.superseded + 1);
      }
      publishers := publishers[KeyOf(ctx) := authority];
      return Ok(Ack(disposition, authority.watermark, gap));
    }

    // -------------------------------------------------------------------------------
    // Structural registration
    // -------------------------------------------------------------------------------

    /** The part of a structural registration that does not depend on the kind of record. The
        caller owns the table and stores the one returned. */
    method RegisterStructural<R(==)>(
      ctx: Context, now: I64, table: map<Id, Entry<R>>, id: Id, record: R, problem: Option<ErrorCode>,
      limit: nat, storedGeneration: U64, incomingGeneration: U64)
      returns (result: map<Id, Entry<R>>, reply: Reply)
      requires problem.Some? ==> !problem.value.StaleBoot? && !problem.value.FencedPublisher?
      modifies this`publishers, this`stats, this`snapshotGeneration
      ensures var s := old(Abs());
              var c := Choose(table, id, record, problem, ReplayedSequence(s, ctx), limit, storedGeneration,
                              incomingGeneration, StampFor(ctx, now));
              && (Abs(), reply) == Conclude(s, ctx, now, AsVerdict(c, s.records, 1))
              && result == (if Gate(s, ctx).Open? && c.Installed? then c.table else table)
    {
      result := table;
      var failure, duplicateSequence := CheckAuthority(ctx);
      if failure.Some? {
        return table, Err(failure.value);
      }
      if problem.Some? {
        reply := Deny(ctx, problem.value, Plain);
        return;
      }
      if id in table && table[id].record == record {
        reply := Accept(ctx, now, Duplicate);
        return;
      }
      if duplicateSequence {
        reply := Deny(ctx, Conflict, Plain);
        return;
      }
      if id !in table {
        if |table| >= limit {
          reply := Deny(ctx, BoundExceeded, OverBound);
          return;
        }
      } else if storedGeneration > incomingGeneration {
        reply := Accept(ctx, now, Superseded);
        return;
      }
      result := table[id := Entry(record, Currentness.Current, StampFor(ctx, now))];
      snapshotGeneration := Next(snapshotGeneration);
      reply := Accept(ctx, now, Applied);
    }

    method FindMissing<T>(ids: seq<Id>, table: map<Id, T>) returns (missing: bool)
      ensures missing == SomeMissing(ids, table)
    {
      for i := 0 to |ids|
        invariant forall k :: 0 <= k < i ==> ids[k] in table
      {
        if ids[i] !in table {
          return true;
        }
      }
      return false;
    }

    method RegisterFederation(ctx: Context, now: I64, record: FederationRecord) returns (reply: Reply)
      modifies this
      ensures (Abs(), reply) == Conclude(old(Abs()), ctx, now, FederationVerdict(old(Abs()), ctx, now, record))
    {
      hide Conclude, Choose, AsVerdict, Gate, ReplayedSequence, HasDuplicates;
      var problem := record.Problem();
      ghost var s := Abs();
      var stored := if record.id in records.federations then records.federations[record.id].record.generation else 0;
      ghost var c := Choose(records.federations, record.id, record, problem, ReplayedSequence(s, ctx),
                            bounds.federations, stored, record.generation, StampFor(ctx, now));
      var table;
      table, reply := RegisterStructural(ctx, now, records.federations, record.id, record, problem,
                                         bounds.federations, stored, record.generation);
      records := records.(federations := table);
      InstalledLast(s, ctx, now, c, if c.Installed? then s.records.(federations := c.table) else s.records);
    }

    method RegisterSite(ctx: Context, now: I64, record: SiteRecord) returns (reply: Reply)
      modifies this
      ensures (Abs(), reply) == Conclude(old(Abs()), ctx, now, SiteVerdict(old(Abs()), ctx, now, record))
    {
      hide Conclude, Choose, AsVerdict, Gate, ReplayedSequence, HasDuplicates;
      var problem := record.Problem();
      if problem.None? && record.federation !in records.federations {
        problem := Some(NotFound);
      }
      ghost var s := Abs();
      var stored := if record.id in records.sites then records.sites[record.id].record.generation else 0;
      ghost var c := Choose(records.sites, record.id, record, problem, ReplayedSequence(s, ctx),
                            bounds.sites, stored, record.generation, StampFor(ctx, now));
      var table;
      table, reply := RegisterStructural(ctx, now, records.sites, record.id, record, problem,
                                         bounds.sites, stored, record.generation);
      records := records.(sites := table);
      InstalledLast(s, ctx, now, c, if c.Installed? then s.records.(sites := c.table) else s.records);
    }

    method RegisterAcceleratorClass(ctx: Context, now: I64, record: AcceleratorClassRecord) returns (reply: Reply)
      modifies this
      ensures (Abs(), reply) == Conclude(old(Abs()), ctx, now, AcceleratorClassVerdict(old(Abs()), ctx, now, record))
    {
      hide Conclude, Choose, AsVerdict, Gate, ReplayedSequence, HasDuplicates;
      var problem := record.Problem();
      ghost var s := Abs();
      var stored := if record.id in records.acceleratorClasses then records.acceleratorClasses[record.id].record.capabilityGeneration else 0;
      ghost var c := Choose(records.acceleratorClasses, record.id, record, problem, ReplayedSequence(s, ctx),
                            bounds.acceleratorClasses, stored, record.capabilityGeneration, StampFor(ctx, now));
      var table;
      table, reply := RegisterStructural(ctx, now, records.acceleratorClasses, record.id, record, problem,
                                         bounds.acceleratorClasses, stored, record.capabilityGeneration);
      records := records.(acceleratorClasses := table);
      InstalledLast(s, ctx, now, c, if c.Installed? then s.records.(acceleratorClasses := c.table) else s.records);
    }

    method RegisterRuntime(ctx: Context, now: I64, record: RuntimeRecord) returns (reply: Reply)
      modifies this
      ensures (Abs(), reply) == Conclude(old(Abs()), ctx, now, RuntimeVerdict(old(Abs()), ctx, now, record))
    {
      hide Conclude, Choose, AsVerdict, Gate, ReplayedSequence, HasDuplicates;
      var problem := record.Problem();
      ghost var s := Abs();
      var stored := if record.id in records.runtimes then records.runtimes[record.id].record.generation else 0;
      ghost var c := Choose(records.runtimes, record.id, record, problem, ReplayedSequence(s, ctx),
                            bounds.runtimes, stored, record.generation, StampFor(ctx, now));
      var table;
      table, reply := RegisterStructural(ctx, now, records.runtimes, record.id, record, problem,
                                         bounds.runtimes, stored, record.generation);
      records := records.(runtimes := table);
      InstalledLast(s, ctx, now, c, if c.Installed? then s.records.(runtimes := c.table) else s.records);
    }

    method RegisterBackend(ctx: Context, now: I64, record: BackendRecord) returns (reply: Reply)
      modifies this
      ensures (Abs(), reply) == Conclude(old(Abs()), ctx, now, BackendVerdict(old(Abs()), ctx, now, record))
    {
      hide Conclude, Choose, AsVerdict, Gate, ReplayedSequence, HasDuplicates;
      var problem := record.Problem();
      if problem.None? && record.runtime !in records.runtimes {
        problem := Some(NotFound);
      }
      ghost var s := Abs();
      var stored := if record.id in records.backends then records.backends[record.id].record.generation else 0;
      ghost var c := Choose(records.backends, record.id, record, problem, ReplayedSequence(s, ctx),
                            bounds.backends, stored, record.generation, StampFor(ctx, now));
      var table;
      table, reply := RegisterStructural(ctx, now, records.backends, record.id, record, problem,
                                         bounds.backends, stored, record.generation);
      records := records.(backends := table);
      InstalledLast(s, ctx, now, c, if c.Installed? then s.records.(backends := c.table) else s.records);
    }

    method RegisterDomain(ctx: Context, now: I64, record: DomainRecord) returns (reply: Reply)
      modifies this
      ensures (Abs(), reply) == Conclude(old(Abs()), ctx, now, DomainVerdict(old(Abs()), ctx, now, record))
    {
      hide Conclude, Choose, AsVerdict, Gate, ReplayedSequence, HasDuplicates, SomeMissing;
      var problem := record.Problem();
      if problem.None? {
        var missing := FindMissing(record.clusters, records.clusters);
        if record.federation !in records.federations || missing {
          problem := Some(NotFound);
        }
      }
      ghost var s := Abs();
      var stored := if record.id in records.domains then records.domains[record.id].record.topologyGeneration else 0;
      ghost var c := Choose(records.domains, record.id, record, problem, ReplayedSequence(s, ctx),
                            bounds.domains, stored, record.topologyGeneration, StampFor(ctx, now));
      var table;
      table, reply := RegisterStructural(ctx, now, records.domains, record.id, record, problem,
                                         bounds.domains, stored, record.topologyGeneration);
      records := records.(domains := table);
      InstalledLast(s, ctx, now, c, if c.Installed? then s.records.(domains := c.table) else s.records);
    }

    method RegisterPolicy(ctx: Context, now: I64, record: PolicyRecord) returns (reply: Reply)
      modifies this
      ensures (Abs(), reply) == Conclude(old(Abs()), ctx, now, PolicyVerdict(old(Abs()), ctx, now, record))
    {
      hide Conclude, Choose, AsVerdict, Gate, ReplayedSequence, HasDuplicates;
      var problem := record.Problem();
      ghost var s := Abs();
      var stored := if record.id in records.policies then records.policies[record.id].record.generation else 0;
      ghost var c := Choose(records.policies, record.id, record, problem, ReplayedSequence(s, ctx),
                            bounds.policies, stored, record.generation, StampFor(ctx, now));
      var table;
      table, reply := RegisterStructural(ctx, now, records.policies, record.id, record, problem,
                                         bounds.policies, stored, record.generation);
      records := records.(policies := table);
      InstalledLast(s, ctx, now, c, if c.Installed? then s.records.(policies := c.table) else s.records);
    }

    method RegisterArtifact(ctx: Context, now: I64, record: ArtifactRecord) returns (reply: Reply)
      modifies this
      ensures (Abs(), reply) == Conclude(old(Abs()), ctx, now, ArtifactVerdict(old(Abs()), ctx, now, record))
    {
      hide Conclude, Choose, AsVerdict, Gate, ReplayedSequence, HasDuplicates;
      var problem := record.Problem();
      ghost var s := Abs();
      var stored := if record.id in records.artifacts then records.artifacts[record.id].record.generation else 0;
      ghost var c := Choose(records.artifacts, record.id, record, problem, ReplayedSequence(s, ctx),
                            bounds.artifacts, stored, record.generation, StampFor(ctx, now));
      var table;
      table, reply := RegisterStructural(ctx, now, records.artifacts, record.id, record, problem,
                                         bounds.artifacts, stored, record.generation);
      records := records.(artifacts := table);
      InstalledLast(s, ctx, now, c, if c.Installed? then s.records.(artifacts := c.table) else s.records);
    }

    method RegisterWorkloadClass(ctx: Context, now: I64, record: WorkloadClassRecord) returns (reply: Reply)
      modifies this
      ensures (Abs(), reply) == Conclude(old(Abs()), ctx, now, WorkloadClassVerdict(old(Abs()), ctx, now, record))
    {
      hide Conclude, Choose, AsVerdict, Gate, ReplayedSequence, HasDuplicates;
      var problem := record.Problem();
      ghost var s := Abs();
      var stored := 0;
      ghost var c := Choose(records.workloadClasses, record.id, record, problem, ReplayedSequence(s, ctx),
                            bounds.workloadClasses, stored, 0, StampFor(ctx, now));
      var table;
      table, reply := RegisterStructural(ctx, now, records.workloadClasses, record.id, record, problem,
                                         bounds.workloadClasses, stored, 0);
      records := records.(workloadClasses := table);
      InstalledLast(s, ctx, now, c, if c.Installed? then s.records.(workloadClasses := c.table) else s.records);
    }

    method RegisterWorkload(ctx: Context, now: I64, record: WorkloadRecord) returns (reply: Reply)
      modifies this
      ensures (Abs(), reply) == Conclude(old(Abs()), ctx, now, WorkloadVerdict(old(Abs()), ctx, now, record))
    {
      hide Conclude, Choose, AsVerdict, Gate, ReplayedSequence, HasDuplicates, SomeMissing;
      var problem := record.Problem();
      if problem.None? {
        var missing := FindMissing(record.acceptableClasses, records.acceleratorClasses);
        if record.workloadClass !in records.workloadClasses
           || (record.artifact != [] && record.artifact !in records.artifacts)
           || (record.policy != [] && record.policy !in records.policies)
           || missing {
          problem := Some(NotFound);
        }
      }
      ghost var s := Abs();
      var stored := if record.id in records.workloads then records.workloads[record.id].record.generation else 0;
      ghost var c := Choose(records.workloads, record.id, record, problem, ReplayedSequence(s, ctx),
                            bounds.workloads, stored, record.generation, StampFor(ctx, now));
      var table;
      table, reply := RegisterStructural(ctx, now, records.workloads, record.id, record, problem,
                                         bounds.workloads, stored, record.generation);
      records := records.(workloads := table);
      InstalledLast(s, ctx, now, c, if c.Installed? then s.records.(workloads := c.table) else s.records);
    }

    method ClusterReferences(record: ClusterRecord) returns (problem: Option<ErrorCode>)
      ensures problem == ClusterProblem(Abs(), record)
    {
      hide HasDuplicates, SomeMissing, ClusterRecord.Problem;
      problem := record.Problem();
      if problem.None? {
        var classes := FindMissing(record.acceleratorClasses, records.acceleratorClasses);
        var runtimes := FindMissing(record.runtimes, records.runtimes);
        var backends := FindMissing(record.backends, records.backends);
        if record.federation !in records.federations || record.site !in records.sites || classes || runtimes || backends
           || (record.domain != [] && record.domain !in records.domains) {
          problem := Some(NotFound);
        }
      }
    }

    /** A newer cluster generation is a new incarnation: capacity and readiness were observed
        for the previous one and are dropped after the registration went through. */
    method RegisterCluster(ctx: Context, now: I64, record: ClusterRecord) returns (reply: Reply)
      modifies this
      ensures (Abs(), reply) == Conclude(old(Abs()), ctx, now, ClusterVerdict(old(Abs()), ctx, now, record))
    {
      hide Conclude, AsVerdict, Gate, ReplayedSequence, ClusterProblem;
      ghost var s := Abs();
      var problem := ClusterReferences(record);
      ProblemsAreNotAboutAuthority(s, record);
      var previous: U64 := if record.id in records.clusters then records.clusters[record.id].record.generation else 0;
      ghost var c := ClusterChoice(s, ctx, now, record);
      var table;
      table, reply := RegisterStructural(ctx, now, records.clusters, record.id, record, problem,
                                         bounds.clusters, previous, record.generation);
      records := records.(clusters := table);
      AppliedMeansInstalled(s, ctx, now, c, s.records, 1);
      if reply.Ok? && reply.value.disposition.Applied? && previous != 0 && record.generation > previous {
        records := records.(clusters := table[record.id := table[record.id].(record := Cleared(record))]);
        snapshotGeneration := Next(snapshotGeneration);
      }
      ghost var installed :=
        if c.Installed? then s.records.(clusters := ClusterTable(s, ctx, now, record)) else s.records;
      ghost var late := Conclude(s, ctx, now, AsVerdict(c, s.records, 1));
      assert NewIncarnation(s, record) <==> previous != 0 && record.generation > previous;
      assert Gate(s, ctx).Open? && c.Installed? ==> records == installed;
      assert !(Gate(s, ctx).Open? && c.Installed?) ==> records == late.0.records;
      assert NewIncarnation(s, record) && Gate(s, ctx).Open? && c.Installed? ==>
          Abs() == late.0.(records := installed, snapshotGeneration := Next(late.0.snapshotGeneration));
      assert !NewIncarnation(s, record) && Gate(s, ctx).Open? && c.Installed? ==> Abs() == late.0.(records := installed);
      if NewIncarnation(s, record) {
        BumpedLast(s, ctx, now, c, installed);
      } else {
        InstalledLast(s, ctx, now, c, installed);
      }
    }

    method CheckFederation(ctx: Context) returns (problem: Option<ErrorCode>)
      ensures problem == FederationProblem(Abs(), ctx)
    {
      if ctx.federation !in records.federations {
        return Some(NotFound);
      }
      if ctx.federationGeneration != 0
         && ctx.federationGeneration != records.federations[ctx.federation].record.generation {
        return Some(StaleGeneration);
      }
      return None;
    }

    // -------------------------------------------------------------------------------
    // Cluster evidence
    // -------------------------------------------------------------------------------

    method RetireCluster(ctx: Context, now: I64, cluster: Id, generation: U64) returns (reply: Reply)
      modifies this
      ensures (Abs(), reply) == Conclude(old(Abs()), ctx, now, RetireVerdict(old(Abs()), ctx, now, cluster, generation))
    {
      hide Gate;
      var failure, duplicateSequence := CheckAuthority(ctx);
      if failure.Some? {
        return Err(failure.value);
      }
      if cluster !in records.clusters {
        reply := Deny(ctx, NotFound, Plain);
        return;
      }
      var record := records.clusters[cluster].record;
      if generation != 0 && generation < record.generation {
        reply := Deny(ctx, StaleGeneration, Plain);
        return;
      }
      if records.clusters[cluster].currentness.Retired? {
        reply := Accept(ctx, now, Duplicate);
        return;
      }
      record := record.(generation := if generation != 0 then generation else Next(record.generation));
      record := record.(readiness := Readiness.Retired, capacityGeneration := Next(record.capacityGeneration));
      records := records.(clusters := records.clusters[cluster := Entry(record, Currentness.Retired, StampFor(ctx, now))]);
      stats := stats.(clusterRetirements := stats.clusterRetirements + 1);
      snapshotGeneration := Next(snapshotGeneration);
      BumpedOnce(old(snapshotGeneration));
      reply := Accept(ctx, now, Applied);
    }

    method CheckKeys(entries: seq<CapabilityEntry>) returns (valid: bool)
      ensures valid == KeysValid(entries)
    {
      for i := 0 to |entries|
        invariant KeysValid(entries[..i])
      {
        if !entries[i].key.Valid() {
          return false;
        }
      }
      assert entries[..|entries|] == entries;
      return true;
    }

    /** The cluster generation is advanced before the keys are looked at. */
    method PublishCapability(
      ctx: Context, now: I64, cluster: Id, clusterGeneration: U64, capabilityGeneration: U64, capabilities: CapabilitySet)
      returns (reply: Reply)
      modifies this
      ensures (Abs(), reply) ==
              Conclude(old(Abs()), ctx, now, CapabilityVerdict(old(Abs()), ctx, now, cluster, clusterGeneration, capabilityGeneration, capabilities))
    {
      hide Gate, FederationProblem, KeysValid, Context.Valid;
      var failure, duplicateSequence := CheckAuthority(ctx);
      if failure.Some? {
        return Err(failure.value);
      }
      var problem := CheckFederation(ctx);
      FederationProblems(Abs(), ctx);
      if problem.Some? {
        reply := Deny(ctx, problem.value, Plain);
        return;
      }
      if cluster !in records.clusters {
        reply := Deny(ctx, NotFound, Plain);
        return;
      }
      var entry := records.clusters[cluster];
      var record := entry.record;
      if entry.currentness.Retired? {
        reply := Deny(ctx, Conflict, Plain);
        return;
      }
      if capabilityGeneration == 0 {
        reply := Deny(ctx, InvalidArgument, Plain);
        return;
      }
      if clusterGeneration != 0 && clusterGeneration < record.generation {
        reply := Deny(ctx, StaleGeneration, Plain);
        return;
      }
      if capabilityGeneration < record.capabilityGeneration {
        reply := Deny(ctx, StaleGeneration, Plain);
        return;
      }
      var established := record.capabilities.entries != [];
      if capabilityGeneration == record.capabilityGeneration && established {
        if record.capabilities.entries == capabilities.entries {
          reply := Accept(ctx, now, Duplicate);
        } else {
          reply := Deny(ctx, Conflict, Plain);
        }
        return;
      }
      if clusterGeneration != 0 && clusterGeneration > record.generation {
        record := record.(generation := clusterGeneration);
      }
      records := records.(clusters := records.clusters[cluster := entry.(record := record)]);
      var valid := CheckKeys(capabilities.entries);
      if !valid {
        reply := Deny(ctx, InvalidArgument, Plain);
        return;
      }
      record := record.(capabilities := capabilities, capabilityGeneration := capabilityGeneration,
                        evidenceGeneration := ctx.evidenceGeneration);
      assert records.clusters[cluster := Entry(record, Currentness.Current, StampFor(ctx, now))]
          == old(records).clusters[cluster := Entry(record, Currentness.Current, StampFor(ctx, now))];
      records := records.(clusters := records.clusters[cluster := Entry(record, Currentness.Current, StampFor(ctx, now))]);
      snapshotGeneration := Next(snapshotGeneration);
      BumpedOnce(old(snapshotGeneration));
      reply := Accept(ctx, now, Applied);
    }

    method CheckPools(pools: seq<Pool>) returns (problem: Option<ErrorCode>)
      ensures problem == FirstPoolProblem(Abs(), pools)
      ensures problem.Some? ==> !problem.value.StaleBoot? && !problem.value.FencedPublisher?
    {
      for i := 0 to |pools|
        invariant FirstPoolProblem(Abs(), pools[..i]) == None
      {
        assert pools[..i + 1][..i] == pools[..i];
        var pool := pools[i];
        problem := None;
        if pool.id == [] {
          problem := Some(InvalidArgument);
        } else if !pool.ledger.Closes() {
          problem := Some(CapacityInconsistent);
        } else if pool.kind.Accelerator? && pool.acceleratorClass == [] {
          problem := Some(InvalidArgument);
        } else if pool.acceleratorClass != [] && pool.acceleratorClass !in records.acceleratorClasses {
          problem := Some(NotFound);
        }
        assert FirstPoolProblem(Abs(), pools[..i + 1]) == problem;
        if problem.Some? {
          FirstPoolProblemWins(Abs(), pools, i + 1);
          return;
        }
      }
      assert pools[..|pools|] == pools;
      return None;
    }

    method InsertById(sorted: seq<Pool>, pool: Pool) returns (inserted: seq<Pool>)
      ensures inserted == InsertPool(sorted, pool)
    {
      hide TextLess;
      var position := 0;
      assert sorted[..0] + InsertPool(sorted[0..], pool) == InsertPool(sorted, pool) by {
        assert sorted[0..] == sorted;
      }
      while position < |sorted| && !TextLess(pool.id, sorted[position].id)
        invariant position <= |sorted|
        invariant InsertPool(sorted, pool) == sorted[..position] + InsertPool(sorted[position..], pool)
      {
        var rest := sorted[position..];
        assert InsertPool(rest, pool) == [rest[0]] + InsertPool(rest[1..], pool);
        assert rest[1..] == sorted[position + 1..] && rest[0] == sorted[position];
        assert sorted[..position + 1] == sorted[..position] + [sorted[position]];
        position := position + 1;
      }
      assert InsertPool(sorted[position..], pool) == [pool] + sorted[position..];
      return sorted[..position] + [pool] + sorted[position..];
    }

    /** Sorts by identifier, pool by pool. */
    method SortById(pools: seq<Pool>) returns (sorted: seq<Pool>)
      ensures sorted == SortPools(pools)
    {
      hide InsertPool;
      sorted := [];
      for i := 0 to |pools|
        invariant sorted == SortPools(pools[..i])
      {
        assert pools[..i + 1][..i] == pools[..i];
        sorted := InsertById(sorted, pools[i]);
      }
      assert pools[..|pools|] == pools;
    }

    /** Sorts the identifiers and looks at neighbours. */
    method RepeatsIdentifier(pools: seq<Pool>) returns (repeats: bool)
      ensures repeats == HasDuplicates(PoolIds(pools))
    {
      hide SortPools, HasDuplicates;
      SortingFindsDuplicates(pools);
      var sorted := SortById(pools);
      var i := 0;
      while i + 1 < |sorted|
        invariant i <= |sorted|
        invariant forall k :: 0 <= k < i && k + 1 < |sorted| ==> sorted[k].id != sorted[k + 1].id
      {
        if sorted[i].id == sorted[i + 1].id {
          return true;
        }
        i := i + 1;
      }
      return false;
    }

    /** The stored capacity and the published capacity are the same pools. */
    method ComparePools(incoming: seq<Pool>, stored: seq<Pool>) returns (identical: bool)
      requires Sum(Nominals(incoming)) <= U64_MAX
      ensures identical == SamePools(incoming, stored)
    {
      hide SortPools;
      var incomingNominal := CheckedSum(Nominals(incoming));
      var storedNominal := CheckedSum(Nominals(stored));
      if storedNominal.None? || storedNominal.value != incomingNominal.value || |stored| != |incoming| {
        return false;
      }
      var sortedIncoming := SortById(incoming);
      var sortedStored := SortById(stored);
      return sortedIncoming == sortedStored;
    }

    /** Overrides what every accepted pool says about its own evidence. */
    method StampAccepted(pools: seq<Pool>, ctx: Context, capacityGeneration: U64) returns (accepted: seq<Pool>)
      ensures accepted == StampPools(pools, ctx, capacityGeneration)
    {
      accepted := pools;
      for i := 0 to |pools|
        invariant |accepted| == |pools|
        invariant forall k :: 0 <= k < i ==> accepted[k] == StampPool(pools[k], ctx, capacityGeneration)
        invariant forall k :: i <= k < |pools| ==> accepted[k] == pools[k]
      {
        var pool := accepted[i].(precision := ctx.precision, evidenceClass := ctx.evidenceClass);
        if pool.generation == 0 {
          pool := pool.(generation := capacityGeneration);
        }
        accepted := accepted[i := pool];
      }
    }

    method PublishCapacity(
      ctx: Context, now: I64, cluster: Id, clusterGeneration: U64, capacityGeneration: U64, pools: seq<Pool>)
      returns (reply: Reply)
      modifies this
      ensures (Abs(), reply) ==
              Conclude(old(Abs()), ctx, now,
                       CapacityVerdict(old(Abs()), ctx, now, cluster, clusterGeneration, capacityGeneration, pools))
    {
      hide Gate, FederationProblem, Context.Valid, HasDuplicates, SortPools, StampPools, SamePools, FirstPoolProblem, Sum;
      var failure, duplicateSequence := CheckAuthority(ctx);
      if failure.Some? {
        return Err(failure.value);
      }
      var problem := CheckFederation(ctx);
      FederationProblems(Abs(), ctx);
      if problem.Some? {
        reply := Deny(ctx, problem.value, Plain);
        return;
      }
      if cluster !in records.clusters {
        reply := Deny(ctx, NotFound, Plain);
        return;
      }
      var entry := records.clusters[cluster];
      var record := entry.record;
      if entry.currentness.Retired? {
        reply := Deny(ctx, Conflict, Plain);
        return;
      }
      if capacityGeneration == 0 {
        reply := Deny(ctx, InvalidArgument, Plain);
        return;
      }
      if |pools| > MAX_POOLS_PER_CLUSTER {
        reply := Deny(ctx, BoundExceeded, OverBound);
        return;
      }
      if (clusterGeneration != 0 && clusterGeneration < record.generation) || capacityGeneration < record.capacityGeneration {
        reply := Deny(ctx, StaleGeneration, Plain);
        return;
      }
      problem := CheckPools(pools);
      if problem.Some? {
        reply := Deny(ctx, problem.value, Plain);
        return;
      }
      var repeats := RepeatsIdentifier(pools);
      if repeats {
        reply := Deny(ctx, InvalidArgument, Plain);
        return;
      }
      var nominal := CheckedSum(Nominals(pools));
      if nominal.None? {
        reply := Deny(ctx, CapacityInconsistent, Plain);
        return;
      }
      var established := record.pools != [];
      if capacityGeneration == record.capacityGeneration && established {
        var identical := ComparePools(pools, record.pools);
        if identical {
          reply := Accept(ctx, now, Duplicate);
        } else {
          reply := Deny(ctx, Conflict, Plain);
        }
        return;
      }
      var accepted := StampAccepted(pools, ctx, capacityGeneration);
      if clusterGeneration != 0 && clusterGeneration > record.generation {
        record := record.(generation := clusterGeneration);
      }
      accepted := SortById(accepted);
      record := record.(pools := accepted, capacityGeneration := capacityGeneration,
                        evidenceGeneration := ctx.evidenceGeneration);
      records := records.(clusters := records.clusters[cluster := Entry(record, Currentness.Current, StampFor(ctx, now))]);
      snapshotGeneration := Next(snapshotGeneration);
      BumpedOnce(old(snapshotGeneration));
      reply := Accept(ctx, now, Applied);
    }

    // -------------------------------------------------------------------------------
    // Placements, migrations and portability
    // -------------------------------------------------------------------------------

    method CheckPlacement(ctx: Context, record: PlacementRecord) returns (problem: Option<ErrorCode>)
      ensures problem == PlacementProblem(Abs(), ctx, record)
      ensures problem.Some? ==> !problem.value.StaleBoot? && !problem.value.FencedPublisher?
    {
      hide HasDuplicates, SomeMissing, FederationProblem, PlacementRecord.CandidateIds;
      FederationProblems(Abs(), ctx);
      problem := CheckFederation(ctx);
      if problem.Some? {
        return;
      }
      problem := record.Problem();
      if problem.Some? {
        return;
      }
      if record.federation != ctx.federation {
        return Some(InvalidArgument);
      }
      var missing := FindMissing(record.CandidateIds(), records.clusters);
      if record.workload !in records.workloads || record.selected !in records.clusters || missing {
        return Some(NotFound);
      }
    }

    method PublishPlacement(ctx: Context, now: I64, record: PlacementRecord, observedAt: I64) returns (reply: Reply)
      modifies this
      ensures (Abs(), reply) == Conclude(old(Abs()), ctx, now, PlacementVerdict(old(Abs()), ctx, now, record, observedAt))
    {
      hide Gate, PlacementProblem, Context.Valid;
      var failure, duplicateSequence := CheckAuthority(ctx);
      if failure.Some? {
        return Err(failure.value);
      }
      var problem := CheckPlacement(ctx, record);
      if problem.Some? {
        reply := Deny(ctx, problem.value, Plain);
        return;
      }
      var known := record.id in records.placements;
      if known && records.placements[record.id].record == record {
        reply := Accept(ctx, now, Duplicate);
        return;
      }
      if duplicateSequence {
        reply := Deny(ctx, Conflict, Plain);
        return;
      }
      if known {
        if records.placements[record.id].record.generation > record.generation {
          reply := Accept(ctx, now, Superseded);
          return;
        }
        if records.placements[record.id].record.generation == record.generation {
          reply := Deny(ctx, Conflict, Plain);
          return;
        }
      }
      if |records.placements| >= bounds.placementHistory {
        reply := Deny(ctx, BoundExceeded, OverBound);
        return;
      }
      var history := false;
      if record.workload in records.latestPlacement {
        var latest := records.latestPlacement[record.workload];
        if latest in records.placements {
          var stored := records.placements[latest];
          history := stored.stamp.observedAt > observedAt
                     || (stored.stamp.observedAt == observedAt && stored.record.generation > record.generation);
        }
      }
      var currentness := if history then Currentness.Stale else Currentness.Current;
      records := records.(placements := records.placements[record.id := Entry(record, currentness, StampFor(ctx, now))]);
      if !history {
        records := records.(latestPlacement := records.latestPlacement[record.workload := record.id]);
      }
      stats := stats.(placementsRecorded := stats.placementsRecorded + 1);
      snapshotGeneration := Next(snapshotGeneration);
      BumpedOnce(old(snapshotGeneration));
      reply := Accept(ctx, now, if history then Superseded else Applied);
    }

    method CheckMigration(ctx: Context, record: Migration.MigrationRecord) returns (problem: Option<ErrorCode>)
      ensures problem == MigrationProblem(Abs(), ctx, record)
      ensures problem.Some? ==> !problem.value.StaleBoot? && !problem.value.FencedPublisher?
    {
      hide FederationProblem, Migration.RecordProblem;
      FederationProblems(Abs(), ctx);
      RecordProblems(record);
      problem := CheckFederation(ctx);
      if problem.Some? {
        return;
      }
      problem := Migration.ValidateRecord(record);
      if problem.Some? {
        return;
      }
      if record.federation != ctx.federation {
        return Some(InvalidArgument);
      }
      if record.workload !in records.workloads
         || record.source !in records.clusters || record.destination !in records.clusters {
        return Some(NotFound);
      }
    }

    method PublishMigration(ctx: Context, now: I64, record: Migration.MigrationRecord) returns (reply: Reply)
      modifies this
      ensures (Abs(), reply) == Conclude(old(Abs()), ctx, now, MigrationVerdict(old(Abs()), ctx, now, record))
    {
      hide Gate, MigrationProblem, Context.Valid;
      var failure, duplicateSequence := CheckAuthority(ctx);
      if failure.Some? {
        return Err(failure.value);
      }
      var problem := CheckMigration(ctx, record);
      if problem.Some? {
        reply := Deny(ctx, problem.value, Plain);
        return;
      }
      var known := record.id in records.migrations;
      if known && records.migrations[record.id].record == record {
        reply := Accept(ctx, now, Duplicate);
        return;
      }
      if duplicateSequence {
        reply := Deny(ctx, Conflict, Plain);
        return;
      }
      if known {
        if records.migrations[record.id].record.generation > record.generation {
          reply := Accept(ctx, now, Superseded);
          return;
        }
        if records.migrations[record.id].record.generation == record.generation {
          reply := Deny(ctx, Conflict, Plain);
          return;
        }
      }
      if |records.migrations| >= bounds.migrationHistory {
        reply := Deny(ctx, BoundExceeded, OverBound);
        return;
      }
      var table := records.migrations[record.id := Entry(record, Currentness.Current, StampFor(ctx, now))];
      if record.supersedes != [] {
        if record.supersedes in table && table[record.supersedes].currentness.Current? {
          table := table[record.supersedes := table[record.supersedes].(currentness := Currentness.Stale)];
        }
        records := records.(superseded := records.superseded[record.workload := record.supersedes]);
      }
      records := records.(migrations := table, latestMigration := records.latestMigration[record.workload := record.id]);
      stats := stats.(migrationsRecorded := stats.migrationsRecorded + 1);
      snapshotGeneration := Next(snapshotGeneration);
      BumpedOnce(old(snapshotGeneration));
      reply := Accept(ctx, now, Applied);
    }

    method AppendEvent(m: Migration.MigrationRecord, event: Migration.StageEvent) returns (record: Migration.MigrationRecord)
      ensures record == Migration.Advance(m, event)
    {
      record := m.(events := m.events + [event], stage := event.stage);
      match event.stage {
        case Committed => record := record.(outcome := Migration.CommittedOutcome);
        case RolledBack => record := record.(outcome := Migration.RolledBackOutcome);
        case Failed => record := record.(outcome := Migration.FailedOutcome);
        case OutcomeUnknown => record := record.(outcome := Migration.UnknownOutcome);
        case RevalidationRequired => record := record.(revalidationPending := true);
        case _ => record := record.(outcome := Migration.InProgress);
      }
    }

    /** The checks on a stage event, up to its acceptability. */
    method CheckStageEvent(ctx: Context, migration: Id, generation: U64, stage: Migration.Stage)
      returns (problem: Option<ErrorCode>, kind: RefusalKind)
      ensures problem.Some? ==>
                && !problem.value.StaleBoot? && !problem.value.FencedPublisher?
                && forall now: I64, detail: Text ::
                     StageVerdict(Abs(), ctx, now, migration, generation, stage, detail) == Verdict.Refuse(problem.value, kind)
      ensures problem.None? ==>
                && migration in records.migrations
                && var m := records.migrations[migration].record;
                   && generation == m.generation != 0 && Migration.IsAcceptableEvent(m.stage, stage)
                   && !records.migrations[migration].currentness.Retired?
                   && !(m.workload in records.superseded && records.superseded[m.workload] == migration)
                   && (m.events != [] ==> ctx.sequence > Migration.Last(m.events).value.sequence)
    {
      hide Migration.IsAcceptableEvent, Migration.Advance, Migration.IsTerminal;
      kind := Plain;
      if migration !in records.migrations {
        return Some(NotFound), kind;
      }
      var entry := records.migrations[migration];
      var record := entry.record;
      if generation == 0 {
        return Some(InvalidArgument), kind;
      }
      if generation < record.generation {
        return Some(StaleGeneration), kind;
      }
      if generation > record.generation {
        return Some(InvalidArgument), kind;
      }
      if entry.currentness.Retired? {
        return Some(Conflict), kind;
      }
      if record.workload in records.superseded && records.superseded[record.workload] == migration {
        return Some(StaleGeneration), kind;
      }
      if record.events != [] && ctx.sequence <= record.events[|record.events| - 1].sequence {
        return Some(SequenceRegression), Regressed;
      }
      if !Migration.IsAcceptableEvent(record.stage, stage) {
        return Some(InvalidTransition), kind;
      }
      return None, kind;
    }

    method PublishMigrationStage(
      ctx: Context, now: I64, migration: Id, generation: U64, stage: Migration.Stage, detail: Text) returns (reply: Reply)
      modifies this
      ensures (Abs(), reply) ==
              Conclude(old(Abs()), ctx, now, StageVerdict(old(Abs()), ctx, now, migration, generation, stage, detail))
    {
      hide Gate, Context.Valid, Migration.IsAcceptableEvent, Migration.Advance, Migration.IsTerminal;
      var failure, duplicateSequence := CheckAuthority(ctx);
      if failure.Some? {
        return Err(failure.value);
      }
      var problem, kind := CheckStageEvent(ctx, migration, generation, stage);
      if problem.Some? {
        reply := Deny(ctx, problem.value, kind);
        return;
      }
      var record := records.migrations[migration].record;
      if Migration.IsTerminal(record.stage) {
        // a terminal stage has no successors, so an acceptable event repeats it
        reply := Accept(ctx, now, Duplicate);
        return;
      }
      if |record.events| >= Migration.MAX_STAGE_EVENTS {
        reply := Deny(ctx, BoundExceeded, OverBound);
        return;
      }
      record := AppendEvent(record, StageEventFor(ctx, now, generation, stage, detail));
      records := records.(migrations := records.migrations[migration := Entry(record, Currentness.Current, StampFor(ctx, now))]);
      snapshotGeneration := Next(snapshotGeneration);
      BumpedOnce(old(snapshotGeneration));
      reply := Accept(ctx, now, Applied);
    }

    method PublishPortability(
      ctx: Context, now: I64, record: PortabilityRecord, currentness: Currentness, observedAt: I64) returns (reply: Reply)
      modifies this
      ensures (Abs(), reply) ==
              Conclude(old(Abs()), ctx, now, PortabilityVerdict(old(Abs()), ctx, now, record, currentness, observedAt))
    {
      hide Gate, Context.Valid, HasDuplicates, SameAssessment;
      var failure, duplicateSequence := CheckAuthority(ctx);
      if failure.Some? {
        return Err(failure.value);
      }
      var problem := record.Problem();
      if problem.Some? {
        reply := Deny(ctx, problem.value, Plain);
        return;
      }
      if record.workload !in records.workloads || record.destination !in records.clusters {
        reply := Deny(ctx, NotFound, Plain);
        return;
      }
      var key := PortabilityKey(record.workload, record.destination);
      if key in records.portability {
        var existing := records.portability[key];
        if SameAssessment(existing, record, currentness) {
          reply := Accept(ctx, now, Duplicate);
          return;
        }
        if existing.stamp.observedAt > observedAt
           || (existing.stamp.observedAt == observedAt && existing.stamp.sequence > ctx.sequence) {
          reply := Accept(ctx, now, Superseded);
          return;
        }
      }
      if |records.portability| >= bounds.portabilityRecords && key !in records.portability {
        reply := Deny(ctx, BoundExceeded, OverBound);
        return;
      }
      var stored := record;
      if stored.federation == [] {
        stored := stored.(federation := ctx.federation);
      }
      records := records.(portability := records.portability[key := Entry(stored, Currentness.Current, StampFor(ctx, now))]);
      snapshotGeneration := Next(snapshotGeneration);
      BumpedOnce(old(snapshotGeneration));
      reply := Accept(ctx, now, Applied);
    }

    // -------------------------------------------------------------------------------
    // Publisher authority
    // -------------------------------------------------------------------------------

    method CountMembers(federation: Id) returns (count: nat)
      ensures count == |Members(publishers, federation)|
    {
      count := 0;
      var rest := publishers.Keys;
      ghost var counted: set<PublisherKey> := {};
      while rest != {}
        invariant rest <= publishers.Keys && counted !! rest && count == |counted|
        invariant forall k :: k in publishers && k !in rest ==> (k in counted <==> publishers[k].federation == federation)
        invariant counted <= publishers.Keys
        decreases |rest|
      {
        var key :| key in rest;
        if publishers[key].federation == federation {
          count := count + 1;
          counted := counted + {key};
        }
        rest := rest - {key};
      }
      assert counted == Members(publishers, federation);
    }

    method RegisterPublisher(ctx: Context, now: I64) returns (reply: Reply)
      modifies this
      ensures (Abs(), reply) == Observatory.RegisterPublisher(old(Abs()), ctx, now)
    {
      hide Context.Valid, Members;
      if !ctx.Valid() {
        return Err(InvalidArgument);
      }
      var key := KeyOf(ctx);
      if key in publishers {
        var authority := publishers[key];
        if authority.fenced {
          reply := Refuse(FencedPublisher, Some(key), true);
          return;
        }
        if ctx.epoch != coordinatorEpoch {
          reply := Refuse(StaleEpoch, Some(key), false);
          return;
        }
        if ctx.sequence < authority.watermark {
          stats := stats.(regressions := stats.regressions + 1);
          reply := Refuse(SequenceRegression, Some(key), false);
          return;
        }
        authority := authority.(live := true, epoch := ctx.epoch, federation := ctx.federation,
                                evidenceClass := ctx.evidenceClass);
        publishers := publishers[key := authority];
        reply := Accept(ctx, now, Duplicate);
        return;
      }
      if |publishers| >= bounds.publishers {
        stats := stats.(boundsRejections := stats.boundsRejections + 1);
        return Err(BoundExceeded);
      }
      var inFederation := CountMembers(ctx.federation);
      if inFederation >= bounds.publishersPerFederation {
        stats := stats.(boundsRejections := stats.boundsRejections + 1);
        return Err(BoundExceeded);
      }
      ValidSequence(ctx);
      var authority := Authority(ctx.epoch, ctx.federation, 0, Clock(ctx, now), Clock(ctx, now),
                                 0, 0, 0, 0, true, false, [], ctx.evidenceClass);
      stats := stats.(publisherRegistrations := stats.publisherRegistrations + 1);
      if ctx.sequence > authority.watermark {
        authority := authority.(watermark := ctx.sequence);
      }
      var gap := if authority.watermark > 1 then authority.watermark - 1 else 0;
      authority := authority.(accepted := authority.accepted + 1);
      publishers := publishers[key := authority];
      stats := stats.(applied := stats.applied + 1);
      snapshotGeneration := Next(snapshotGeneration);
      return Ok(Ack(Applied, authority.watermark, gap));
    }

    /** Walks one table and demotes what the identity made current. */
    method DemoteAll<R>(table: map<Id, Entry<R>>, key: PublisherKey) returns (demoted: map<Id, Entry<R>>)
      ensures demoted == Demote(table, key)
    {
      demoted := table;
      var rest := table.Keys;
      while rest != {}
        invariant rest <= table.Keys == demoted.Keys
        invariant forall id :: id in table ==> demoted[id] == if id in rest then table[id] else DemoteEntry(table[id], key)
        decreases |rest|
      {
        var id :| id in rest;
        var entry := demoted[id];
        if entry.stamp.publisher == key.publisher && entry.stamp.publisher != [] && entry.stamp.boot == key.boot {
          if entry.currentness.Current? {
            demoted := demoted[id := entry.(currentness := Currentness.Stale)];
          }
        }
        rest := rest - {id};
      }
    }

    method FencePublisher(publisher: Id, boot: U64, reason: Text) returns (problem: Option<ErrorCode>)
      modifies this
      ensures (Abs(), problem) == Observatory.FencePublisher(old(Abs()), publisher, boot, reason)
    {
      hide Demote;
      if publisher == [] || boot == 0 {
        return Some(InvalidArgument);
      }
      var key := PublisherKey(publisher, boot);
      if key !in publishers {
        var authority := Authority(coordinatorEpoch, [], 0, 0, 0, 0, 0, 0, 0, false, true, reason, UNKNOWN_CLASS);
        publishers := publishers[key := authority];
        stats := stats.(publisherFences := stats.publisherFences + 1);
        return None;
      }
      var authority := publishers[key];
      if !authority.fenced {
        authority := authority.(fenced := true, fencedReason := reason);
        stats := stats.(publisherFences := stats.publisherFences + 1);
      }
      authority := authority.(live := false);
      publishers := publishers[key := authority];
      var clusters := DemoteAll(records.clusters, key);
      var federations := DemoteAll(records.federations, key);
      var sites := DemoteAll(records.sites, key);
      var domains := DemoteAll(records.domains, key);
      records := records.(clusters := clusters, federations := federations, sites := sites, domains := domains);
      snapshotGeneration := Next(snapshotGeneration);
      return None;
    }

    // -------------------------------------------------------------------------------
    // Dynamic evidence and durable state
    // -------------------------------------------------------------------------------

    method ClearClusters(table: map<Id, Entry<ClusterRecord>>) returns (cleared: map<Id, Entry<ClusterRecord>>)
      ensures cleared == InvalidateClusters(table)
    {
      cleared := table;
      var rest := table.Keys;
      while rest != {}
        invariant rest <= table.Keys == cleared.Keys
        invariant forall id :: id in table ==> cleared[id] == if id in rest then table[id] else InvalidateEntry(table[id])
        decreases |rest|
      {
        var id :| id in rest;
        var entry := cleared[id];
        entry := entry.(record := entry.record.(pools := [], readiness := Readiness.Unknown));
        if !entry.currentness.Retired? {
          entry := entry.(currentness := Currentness.RevalidationRequired);
        }
        cleared := cleared[id := entry];
        rest := rest - {id};
      }
    }

    method InvalidateDynamicEvidence()
      modifies this
      ensures Abs() == Observatory.InvalidateDynamicEvidence(old(Abs()))
    {
      hide InvalidateClusters;
      var clusters := ClearClusters(records.clusters);
      records := records.(clusters := clusters);
      ghost var before := publishers;
      var rest := publishers.Keys;
      while rest != {}
        modifies this`publishers
        invariant rest <= before.Keys == publishers.Keys
        invariant forall k :: k in before ==> publishers[k] == if k in rest then before[k] else Dormant(before[k])
        decreases |rest|
      {
        var key :| key in rest;
        if !publishers[key].fenced {
          publishers := publishers[key := publishers[key].(live := false)];
        }
        rest := rest - {key};
      }
      assert publishers == map k | k in before :: Dormant(before[k]);
      snapshotGeneration := Next(snapshotGeneration);
    }

    method CaptureDurableState() returns (d: DurableState)
      ensures d == Capture(Abs())
    {
      hide InvalidateClusters;
      var clusters := ClearClusters(records.clusters);
      var watermarks: map<PublisherKey, Watermark> := map[];
      var rest := publishers.Keys;
      while rest != {}
        invariant rest <= publishers.Keys && watermarks.Keys == publishers.Keys - rest
        invariant forall k :: k in watermarks ==> watermarks[k] == WatermarkOf(publishers[k])
        decreases |rest|
      {
        var key :| key in rest;
        watermarks := watermarks[key := WatermarkOf(publishers[key])];
        rest := rest - {key};
      }
      assert watermarks == map k | k in publishers :: WatermarkOf(publishers[k]);
      var captured := records.(clusters := clusters, latestPlacement := map[], latestMigration := map[], superseded := map[]);
      return DurableState(coordinatorEpoch, saveSequence + 1, captured, watermarks);
    }

    /** Rebuilds the newest placement of each workload in the order of the file. */
    method LoadPlacements(table: map<Id, Entry<PlacementRecord>>, order: seq<Id>) returns (latest: map<Id, Id>)
      requires forall i :: 0 <= i < |order| ==> order[i] in table
      ensures latest == RebuildLatest(table, order)
    {
      latest := map[];
      for i := 0 to |order|
        invariant latest == RebuildLatest(table, order[..i])
      {
        assert order[..i + 1][..i] == order[..i];
        var workload := table[order[i]].record.workload;
        if workload !in latest || latest[workload] !in table
           || table[latest[workload]].stamp.observedAt <= table[order[i]].stamp.observedAt {
          latest := latest[workload := order[i]];
        }
      }
      assert order[..|order|] == order;
    }

    method LoadMigrations(table: map<Id, Entry<Migration.MigrationRecord>>, order: seq<Id>)
      returns (latest: map<Id, Id>, superseded: map<Id, Id>)
      requires forall i :: 0 <= i < |order| ==> order[i] in table
      ensures (latest, superseded) == RebuildMigrations(table, order)
    {
      latest, superseded := map[], map[];
      for i := 0 to |order|
        invariant (latest, superseded) == RebuildMigrations(table, order[..i])
      {
        assert order[..i + 1][..i] == order[..i];
        var m := table[order[i]].record;
        if m.supersedes != [] {
          superseded := superseded[m.workload := m.supersedes];
        }
        if m.workload !in latest {
          latest := latest[m.workload := order[i]];
        }
      }
      assert order[..|order|] == order;
    }

    /** Nothing that is loaded is current. */
    method LoadTable<K(==), R>(table: map<K, Entry<R>>) returns (loaded: map<K, Entry<R>>)
      ensures loaded == StaleTable(table)
    {
      loaded := map[];
      var rest := table.Keys;
      while rest != {}
        invariant rest <= table.Keys && loaded.Keys == table.Keys - rest
        invariant forall id :: id in loaded ==> loaded[id] == StaleEntry(table[id])
        decreases |rest|
      {
        var id :| id in rest;
        var entry := table[id];
        if entry.currentness.Current? {
          entry := entry.(currentness := Currentness.Stale);
        }
        loaded := loaded[id := entry];
        rest := rest - {id};
      }
    }

    method LoadHistory<K(==), R>(table: map<K, Entry<R>>) returns (loaded: map<K, Entry<R>>)
      ensures loaded == History(table)
    {
      loaded := map[];
      var rest := table.Keys;
      while rest != {}
        invariant rest <= table.Keys && loaded.Keys == table.Keys - rest
        invariant forall id :: id in loaded ==> loaded[id] == table[id].(currentness := Currentness.Stale)
        decreases |rest|
      {
        var id :| id in rest;
        loaded := loaded[id := table[id].(currentness := Currentness.Stale)];
        rest := rest - {id};
      }
    }

    method LoadPublishers(d: DurableState) returns (loaded: map<PublisherKey, Authority>)
      ensures loaded == map k | k in d.watermarks :: Dormancy(d.watermarks[k], d.writtenByEpoch)
    {
      loaded := map[];
      var rest := d.watermarks.Keys;
      while rest != {}
        invariant rest <= d.watermarks.Keys && loaded.Keys == d.watermarks.Keys - rest
        invariant forall k :: k in loaded ==> loaded[k] == Dormancy(d.watermarks[k], d.writtenByEpoch)
        decreases |rest|
      {
        var key :| key in rest;
        var w := d.watermarks[key];
        loaded := loaded[key := Authority(d.writtenByEpoch, [], w.watermark, 0, w.lastSeen, 0, 0, 0, 0, false,
                                          w.fenced, w.fencedReason, UNKNOWN_CLASS)];
        rest := rest - {key};
      }
    }

    /** Loads a state file. The replacement is built first and swapped in at the end, so a file
        that does not validate changes nothing. */
    method ApplyDurableState(d: DurableState, order: FileOrder) returns (problem: Option<ErrorCode>)
      requires OrderOf(order, d.records)
      modifies this
      ensures problem.None? <==> Loadable(d, bounds)
      ensures Abs() == if problem.None? then Apply(old(Abs()), d, order) else old(Abs())
    {
      hide Loadable;
      if !Loadable(d, bounds) {
        return Some(CorruptState);
      }
      hide RebuildLatest, RebuildMigrations, InvalidateClusters, StaleTable, History, Dormancy;
      var r := d.records;
      var clusters := ClearClusters(r.clusters);
      var placements := LoadHistory(r.placements);
      var migrations := LoadHistory(r.migrations);
      var portability := LoadHistory(r.portability);
      var federations := LoadTable(r.federations);
      var sites := LoadTable(r.sites);
      var acceleratorClasses := LoadTable(r.acceleratorClasses);
      var runtimes := LoadTable(r.runtimes);
      var backends := LoadTable(r.backends);
      var domains := LoadTable(r.domains);
      var policies := LoadTable(r.policies);
      var artifacts := LoadTable(r.artifacts);
      var workloadClasses := LoadTable(r.workloadClasses);
      var workloads := LoadTable(r.workloads);
      var latestPlacement := LoadPlacements(placements, order.placements);
      var latestMigration, superseded := LoadMigrations(migrations, order.migrations);
      var loaded := LoadPublishers(d);
      records := Records(
        federations, sites, clusters, acceleratorClasses, runtimes, backends, domains, policies, artifacts,
        workloadClasses, workloads, placements, latestPlacement, migrations, latestMigration, superseded, portability);
      publishers := loaded;
      saveSequence := d.saveSequence;
      coordinatorEpoch := if d.writtenByEpoch != 0 then Next(d.writtenByEpoch) else 1;
      snapshotGeneration := Next(snapshotGeneration);
      stats := stats.(stateLoads := stats.stateLoads + 1);
      return None;
    }
  }

  lemma ValidSequence(ctx: Context)
    requires ctx.Valid()
    ensures ctx.sequence > 0
  {
  }

  lemma RecordProblems(m: Migration.MigrationRecord)
    ensures Migration.RecordProblem(m).Some? ==>
              !Migration.RecordProblem(m).value.StaleBoot? && !Migration.RecordProblem(m).value.FencedPublisher?
  {
    HistoryProblems(m.events, m.generation);
  }

  lemma {:induction false} HistoryProblems(events: seq<Migration.StageEvent>, g: U64)
    ensures Migration.HistoryProblem(events, g).Some? ==>
              && !Migration.HistoryProblem(events, g).value.StaleBoot?
              && !Migration.HistoryProblem(events, g).value.FencedPublisher?
  {
    hide Migration.IsAcceptableEvent;
    if events != [] {
      HistoryProblems(events[..|events| - 1], g);
    }
  }

  lemma BumpedOnce(g: U64)
    ensures Bumped(g, 1) == Next(g)
  {
    assert Bumped(g, 1) == Bumped(Next(g), 0);
  }

  lemma FederationProblems(s: State, ctx: Context)
    ensures FederationProblem(s, ctx).Some? ==>
              FederationProblem(s, ctx).value.NotFound? || FederationProblem(s, ctx).value.StaleGeneration?
  {
  }

  lemma {:induction false} FirstPoolProblemWins(s: State, pools: seq<Pool>, k: nat)
    requires k <= |pools| && FirstPoolProblem(s, pools[..k]).Some?
    ensures FirstPoolProblem(s, pools) == FirstPoolProblem(s, pools[..k])
  {
    hide PoolProblem;
    if k == |pools| {
      assert pools[..k] == pools;
    } else {
      assert pools[..|pools| - 1][..k] == pools[..k];
      FirstPoolProblemWins(s, pools[..|pools| - 1], k);
    }
  }

  lemma ProblemsAreNotAboutAuthority(s: State, r: ClusterRecord)
    ensures ClusterProblem(s, r).Some? ==>
              !ClusterProblem(s, r).value.StaleBoot? && !ClusterProblem(s, r).value.FencedPublisher?
  {
    hide HasDuplicates, KeysValid, SomeMissing;
    PoolProblems(r, |r.pools|);
  }

  lemma {:induction false} PoolProblems(r: ClusterRecord, k: nat)
    requires k <= |r.pools|
    ensures r.PoolsProblem(k).Some? ==> !r.PoolsProblem(k).value.StaleBoot? && !r.PoolsProblem(k).value.FencedPublisher?
  {
    if k > 0 {
      PoolProblems(r, k - 1);
    }
  }
}
