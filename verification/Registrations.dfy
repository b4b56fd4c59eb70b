/** What a structural registration is answered and what it leaves behind, for every kind of record
    (register_structural in src/observatory.cpp). */
module Registrations {
  import opened Foundation
  import opened Capability
  import opened Model
  import opened Observatory

  /** The sequence number is the one the sender used last. */
  predicate Reused(s: State, ctx: Context) {
    KeyOf(ctx) in s.publishers && ctx.sequence == s.publishers[KeyOf(ctx)].watermark
  }

  predicate Gave(reply: Reply, d: Disposition) {
    reply.Ok? && reply.value.disposition == d
  }

  /** A registration that passed the gate, is valid and refers to known records only. Equal content
      is a duplicate, whatever the sequence number; other content needs an unused number and, for a
      new identifier, room; it is superseded exactly when the stored generation is strictly newer,
      and installed as current under the publication's stamp in every other case. */
  ghost predicate Settled<R>(
    before: map<Id, Entry<R>>, after: map<Id, Entry<R>>, id: Id, record: R, stored: R, stamp: Stamp,
    reply: Reply, reused: bool, limit: nat, newerIsStored: bool)
  {
    var same := id in before && before[id].record == record;
    && (Gave(reply, Duplicate) <==> same)
    && (reply == Err(Conflict) <==> !same && reused)
    && (reply == Err(BoundExceeded) <==> !same && !reused && id !in before && |before| >= limit)
    && (Gave(reply, Superseded) <==> !same && !reused && id in before && newerIsStored)
    && (Gave(reply, Applied) <==>
          !same && !reused && (if id in before then !newerIsStored else |before| < limit))
    && after == if Gave(reply, Applied) then before[id := Entry(stored, Currentness.Current, stamp)] else before
  }

  /** What the shared path decides, settled through an open gate. */
  lemma ChoiceSettles<R>(
    s: State, ctx: Context, now: I64, table: map<Id, Entry<R>>, id: Id, record: R, limit: nat, stored: U64, incoming: U64,
    records: Records, bumps: nat)
    requires Gate(s, ctx).Open?
    ensures var c := Choose(table, id, record, None, ReplayedSequence(s, ctx), limit, stored, incoming, StampFor(ctx, now));
            var (t, reply) := Conclude(s, ctx, now, AsVerdict(c, records, bumps));
            && Settled(table, if c.Installed? then c.table else table, id, record, record, StampFor(ctx, now), reply,
                       Reused(s, ctx), limit, stored > incoming)
            && (c.Installed? <==> Gave(reply, Applied))
            && t.records == if Gave(reply, Applied) then records else s.records
  {
    hide AdvanceAuthority, CountAccepted, CountRefusal, StampFor, Bumped;
  }

  /** Whether a stored record is newer only matters when there is one. */
  lemma OnlyStoredCounts<R>(
    before: map<Id, Entry<R>>, after: map<Id, Entry<R>>, id: Id, record: R, stored: R, stamp: Stamp,
    reply: Reply, reused: bool, limit: nat, newer: bool, newerIsStored: bool)
    requires Settled(before, after, id, record, stored, stamp, reply, reused, limit, newer)
    requires id in before ==> (newer <==> newerIsStored)
    ensures Settled(before, after, id, record, stored, stamp, reply, reused, limit, newerIsStored)
  {
  }

  lemma FederationChosen(s: State, ctx: Context, now: I64, r: FederationRecord)
    requires r.Problem().None?
    ensures var t := s.records.federations;
            var stored: U64 := if r.id in t then t[r.id].record.generation else 0;
            var c := Choose(t, r.id, r, None, ReplayedSequence(s, ctx), s.bounds.federations, stored, r.generation, StampFor(ctx, now));
            FederationVerdict(s, ctx, now, r) ==
            AsVerdict(c, if c.Installed? then s.records.(federations := c.table) else s.records, 1)
  {
    hide FederationRecord.Problem, Choose, AsVerdict, ReplayedSequence, StampFor;
  }

  lemma FederationSettles(s: State, ctx: Context, now: I64, r: FederationRecord)
    requires Gate(s, ctx).Open? && r.Problem().None?
    ensures var (t, reply) := Publish(s, ctx, now, PublishedFederation(r));
            && Settled(s.records.federations, t.records.federations, r.id, r, r, StampFor(ctx, now), reply, Reused(s, ctx),
                       s.bounds.federations, r.id in s.records.federations && s.records.federations[r.id].record.generation > r.generation)
            && t.records == s.records.(federations := t.records.federations)
  {
    hide FederationVerdict, SiteVerdict, AcceleratorClassVerdict, RuntimeVerdict, BackendVerdict, DomainVerdict, PolicyVerdict,
         ArtifactVerdict, WorkloadClassVerdict, WorkloadVerdict, ClusterVerdict, RetireVerdict, CapabilityVerdict,
         CapacityVerdict, PlacementVerdict, MigrationVerdict, StageVerdict, PortabilityVerdict,
         FederationRecord.Problem, Choose, Conclude, Gate, AsVerdict, ReplayedSequence, StampFor, Settled, Gave, Reused;
    var table, limit, stamp := s.records.federations, s.bounds.federations, StampFor(ctx, now);
    var stored: U64 := if r.id in table then table[r.id].record.generation else 0;
    FederationChosen(s, ctx, now, r);
    var c := Choose(table, r.id, r, None, ReplayedSequence(s, ctx), limit, stored, r.generation, stamp);
    ChoiceSettles(s, ctx, now, table, r.id, r, limit, stored, r.generation,
                  if c.Installed? then s.records.(federations := c.table) else s.records, 1);
    OnlyStoredCounts(table, if c.Installed? then c.table else table, r.id, r, r, stamp,
                     Publish(s, ctx, now, PublishedFederation(r)).1, Reused(s, ctx), limit, stored > r.generation,
                     r.id in table && table[r.id].record.generation > r.generation);
  }

  lemma SiteChosen(s: State, ctx: Context, now: I64, r: SiteRecord)
    requires r.Problem().None? && r.federation in s.records.federations
    ensures var t := s.records.sites;
            var stored: U64 := if r.id in t then t[r.id].record.generation else 0;
            var c := Choose(t, r.id, r, None, ReplayedSequence(s, ctx), s.bounds.sites, stored, r.generation, StampFor(ctx, now));
            SiteVerdict(s, ctx, now, r) ==
            AsVerdict(c, if c.Installed? then s.records.(sites := c.table) else s.records, 1)
  {
    hide SiteRecord.Problem, Choose, AsVerdict, ReplayedSequence, StampFor;
  }

  lemma SiteSettles(s: State, ctx: Context, now: I64, r: SiteRecord)
    requires Gate(s, ctx).Open? && r.Problem().None? && r.federation in s.records.federations
    ensures var (t, reply) := Publish(s, ctx, now, PublishedSite(r));
            && Settled(s.records.sites, t.records.sites, r.id, r, r, StampFor(ctx, now), reply, Reused(s, ctx),
                       s.bounds.sites, r.id in s.records.sites && s.records.sites[r.id].record.generation > r.generation)
            && t.records == s.records.(sites := t.records.sites)
  {
    hide FederationVerdict, SiteVerdict, AcceleratorClassVerdict, RuntimeVerdict, BackendVerdict, DomainVerdict, PolicyVerdict,
         ArtifactVerdict, WorkloadClassVerdict, WorkloadVerdict, ClusterVerdict, RetireVerdict, CapabilityVerdict,
         CapacityVerdict, PlacementVerdict, MigrationVerdict, StageVerdict, PortabilityVerdict,
         SiteRecord.Problem, Choose, Conclude, Gate, AsVerdict, ReplayedSequence, StampFor, Settled, Gave, Reused;
    var table, limit, stamp := s.records.sites, s.bounds.sites, StampFor(ctx, now);
    var stored: U64 := if r.id in table then table[r.id].record.generation else 0;
    SiteChosen(s, ctx, now, r);
    var c := Choose(table, r.id, r, None, ReplayedSequence(s, ctx), limit, stored, r.generation, stamp);
    ChoiceSettles(s, ctx, now, table, r.id, r, limit, stored, r.generation,
                  if c.Installed? then s.records.(sites := c.table) else s.records, 1);
    OnlyStoredCounts(table, if c.Installed? then c.table else table, r.id, r, r, stamp,
                     Publish(s, ctx, now, PublishedSite(r)).1, Reused(s, ctx), limit, stored > r.generation,
                     r.id in table && table[r.id].record.generation > r.generation);
  }

  lemma AcceleratorClassChosen(s: State, ctx: Context, now: I64, r: AcceleratorClassRecord)
    requires r.Problem().None?
    ensures var t := s.records.acceleratorClasses;
            var stored: U64 := if r.id in t then t[r.id].record.capabilityGeneration else 0;
            var c := Choose(t, r.id, r, None, ReplayedSequence(s, ctx), s.bounds.acceleratorClasses, stored, r.capabilityGeneration, StampFor(ctx, now));
            AcceleratorClassVerdict(s, ctx, now, r) ==
            AsVerdict(c, if c.Installed? then s.records.(acceleratorClasses := c.table) else s.records, 1)
  {
    hide AcceleratorClassRecord.Problem, Choose, AsVerdict, ReplayedSequence, StampFor;
  }

  lemma AcceleratorClassSettles(s: State, ctx: Context, now: I64, r: AcceleratorClassRecord)
    requires Gate(s, ctx).Open? && r.Problem().None?
    ensures var (t, reply) := Publish(s, ctx, now, PublishedAcceleratorClass(r));
            && Settled(s.records.acceleratorClasses, t.records.acceleratorClasses, r.id, r, r, StampFor(ctx, now), reply, Reused(s, ctx),
                       s.bounds.acceleratorClasses, r.id in s.records.acceleratorClasses && s.records.acceleratorClasses[r.id].record.capabilityGeneration > r.capabilityGeneration)
            && t.records == s.records.(acceleratorClasses := t.records.acceleratorClasses)
  {
    hide FederationVerdict, SiteVerdict, AcceleratorClassVerdict, RuntimeVerdict, BackendVerdict, DomainVerdict, PolicyVerdict,
         ArtifactVerdict, WorkloadClassVerdict, WorkloadVerdict, ClusterVerdict, RetireVerdict, CapabilityVerdict,
         CapacityVerdict, PlacementVerdict, MigrationVerdict, StageVerdict, PortabilityVerdict,
         AcceleratorClassRecord.Problem, Choose, Conclude, Gate, AsVerdict, ReplayedSequence, StampFor, Settled, Gave, Reused;
    var table, limit, stamp := s.records.acceleratorClasses, s.bounds.acceleratorClasses, StampFor(ctx, now);
    var stored: U64 := if r.id in table then table[r.id].record.capabilityGeneration else 0;
    AcceleratorClassChosen(s, ctx, now, r);
    var c := Choose(table, r.id, r, None, ReplayedSequence(s, ctx), limit, stored, r.capabilityGeneration, stamp);
    ChoiceSettles(s, ctx, now, table, r.id, r, limit, stored, r.capabilityGeneration,
                  if c.Installed? then s.records.(acceleratorClasses := c.table) else s.records, 1);
    OnlyStoredCounts(table, if c.Installed? then c.table else table, r.id, r, r, stamp,
                     Publish(s, ctx, now, PublishedAcceleratorClass(r)).1, Reused(s, ctx), limit, stored > r.capabilityGeneration,
                     r.id in table && table[r.id].record.capabilityGeneration > r.capabilityGeneration);
  }

  lemma RuntimeChosen(s: State, ctx: Context, now: I64, r: RuntimeRecord)
    requires r.Problem().None?
    ensures var t := s.records.runtimes;
            var stored: U64 := if r.id in t then t[r.id].record.generation else 0;
            var c := Choose(t, r.id, r, None, ReplayedSequence(s, ctx), s.bounds.runtimes, stored, r.generation, StampFor(ctx, now));
            RuntimeVerdict(s, ctx, now, r) ==
            AsVerdict(c, if c.Installed? then s.records.(runtimes := c.table) else s.records, 1)
  {
    hide RuntimeRecord.Problem, Choose, AsVerdict, ReplayedSequence, StampFor;
  }

  lemma RuntimeSettles(s: State, ctx: Context, now: I64, r: RuntimeRecord)
    requires Gate(s, ctx).Open? && r.Problem().None?
    ensures var (t, reply) := Publish(s, ctx, now, PublishedRuntime(r));
            && Settled(s.records.runtimes, t.records.runtimes, r.id, r, r, StampFor(ctx, now), reply, Reused(s, ctx),
                       s.bounds.runtimes, r.id in s.records.runtimes && s.records.runtimes[r.id].record.generation > r.generation)
            && t.records == s.records.(runtimes := t.records.runtimes)
  {
    hide FederationVerdict, SiteVerdict, AcceleratorClassVerdict, RuntimeVerdict, BackendVerdict, DomainVerdict, PolicyVerdict,
         ArtifactVerdict, WorkloadClassVerdict, WorkloadVerdict, ClusterVerdict, RetireVerdict, CapabilityVerdict,
         CapacityVerdict, PlacementVerdict, MigrationVerdict, StageVerdict, PortabilityVerdict,
         RuntimeRecord.Problem, Choose, Conclude, Gate, AsVerdict, ReplayedSequence, StampFor, Settled, Gave, Reused;
    var table, limit, stamp := s.records.runtimes, s.bounds.runtimes, StampFor(ctx, now);
    var stored: U64 := if r.id in table then table[r.id].record.generation else 0;
    RuntimeChosen(s, ctx, now, r);
    var c := Choose(table, r.id, r, None, ReplayedSequence(s, ctx), limit, stored, r.generation, stamp);
    ChoiceSettles(s, ctx, now, table, r.id, r, limit, stored, r.generation,
                  if c.Installed? then s.records.(runtimes := c.table) else s.records, 1);
    OnlyStoredCounts(table, if c.Installed? then c.table else table, r.id, r, r, stamp,
                     Publish(s, ctx, now, PublishedRuntime(r)).1, Reused(s, ctx), limit, stored > r.generation,
                     r.id in table && table[r.id].record.generation > r.generation);
  }

  lemma BackendChosen(s: State, ctx: Context, now: I64, r: BackendRecord)
    requires r.Problem().None? && r.runtime in s.records.runtimes
    ensures var t := s.records.backends;
            var stored: U64 := if r.id in t then t[r.id].record.generation else 0;
            var c := Choose(t, r.id, r, None, ReplayedSequence(s, ctx), s.bounds.backends, stored, r.generation, StampFor(ctx, now));
            BackendVerdict(s, ctx, now, r) ==
            AsVerdict(c, if c.Installed? then s.records.(backends := c.table) else s.records, 1)
  {
    hide BackendRecord.Problem, Choose, AsVerdict, ReplayedSequence, StampFor;
  }

  lemma BackendSettles(s: State, ctx: Context, now: I64, r: BackendRecord)
    requires Gate(s, ctx).Open? && r.Problem().None? && r.runtime in s.records.runtimes
    ensures var (t, reply) := Publish(s, ctx, now, PublishedBackend(r));
            && Settled(s.records.backends, t.records.backends, r.id, r, r, StampFor(ctx, now), reply, Reused(s, ctx),
                       s.bounds.backends, r.id in s.records.backends && s.records.backends[r.id].record.generation > r.generation)
            && t.records == s.records.(backends := t.records.backends)
  {
    hide FederationVerdict, SiteVerdict, AcceleratorClassVerdict, RuntimeVerdict, BackendVerdict, DomainVerdict, PolicyVerdict,
         ArtifactVerdict, WorkloadClassVerdict, WorkloadVerdict, ClusterVerdict, RetireVerdict, CapabilityVerdict,
         CapacityVerdict, PlacementVerdict, MigrationVerdict, StageVerdict, PortabilityVerdict,
         BackendRecord.Problem, Choose, Conclude, Gate, AsVerdict, ReplayedSequence, StampFor, Settled, Gave, Reused;
    var table, limit, stamp := s.records.backends, s.bounds.backends, StampFor(ctx, now);
    var stored: U64 := if r.id in table then table[r.id].record.generation else 0;
    BackendChosen(s, ctx, now, r);
    var c := Choose(table, r.id, r, None, ReplayedSequence(s, ctx), limit, stored, r.generation, stamp);
    ChoiceSettles(s, ctx, now, table, r.id, r, limit, stored, r.generation,
                  if c.Installed? then s.records.(backends := c.table) else s.records, 1);
    OnlyStoredCounts(table, if c.Installed? then c.table else table, r.id, r, r, stamp,
                     Publish(s, ctx, now, PublishedBackend(r)).1, Reused(s, ctx), limit, stored > r.generation,
                     r.id in table && table[r.id].record.generation > r.generation);
  }

  lemma DomainChosen(s: State, ctx: Context, now: I64, r: DomainRecord)
    requires r.Problem().None? && r.federation in s.records.federations
    requires forall i :: 0 <= i < |r.clusters| ==> r.clusters[i] in s.records.clusters
    ensures var t := s.records.domains;
            var stored: U64 := if r.id in t then t[r.id].record.topologyGeneration else 0;
            var c := Choose(t, r.id, r, None, ReplayedSequence(s, ctx), s.bounds.domains, stored, r.topologyGeneration, StampFor(ctx, now));
            DomainVerdict(s, ctx, now, r) ==
            AsVerdict(c, if c.Installed? then s.records.(domains := c.table) else s.records, 1)
  {
    hide DomainRecord.Problem, Choose, AsVerdict, ReplayedSequence, StampFor;
  }

  lemma DomainSettles(s: State, ctx: Context, now: I64, r: DomainRecord)
    requires Gate(s, ctx).Open? && r.Problem().None? && r.federation in s.records.federations
    requires forall i :: 0 <= i < |r.clusters| ==> r.clusters[i] in s.records.clusters
    ensures var (t, reply) := Publish(s, ctx, now, PublishedDomain(r));
            && Settled(s.records.domains, t.records.domains, r.id, r, r, StampFor(ctx, now), reply, Reused(s, ctx),
                       s.bounds.domains, r.id in s.records.domains && s.records.domains[r.id].record.topologyGeneration > r.topologyGeneration)
            && t.records == s.records.(domains := t.records.domains)
  {
    hide FederationVerdict, SiteVerdict, AcceleratorClassVerdict, RuntimeVerdict, BackendVerdict, DomainVerdict, PolicyVerdict,
         ArtifactVerdict, WorkloadClassVerdict, WorkloadVerdict, ClusterVerdict, RetireVerdict, CapabilityVerdict,
         CapacityVerdict, PlacementVerdict, MigrationVerdict, StageVerdict, PortabilityVerdict,
         DomainRecord.Problem, Choose, Conclude, Gate, AsVerdict, ReplayedSequence, StampFor, Settled, Gave, Reused;
    var table, limit, stamp := s.records.domains, s.bounds.domains, StampFor(ctx, now);
    var stored: U64 := if r.id in table then table[r.id].record.topologyGeneration else 0;
    DomainChosen(s, ctx, now, r);
    var c := Choose(table, r.id, r, None, ReplayedSequence(s, ctx), limit, stored, r.topologyGeneration, stamp);
    ChoiceSettles(s, ctx, now, table, r.id, r, limit, stored, r.topologyGeneration,
                  if c.Installed? then s.records.(domains := c.table) else s.records, 1);
    OnlyStoredCounts(table, if c.Installed? then c.table else table, r.id, r, r, stamp,
                     Publish(s, ctx, now, PublishedDomain(r)).1, Reused(s, ctx), limit, stored > r.topologyGeneration,
                     r.id in table && table[r.id].record.topologyGeneration > r.topologyGeneration);
  }

  lemma PolicyChosen(s: State, ctx: Context, now: I64, r: PolicyRecord)
    requires r.Problem().None?
    ensures var t := s.records.policies;
            var stored: U64 := if r.id in t then t[r.id].record.generation else 0;
            var c := Choose(t, r.id, r, None, ReplayedSequence(s, ctx), s.bounds.policies, stored, r.generation, StampFor(ctx, now));
            PolicyVerdict(s, ctx, now, r) ==
            AsVerdict(c, if c.Installed? then s.records.(policies := c.table) else s.records, 1)
  {
    hide PolicyRecord.Problem, Choose, AsVerdict, ReplayedSequence, StampFor;
  }

  lemma PolicySettles(s: State, ctx: Context, now: I64, r: PolicyRecord)
    requires Gate(s, ctx).Open? && r.Problem().None?
    ensures var (t, reply) := Publish(s, ctx, now, PublishedPolicy(r));
            && Settled(s.records.policies, t.records.policies, r.id, r, r, StampFor(ctx, now), reply, Reused(s, ctx),
                       s.bounds.policies, r.id in s.records.policies && s.records.policies[r.id].record.generation > r.generation)
            && t.records == s.records.(policies := t.records.policies)
  {
    hide FederationVerdict, SiteVerdict, AcceleratorClassVerdict, RuntimeVerdict, BackendVerdict, DomainVerdict, PolicyVerdict,
         ArtifactVerdict, WorkloadClassVerdict, WorkloadVerdict, ClusterVerdict, RetireVerdict, CapabilityVerdict,
         CapacityVerdict, PlacementVerdict, MigrationVerdict, StageVerdict, PortabilityVerdict,
         PolicyRecord.Problem, Choose, Conclude, Gate, AsVerdict, ReplayedSequence, StampFor, Settled, Gave, Reused;
    var table, limit, stamp := s.records.policies, s.bounds.policies, StampFor(ctx, now);
    var stored: U64 := if r.id in table then table[r.id].record.generation else 0;
    PolicyChosen(s, ctx, now, r);
    var c := Choose(table, r.id, r, None, ReplayedSequence(s, ctx), limit, stored, r.generation, stamp);
    ChoiceSettles(s, ctx, now, table, r.id, r, limit, stored, r.generation,
                  if c.Installed? then s.records.(policies := c.table) else s.records, 1);
    OnlyStoredCounts(table, if c.Installed? then c.table else table, r.id, r, r, stamp,
                     Publish(s, ctx, now, PublishedPolicy(r)).1, Reused(s, ctx), limit, stored > r.generation,
                     r.id in table && table[r.id].record.generation > r.generation);
  }

  lemma ArtifactChosen(s: State, ctx: Context, now: I64, r: ArtifactRecord)
    requires r.Problem().None?
    ensures var t := s.records.artifacts;
            var stored: U64 := if r.id in t then t[r.id].record.generation else 0;
            var c := Choose(t, r.id, r, None, ReplayedSequence(s, ctx), s.bounds.artifacts, stored, r.generation, StampFor(ctx, now));
            ArtifactVerdict(s, ctx, now, r) ==
            AsVerdict(c, if c.Installed? then s.records.(artifacts := c.table) else s.records, 1)
  {
    hide ArtifactRecord.Problem, Choose, AsVerdict, ReplayedSequence, StampFor;
  }

  lemma ArtifactSettles(s: State, ctx: Context, now: I64, r: ArtifactRecord)
    requires Gate(s, ctx).Open? && r.Problem().None?
    ensures var (t, reply) := Publish(s, ctx, now, PublishedArtifact(r));
            && Settled(s.records.artifacts, t.records.artifacts, r.id, r, r, StampFor(ctx, now), reply, Reused(s, ctx),
                       s.bounds.artifacts, r.id in s.records.artifacts && s.records.artifacts[r.id].record.generation > r.generation)
            && t.records == s.records.(artifacts := t.records.artifacts)
  {
    hide FederationVerdict, SiteVerdict, AcceleratorClassVerdict, RuntimeVerdict, BackendVerdict, DomainVerdict, PolicyVerdict,
         ArtifactVerdict, WorkloadClassVerdict, WorkloadVerdict, ClusterVerdict, RetireVerdict, CapabilityVerdict,
         CapacityVerdict, PlacementVerdict, MigrationVerdict, StageVerdict, PortabilityVerdict,
         ArtifactRecord.Problem, Choose, Conclude, Gate, AsVerdict, ReplayedSequence, StampFor, Settled, Gave, Reused;
    var table, limit, stamp := s.records.artifacts, s.bounds.artifacts, StampFor(ctx, now);
    var stored: U64 := if r.id in table then table[r.id].record.generation else 0;
    ArtifactChosen(s, ctx, now, r);
    var c := Choose(table, r.id, r, None, ReplayedSequence(s, ctx), limit, stored, r.generation, stamp);
    ChoiceSettles(s, ctx, now, table, r.id, r, limit, stored, r.generation,
                  if c.Installed? then s.records.(artifacts := c.table) else s.records, 1);
    OnlyStoredCounts(table, if c.Installed? then c.table else table, r.id, r, r, stamp,
                     Publish(s, ctx, now, PublishedArtifact(r)).1, Reused(s, ctx), limit, stored > r.generation,
                     r.id in table && table[r.id].record.generation > r.generation);
  }

  lemma WorkloadClassChosen(s: State, ctx: Context, now: I64, r: WorkloadClassRecord)
    requires r.Problem().None?
    ensures var t := s.records.workloadClasses;
            var stored: U64 := 0;
            var c := Choose(t, r.id, r, None, ReplayedSequence(s, ctx), s.bounds.workloadClasses, stored, 0, StampFor(ctx, now));
            WorkloadClassVerdict(s, ctx, now, r) ==
            AsVerdict(c, if c.Installed? then s.records.(workloadClasses := c.table) else s.records, 1)
  {
    hide WorkloadClassRecord.Problem, Choose, AsVerdict, ReplayedSequence, StampFor;
  }

  lemma WorkloadClassSettles(s: State, ctx: Context, now: I64, r: WorkloadClassRecord)
    requires Gate(s, ctx).Open? && r.Problem().None?
    ensures var (t, reply) := Publish(s, ctx, now, PublishedWorkloadClass(r));
            && Settled(s.records.workloadClasses, t.records.workloadClasses, r.id, r, r, StampFor(ctx, now), reply, Reused(s, ctx),
                       s.bounds.workloadClasses, false)
            && t.records == s.records.(workloadClasses := t.records.workloadClasses)
  {
    hide FederationVerdict, SiteVerdict, AcceleratorClassVerdict, RuntimeVerdict, BackendVerdict, DomainVerdict, PolicyVerdict,
         ArtifactVerdict, WorkloadClassVerdict, WorkloadVerdict, ClusterVerdict, RetireVerdict, CapabilityVerdict,
         CapacityVerdict, PlacementVerdict, MigrationVerdict, StageVerdict, PortabilityVerdict,
         WorkloadClassRecord.Problem, Choose, Conclude, Gate, AsVerdict, ReplayedSequence, StampFor, Settled, Gave, Reused;
    var table, limit, stamp := s.records.workloadClasses, s.bounds.workloadClasses, StampFor(ctx, now);
    var stored: U64 := 0;
    WorkloadClassChosen(s, ctx, now, r);
    var c := Choose(table, r.id, r, None, ReplayedSequence(s, ctx), limit, stored, 0, stamp);
    ChoiceSettles(s, ctx, now, table, r.id, r, limit, stored, 0,
                  if c.Installed? then s.records.(workloadClasses := c.table) else s.records, 1);
    OnlyStoredCounts(table, if c.Installed? then c.table else table, r.id, r, r, stamp,
                     Publish(s, ctx, now, PublishedWorkloadClass(r)).1, Reused(s, ctx), limit, stored > 0,
                     false);
  }

  lemma WorkloadChosen(s: State, ctx: Context, now: I64, r: WorkloadRecord)
    requires r.Problem().None?
    requires r.workloadClass in s.records.workloadClasses
    requires (r.artifact != [] ==> r.artifact in s.records.artifacts) && (r.policy != [] ==> r.policy in s.records.policies)
    requires forall i :: 0 <= i < |r.acceptableClasses| ==> r.acceptableClasses[i] in s.records.acceleratorClasses
    ensures var t := s.records.workloads;
            var stored: U64 := if r.id in t then t[r.id].record.generation else 0;
            var c := Choose(t, r.id, r, None, ReplayedSequence(s, ctx), s.bounds.workloads, stored, r.generation, StampFor(ctx, now));
            WorkloadVerdict(s, ctx, now, r) ==
            AsVerdict(c, if c.Installed? then s.records.(workloads := c.table) else s.records, 1)
  {
    hide WorkloadRecord.Problem, Choose, AsVerdict, ReplayedSequence, StampFor;
  }

  lemma WorkloadSettles(s: State, ctx: Context, now: I64, r: WorkloadRecord)
    requires Gate(s, ctx).Open? && r.Problem().None?
    requires r.workloadClass in s.records.workloadClasses
    requires (r.artifact != [] ==> r.artifact in s.records.artifacts) && (r.policy != [] ==> r.policy in s.records.policies)
    requires forall i :: 0 <= i < |r.acceptableClasses| ==> r.acceptableClasses[i] in s.records.acceleratorClasses
    ensures var (t, reply) := Publish(s, ctx, now, PublishedWorkload(r));
            && Settled(s.records.workloads, t.records.workloads, r.id, r, r, StampFor(ctx, now), reply, Reused(s, ctx),
                       s.bounds.workloads, r.id in s.records.workloads && s.records.workloads[r.id].record.generation > r.generation)
            && t.records == s.records.(workloads := t.records.workloads)
  {
    hide FederationVerdict, SiteVerdict, AcceleratorClassVerdict, RuntimeVerdict, BackendVerdict, DomainVerdict, PolicyVerdict,
         ArtifactVerdict, WorkloadClassVerdict, WorkloadVerdict, ClusterVerdict, RetireVerdict, CapabilityVerdict,
         CapacityVerdict, PlacementVerdict, MigrationVerdict, StageVerdict, PortabilityVerdict,
         WorkloadRecord.Problem, Choose, Conclude, Gate, AsVerdict, ReplayedSequence, StampFor, Settled, Gave, Reused;
    var table, limit, stamp := s.records.workloads, s.bounds.workloads, StampFor(ctx, now);
    var stored: U64 := if r.id in table then table[r.id].record.generation else 0;
    WorkloadChosen(s, ctx, now, r);
    var c := Choose(table, r.id, r, None, ReplayedSequence(s, ctx), limit, stored, r.generation, stamp);
    ChoiceSettles(s, ctx, now, table, r.id, r, limit, stored, r.generation,
                  if c.Installed? then s.records.(workloads := c.table) else s.records, 1);
    OnlyStoredCounts(table, if c.Installed? then c.table else table, r.id, r, r, stamp,
                     Publish(s, ctx, now, PublishedWorkload(r)).1, Reused(s, ctx), limit, stored > r.generation,
                     r.id in table && table[r.id].record.generation > r.generation);
  }

  predicate ClusterResolves(s: State, r: ClusterRecord) {
    && r.federation in s.records.federations && r.site in s.records.sites
    && (r.domain != [] ==> r.domain in s.records.domains)
    && (forall i :: 0 <= i < |r.acceleratorClasses| ==> r.acceleratorClasses[i] in s.records.acceleratorClasses)
    && (forall i :: 0 <= i < |r.runtimes| ==> r.runtimes[i] in s.records.runtimes)
    && (forall i :: 0 <= i < |r.backends| ==> r.backends[i] in s.records.backends)
  }

  /** A cluster that comes back under a newer generation is a new incarnation: it is stored without
      pools and with unknown readiness. */
  function StoredForm(s: State, r: ClusterRecord): ClusterRecord {
    if r.id in s.records.clusters && 0 < s.records.clusters[r.id].record.generation < r.generation
    then r.(pools := [], readiness := Readiness.Unknown) else r
  }

  lemma ClusterChosen(s: State, ctx: Context, now: I64, r: ClusterRecord)
    requires r.Problem().None? && ClusterResolves(s, r)
    ensures var c := Choose(s.records.clusters, r.id, r, None, ReplayedSequence(s, ctx), s.bounds.clusters,
                            StoredGeneration(s, r.id), r.generation, StampFor(ctx, now));
            && ClusterVerdict(s, ctx, now, r) ==
               AsVerdict(c, if c.Installed? then s.records.(clusters := ClusterTable(s, ctx, now, r)) else s.records,
                         if NewIncarnation(s, r) then 2 else 1)
            && (c.Installed? ==>
                  ClusterTable(s, ctx, now, r) ==
                  s.records.clusters[r.id := Entry(StoredForm(s, r), Currentness.Current, StampFor(ctx, now))])
  {
    assert ClusterProblem(s, r) == None;
    hide ClusterProblem, ClusterResolves, ReplayedSequence, StampFor, AsVerdict;
  }

  lemma ClusterSettles(s: State, ctx: Context, now: I64, r: ClusterRecord)
    requires Gate(s, ctx).Open? && r.Problem().None? && ClusterResolves(s, r)
    ensures var (t, reply) := Publish(s, ctx, now, PublishedCluster(r));
            && Settled(s.records.clusters, t.records.clusters, r.id, r, StoredForm(s, r), StampFor(ctx, now), reply,
                       Reused(s, ctx), s.bounds.clusters,
                       r.id in s.records.clusters && s.records.clusters[r.id].record.generation > r.generation)
            && t.records == s.records.(clusters := t.records.clusters)
  {
    ClusterChosen(s, ctx, now, r);
    hide FederationVerdict, SiteVerdict, AcceleratorClassVerdict, RuntimeVerdict, BackendVerdict, DomainVerdict, PolicyVerdict,
         ArtifactVerdict, WorkloadClassVerdict, WorkloadVerdict, ClusterVerdict, RetireVerdict, CapabilityVerdict,
         CapacityVerdict, PlacementVerdict, MigrationVerdict, StageVerdict, PortabilityVerdict,
         ClusterRecord.Problem, ClusterResolves, Choose, Conclude, Gate, AsVerdict, ReplayedSequence, StampFor, Gave, Reused,
         StoredForm, ClusterTable, NewIncarnation;
    var table, limit, stamp := s.records.clusters, s.bounds.clusters, StampFor(ctx, now);
    var stored := StoredGeneration(s, r.id);
    var c := Choose(table, r.id, r, None, ReplayedSequence(s, ctx), limit, stored, r.generation, stamp);
    ChoiceSettles(s, ctx, now, table, r.id, r, limit, stored, r.generation,
                  if c.Installed? then s.records.(clusters := ClusterTable(s, ctx, now, r)) else s.records,
                  if NewIncarnation(s, r) then 2 else 1);
  }
}
