/** What the other publications are answered and what they leave behind: retirements, capabilities,
    capacity, migrations, stage events and portability, and the registration of publishers
    (src/observatory.cpp). */
module Answers {
  import opened Foundation
  import opened Capability
  import opened Capacity
  import opened Model
  import opened Observatory
  import opened Registrations
  import opened Pools
  import Migration

  function Higher(a: U64, b: U64): U64 {
    if a < b then b else a
  }

  /** The cluster's entry is replaced and nothing else. */
  predicate Rewrites(before: Records, after: Records, cluster: Id, e: Entry<ClusterRecord>) {
    after == before.(clusters := before.clusters[cluster := e])
  }

  // ---------------------------------------------------------------------------------
  // The gate
  // ---------------------------------------------------------------------------------

  /** Whose publications get through, and what everyone else is told, whatever is published: only a
      registered identity that is not fenced, speaks under the current epoch and does not go back
      behind its own sequence numbers is heard. */
  lemma GateAnswers(s: State, ctx: Context, now: I64, p: Publication)
    ensures var reply := Publish(s, ctx, now, p).1;
            var known := ctx.Valid() && KeyOf(ctx) in s.publishers;
            && (!ctx.Valid() ==> reply == Err(InvalidArgument))
            && (ctx.Valid() && !known ==> reply == Err(StaleBoot))
            && (known ==>
                  var a := s.publishers[KeyOf(ctx)];
                  && (a.fenced ==> reply == Err(FencedPublisher))
                  && (!a.fenced && ctx.epoch != s.epoch ==> reply == Err(StaleEpoch))
                  && (!a.fenced && ctx.epoch == s.epoch && ctx.sequence < a.watermark ==> reply == Err(SequenceRegression)))
            && (Gate(s, ctx).Open? <==>
                  && known && !s.publishers[KeyOf(ctx)].fenced && ctx.epoch == s.epoch
                  && s.publishers[KeyOf(ctx)].watermark <= ctx.sequence)
  {
    hide VerdictOn, Finish, Refusing, Bumped, CountMilestone;
  }

  /** What the acknowledgement says and what becomes of the sender: the watermark is the number just
      used, and the gap is how many numbers were skipped. */
  lemma AcceptedAnswers(s: State, ctx: Context, now: I64, p: Publication)
    requires Publish(s, ctx, now, p).1.Ok?
    ensures var (t, reply) := Publish(s, ctx, now, p);
            var skipped := if ctx.sequence == s.publishers[KeyOf(ctx)].watermark then 0
                           else ctx.sequence - s.publishers[KeyOf(ctx)].watermark - 1;
            && KeyOf(ctx) in s.publishers && t.publishers.Keys == s.publishers.Keys
            && reply.value.watermark == ctx.sequence == t.publishers[KeyOf(ctx)].watermark
            && reply.value.gap == skipped
            && (forall key :: key in s.publishers && key != KeyOf(ctx) ==> t.publishers[key] == s.publishers[key])
            && !t.publishers[KeyOf(ctx)].fenced && t.epoch == s.epoch && t.bounds == s.bounds
  {
    hide VerdictOn, CountAccepted, CountRefusal, Bumped, CountMilestone;
  }

  function Once(n: bool): nat {
    if n then 1 else 0
  }

  /** What the sender's own counters and the counters of refusals make of a publication. */
  lemma SenderIsCounted(s: State, ctx: Context, now: I64, p: Publication)
    requires ctx.Valid() && KeyOf(ctx) in s.publishers
    ensures var (t, reply) := Publish(s, ctx, now, p);
            var a := s.publishers[KeyOf(ctx)];
            && KeyOf(ctx) in t.publishers
            && t.publishers[KeyOf(ctx)] == a.(
                 watermark := if reply.Ok? then ctx.sequence else a.watermark,
                 lastPublicationAt := if reply.Err? then a.lastPublicationAt else if ctx.observedAt == 0 then now else ctx.observedAt,
                 accepted := a.accepted + Once(Gave(reply, Applied)),
                 duplicates := a.duplicates + Once(Gave(reply, Duplicate)),
                 rejected := a.rejected + Once(reply.Err?),
                 gaps := a.gaps + Once(reply.Ok? && reply.value.gap > 0))
  {
    hide VerdictOn, CountAccepted, CountRefusal, Bumped, CountMilestone;
  }

  lemma RefusalsAreCounted(s: State, ctx: Context, now: I64, p: Publication)
    ensures var (t, reply) := Publish(s, ctx, now, p);
            && t.stats.rejected == s.stats.rejected + Once(reply.Err?)
            && (Gate(s, ctx).Closed? ==>
                  && t.stats.fencedPublications ==
                     s.stats.fencedPublications + Once(reply == Err(StaleBoot) || reply == Err(FencedPublisher))
                  && t.stats.regressions == s.stats.regressions + Once(reply == Err(SequenceRegression))
                  && t.stats.boundsRejections == s.stats.boundsRejections)
            && (reply.Ok? ==>
                  && t.stats.fencedPublications == s.stats.fencedPublications && t.stats.regressions == s.stats.regressions
                  && t.stats.boundsRejections == s.stats.boundsRejections)
            && (t.stats.boundsRejections == s.stats.boundsRejections
                || t.stats.boundsRejections == s.stats.boundsRejections + 1)
  {
    hide VerdictOn, Bumped;
  }

  // ---------------------------------------------------------------------------------
  // Registration of publishers
  // ---------------------------------------------------------------------------------

  /** A new identity is registered exactly when the engine and its federation have room, whatever
      epoch it names. A known one is renewed exactly when it is not fenced, names the current epoch
      and does not go back behind its own numbers. */
  lemma PublisherRegistrationAnswers(s: State, ctx: Context, now: I64)
    requires ctx.Valid()
    ensures var (t, reply) := RegisterPublisher(s, ctx, now);
            var known := KeyOf(ctx) in s.publishers;
            var others := set k | k in s.publishers && s.publishers[k].federation == ctx.federation;
            && (Gave(reply, Applied) <==>
                  !known && |s.publishers| < s.bounds.publishers && |others| < s.bounds.publishersPerFederation)
            && (reply == Err(BoundExceeded) <==> !known && !Gave(reply, Applied))
            && (reply == Err(FencedPublisher) <==> known && s.publishers[KeyOf(ctx)].fenced)
            && (reply == Err(StaleEpoch) <==> known && !s.publishers[KeyOf(ctx)].fenced && ctx.epoch != s.epoch)
            && (reply == Err(SequenceRegression) <==>
                  && known && !s.publishers[KeyOf(ctx)].fenced && ctx.epoch == s.epoch
                  && ctx.sequence < s.publishers[KeyOf(ctx)].watermark)
            && (Gave(reply, Duplicate) <==>
                  && known && !s.publishers[KeyOf(ctx)].fenced && ctx.epoch == s.epoch
                  && s.publishers[KeyOf(ctx)].watermark <= ctx.sequence)
            && !Gave(reply, Superseded)
            && (reply.Ok? ==>
                  && t.publishers.Keys == s.publishers.Keys + {KeyOf(ctx)}
                  && t.publishers[KeyOf(ctx)].watermark == ctx.sequence == reply.value.watermark
                  && t.publishers[KeyOf(ctx)].federation == ctx.federation
                  && t.publishers[KeyOf(ctx)].live && !t.publishers[KeyOf(ctx)].fenced)
            && (forall key :: key in s.publishers && key != KeyOf(ctx) ==> t.publishers[key] == s.publishers[key])
            && t.records == s.records && t.epoch == s.epoch
  {
    hide CountAccepted, CountRefusal;
    assert Members(s.publishers, ctx.federation) == set k | k in s.publishers && s.publishers[k].federation == ctx.federation;
    hide Members;
  }

  // ---------------------------------------------------------------------------------
  // Structural registrations that are not fit
  // ---------------------------------------------------------------------------------

  /** What is wrong with the record itself. */
  function OwnProblem(p: Publication): Option<ErrorCode>
    requires p.Structural()
  {
    match p
    case PublishedFederation(r) => r.Problem()
    case PublishedSite(r) => r.Problem()
    case PublishedAcceleratorClass(r) => r.Problem()
    case PublishedRuntime(r) => r.Problem()
    case PublishedBackend(r) => r.Problem()
    case PublishedDomain(r) => r.Problem()
    case PublishedPolicy(r) => r.Problem()
    case PublishedArtifact(r) => r.Problem()
    case PublishedWorkloadClass(r) => r.Problem()
    case PublishedWorkload(r) => r.Problem()
    case PublishedCluster(r) => r.Problem()
  }

  predicate AllKnown<R>(ids: seq<Id>, table: map<Id, R>) {
    forall i :: 0 <= i < |ids| ==> ids[i] in table
  }

  /** Whatever the record refers to is registered. */
  predicate Resolves(r: Records, p: Publication)
    requires p.Structural()
  {
    match p
    case PublishedSite(x) => x.federation in r.federations
    case PublishedBackend(x) => x.runtime in r.runtimes
    case PublishedDomain(x) => x.federation in r.federations && AllKnown(x.clusters, r.clusters)
    case PublishedWorkload(x) =>
      && x.workloadClass in r.workloadClasses && AllKnown(x.acceptableClasses, r.acceleratorClasses)
      && (x.artifact == [] || x.artifact in r.artifacts) && (x.policy == [] || x.policy in r.policies)
    case PublishedCluster(x) =>
      && x.federation in r.federations && x.site in r.sites && (x.domain == [] || x.domain in r.domains)
      && AllKnown(x.acceleratorClasses, r.acceleratorClasses) && AllKnown(x.runtimes, r.runtimes) && AllKnown(x.backends, r.backends)
    case _ => true
  }

  lemma UnfitIsRefused(s: State, ctx: Context, now: I64, p: Publication)
    requires p.Structural()
    ensures OwnProblem(p).Some? ==> VerdictOn(s, ctx, now, p) == Refuse(OwnProblem(p).value, Plain)
    ensures OwnProblem(p).None? && !Resolves(s.records, p) ==> VerdictOn(s, ctx, now, p) == Refuse(NotFound, Plain)
  {
    hide ReplayedSequence, StampFor, ClusterTable, NewIncarnation, FederationRecord.Problem, SiteRecord.Problem,
         AcceleratorClassRecord.Problem, RuntimeRecord.Problem, BackendRecord.Problem, DomainRecord.Problem,
         PolicyRecord.Problem, ArtifactRecord.Problem, WorkloadClassRecord.Problem, WorkloadRecord.Problem,
         ClusterRecord.Problem;
  }

  /** A registration through an open gate whose record is not valid is refused for that, one that
      refers to something unknown as not found; neither changes a record. */
  lemma UnfitRegistrationsSettle(s: State, ctx: Context, now: I64, p: Publication)
    requires Gate(s, ctx).Open? && p.Structural() && (OwnProblem(p).Some? || !Resolves(s.records, p))
    ensures var (t, reply) := Publish(s, ctx, now, p);
            t.records == s.records && reply == Err(if OwnProblem(p).Some? then OwnProblem(p).value else NotFound)
  {
    hide VerdictOn, OwnProblem, Resolves;
    UnfitIsRefused(s, ctx, now, p);
  }

  // ---------------------------------------------------------------------------------
  // Clusters
  // ---------------------------------------------------------------------------------

  /** Retirement of a known cluster: stale exactly when it names an older generation, repeated
      exactly when the cluster is retired already, and otherwise final: the cluster keeps its
      content, moves to the named or the next generation, and its capacity moves on as well. */
  lemma RetirementSettles(s: State, ctx: Context, now: I64, cluster: Id, generation: U64)
    requires Gate(s, ctx).Open? && cluster in s.records.clusters
    ensures var (t, reply) := Publish(s, ctx, now, PublishedRetirement(cluster, generation));
            var e := s.records.clusters[cluster];
            var older := 0 < generation < e.record.generation;
            && (reply == Err(StaleGeneration) <==> older)
            && (Gave(reply, Duplicate) <==> !older && e.currentness.Retired?)
            && (Gave(reply, Applied) <==> !older && !e.currentness.Retired?)
            && if Gave(reply, Applied) then
                 Rewrites(s.records, t.records, cluster,
                   Entry(e.record.(generation := if generation == 0 then Next(e.record.generation) else generation,
                                   readiness := Readiness.Retired, capacityGeneration := Next(e.record.capacityGeneration)),
                         Currentness.Retired, StampFor(ctx, now)))
               else t.records == s.records
  {
    hide AdvanceAuthority, CountAccepted, CountRefusal, CountMilestone, StampFor, Bumped, Next;
  }

  /** The sender's federation is known and, if it names a generation, names the stored one. */
  predicate SpeaksForFederation(s: State, ctx: Context) {
    && ctx.federation in s.records.federations
    && (ctx.federationGeneration == 0 || ctx.federationGeneration == s.records.federations[ctx.federation].record.generation)
  }

  /** Which evidence about a cluster is heard: the sender speaks for its federation, and the cluster
      is known and not retired. */
  lemma EvidenceIsHeard(s: State, ctx: Context, cluster: Id)
    ensures EvidenceProblem(s, ctx, cluster).None? <==>
            SpeaksForFederation(s, ctx) && cluster in s.records.clusters && !s.records.clusters[cluster].currentness.Retired?
    ensures ctx.federation !in s.records.federations ==> EvidenceProblem(s, ctx, cluster) == Some(NotFound)
    ensures ctx.federation in s.records.federations && !SpeaksForFederation(s, ctx) ==>
              EvidenceProblem(s, ctx, cluster) == Some(StaleGeneration)
    ensures SpeaksForFederation(s, ctx) && cluster !in s.records.clusters ==> EvidenceProblem(s, ctx, cluster) == Some(NotFound)
    ensures SpeaksForFederation(s, ctx) && cluster in s.records.clusters && s.records.clusters[cluster].currentness.Retired? ==>
              EvidenceProblem(s, ctx, cluster) == Some(Conflict)
  {
  }

  /** Capabilities: outdated exactly when they name an older generation of the cluster or of its
      capabilities, repeated or conflicting under the stored generation by whether they are the
      stored ones, and otherwise installed, the first ones under a declared generation included.
      The cluster moves to the higher of the two cluster generations. */
  lemma CapabilitySettles(
    s: State, ctx: Context, now: I64, cluster: Id, target: U64, generation: U64, capabilities: CapabilitySet)
    requires Gate(s, ctx).Open? && EvidenceProblem(s, ctx, cluster).None? && Canonical(capabilities.entries)
    ensures var (t, reply) := Publish(s, ctx, now, PublishedCapability(cluster, target, generation, capabilities));
            var r := s.records.clusters[cluster].record;
            var outdated := 0 < target < r.generation || generation < r.capabilityGeneration;
            var spoken := generation == r.capabilityGeneration && r.capabilities.entries != [];
            && (reply == Err(InvalidArgument) <==> generation == 0)
            && (reply == Err(StaleGeneration) <==> generation > 0 && outdated)
            && (Gave(reply, Duplicate) <==>
                  generation > 0 && !outdated && spoken && capabilities.entries == r.capabilities.entries)
            && (reply == Err(Conflict) <==>
                  generation > 0 && !outdated && spoken && capabilities.entries != r.capabilities.entries)
            && (Gave(reply, Applied) <==> generation > 0 && !outdated && !spoken)
            && if Gave(reply, Applied) then
                 Rewrites(s.records, t.records, cluster,
                   Entry(r.(generation := Higher(r.generation, target), capabilities := capabilities,
                            capabilityGeneration := generation, evidenceGeneration := ctx.evidenceGeneration),
                         Currentness.Current, StampFor(ctx, now)))
               else t.records == s.records
  {
    hide AdvanceAuthority, CountAccepted, CountRefusal, CountMilestone, StampFor, Bumped, EvidenceProblem, KeysValid;
    assert KeysValid(capabilities.entries) by { CanonicalKeysAreValid(capabilities.entries); }
    EvidenceIsHeard(s, ctx, cluster);
  }

  lemma CanonicalKeysAreValid(entries: seq<CapabilityEntry>)
    requires Canonical(entries)
    ensures KeysValid(entries)
  {
  }

  /** What makes a list of pools acceptable: every pool has an identifier of its own and a closed
      ledger, accelerators name their class, named classes are known, and the total is a word. */
  ghost predicate SoundPools(s: State, pools: seq<Pool>) {
    && (forall i :: 0 <= i < |pools| ==>
          && pools[i].id != [] && pools[i].ledger.Closes()
          && (pools[i].acceleratorClass == [] ==> !pools[i].kind.Accelerator?)
          && (pools[i].acceleratorClass != [] ==> pools[i].acceleratorClass in s.records.acceleratorClasses))
    && (forall i, j :: 0 <= i < j < |pools| ==> pools[i].id != pools[j].id)
    && Sum(Nominals(pools)) <= U64_MAX
  }

  lemma {:induction false} NoPoolProblem(s: State, pools: seq<Pool>)
    ensures FirstPoolProblem(s, pools).None? <==> forall i :: 0 <= i < |pools| ==> PoolProblem(s, pools[i]).None?
  {
    hide PoolProblem;
    if pools != [] {
      var n := |pools| - 1;
      NoPoolProblem(s, pools[..n]);
      assert forall i :: 0 <= i < n ==> pools[..n][i] == pools[i];
    }
  }

  lemma SoundPoolsPass(s: State, pools: seq<Pool>)
    ensures SoundPools(s, pools) <==>
            && FirstPoolProblem(s, pools).None? && !HasDuplicates(PoolIds(pools)) && Sum(Nominals(pools)) <= U64_MAX
  {
    hide FirstPoolProblem, Sum, Nominals, Ledger.Closes;
    NoPoolProblem(s, pools);
    assert HasDuplicates(PoolIds(pools)) <==> exists i, j :: 0 <= i < j < |pools| && PoolIds(pools)[i] == PoolIds(pools)[j];
    assert forall i :: 0 <= i < |pools| ==> PoolIds(pools)[i] == pools[i].id;
  }

  /** Two lists of pools hold the same pools when both are put in identifier order. */
  predicate HoldTheSame(a: seq<Pool>, b: seq<Pool>) {
    SortPools(a) == SortPools(b)
  }

  lemma SamePoolsAreTheSame(a: seq<Pool>, b: seq<Pool>)
    ensures SamePools(a, b) <==> HoldTheSame(a, b)
  {
    hide SortPools, Sum;
    SortedPools(a);
    SortedPools(b);
  }

  function PoolsOf(r: Records, cluster: Id): seq<Pool> {
    if cluster in r.clusters then r.clusters[cluster].record.pools else []
  }

  /** Capacity: like capabilities, and the pools are stored in identifier order, each under the
      publication's evidence and with its own generation or, lacking one, the publication's. */
  lemma CapacitySettles(s: State, ctx: Context, now: I64, cluster: Id, target: U64, generation: U64, pools: seq<Pool>)
    requires Gate(s, ctx).Open? && EvidenceProblem(s, ctx, cluster).None?
    requires generation > 0 && |pools| <= MAX_POOLS_PER_CLUSTER
    ensures var (t, reply) := Publish(s, ctx, now, PublishedCapacity(cluster, target, generation, pools));
            var r := s.records.clusters[cluster].record;
            var outdated := 0 < target < r.generation || generation < r.capacityGeneration;
            var spoken := generation == r.capacityGeneration && r.pools != [];
            && (reply == Err(StaleGeneration) <==> outdated)
            && (!outdated && !SoundPools(s, pools) ==> reply.Err?)
            && (Gave(reply, Duplicate) <==> !outdated && SoundPools(s, pools) && spoken && HoldTheSame(pools, r.pools))
            && (!outdated && SoundPools(s, pools) && spoken && !HoldTheSame(pools, r.pools) ==> reply == Err(Conflict))
            && (Gave(reply, Applied) <==> !outdated && SoundPools(s, pools) && !spoken)
            && if Gave(reply, Applied) then
                 Rewrites(s.records, t.records, cluster,
                   Entry(r.(generation := Higher(r.generation, target), pools := PoolsOf(t.records, cluster),
                            capacityGeneration := generation, evidenceGeneration := ctx.evidenceGeneration),
                         Currentness.Current, StampFor(ctx, now)))
               else t.records == s.records
  {
    hide AdvanceAuthority, CountAccepted, CountRefusal, CountMilestone, StampFor, Bumped, EvidenceProblem, FirstPoolProblem,
         HasDuplicates, Sum, Nominals, SamePools, SortPools, StampPools, SoundPools, HoldTheSame, PoolIds;
    EvidenceIsHeard(s, ctx, cluster);
    SoundPoolsPass(s, pools);
    SamePoolsAreTheSame(pools, s.records.clusters[cluster].record.pools);
    FirstProblemIsNoStaleness(s, pools);
  }

  lemma {:induction false} FirstProblemIsNoStaleness(s: State, pools: seq<Pool>)
    ensures FirstPoolProblem(s, pools) != Some(StaleGeneration)
  {
    if pools != [] {
      FirstProblemIsNoStaleness(s, pools[..|pools| - 1]);
    }
  }

  /** The first pool that is not sound names the error, by what is wrong with it first. */
  lemma {:induction false} FirstBadPool(s: State, pools: seq<Pool>, i: nat)
    requires i < |pools| && PoolProblem(s, pools[i]).Some?
    requires forall k :: 0 <= k < i ==> PoolProblem(s, pools[k]).None?
    ensures FirstPoolProblem(s, pools) == PoolProblem(s, pools[i])
  {
    hide PoolProblem;
    var n := |pools| - 1;
    if i < n {
      FirstBadPool(s, pools[..n], i);
    } else {
      NoPoolProblem(s, pools[..n]);
    }
  }

  lemma BadPool(s: State, pool: Pool)
    ensures var p := PoolProblem(s, pool);
            var placeless := pool.kind.Accelerator? && pool.acceleratorClass == [];
            && (p == Some(InvalidArgument) <==> pool.id == [] || (pool.ledger.Closes() && placeless))
            && (p == Some(CapacityInconsistent) <==> pool.id != [] && !pool.ledger.Closes())
            && (p == Some(NotFound) <==>
                  && pool.id != [] && pool.ledger.Closes() && pool.acceleratorClass != []
                  && pool.acceleratorClass !in s.records.acceleratorClasses)
            && (p.Some? ==> p.value in {InvalidArgument, CapacityInconsistent, NotFound})
  {
  }

  /** Capacity that is not outdated and not acceptable is refused for the first thing wrong with it. */
  lemma BadCapacitySettles(s: State, ctx: Context, now: I64, cluster: Id, target: U64, generation: U64, pools: seq<Pool>)
    requires Gate(s, ctx).Open? && EvidenceProblem(s, ctx, cluster).None?
    ensures var reply := Publish(s, ctx, now, PublishedCapacity(cluster, target, generation, pools)).1;
            var r := s.records.clusters[cluster].record;
            var timely := !(0 < target < r.generation) && r.capacityGeneration <= generation;
            && (generation == 0 ==> reply == Err(InvalidArgument))
            && (generation > 0 && |pools| > 1024 ==> reply == Err(BoundExceeded))
            && (generation > 0 && |pools| <= 1024 && timely ==>
                  if FirstPoolProblem(s, pools).Some? then reply == Err(FirstPoolProblem(s, pools).value)
                  else if exists i, j :: 0 <= i < j < |pools| && pools[i].id == pools[j].id then reply == Err(InvalidArgument)
                  else Sum(Nominals(pools)) > U64_MAX ==> reply == Err(CapacityInconsistent))
  {
    hide AdvanceAuthority, CountAccepted, CountRefusal, CountMilestone, StampFor, Bumped, EvidenceProblem, FirstPoolProblem,
         Sum, Nominals, SamePools, SortPools, StampPools;
    EvidenceIsHeard(s, ctx, cluster);
    assert forall i :: 0 <= i < |pools| ==> PoolIds(pools)[i] == pools[i].id;
    assert HasDuplicates(PoolIds(pools)) <==> exists i, j :: 0 <= i < j < |pools| && PoolIds(pools)[i] == PoolIds(pools)[j];
    hide HasDuplicates, PoolIds;
  }

  /** The stored pools are the published ones, each carrying the publication's evidence. */
  lemma StoredPoolsAreThePublished(s: State, ctx: Context, now: I64, cluster: Id, target: U64, generation: U64, pools: seq<Pool>)
    requires Gave(Publish(s, ctx, now, PublishedCapacity(cluster, target, generation, pools)).1, Applied)
    ensures var stored := Publish(s, ctx, now, PublishedCapacity(cluster, target, generation, pools)).0.records.clusters;
            && cluster in stored && InIdOrder(stored[cluster].record.pools)
            && multiset(stored[cluster].record.pools) ==
               multiset(seq(|pools|, i requires 0 <= i < |pools| =>
                 pools[i].(precision := ctx.precision, evidenceClass := ctx.evidenceClass,
                           generation := if pools[i].generation > 0 then pools[i].generation else generation)))
  {
    hide AdvanceAuthority, CountAccepted, CountRefusal, CountMilestone, StampFor, Bumped, EvidenceProblem, FirstPoolProblem,
         HasDuplicates, Sum, Nominals, SamePools, SortPools, StampPools;
    SortedPools(StampPools(pools, ctx, generation));
    StampedPools(pools, ctx, generation);
  }

  lemma StampedPools(pools: seq<Pool>, ctx: Context, generation: U64)
    ensures StampPools(pools, ctx, generation) ==
            seq(|pools|, i requires 0 <= i < |pools| =>
              pools[i].(precision := ctx.precision, evidenceClass := ctx.evidenceClass,
                        generation := if pools[i].generation > 0 then pools[i].generation else generation))
  {
  }

  // ---------------------------------------------------------------------------------
  // Migrations
  // ---------------------------------------------------------------------------------

  /** The migration is stored as current and as the workload's latest one. What it supersedes is
      marked and stops being current; no other migration changes. */
  ghost predicate Installs(prior: Records, after: Records, r: Migration.MigrationRecord, stamp: Stamp) {
    && after == prior.(migrations := after.migrations,
                       superseded := if r.supersedes == [] then prior.superseded
                                     else prior.superseded[r.workload := r.supersedes],
                       latestMigration := prior.latestMigration[r.workload := r.id])
    && after.migrations.Keys == prior.migrations.Keys + {r.id}
    && after.migrations[r.id] == Entry(r, Currentness.Current, stamp)
    && forall id :: id in prior.migrations && id != r.id ==>
         after.migrations[id] ==
         if id == r.supersedes && id != [] && prior.migrations[id].currentness.Current?
         then prior.migrations[id].(currentness := Currentness.Stale) else prior.migrations[id]
  }

  lemma ValidMigrationsAreNamed(s: State, ctx: Context, r: Migration.MigrationRecord)
    requires MigrationProblem(s, ctx, r).None?
    ensures r.id != [] && r.supersedes != r.id
  {
  }

  /** The table with the migration stored and what it supersedes demoted. */
  lemma OneMigrationDemoted(t: map<Id, Entry<Migration.MigrationRecord>>, e: Entry<Migration.MigrationRecord>, id: Id, supersedes: Id)
    requires supersedes != id
    ensures var after := if supersedes == [] then t[id := e] else DemoteMigration(t[id := e], supersedes);
            && after.Keys == t.Keys + {id} && after[id] == e
            && forall other :: other in t && other != id ==>
                 after[other] == if other == supersedes && other != [] && t[other].currentness.Current?
                                 then t[other].(currentness := Currentness.Stale) else t[other]
  {
  }

  lemma StoredMigrationInstalls(s: State, ctx: Context, now: I64, r: Migration.MigrationRecord)
    requires MigrationProblem(s, ctx, r).None? && MigrationVerdict(s, ctx, now, r).Store?
    ensures Installs(s.records, MigrationVerdict(s, ctx, now, r).records, r, StampFor(ctx, now))
  {
    ValidMigrationsAreNamed(s, ctx, r);
    hide MigrationProblem, StampFor, ReplayedSequence, DemoteMigration;
    OneMigrationDemoted(s.records.migrations, Entry(r, Currentness.Current, StampFor(ctx, now)), r.id, r.supersedes);
  }

  /** A migration of valid content that refers to known records. */
  lemma MigrationSettles(s: State, ctx: Context, now: I64, r: Migration.MigrationRecord)
    requires Gate(s, ctx).Open? && MigrationProblem(s, ctx, r).None?
    ensures var (t, reply) := Publish(s, ctx, now, PublishedMigration(r));
            var prior := s.records.migrations;
            var known := r.id in prior;
            var same := known && prior[r.id].record == r;
            && (Gave(reply, Duplicate) <==> same)
            && (Gave(reply, Superseded) <==>
                  !same && !Reused(s, ctx) && known && prior[r.id].record.generation > r.generation)
            && (reply == Err(Conflict) <==>
                  !same && (Reused(s, ctx) || (known && prior[r.id].record.generation == r.generation)))
            && (reply == Err(BoundExceeded) <==>
                  && !same && !Reused(s, ctx) && (known ==> prior[r.id].record.generation < r.generation)
                  && |prior| >= s.bounds.migrationHistory)
            && (Gave(reply, Applied) <==>
                  && !same && !Reused(s, ctx) && (known ==> prior[r.id].record.generation < r.generation)
                  && |prior| < s.bounds.migrationHistory)
            && if Gave(reply, Applied) then Installs(s.records, t.records, r, StampFor(ctx, now)) else t.records == s.records
  {
    hide MigrationProblem, StampFor, AdvanceAuthority, CountAccepted, CountRefusal, CountMilestone, Bumped, Installs,
         DemoteMigration;
    if MigrationVerdict(s, ctx, now, r).Store? {
      StoredMigrationInstalls(s, ctx, now, r);
    }
  }

  /** An event reaches a migration exactly when it names its generation and the migration is neither
      retired nor superseded. */
  predicate Addressed(s: State, id: Id, generation: U64) {
    && id in s.records.migrations && generation > 0 && generation == s.records.migrations[id].record.generation
    && !s.records.migrations[id].currentness.Retired?
    && !(s.records.migrations[id].record.workload in s.records.superseded
         && s.records.superseded[s.records.migrations[id].record.workload] == id)
  }

  /** The outcome that goes with a stage, except that a demand for revalidation keeps it. */
  function OutcomeAfter(stage: Migration.Stage, before: Migration.Outcome): Migration.Outcome {
    if stage == Migration.RevalidationRequired then before
    else if stage == Migration.Committed then Migration.CommittedOutcome
    else if stage == Migration.RolledBack then Migration.RolledBackOutcome
    else if stage == Migration.Failed then Migration.FailedOutcome
    else if stage == Migration.OutcomeUnknown then Migration.UnknownOutcome
    else Migration.InProgress
  }

  /** What the event makes of the migration. */
  function Moved(m: Migration.MigrationRecord, ctx: Context, now: I64, stage: Migration.Stage, detail: Text): Migration.MigrationRecord {
    m.(stage := stage, outcome := OutcomeAfter(stage, m.outcome),
       revalidationPending := m.revalidationPending || stage == Migration.RevalidationRequired,
       events := m.events + [Migration.StageEvent(m.generation, stage, ctx.sequence, StampFor(ctx, now).observedAt,
                                                  ctx.precision, ctx.evidenceClass, detail)])
  }

  lemma AdvanceMoves(m: Migration.MigrationRecord, ctx: Context, now: I64, stage: Migration.Stage, detail: Text)
    ensures Migration.Advance(m, StageEventFor(ctx, now, m.generation, stage, detail)) == Moved(m, ctx, now, stage, detail)
  {
  }

  /** A stage event that reaches its migration: out of order unless its number follows the last
      recorded one, refused when the machine has no such step, counted once at a terminal stage,
      and otherwise appended; stage and outcome follow it. */
  lemma StageSettles(s: State, ctx: Context, now: I64, id: Id, generation: U64, stage: Migration.Stage, detail: Text)
    requires Gate(s, ctx).Open? && Addressed(s, id, generation)
    ensures var (t, reply) := Publish(s, ctx, now, PublishedStage(id, generation, stage, detail));
            var m := s.records.migrations[id].record;
            var late := m.events != [] && ctx.sequence <= m.events[|m.events| - 1].sequence;
            var ended := m.stage in {Migration.Committed, Migration.RolledBack, Migration.Failed};
            var full := |m.events| >= 256;
            && (reply == Err(SequenceRegression) <==> late)
            && (reply == Err(InvalidTransition) <==> !late && stage != m.stage && !Migration.IsValidTransition(m.stage, stage))
            && (Gave(reply, Duplicate) <==> !late && stage == m.stage && ended)
            && (reply == Err(BoundExceeded) <==>
                  !late && !ended && full && (stage == m.stage || Migration.IsValidTransition(m.stage, stage)))
            && (Gave(reply, Applied) <==>
                  !late && !ended && !full && (stage == m.stage || Migration.IsValidTransition(m.stage, stage)))
            && t.records ==
               if Gave(reply, Applied) then
                 s.records.(migrations := s.records.migrations[id :=
                   Entry(Moved(m, ctx, now, stage, detail), Currentness.Current, StampFor(ctx, now))])
               else s.records
  {
    hide AdvanceAuthority, CountAccepted, CountRefusal, CountMilestone, Bumped, Moved, Migration.Advance, StageEventFor,
         Migration.IsValidTransition, StampFor;
    AdvanceMoves(s.records.migrations[id].record, ctx, now, stage, detail);
    EndedStagesStay(s.records.migrations[id].record.stage, stage);
  }

  lemma EndedStagesStay(from: Migration.Stage, to: Migration.Stage)
    ensures Migration.IsTerminal(from) ==> !Migration.IsValidTransition(from, to)
  {
  }

  /** Events that do not reach a migration leave everything as it is. */
  lemma OtherStagesSettle(s: State, ctx: Context, now: I64, id: Id, generation: U64, stage: Migration.Stage, detail: Text)
    requires Gate(s, ctx).Open? && !Addressed(s, id, generation)
    ensures var (t, reply) := Publish(s, ctx, now, PublishedStage(id, generation, stage, detail));
            var known := id in s.records.migrations;
            && t.records == s.records
            && (reply == Err(NotFound) <==> !known)
            && (reply == Err(InvalidArgument) <==>
                  known && (generation == 0 || generation > s.records.migrations[id].record.generation))
            && (reply == Err(Conflict) <==>
                  && known && 0 < generation == s.records.migrations[id].record.generation
                  && s.records.migrations[id].currentness.Retired?)
            && (reply != Err(NotFound) && reply != Err(InvalidArgument) && reply != Err(Conflict) ==>
                  reply == Err(StaleGeneration))
  {
    hide AdvanceAuthority, CountAccepted, CountMilestone, Bumped, StampFor, Migration.IsAcceptableEvent,
         Migration.IsTerminal, Migration.Advance, Migration.Last;
  }

  // ---------------------------------------------------------------------------------
  // Placements and migrations that are not fit
  // ---------------------------------------------------------------------------------

  /** A placement is fit when it is valid, names the sender's federation, and its workload and all
      the clusters it names are registered. */
  lemma PlacementIsFit(s: State, ctx: Context, r: PlacementRecord)
    ensures PlacementProblem(s, ctx, r).None? <==>
            && SpeaksForFederation(s, ctx) && r.Problem().None? && r.federation == ctx.federation
            && r.workload in s.records.workloads && r.selected in s.records.clusters
            && forall i :: 0 <= i < |r.candidates| ==> r.candidates[i].cluster in s.records.clusters
    ensures SpeaksForFederation(s, ctx) && r.Problem().None? && r.federation == ctx.federation ==>
              PlacementProblem(s, ctx, r).None? || PlacementProblem(s, ctx, r) == Some(NotFound)
    ensures SpeaksForFederation(s, ctx) && r.Problem().None? && r.federation != ctx.federation ==>
              PlacementProblem(s, ctx, r) == Some(InvalidArgument)
    ensures SpeaksForFederation(s, ctx) && r.Problem().Some? ==> PlacementProblem(s, ctx, r) == r.Problem()
  {
    hide PlacementRecord.Problem;
    assert forall i :: 0 <= i < |r.candidates| ==> r.CandidateIds()[i] == r.candidates[i].cluster;
  }

  lemma MigrationIsFit(s: State, ctx: Context, r: Migration.MigrationRecord)
    ensures MigrationProblem(s, ctx, r).None? <==>
            && SpeaksForFederation(s, ctx) && Migration.RecordProblem(r).None? && r.federation == ctx.federation
            && r.workload in s.records.workloads && r.source in s.records.clusters && r.destination in s.records.clusters
    ensures SpeaksForFederation(s, ctx) && Migration.RecordProblem(r).None? && r.federation == ctx.federation ==>
              MigrationProblem(s, ctx, r).None? || MigrationProblem(s, ctx, r) == Some(NotFound)
    ensures SpeaksForFederation(s, ctx) && Migration.RecordProblem(r).None? && r.federation != ctx.federation ==>
              MigrationProblem(s, ctx, r) == Some(InvalidArgument)
    ensures SpeaksForFederation(s, ctx) && Migration.RecordProblem(r).Some? ==>
              MigrationProblem(s, ctx, r) == Migration.RecordProblem(r)
  {
    hide Migration.RecordProblem;
  }

  /** What is not fit, or is about something unknown, is refused and changes no record. */
  lemma UnfitEvidenceSettles(s: State, ctx: Context, now: I64, p: Publication)
    requires Gate(s, ctx).Open? && !p.Structural()
    requires match p
             case PublishedRetirement(id, _) => id !in s.records.clusters
             case PublishedCapability(id, _, _, _) => EvidenceProblem(s, ctx, id).Some?
             case PublishedCapacity(id, _, _, _) => EvidenceProblem(s, ctx, id).Some?
             case PublishedPlacement(r, _) => PlacementProblem(s, ctx, r).Some?
             case PublishedMigration(r) => MigrationProblem(s, ctx, r).Some?
             case PublishedPortability(r, _, _) =>
               r.Problem().Some? || r.workload !in s.records.workloads || r.destination !in s.records.clusters
             case _ => false
    ensures Publish(s, ctx, now, p).0.records == s.records
    ensures Publish(s, ctx, now, p).1 ==
            match p
            case PublishedRetirement(_, _) => Err(NotFound)
            case PublishedCapability(id, _, _, _) => Err(EvidenceProblem(s, ctx, id).value)
            case PublishedCapacity(id, _, _, _) => Err(EvidenceProblem(s, ctx, id).value)
            case PublishedPlacement(r, _) => Err(PlacementProblem(s, ctx, r).value)
            case PublishedMigration(r) => Err(MigrationProblem(s, ctx, r).value)
            case PublishedPortability(r, _, _) => Err(if r.Problem().Some? then r.Problem().value else NotFound)
            case _ => Publish(s, ctx, now, p).1
  {
    hide EvidenceProblem, PlacementProblem, MigrationProblem, PortabilityRecord.Problem, CountRefusal, Finish, Bumped,
         CountMilestone, FederationVerdict, SiteVerdict, AcceleratorClassVerdict, RuntimeVerdict, BackendVerdict, DomainVerdict,
         PolicyVerdict, ArtifactVerdict, WorkloadClassVerdict, WorkloadVerdict, ClusterVerdict, StageVerdict;
  }

  // ---------------------------------------------------------------------------------
  // Portability
  // ---------------------------------------------------------------------------------

  /** A valid assessment of a known workload on a known cluster: repeated exactly when it reads like
      the stored one, whatever federation it names; outdated exactly when the stored one was made
      later or, at that time, under a higher sequence number; and otherwise installed. */
  lemma PortabilitySettles(
    s: State, ctx: Context, now: I64, r: PortabilityRecord, currentness: Currentness, observedAt: I64)
    requires Gate(s, ctx).Open? && r.Problem().None?
    requires r.workload in s.records.workloads && r.destination in s.records.clusters
    ensures var (t, reply) := Publish(s, ctx, now, PublishedPortability(r, currentness, observedAt));
            var table, key := s.records.portability, PortabilityKey(r.workload, r.destination);
            var known := key in table;
            var same := known && table[key].currentness == currentness && table[key].record.(federation := r.federation) == r;
            var newer := known && (|| table[key].stamp.observedAt > observedAt
                                   || (table[key].stamp.observedAt == observedAt && table[key].stamp.sequence > ctx.sequence));
            && (Gave(reply, Duplicate) <==> same)
            && (Gave(reply, Superseded) <==> !same && newer)
            && (reply == Err(BoundExceeded) <==> !known && |table| >= s.bounds.portabilityRecords)
            && (Gave(reply, Applied) <==> if known then !same && !newer else |table| < s.bounds.portabilityRecords)
            && if Gave(reply, Applied) then
                 t.records == s.records.(portability := table[key := Entry(
                   if r.federation == [] then r.(federation := ctx.federation) else r,
                   Currentness.Current, StampFor(ctx, now))])
               else t.records == s.records
  {
    hide PortabilityRecord.Problem, AdvanceAuthority, CountAccepted, CountRefusal, CountMilestone, StampFor, Bumped;
  }
}
