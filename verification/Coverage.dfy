/** What a stranded-capacity report covers, and by what each pool in it is judged
    (src/analysis.cpp). */
module Coverage {
  import opened Foundation
  import opened Capability
  import opened Capacity
  import opened Model
  import opened Deciders
  import opened Stranding
  import opened Causes
  import opened Assessing

  // ---------------------------------------------------------------------------------
  // Scope
  // ---------------------------------------------------------------------------------

  /** The request asks about the cluster: it is not retired, and its federation and its identifier
      are the ones asked for, if any are. */
  predicate InScope(r: Request, e: Entry<ClusterRecord>) {
    && e.currentness != Currentness.Retired
    && r.federation in {[], e.record.federation} && r.cluster in {[], e.record.id}
  }

  predicate Timely(r: Request, e: Entry<ClusterRecord>) {
    e.currentness == Currentness.Current || r.includeStale
  }

  predicate Wanted(r: Request, pool: Pool) {
    pool.kind == r.kind && r.acceleratorClass in {[], pool.acceleratorClass}
  }

  lemma TreatmentMeans(r: Request, e: Entry<ClusterRecord>)
    ensures Treat(r, e).Analyzed? <==> InScope(r, e) && Timely(r, e)
    ensures Treat(r, e).ExcludedStale? <==> InScope(r, e) && !Timely(r, e)
  {
  }

  lemma CountingMeans(r: Request, pool: Pool)
    ensures Counts(r, pool) <==> Wanted(r, pool)
  {
  }

  lemma {:induction false} PoolFindingsCover(
    snapshot: Snapshot, r: Request, w: Option<WorkloadRecord>, c: ClusterRecord, pools: seq<Pool>, f: Finding)
    ensures f in PoolFindings(snapshot, r, w, c, pools) <==>
            exists j :: 0 <= j < |pools| && Wanted(r, pools[j]) && f == FindingOf(snapshot, w, c, pools[j])
  {
    hide FindingOf, Counts, Wanted;
    if pools != [] {
      var before, pool := pools[..|pools| - 1], pools[|pools| - 1];
      assert pools == before + [pool];
      assert forall j :: 0 <= j < |before| ==> pools[j] == before[j];
      PoolFindingsCover(snapshot, r, w, c, before, f);
      CountingMeans(r, pool);
      if Wanted(r, pool) && f == FindingOf(snapshot, w, c, pool) {
        assert pools[|pools| - 1] == pool;
      }
    }
  }

  /** The finding is about a pool of the i-th cluster. */
  ghost predicate About(
    snapshot: Snapshot, r: Request, w: Option<WorkloadRecord>, e: Entry<ClusterRecord>, f: Finding)
  {
    && InScope(r, e) && Timely(r, e)
    && exists j :: 0 <= j < |e.record.pools| && Wanted(r, e.record.pools[j]) && f == FindingOf(snapshot, w, e.record, e.record.pools[j])
  }

  lemma {:induction false} ClusterFindingsCover(
    snapshot: Snapshot, r: Request, w: Option<WorkloadRecord>, clusters: seq<Entry<ClusterRecord>>, f: Finding)
    ensures f in ClusterFindings(snapshot, r, w, clusters) <==>
            exists i :: 0 <= i < |clusters| && About(snapshot, r, w, clusters[i], f)
  {
    hide PoolFindings, FindingOf, Treat, InScope, Timely, Wanted;
    if clusters != [] {
      var before, e := clusters[..|clusters| - 1], clusters[|clusters| - 1];
      assert clusters == before + [e];
      assert forall i :: 0 <= i < |before| ==> clusters[i] == before[i];
      ClusterFindingsCover(snapshot, r, w, before, f);
      TreatmentMeans(r, e);
      PoolFindingsCover(snapshot, r, w, e.record, e.record.pools, f);
      if About(snapshot, r, w, e, f) {
        assert clusters[|clusters| - 1] == e;
      }
    }
  }

  function HowManyWanted(r: Request, pools: seq<Pool>): nat {
    if pools == [] then 0 else HowManyWanted(r, pools[1..]) + if Wanted(r, pools[0]) then 1 else 0
  }

  function HowManyInAll(r: Request, clusters: seq<Entry<ClusterRecord>>): nat {
    if clusters == [] then 0
    else HowManyInAll(r, clusters[1..])
         + if InScope(r, clusters[0]) && Timely(r, clusters[0]) then HowManyWanted(r, clusters[0].record.pools) else 0
  }

  lemma {:induction false} WantedAtEnd(r: Request, pools: seq<Pool>, pool: Pool)
    ensures HowManyWanted(r, pools + [pool]) == HowManyWanted(r, pools) + if Wanted(r, pool) then 1 else 0
  {
    hide Wanted;
    if pools == [] {
      assert pools + [pool] == [pool];
      assert [pool][1..] == [];
    } else {
      assert (pools + [pool])[1..] == pools[1..] + [pool];
      WantedAtEnd(r, pools[1..], pool);
    }
  }

  lemma {:induction false} AllAtEnd(r: Request, clusters: seq<Entry<ClusterRecord>>, e: Entry<ClusterRecord>)
    ensures HowManyInAll(r, clusters + [e]) ==
            HowManyInAll(r, clusters) + if InScope(r, e) && Timely(r, e) then HowManyWanted(r, e.record.pools) else 0
  {
    hide InScope, Timely, HowManyWanted;
    if clusters == [] {
      assert clusters + [e] == [e];
      assert [e][1..] == [];
    } else {
      assert (clusters + [e])[1..] == clusters[1..] + [e];
      AllAtEnd(r, clusters[1..], e);
    }
  }

  lemma {:induction false} OneFindingPerPool(
    snapshot: Snapshot, r: Request, w: Option<WorkloadRecord>, c: ClusterRecord, pools: seq<Pool>)
    ensures |PoolFindings(snapshot, r, w, c, pools)| == HowManyWanted(r, pools)
  {
    hide FindingOf, Counts, Wanted;
    if pools != [] {
      var before, pool := pools[..|pools| - 1], pools[|pools| - 1];
      assert pools == before + [pool];
      OneFindingPerPool(snapshot, r, w, c, before);
      WantedAtEnd(r, before, pool);
      CountingMeans(r, pool);
    }
  }

  lemma {:induction false} FindingsAreCounted(
    snapshot: Snapshot, r: Request, w: Option<WorkloadRecord>, clusters: seq<Entry<ClusterRecord>>)
    ensures |ClusterFindings(snapshot, r, w, clusters)| == HowManyInAll(r, clusters)
  {
    hide PoolFindings, Treat, InScope, Timely;
    if clusters != [] {
      var before, e := clusters[..|clusters| - 1], clusters[|clusters| - 1];
      assert clusters == before + [e];
      FindingsAreCounted(snapshot, r, w, before);
      AllAtEnd(r, before, e);
      TreatmentMeans(r, e);
      OneFindingPerPool(snapshot, r, w, e.record, e.record.pools);
    }
  }

  lemma {:induction false} StaleClusters(r: Request, clusters: seq<Entry<ClusterRecord>>, id: Id)
    ensures id in StaleIds(r, clusters) <==>
            exists i :: 0 <= i < |clusters| && clusters[i].record.id == id && InScope(r, clusters[i]) && !Timely(r, clusters[i])
  {
    hide Treat, InScope, Timely;
    if clusters != [] {
      var before, e := clusters[..|clusters| - 1], clusters[|clusters| - 1];
      assert clusters == before + [e] && clusters[|clusters| - 1] == e;
      assert forall i :: 0 <= i < |before| ==> clusters[i] == before[i];
      StaleClusters(r, before, id);
      TreatmentMeans(r, e);
    }
  }

  ghost predicate HasNothing(r: Request, e: Entry<ClusterRecord>) {
    forall j :: 0 <= j < |e.record.pools| ==> !Wanted(r, e.record.pools[j])
  }

  lemma NothingMeans(r: Request, e: Entry<ClusterRecord>)
    ensures NoPool(r, e.record) <==> HasNothing(r, e)
  {
    hide Counts, Wanted;
    forall j | 0 <= j < |e.record.pools| ensures Counts(r, e.record.pools[j]) <==> Wanted(r, e.record.pools[j]) {
      CountingMeans(r, e.record.pools[j]);
    }
  }

  lemma {:induction false} UnknownClusters(r: Request, clusters: seq<Entry<ClusterRecord>>, id: Id)
    ensures id in UnknownIds(r, clusters) <==>
            exists i :: 0 <= i < |clusters| && clusters[i].record.id == id
                        && InScope(r, clusters[i]) && Timely(r, clusters[i]) && HasNothing(r, clusters[i])
  {
    hide Treat, InScope, Timely, NoPool, HasNothing;
    if clusters != [] {
      var before, e := clusters[..|clusters| - 1], clusters[|clusters| - 1];
      assert clusters == before + [e] && clusters[|clusters| - 1] == e;
      assert forall i :: 0 <= i < |before| ==> clusters[i] == before[i];
      UnknownClusters(r, before, id);
      TreatmentMeans(r, e);
      NothingMeans(r, e);
    }
  }

  /** A report holds one finding for every wanted pool of every cluster in scope whose evidence is
      current or asked for, and no other. Clusters in scope it passes over are named: those whose
      evidence is not current, and those without a wanted pool. */
  lemma ReportCovers(snapshot: Snapshot, r: Request, f: Finding, id: Id)
    requires StrandedReport(snapshot, r).Ok?
    ensures var report := StrandedReport(snapshot, r).value;
            var w := SelectedWorkload(snapshot.workloads, r.workloadClass);
            && (f in report.findings <==> exists i :: 0 <= i < |snapshot.clusters| && About(snapshot, r, w, snapshot.clusters[i], f))
            && |report.findings| == HowManyInAll(r, snapshot.clusters)
            && (id in report.excludedStale <==>
                  exists i :: 0 <= i < |snapshot.clusters| && snapshot.clusters[i].record.id == id
                              && InScope(r, snapshot.clusters[i]) && !Timely(r, snapshot.clusters[i]))
            && (id in report.excludedUnknown <==>
                  exists i :: 0 <= i < |snapshot.clusters| && snapshot.clusters[i].record.id == id
                              && InScope(r, snapshot.clusters[i]) && Timely(r, snapshot.clusters[i])
                              && HasNothing(r, snapshot.clusters[i]))
  {
    hide SelectedWorkload, ClusterFindings, Accumulated, Summary.Closes, StaleIds, UnknownIds, About, HowManyInAll, InScope, Timely,
         HasNothing;
    var w := SelectedWorkload(snapshot.workloads, r.workloadClass);
    ClusterFindingsCover(snapshot, r, w, snapshot.clusters, f);
    FindingsAreCounted(snapshot, r, w, snapshot.clusters);
    StaleClusters(r, snapshot.clusters, id);
    UnknownClusters(r, snapshot.clusters, id);
  }

  // ---------------------------------------------------------------------------------
  // What a pool is judged by
  // ---------------------------------------------------------------------------------

  /** The first of the cluster's runtimes that the snapshot knows. */
  lemma {:induction false} PrimaryIsFirstKnown(snapshot: Snapshot, runtimes: seq<Id>)
    ensures PrimaryRuntime(snapshot, runtimes).None? <==> forall i :: 0 <= i < |runtimes| ==> runtimes[i] !in snapshot.runtimes
    ensures PrimaryRuntime(snapshot, runtimes).Some? ==>
              exists i :: 0 <= i < |runtimes| && runtimes[i] in snapshot.runtimes
                          && PrimaryRuntime(snapshot, runtimes).value == snapshot.runtimes[runtimes[i]]
                          && forall k :: 0 <= k < i ==> runtimes[k] !in snapshot.runtimes
  {
    if runtimes != [] && runtimes[0] !in snapshot.runtimes {
      PrimaryIsFirstKnown(snapshot, runtimes[1..]);
      if PrimaryRuntime(snapshot, runtimes[1..]).Some? {
        var i :| 0 <= i < |runtimes[1..]| && runtimes[1..][i] in snapshot.runtimes
                 && PrimaryRuntime(snapshot, runtimes[1..]).value == snapshot.runtimes[runtimes[1..][i]]
                 && forall k :: 0 <= k < i ==> runtimes[1..][k] !in snapshot.runtimes;
        forall k | 0 <= k < i + 1 ensures runtimes[k] !in snapshot.runtimes {
          if k > 0 {
            assert runtimes[1..][k - 1] == runtimes[k];
          }
        }
        assert runtimes[i + 1] == runtimes[1..][i];
      } else {
        assert forall i :: 0 < i < |runtimes| ==> runtimes[i] == runtimes[1..][i - 1];
      }
    }
  }

  /** A pool is judged by its own cluster and class, the policy and artifact its workload names, and
      the site of the cluster, each where the snapshot has it. */
  lemma TargetIsRead(snapshot: Snapshot, w: Option<WorkloadRecord>, c: ClusterRecord, pool: Pool)
    ensures var t := TargetOf(snapshot, w, c, pool);
            && t.workload == w && t.cluster == c && t.runtime == PrimaryRuntime(snapshot, c.runtimes)
            && (t.site == Some(c.site) <==> c.site in snapshot.sites) && (t.site == None <==> c.site !in snapshot.sites)
            && (t.acceleratorClass.Some? <==> pool.acceleratorClass != [] && pool.acceleratorClass in snapshot.acceleratorClasses)
            && (t.acceleratorClass.Some? ==> t.acceleratorClass.value == snapshot.acceleratorClasses[pool.acceleratorClass])
            && (t.policy.Some? <==> w.Some? && w.value.policy != [] && w.value.policy in snapshot.policies)
            && (t.policy.Some? ==> t.policy.value == snapshot.policies[w.value.policy])
            && (t.artifact.Some? <==> w.Some? && w.value.artifact in snapshot.artifacts)
            && (t.artifact.Some? ==> t.artifact.value == snapshot.artifacts[w.value.artifact])
            && t.observed == Merged(c.capabilities.limit,
                                    if t.acceleratorClass.Some? then Some(t.acceleratorClass.value.capabilities) else None,
                                    c.capabilities,
                                    if t.runtime.Some? then Some(t.runtime.value.capabilities) else None).entries
  {
    hide Merged;
  }

  /** A finding names its pool and splits its idle capacity by what speaks against the pool: usable
      when nothing does and nothing is left open, unknown when it is declined or something is left
      open and nothing speaks against it, and stranded in every other case. */
  lemma FindingIsJudged(snapshot: Snapshot, w: Option<WorkloadRecord>, c: ClusterRecord, pool: Pool)
    ensures var f := FindingOf(snapshot, w, c, pool);
            var t := TargetOf(snapshot, w, c, pool);
            var declined := Declined(t, pool.kind);
            var objection := exists reason :: Unmet(t, reason) || Besides(t, reason);
            && f.cluster == c.id && f.site == c.site && f.pool == pool.id && f.acceleratorClass == pool.acceleratorClass
            && f.kind == pool.kind && f.ledger == pool.ledger && f.breakdown.idle == pool.ledger.idle
            && f.breakdown.usable == (if !declined && !objection && !LeavesOpen(t) then pool.ledger.idle else 0)
            && f.breakdown.unknown == (if declined || (!objection && LeavesOpen(t)) then pool.ledger.idle else 0)
            && f.breakdown.Stranded() == (if !declined && objection then pool.ledger.idle else 0)
  {
    hide PoolEligibility, TargetOf, Unmet, Besides, LeavesOpen, Declined, BreakdownOf, Breakdown.Stranded;
    var t := TargetOf(snapshot, w, c, pool);
    EligibleExactly(t, pool.kind);
    FindingPartitionsIdle(PoolEligibility(t, pool.kind), pool.ledger.idle);
  }

  // ---------------------------------------------------------------------------------
  // What a placement is judged by
  // ---------------------------------------------------------------------------------

  lemma {:induction false} FirstClassIsFirstKnown(snapshot: Snapshot, ids: seq<Id>)
    ensures FirstKnownClass(snapshot, ids).None? <==> forall i :: 0 <= i < |ids| ==> ids[i] !in snapshot.acceleratorClasses
    ensures FirstKnownClass(snapshot, ids).Some? ==>
              exists i :: 0 <= i < |ids| && ids[i] in snapshot.acceleratorClasses
                          && FirstKnownClass(snapshot, ids).value == snapshot.acceleratorClasses[ids[i]]
                          && forall k :: 0 <= k < i ==> ids[k] !in snapshot.acceleratorClasses
  {
    if ids != [] && ids[0] !in snapshot.acceleratorClasses {
      FirstClassIsFirstKnown(snapshot, ids[1..]);
      if FirstKnownClass(snapshot, ids[1..]).Some? {
        var i :| 0 <= i < |ids[1..]| && ids[1..][i] in snapshot.acceleratorClasses
                 && FirstKnownClass(snapshot, ids[1..]).value == snapshot.acceleratorClasses[ids[1..][i]]
                 && forall k :: 0 <= k < i ==> ids[1..][k] !in snapshot.acceleratorClasses;
        forall k | 0 <= k < i + 1 ensures ids[k] !in snapshot.acceleratorClasses {
          if k > 0 {
            assert ids[1..][k - 1] == ids[k];
          }
        }
        assert ids[i + 1] == ids[1..][i];
      } else {
        assert forall i :: 0 < i < |ids| ==> ids[i] == ids[1..][i - 1];
      }
    }
  }

  /** A placement is judged by the class its workload prefers, when the snapshot has it, whatever the
      cluster has, and else by the first class of the cluster the snapshot has; by the cluster's
      first runtime alone; and by the policy, artifact and site as a pool is. */
  lemma GatheringIsRead(snapshot: Snapshot, w: Option<WorkloadRecord>, c: ClusterRecord)
    ensures var t := Gathered(snapshot, w, c);
            var preferred := w.Some? && w.value.acceptableClasses != []
                             && w.value.acceptableClasses[0] in snapshot.acceleratorClasses;
            && t.workload == w && t.cluster == c
            && (preferred ==> t.acceleratorClass == Some(snapshot.acceleratorClasses[w.value.acceptableClasses[0]]))
            && (!preferred ==> t.acceleratorClass == FirstKnownClass(snapshot, c.acceleratorClasses))
            && (t.runtime.Some? <==> c.runtimes != [] && c.runtimes[0] in snapshot.runtimes)
            && (t.runtime.Some? ==> t.runtime.value == snapshot.runtimes[c.runtimes[0]])
            && (t.site == Some(c.site) <==> c.site in snapshot.sites) && (t.site == None <==> c.site !in snapshot.sites)
            && (t.policy.Some? <==> w.Some? && w.value.policy != [] && w.value.policy in snapshot.policies)
            && (t.policy.Some? ==> t.policy.value == snapshot.policies[w.value.policy])
            && (t.artifact.Some? <==> w.Some? && w.value.artifact in snapshot.artifacts)
            && (t.artifact.Some? ==> t.artifact.value == snapshot.artifacts[w.value.artifact])
            && t.observed == Merged(MAX_ENTRIES,
                                    if t.acceleratorClass.Some? then Some(t.acceleratorClass.value.capabilities) else None,
                                    c.capabilities,
                                    if t.runtime.Some? then Some(t.runtime.value.capabilities) else None).entries
  {
    hide PutAll, FirstKnownClass;
  }
}
