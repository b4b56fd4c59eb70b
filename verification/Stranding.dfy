/** Stranded capacity: how idle capacity splits into usable, unknown and stranded over a
    snapshot (src/analysis.cpp). */
module Stranding {
  import opened Foundation
  import opened Capability
  import opened Capacity
  import opened Model
  import opened Deciders

  datatype Snapshot = Snapshot(
    federation: Id,
    clusters: seq<Entry<ClusterRecord>>,
    sites: set<Id>,
    acceleratorClasses: map<Id, AcceleratorClassRecord>,
    runtimes: map<Id, RuntimeRecord>,
    domains: seq<DomainRecord>,
    workloads: seq<WorkloadRecord>,
    artifacts: map<Id, ArtifactRecord>,
    policies: map<Id, PolicyRecord>)

  /** An empty identifier asks for all. */
  datatype Request = Request(
    federation: Id, workloadClass: Id, cluster: Id, acceleratorClass: Id, kind: ResourceKind, includeStale: bool)

  function Lookup<T>(table: map<Id, T>, id: Id): Option<T> {
    if id in table then Some(table[id]) else None
  }

  // ---------------------------------------------------------------------------------
  // Selection
  // ---------------------------------------------------------------------------------

  /** The workload of the class with the least identifier. */
  method SelectWorkload(snapshot: Snapshot, workloadClass: Id) returns (selected: Option<WorkloadRecord>)
    ensures selected == SelectedWorkload(snapshot.workloads, workloadClass)
  {
    selected := None;
    for i := 0 to |snapshot.workloads|
      invariant selected == SelectedWorkload(snapshot.workloads[..i], workloadClass)
    {
      assert snapshot.workloads[..i + 1][..i] == snapshot.workloads[..i];
      var w := snapshot.workloads[i];
      if w.workloadClass == workloadClass && (selected.None? || TextLess(w.id, selected.value.id)) {
        selected := Some(w);
      }
    }
    assert snapshot.workloads[..|snapshot.workloads|] == snapshot.workloads;
  }

  function SelectedWorkload(workloads: seq<WorkloadRecord>, workloadClass: Id): Option<WorkloadRecord> {
    if workloads == [] then None
    else
      var before := SelectedWorkload(workloads[..|workloads| - 1], workloadClass);
      var w := workloads[|workloads| - 1];
      if w.workloadClass == workloadClass && (before.None? || TextLess(w.id, before.value.id)) then Some(w) else before
  }

  lemma {:induction false} SelectedIsLeast(workloads: seq<WorkloadRecord>, workloadClass: Id, other: WorkloadRecord)
    requires other in workloads && other.workloadClass == workloadClass
    ensures var s := SelectedWorkload(workloads, workloadClass);
            s.Some? && s.value in workloads && s.value.workloadClass == workloadClass && !TextLess(other.id, s.value.id)
  {
    hide TextLess;
    var before := workloads[..|workloads| - 1];
    var w := workloads[|workloads| - 1];
    assert workloads == before + [w];
    TextOrder(w.id, w.id, w.id);
    if other in before {
      SelectedIsLeast(before, workloadClass, other);
      var s := SelectedWorkload(before, workloadClass).value;
      TextOrder(other.id, w.id, s.id);
      TextOrder(w.id, other.id, w.id);
    } else {
      SelectedIsMember(before, workloadClass);
    }
  }

  lemma {:induction false} SelectedIsMember(workloads: seq<WorkloadRecord>, workloadClass: Id)
    ensures var s := SelectedWorkload(workloads, workloadClass);
            s.Some? ==> s.value in workloads && s.value.workloadClass == workloadClass
  {
    hide TextLess;
    if workloads != [] {
      SelectedIsMember(workloads[..|workloads| - 1], workloadClass);
    }
  }

  datatype Treatment = Skipped | ExcludedStale | Analyzed

  function Treat(r: Request, e: Entry<ClusterRecord>): Treatment {
    if r.federation != [] && e.record.federation != r.federation then Skipped
    else if r.cluster != [] && e.record.id != r.cluster then Skipped
    else if e.currentness.Retired? then Skipped
    else if !e.currentness.Current? && !r.includeStale then ExcludedStale
    else Analyzed
  }

  predicate Counts(r: Request, pool: Pool) {
    pool.kind == r.kind && (r.acceleratorClass != [] ==> pool.acceleratorClass == r.acceleratorClass)
  }

  function PrimaryRuntime(snapshot: Snapshot, runtimes: seq<Id>): Option<RuntimeRecord> {
    if runtimes == [] then None
    else if runtimes[0] in snapshot.runtimes then Some(snapshot.runtimes[runtimes[0]])
    else PrimaryRuntime(snapshot, runtimes[1..])
  }

  function CapabilitiesOfClass(c: Option<AcceleratorClassRecord>): Option<CapabilitySet> {
    if c.Some? then Some(c.value.capabilities) else None
  }

  function CapabilitiesOfRuntime(r: Option<RuntimeRecord>): Option<CapabilitySet> {
    if r.Some? then Some(r.value.capabilities) else None
  }

  function ArtifactOf(snapshot: Snapshot, w: Option<WorkloadRecord>): Option<ArtifactRecord> {
    if w.Some? then Lookup(snapshot.artifacts, w.value.artifact) else None
  }

  function PolicyOf(snapshot: Snapshot, w: Option<WorkloadRecord>): Option<PolicyRecord> {
    if w.Some? && w.value.policy != [] then Lookup(snapshot.policies, w.value.policy) else None
  }

  function ClassOf(snapshot: Snapshot, pool: Pool): Option<AcceleratorClassRecord> {
    if pool.acceleratorClass == [] then None else Lookup(snapshot.acceleratorClasses, pool.acceleratorClass)
  }

  /** Everything the eligibility of one pool is judged by. */
  function TargetOf(snapshot: Snapshot, w: Option<WorkloadRecord>, c: ClusterRecord, pool: Pool): Target {
    var class_ := ClassOf(snapshot, pool);
    var runtime := PrimaryRuntime(snapshot, c.runtimes);
    Target(w, ArtifactOf(snapshot, w), c, if c.site in snapshot.sites then Some(c.site) else None, class_, runtime,
           PolicyOf(snapshot, w),
           Merged(c.capabilities.limit, CapabilitiesOfClass(class_), c.capabilities, CapabilitiesOfRuntime(runtime)).entries)
  }

  // ---------------------------------------------------------------------------------
  // Findings
  // ---------------------------------------------------------------------------------

  datatype Finding = Finding(
    cluster: Id, site: Id, pool: Id, acceleratorClass: Id, kind: ResourceKind, ledger: Ledger, breakdown: Breakdown)

  /** Idle capacity noted once under every reason the pool exhibits. */
  function IdlePerReason(occurrences: Tally, idle: U64): Tally {
    seq(REASON_COUNT, i requires 0 <= i < REASON_COUNT => if occurrences[i] > 0 then idle else 0)
  }

  function BreakdownOf(e: Eligibility, idle: U64): Breakdown {
    if e.decided && e.eligible then Breakdown(idle, idle, 0, EMPTY_TALLY, EMPTY_TALLY)
    else if !e.decided then Breakdown(idle, 0, idle, EMPTY_TALLY, EMPTY_TALLY)
    else Breakdown(idle, 0, 0, EMPTY_TALLY[Index(e.primary) := idle], IdlePerReason(e.occurrences, idle))
  }

  function FindingOf(snapshot: Snapshot, w: Option<WorkloadRecord>, c: ClusterRecord, pool: Pool): Finding {
    Finding(c.id, c.site, pool.id, pool.acceleratorClass, pool.kind, pool.ledger,
            BreakdownOf(PoolEligibility(TargetOf(snapshot, w, c, pool), pool.kind), pool.ledger.idle))
  }

  function PoolFindings(snapshot: Snapshot, r: Request, w: Option<WorkloadRecord>, c: ClusterRecord, pools: seq<Pool>)
    : seq<Finding>
  {
    if pools == [] then []
    else
      var before := PoolFindings(snapshot, r, w, c, pools[..|pools| - 1]);
      var pool := pools[|pools| - 1];
      if Counts(r, pool) then before + [FindingOf(snapshot, w, c, pool)] else before
  }

  function ClusterFindings(snapshot: Snapshot, r: Request, w: Option<WorkloadRecord>, clusters: seq<Entry<ClusterRecord>>)
    : seq<Finding>
  {
    if clusters == [] then []
    else
      var before := ClusterFindings(snapshot, r, w, clusters[..|clusters| - 1]);
      var e := clusters[|clusters| - 1];
      if Treat(r, e).Analyzed? then before + PoolFindings(snapshot, r, w, e.record, e.record.pools) else before
  }

  // ---------------------------------------------------------------------------------
  // Totals
  // ---------------------------------------------------------------------------------

  datatype Summary = Summary(
    nominal: U64, offline: U64, allotted: U64, reserved: U64, draining: U64, unusable: U64,
    idle: U64, usable: U64, stranded: U64, unknown: U64)
  {
    /** usable + stranded + unknown equals idle, in checked arithmetic. */
    predicate Closes() {
      match CheckedAdd(usable, stranded)
      case None => false
      case Some(part) =>
        match CheckedAdd(part, unknown)
        case None => false
        case Some(all) => all == idle
    }
  }

  const NOTHING := Summary(0, 0, 0, 0, 0, 0, 0, 0, 0, 0)

  /** The nominal total is checked, the other totals saturate. */
  function AddFinding(s: Summary, f: Finding): Option<Summary> {
    match CheckedAdd(s.nominal, f.ledger.nominal)
    case None => None
    case Some(nominal) =>
      Some(Summary(nominal,
                   SaturatingAdd(s.offline, f.ledger.offline), SaturatingAdd(s.allotted, f.ledger.allotted),
                   SaturatingAdd(s.reserved, f.ledger.reserved), SaturatingAdd(s.draining, f.ledger.draining),
                   SaturatingAdd(s.unusable, f.ledger.unusable), SaturatingAdd(s.idle, f.ledger.idle),
                   SaturatingAdd(s.usable, f.breakdown.usable), SaturatingAdd(s.stranded, f.breakdown.Stranded()),
                   SaturatingAdd(s.unknown, f.breakdown.unknown)))
  }

  function Accumulated(findings: seq<Finding>): Option<Summary> {
    if findings == [] then Some(NOTHING)
    else
      match Accumulated(findings[..|findings| - 1])
      case None => None
      case Some(s) => AddFinding(s, findings[|findings| - 1])
  }

  lemma {:induction false} OverflowIsFinal(findings: seq<Finding>, more: seq<Finding>)
    requires Accumulated(findings).None?
    ensures Accumulated(findings + more).None?
  {
    hide AddFinding;
    if more == [] {
      assert findings + more == findings;
    } else {
      OverflowIsFinal(findings, more[..|more| - 1]);
      assert (findings + more)[..|findings + more| - 1] == findings + more[..|more| - 1];
    }
  }

  // ---------------------------------------------------------------------------------
  // The report
  // ---------------------------------------------------------------------------------

  datatype Report = Report(summary: Summary, findings: seq<Finding>, excludedStale: seq<Id>, excludedUnknown: seq<Id>)

  function StaleIds(r: Request, clusters: seq<Entry<ClusterRecord>>): seq<Id> {
    if clusters == [] then []
    else
      var before := StaleIds(r, clusters[..|clusters| - 1]);
      var e := clusters[|clusters| - 1];
      if Treat(r, e).ExcludedStale? then before + [e.record.id] else before
  }

  predicate NoPool(r: Request, c: ClusterRecord) {
    forall i :: 0 <= i < |c.pools| ==> !Counts(r, c.pools[i])
  }

  function UnknownIds(r: Request, clusters: seq<Entry<ClusterRecord>>): seq<Id> {
    if clusters == [] then []
    else
      var before := UnknownIds(r, clusters[..|clusters| - 1]);
      var e := clusters[|clusters| - 1];
      if Treat(r, e).Analyzed? && NoPool(r, e.record) then before + [e.record.id] else before
  }

  function StrandedReport(snapshot: Snapshot, r: Request): Result<Report> {
    var w := SelectedWorkload(snapshot.workloads, r.workloadClass);
    if w.None? && r.workloadClass != [] then Err(NotFound)
    else
      var findings := ClusterFindings(snapshot, r, w, snapshot.clusters);
      match Accumulated(findings)
      case None => Err(CapacityInconsistent)
      case Some(summary) =>
        if !summary.Closes() then Err(CapacityInconsistent)
        else Ok(Report(summary, findings, StaleIds(r, snapshot.clusters), UnknownIds(r, snapshot.clusters)))
  }

  method TargetFor(snapshot: Snapshot, w: Option<WorkloadRecord>, c: ClusterRecord, pool: Pool) returns (t: Target)
    ensures t == TargetOf(snapshot, w, c, pool)
  {
    hide Merged;
    var class_ := ClassOf(snapshot, pool);
    var runtime := PrimaryRuntime(snapshot, c.runtimes);
    var observed := MergeCapabilities(c.capabilities.limit, CapabilitiesOfClass(class_), c.capabilities,
                                      CapabilitiesOfRuntime(runtime));
    return Target(w, ArtifactOf(snapshot, w), c, if c.site in snapshot.sites then Some(c.site) else None, class_, runtime,
                  PolicyOf(snapshot, w), observed);
  }

  /** Splits the idle capacity of one pool. The tallies start empty, so adding to them cannot
      overflow. */
  method SplitIdle(e: Eligibility, idle: U64) returns (b: Breakdown)
    ensures b == BreakdownOf(e, idle)
  {
    b := Breakdown(idle, 0, 0, EMPTY_TALLY, EMPTY_TALLY);
    if e.decided && e.eligible {
      b := b.(usable := idle);
    } else if !e.decided {
      b := b.(unknown := idle);
    } else {
      b := b.(primary := EMPTY_TALLY[Index(e.primary) := idle]);
      var noted: Tally := EMPTY_TALLY;
      for i := 0 to REASON_COUNT
        invariant forall k :: 0 <= k < i ==> noted[k] == if e.occurrences[k] > 0 then idle else 0
        invariant forall k :: i <= k < REASON_COUNT ==> noted[k] == 0
      {
        if e.occurrences[i] > 0 {
          noted := noted[i := noted[i] + idle];
        }
      }
      assert noted == IdlePerReason(e.occurrences, idle);
      b := b.(occurrences := noted);
    }
  }

  method AnalyzePool(snapshot: Snapshot, w: Option<WorkloadRecord>, c: ClusterRecord, pool: Pool) returns (f: Finding)
    ensures f == FindingOf(snapshot, w, c, pool)
  {
    hide TargetOf, PoolEligibility, BreakdownOf;
    var t := TargetFor(snapshot, w, c, pool);
    var eligibility := EvaluatePool(t, pool.kind);
    var breakdown := SplitIdle(eligibility, pool.ledger.idle);
    return Finding(c.id, c.site, pool.id, pool.acceleratorClass, pool.kind, pool.ledger, breakdown);
  }

  lemma PoolStep(snapshot: Snapshot, r: Request, w: Option<WorkloadRecord>, c: ClusterRecord, k: nat)
    requires k < |c.pools|
    ensures PoolFindings(snapshot, r, w, c, c.pools[..k + 1]) ==
            PoolFindings(snapshot, r, w, c, c.pools[..k])
            + if Counts(r, c.pools[k]) then [FindingOf(snapshot, w, c, c.pools[k])] else []
  {
    hide FindingOf;
    assert c.pools[..k + 1][..k] == c.pools[..k];
  }

  lemma AccumulateOne(findings: seq<Finding>, f: Finding)
    requires Accumulated(findings).Some?
    ensures Accumulated(findings + [f]) == AddFinding(Accumulated(findings).value, f)
  {
    hide AddFinding;
    assert (findings + [f])[..|findings|] == findings;
  }

  lemma {:induction false} MoreFindings(snapshot: Snapshot, r: Request, w: Option<WorkloadRecord>, c: ClusterRecord, k: nat)
    requires k <= |c.pools|
    ensures PoolFindings(snapshot, r, w, c, c.pools[..k]) <= PoolFindings(snapshot, r, w, c, c.pools)
    decreases |c.pools| - k
  {
    hide PoolFindings, FindingOf;
    if k == |c.pools| {
      assert c.pools[..k] == c.pools;
    } else {
      MoreFindings(snapshot, r, w, c, k + 1);
      PoolStep(snapshot, r, w, c, k);
    }
  }

  lemma OverflowInCluster(
    snapshot: Snapshot, r: Request, w: Option<WorkloadRecord>, c: ClusterRecord, findings: seq<Finding>, k: nat)
    requires k <= |c.pools| && Accumulated(findings + PoolFindings(snapshot, r, w, c, c.pools[..k])).None?
    ensures Accumulated(findings + PoolFindings(snapshot, r, w, c, c.pools)).None?
  {
    hide PoolFindings, Accumulated;
    MoreFindings(snapshot, r, w, c, k);
    var part, all := PoolFindings(snapshot, r, w, c, c.pools[..k]), PoolFindings(snapshot, r, w, c, c.pools);
    assert findings + all == (findings + part) + all[|part|..];
    OverflowIsFinal(findings + part, all[|part|..]);
  }

  /** Adds the pools of one cluster to the running report. */
  method AnalyzeCluster(snapshot: Snapshot, r: Request, w: Option<WorkloadRecord>, c: ClusterRecord,
                        summary: Summary, findings: seq<Finding>)
    returns (next: Option<Summary>, found: seq<Finding>, anyPool: bool)
    requires Accumulated(findings) == Some(summary)
    ensures next == Accumulated(findings + PoolFindings(snapshot, r, w, c, c.pools))
    ensures next.Some? ==> found == findings + PoolFindings(snapshot, r, w, c, c.pools) && anyPool == !NoPool(r, c)
  {
    hide FindingOf, AddFinding, PoolFindings, Accumulated, Counts;
    next, found, anyPool := Some(summary), findings, false;
    NoFindings(snapshot, r, w, c);
    for i := 0 to |c.pools|
      invariant found == findings + PoolFindings(snapshot, r, w, c, c.pools[..i])
      invariant next.Some? && next == Accumulated(found)
      invariant anyPool <==> exists k :: 0 <= k < i && Counts(r, c.pools[k])
    {
      PoolStep(snapshot, r, w, c, i);
      if Counts(r, c.pools[i]) {
        anyPool := true;
        var f := AnalyzePool(snapshot, w, c, c.pools[i]);
        AccumulateOne(found, f);
        assert found + [f] == findings + PoolFindings(snapshot, r, w, c, c.pools[..i + 1]);
        next := AddFinding(next.value, f);
        if next.None? {
          OverflowInCluster(snapshot, r, w, c, findings, i + 1);
          return;
        }
        found := found + [f];
      }
    }
    assert c.pools[..|c.pools|] == c.pools;
  }

  lemma NoFindings(snapshot: Snapshot, r: Request, w: Option<WorkloadRecord>, c: ClusterRecord)
    ensures PoolFindings(snapshot, r, w, c, c.pools[..0]) == []
  {
  }

  lemma ClusterStep(snapshot: Snapshot, r: Request, w: Option<WorkloadRecord>, k: nat)
    requires k < |snapshot.clusters|
    ensures var e := snapshot.clusters[k];
            && ClusterFindings(snapshot, r, w, snapshot.clusters[..k + 1]) ==
                 ClusterFindings(snapshot, r, w, snapshot.clusters[..k])
                 + (if Treat(r, e).Analyzed? then PoolFindings(snapshot, r, w, e.record, e.record.pools) else [])
            && StaleIds(r, snapshot.clusters[..k + 1]) ==
                 StaleIds(r, snapshot.clusters[..k]) + (if Treat(r, e).ExcludedStale? then [e.record.id] else [])
            && UnknownIds(r, snapshot.clusters[..k + 1]) ==
                 UnknownIds(r, snapshot.clusters[..k])
                 + (if Treat(r, e).Analyzed? && NoPool(r, e.record) then [e.record.id] else [])
  {
    hide PoolFindings, NoPool, Treat;
    assert snapshot.clusters[..k + 1][..k] == snapshot.clusters[..k];
  }

  lemma {:induction false} MoreClusters(snapshot: Snapshot, r: Request, w: Option<WorkloadRecord>, k: nat)
    requires k <= |snapshot.clusters|
    ensures ClusterFindings(snapshot, r, w, snapshot.clusters[..k]) <= ClusterFindings(snapshot, r, w, snapshot.clusters)
    decreases |snapshot.clusters| - k
  {
    hide PoolFindings, ClusterFindings, Treat;
    if k == |snapshot.clusters| {
      assert snapshot.clusters[..k] == snapshot.clusters;
    } else {
      MoreClusters(snapshot, r, w, k + 1);
      ClusterStep(snapshot, r, w, k);
    }
  }

  lemma OverflowInSnapshot(snapshot: Snapshot, r: Request, w: Option<WorkloadRecord>, k: nat)
    requires k <= |snapshot.clusters|
    requires Accumulated(ClusterFindings(snapshot, r, w, snapshot.clusters[..k])).None?
    ensures Accumulated(ClusterFindings(snapshot, r, w, snapshot.clusters)).None?
  {
    hide ClusterFindings, Accumulated;
    MoreClusters(snapshot, r, w, k);
    var part := ClusterFindings(snapshot, r, w, snapshot.clusters[..k]);
    var all := ClusterFindings(snapshot, r, w, snapshot.clusters);
    assert all == part + all[|part|..];
    OverflowIsFinal(part, all[|part|..]);
  }

  lemma NoClusters(snapshot: Snapshot, r: Request, w: Option<WorkloadRecord>)
    ensures ClusterFindings(snapshot, r, w, snapshot.clusters[..0]) == []
    ensures StaleIds(r, snapshot.clusters[..0]) == [] && UnknownIds(r, snapshot.clusters[..0]) == []
    ensures Accumulated([]) == Some(NOTHING)
  {
  }

  /** Walks clusters and pools, totalling as it goes. */
  method AnalyzeStrandedCapacity(snapshot: Snapshot, r: Request) returns (report: Result<Report>)
    ensures report == StrandedReport(snapshot, r)
  {
    hide PoolFindings, NoPool, Summary.Closes, ClusterFindings, StaleIds, UnknownIds, Accumulated, Treat, SelectedWorkload;
    var w := SelectWorkload(snapshot, r.workloadClass);
    if w.None? && r.workloadClass != [] {
      return Err(NotFound);
    }
    var summary, findings: seq<Finding> := NOTHING, [];
    var stale: seq<Id>, unknown: seq<Id> := [], [];
    NoClusters(snapshot, r, w);
    for i := 0 to |snapshot.clusters|
      invariant findings == ClusterFindings(snapshot, r, w, snapshot.clusters[..i])
      invariant Accumulated(findings) == Some(summary)
      invariant stale == StaleIds(r, snapshot.clusters[..i]) && unknown == UnknownIds(r, snapshot.clusters[..i])
    {
      ClusterStep(snapshot, r, w, i);
      var e := snapshot.clusters[i];
      var treatment := Treat(r, e);
      if treatment.ExcludedStale? {
        stale := stale + [e.record.id];
      } else if treatment.Analyzed? {
        var next, found, anyPool := AnalyzeCluster(snapshot, r, w, e.record, summary, findings);
        if next.None? {
          OverflowInSnapshot(snapshot, r, w, i + 1);
          return Err(CapacityInconsistent);
        }
        summary, findings := next.value, found;
        if !anyPool {
          unknown := unknown + [e.record.id];
        }
      }
    }
    assert snapshot.clusters[..|snapshot.clusters|] == snapshot.clusters;
    if !summary.Closes() {
      return Err(CapacityInconsistent);
    }
    return Ok(Report(summary, findings, stale, unknown));
  }

  // ---------------------------------------------------------------------------------
  // Every finding partitions its idle capacity
  // ---------------------------------------------------------------------------------

  lemma OneAmount(reason: StrandingReason, amount: U64)
    ensures Total(EMPTY_TALLY[Index(reason) := amount]) == amount
  {
    EmptyTallyTotal();
    SumUpdate(EMPTY_TALLY, Index(reason), amount);
  }

  /** Idle capacity is usable, undecided or stranded as a whole, and the parts add up. */
  lemma FindingPartitionsIdle(e: Eligibility, idle: U64)
    requires e.eligible ==> e.decided
    ensures var b := BreakdownOf(e, idle);
            && b.Partitions() && b.Closes() && b.idle == idle && b.usable + b.unknown + b.Stranded() == idle
            && b.usable == (if e.eligible then idle else 0)
            && b.unknown == (if e.decided then 0 else idle)
            && b.Stranded() == (if e.decided && !e.eligible then idle else 0)
  {
    hide Index, Total, IdlePerReason, Breakdown.Stranded, Breakdown.Closes;
    EmptyTallyTotal();
    OneAmount(e.primary, idle);
    ClosedBreakdownPartitionsIdle(BreakdownOf(e, idle));
  }

  /** The votes exhibit the i-th reason of the list and none of the stronger ones before it. */
  ghost predicate EarliestExhibited(votes: seq<Vote>, i: nat)
    requires i < |BY_STRENGTH|
  {
    && Fails(BY_STRENGTH[i]) in votes
    && forall k :: 0 <= k < i ==> Fails(BY_STRENGTH[k]) !in votes
  }

  /** The reason is the first one in the list, strongest first, that the votes exhibit. */
  ghost predicate Strongest(votes: seq<Vote>, reason: StrandingReason) {
    exists i: nat :: i < |BY_STRENGTH| && BY_STRENGTH[i] == reason && EarliestExhibited(votes, i)
  }

  lemma PrimaryIsTheStrongest(votes: seq<Vote>, reason: StrandingReason)
    requires Reasoned(votes) && SomeFail(votes)
    ensures Strongest(votes, reason) <==> reason == Noted(votes).primary
  {
    hide Noted, Precedence, SomeFail;
    var primary := Noted(votes).primary;
    PrimaryIsStrongest(votes, primary);
    PrecedenceIsPlaceInList(primary);
    forall k | 0 <= k < Precedence(primary) ensures Fails(BY_STRENGTH[k]) !in votes {
      PrecedenceIsPlaceInList(BY_STRENGTH[k]);
      PrimaryIsStrongest(votes, BY_STRENGTH[k]);
    }
    assert EarliestExhibited(votes, Precedence(primary));
    if Strongest(votes, reason) {
      var i: nat :| i < |BY_STRENGTH| && BY_STRENGTH[i] == reason && EarliestExhibited(votes, i);
      assert !(Precedence(primary) < i) && !(i < Precedence(primary));
    }
  }

  lemma AmountsOfBreakdown(e: Eligibility, idle: U64, reason: StrandingReason)
    requires e.decided && !e.eligible
    ensures Amount(BreakdownOf(e, idle).primary, reason) == (if reason == e.primary then idle else 0)
    ensures Amount(BreakdownOf(e, idle).occurrences, reason) == (if Amount(e.occurrences, reason) > 0 then idle else 0)
  {
    hide Index;
    IndexIsInjective(e.primary, reason);
  }

  /** The capacity stranded in a pool is booked under the first reason in the list that the
      pool exhibits, and noted once under every reason it exhibits. */
  lemma StrandedUnderStrongestReason(t: Target, kind: ResourceKind, idle: U64, reason: StrandingReason)
    requires PoolEligibility(t, kind).decided && !PoolEligibility(t, kind).eligible && |Votes(t)| <= U64_MAX
    ensures var b := BreakdownOf(PoolEligibility(t, kind), idle);
            && Amount(b.primary, reason) == (if Strongest(Votes(t), reason) then idle else 0)
            && Amount(b.occurrences, reason) == (if Fails(reason) in Votes(t) then idle else 0)
  {
    hide Votes, Noted, Index, Precedence, SomeFail, SomeUndecided, PoolEligibility, BreakdownOf, Strongest, Reasoned;
    VotesAreReasoned(t);
    SomeFailure(t, kind);
    PrimaryIsTheStrongest(Votes(t), reason);
    CountsAreExact(Votes(t), reason);
    OccursIfVoted(Votes(t), reason);
    AmountsOfBreakdown(PoolEligibility(t, kind), idle, reason);
  }

  lemma SomeFailure(t: Target, kind: ResourceKind)
    requires PoolEligibility(t, kind).decided && !PoolEligibility(t, kind).eligible
    ensures SomeFail(Votes(t)) && PoolEligibility(t, kind).primary == Noted(Votes(t)).primary
    ensures PoolEligibility(t, kind).occurrences == Noted(Votes(t)).occurrences
  {
    hide Votes, Noted;
    PassingIsNeither(Votes(t));
  }

  // ---------------------------------------------------------------------------------
  // Totals are exact
  // ---------------------------------------------------------------------------------

  /** The mathematical totals. */
  datatype Totals = Totals(
    nominal: nat, offline: nat, allotted: nat, reserved: nat, draining: nat, unusable: nat,
    idle: nat, usable: nat, stranded: nat, unknown: nat)

  function AddTotals(t: Totals, f: Finding): Totals {
    Totals(t.nominal + f.ledger.nominal, t.offline + f.ledger.offline, t.allotted + f.ledger.allotted,
           t.reserved + f.ledger.reserved, t.draining + f.ledger.draining, t.unusable + f.ledger.unusable,
           t.idle + f.ledger.idle, t.usable + f.breakdown.usable, t.stranded + f.breakdown.Stranded(),
           t.unknown + f.breakdown.unknown)
  }

  function Exact(findings: seq<Finding>): Totals {
    if findings == [] then Totals(0, 0, 0, 0, 0, 0, 0, 0, 0, 0)
    else AddTotals(Exact(findings[..|findings| - 1]), findings[|findings| - 1])
  }

  predicate Matches(s: Summary, t: Totals) {
    && s.nominal == t.nominal && s.offline == t.offline && s.allotted == t.allotted && s.reserved == t.reserved
    && s.draining == t.draining && s.unusable == t.unusable && s.idle == t.idle && s.usable == t.usable
    && s.stranded == t.stranded && s.unknown == t.unknown
  }

  predicate Partitioned(f: Finding) {
    && f.breakdown.Partitions() && f.breakdown.idle == f.ledger.idle
    && f.breakdown.usable + f.breakdown.unknown + f.breakdown.Stranded() == f.ledger.idle
  }

  predicate Sound(findings: seq<Finding>) {
    forall i :: 0 <= i < |findings| ==> findings[i].ledger.Closes() && Partitioned(findings[i])
  }

  /** Only the nominal total can fail. */
  lemma {:induction false} NominalDecides(findings: seq<Finding>)
    ensures Accumulated(findings).Some? <==> Exact(findings).nominal <= U64_MAX
    ensures Accumulated(findings).Some? ==> Accumulated(findings).value.nominal == Exact(findings).nominal
  {
    hide Breakdown.Stranded;
    if findings != [] {
      NominalDecides(findings[..|findings| - 1]);
    }
  }

  /** The accounting identity and the partition of idle capacity, on exact totals. */
  predicate Balanced(t: Totals) {
    && t.nominal == t.offline + t.allotted + t.reserved + t.draining + t.unusable + t.idle
    && t.usable + t.unknown + t.stranded == t.idle
  }

  lemma {:induction false} TotalsBalance(findings: seq<Finding>)
    requires Sound(findings)
    ensures Balanced(Exact(findings))
  {
    hide Breakdown.Stranded;
    if findings != [] {
      var before := findings[..|findings| - 1];
      assert forall i :: 0 <= i < |before| ==> before[i] == findings[i];
      TotalsBalance(before);
      assert findings[|findings| - 1].ledger.Closes() && Partitioned(findings[|findings| - 1]);
    }
  }

  lemma AddingIsExact(s: Summary, t: Totals, f: Finding)
    requires Matches(s, t) && Balanced(t) && f.ledger.Closes() && Partitioned(f)
    requires AddFinding(s, f).Some?
    ensures Matches(AddFinding(s, f).value, AddTotals(t, f))
  {
    hide Breakdown.Stranded;
  }

  /** When every ledger closes, no total saturates: the totals are exact. */
  lemma {:induction false} TotalsAreExact(findings: seq<Finding>)
    requires Sound(findings) && Accumulated(findings).Some?
    ensures Matches(Accumulated(findings).value, Exact(findings))
  {
    hide AddTotals, AddFinding, Ledger.Closes, Partitioned, Matches, Balanced, Sound, Accumulated, Exact;
    LastFinding(findings);
    if |findings| > 0 {
      var before := findings[..|findings| - 1];
      SoundnessSplits(findings);
      TotalsBalance(before);
      TotalsAreExact(before);
      AddingIsExact(Accumulated(before).value, Exact(before), findings[|findings| - 1]);
    }
  }

  lemma LastFinding(findings: seq<Finding>)
    requires Accumulated(findings).Some?
    ensures |findings| == 0 ==> Matches(Accumulated(findings).value, Exact(findings))
    ensures |findings| > 0 ==>
              var before, last := findings[..|findings| - 1], findings[|findings| - 1];
              && Accumulated(before).Some? && AddFinding(Accumulated(before).value, last).Some?
              && Accumulated(findings).value == AddFinding(Accumulated(before).value, last).value
              && Exact(findings) == AddTotals(Exact(before), last)
  {
    hide AddFinding, AddTotals;
  }

  lemma SoundnessSplits(findings: seq<Finding>)
    requires Sound(findings) && |findings| > 0
    ensures Sound(findings[..|findings| - 1])
    ensures findings[|findings| - 1].ledger.Closes() && Partitioned(findings[|findings| - 1])
  {
    hide Ledger.Closes, Partitioned;
  }

  predicate LedgersClose(r: Request, clusters: seq<Entry<ClusterRecord>>) {
    forall i :: 0 <= i < |clusters| ==> PoolsClose(r, clusters[i].record.pools)
  }

  predicate PoolsClose(r: Request, pools: seq<Pool>) {
    forall j :: 0 <= j < |pools| && Counts(r, pools[j]) ==> pools[j].ledger.Closes()
  }

  lemma FindingIsSound(snapshot: Snapshot, w: Option<WorkloadRecord>, c: ClusterRecord, pool: Pool)
    ensures Partitioned(FindingOf(snapshot, w, c, pool))
    ensures FindingOf(snapshot, w, c, pool).ledger == pool.ledger
  {
    hide TargetOf, PoolEligibility, BreakdownOf;
    var e := PoolEligibility(TargetOf(snapshot, w, c, pool), pool.kind);
    EligibleIsDecided(TargetOf(snapshot, w, c, pool), pool.kind);
    FindingPartitionsIdle(e, pool.ledger.idle);
  }

  lemma EligibleIsDecided(t: Target, kind: ResourceKind)
    ensures PoolEligibility(t, kind).eligible ==> PoolEligibility(t, kind).decided
  {
    hide Votes, Noted;
    PassingIsNeither(Votes(t));
  }

  lemma {:induction false} PoolFindingsAreSound(
    snapshot: Snapshot, r: Request, w: Option<WorkloadRecord>, c: ClusterRecord, pools: seq<Pool>)
    requires PoolsClose(r, pools)
    ensures Sound(PoolFindings(snapshot, r, w, c, pools))
  {
    hide FindingOf, Ledger.Closes, Partitioned;
    if pools != [] {
      PoolFindingsAreSound(snapshot, r, w, c, pools[..|pools| - 1]);
      FindingIsSound(snapshot, w, c, pools[|pools| - 1]);
    }
  }

  lemma {:induction false} FindingsAreSound(
    snapshot: Snapshot, r: Request, w: Option<WorkloadRecord>, clusters: seq<Entry<ClusterRecord>>)
    requires LedgersClose(r, clusters)
    ensures Sound(ClusterFindings(snapshot, r, w, clusters))
  {
    hide PoolFindings, Ledger.Closes, Partitioned;
    if clusters != [] {
      var e := clusters[|clusters| - 1];
      FindingsAreSound(snapshot, r, w, clusters[..|clusters| - 1]);
      PoolFindingsAreSound(snapshot, r, w, e.record, e.record.pools);
    }
  }

  lemma MatchingTotalsClose(s: Summary, t: Totals)
    requires Matches(s, t) && Balanced(t)
    ensures s.Closes()
  {
  }

  /** Over closed ledgers the analysis fails only for an unknown workload class or a nominal
      total that is not a word; otherwise every total is the exact sum of the findings, idle
      capacity is usable, unknown or stranded in every finding and in total, and the closing
      test cannot fail. */
  lemma StrandedReportIsExact(snapshot: Snapshot, r: Request)
    requires LedgersClose(r, snapshot.clusters)
    ensures var w := SelectedWorkload(snapshot.workloads, r.workloadClass);
            var exact := Exact(ClusterFindings(snapshot, r, w, snapshot.clusters));
            var report := StrandedReport(snapshot, r);
            && (report.Ok? <==> (w.Some? || r.workloadClass == []) && exact.nominal <= U64_MAX)
            && (report.Ok? ==>
                  && Matches(report.value.summary, exact) && Sound(report.value.findings)
                  && report.value.summary.Closes() && Balanced(exact))
  {
    hide ClusterFindings, Accumulated, Exact, Matches, Sound, LedgersClose, SelectedWorkload, Summary.Closes, Balanced;
    var w := SelectedWorkload(snapshot.workloads, r.workloadClass);
    var findings := ClusterFindings(snapshot, r, w, snapshot.clusters);
    FindingsAreSound(snapshot, r, w, snapshot.clusters);
    NominalDecides(findings);
    TotalsBalance(findings);
    if Accumulated(findings).Some? {
      TotalsAreExact(findings);
      MatchingTotalsClose(Accumulated(findings).value, Exact(findings));
    }
  }
}
