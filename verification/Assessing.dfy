/** From a snapshot to an assessment (collect_assessment_inputs in src/observatory.cpp), and what
    an admission says about the stranded-capacity analysis of the same snapshot. */
module Assessing {
  import opened Foundation
  import opened Capability
  import opened Capacity
  import opened Model
  import opened Deciders
  import opened Compatibility
  import opened Stranding

  // ---------------------------------------------------------------------------------
  // Precedence of capability evidence
  // ---------------------------------------------------------------------------------

  /** What the last of several lists says about a key, unless it is silent. */
  function Overridden(before: Option<CapabilityEntry>, after: Option<CapabilityEntry>): Option<CapabilityEntry> {
    if after.Some? then after else before
  }

  lemma NothingInEmpty(key: CapabilityRef)
    ensures Find([], key).None?
  {
  }

  lemma {:induction false} FindInPrefix(entries: seq<CapabilityEntry>, key: CapabilityRef)
    requires entries != []
    ensures var last := entries[|entries| - 1];
            Find(entries, key) ==
            Overridden(if last.key == key then Some(last) else None, Find(entries[..|entries| - 1], key))
  {
    if |entries| > 1 {
      FindInPrefix(entries[1..], key);
      assert entries[1..][..|entries| - 2] == entries[..|entries| - 1][1..];
    }
  }

  /** Putting a canonical list over a set overrides it key by key, as long as everything fits. */
  lemma {:induction false} PutsOverride(s: CapabilitySet, entries: seq<CapabilityEntry>, key: CapabilityRef)
    requires Canonical(s.entries) && Canonical(entries) && |s.entries| + |entries| <= s.limit
    ensures var r := PutAll(s, entries);
            && Canonical(r.entries) && |r.entries| <= |s.entries| + |entries| && r.limit == s.limit
            && Find(r.entries, key) == Overridden(Find(s.entries, key), Find(entries, key))
  {
    hide Insert, Find, RefLess;
    if entries != [] {
      var n := |entries| - 1;
      PutsOverride(s, entries[..n], key);
      FindInPrefix(entries, key);
      var before, last := PutAll(s, entries[..n]), entries[n];
      assert last.key.Valid() && |before.entries| < before.limit;
      PutThenFind(before, last, key);
      InsertMembers(before.entries, last);
      if last.key == key && Find(entries[..n], key).Some? {
        var earlier := Find(entries[..n], key).value;
        var i :| 0 <= i < n && entries[i] == earlier;
        assert RefLess(entries[i].key, entries[n].key);
        RefOrder(key, key, key);
      }
    } else {
      NothingInEmpty(key);
    }
  }

  /** The runtime's word is final, then the cluster's, then the catalogue's: when all evidence
      fits, a cluster can withdraw what the catalogue advertises and a runtime corrects both. */
  lemma LaterEvidenceWins(
    limit: nat, acceleratorClass: Option<CapabilitySet>, cluster: CapabilitySet, runtime: Option<CapabilitySet>,
    key: CapabilityRef)
    requires Canonical(EntriesOf(acceleratorClass)) && Canonical(cluster.entries) && Canonical(EntriesOf(runtime))
    requires |EntriesOf(acceleratorClass)| + |cluster.entries| + |EntriesOf(runtime)| <= limit
    ensures Find(Merged(limit, acceleratorClass, cluster, runtime).entries, key) ==
            Overridden(Overridden(Find(EntriesOf(acceleratorClass), key), Find(cluster.entries, key)),
                       Find(EntriesOf(runtime), key))
  {
    hide PutAll, Find, EntriesOf, RefLess;
    var s0 := CapabilitySet([], limit);
    PutsOverride(s0, EntriesOf(acceleratorClass), key);
    var s1 := PutAll(s0, EntriesOf(acceleratorClass));
    PutsOverride(s1, cluster.entries, key);
    PutsOverride(PutAll(s1, cluster.entries), EntriesOf(runtime), key);
    NothingInEmpty(key);
  }

  // ---------------------------------------------------------------------------------
  // Gathering
  // ---------------------------------------------------------------------------------

  function FirstKnownClass(snapshot: Snapshot, ids: seq<Id>): Option<AcceleratorClassRecord> {
    if ids == [] then None
    else if ids[0] in snapshot.acceleratorClasses then Some(snapshot.acceleratorClasses[ids[0]])
    else FirstKnownClass(snapshot, ids[1..])
  }

  function PreferredClass(snapshot: Snapshot, w: Option<WorkloadRecord>): Option<AcceleratorClassRecord> {
    if w.Some? && w.value.acceptableClasses != [] then Lookup(snapshot.acceleratorClasses, w.value.acceptableClasses[0])
    else None
  }

  /** The one class an assessment looks at: the workload's first choice when it is published,
      whether or not the cluster has it, and else the cluster's first published class. */
  function AssessedClass(snapshot: Snapshot, w: Option<WorkloadRecord>, c: ClusterRecord): Option<AcceleratorClassRecord> {
    if PreferredClass(snapshot, w).Some? then PreferredClass(snapshot, w)
    else FirstKnownClass(snapshot, c.acceleratorClasses)
  }

  /** Only the cluster's first runtime is looked up. */
  function AssessedRuntime(snapshot: Snapshot, c: ClusterRecord): Option<RuntimeRecord> {
    if c.runtimes == [] then None else Lookup(snapshot.runtimes, c.runtimes[0])
  }

  function GatheredInto(snapshot: Snapshot, w: Option<WorkloadRecord>, c: ClusterRecord, effective: CapabilitySet): Target {
    var class_, runtime := AssessedClass(snapshot, w, c), AssessedRuntime(snapshot, c);
    Target(w, ArtifactOf(snapshot, w), c, if c.site in snapshot.sites then Some(c.site) else None, class_, runtime,
           PolicyOf(snapshot, w),
           PutAll(PutAll(PutAll(effective, EntriesOf(CapabilitiesOfClass(class_))), c.capabilities.entries),
                  EntriesOf(CapabilitiesOfRuntime(runtime))).entries)
  }

  function Gathered(snapshot: Snapshot, w: Option<WorkloadRecord>, c: ClusterRecord): Target {
    GatheredInto(snapshot, w, c, EMPTY_SET)
  }

  method FindClass(snapshot: Snapshot, w: Option<WorkloadRecord>, c: ClusterRecord)
    returns (found: Option<AcceleratorClassRecord>)
    ensures found == AssessedClass(snapshot, w, c)
  {
    found := None;
    if w.Some? && w.value.acceptableClasses != [] {
      found := Lookup(snapshot.acceleratorClasses, w.value.acceptableClasses[0]);
    }
    if found.None? {
      for i := 0 to |c.acceleratorClasses|
        invariant found.None?
        invariant FirstKnownClass(snapshot, c.acceleratorClasses) == FirstKnownClass(snapshot, c.acceleratorClasses[i..])
      {
        found := Lookup(snapshot.acceleratorClasses, c.acceleratorClasses[i]);
        if found.Some? {
          return;
        }
        assert c.acceleratorClasses[i..][1..] == c.acceleratorClasses[i + 1..];
      }
    }
  }

  /** Gathers into a set the caller owns; the set is added to, not cleared. */
  method CollectInputs(snapshot: Snapshot, w: Option<WorkloadRecord>, c: ClusterRecord, effective: CapabilityTable)
    returns (t: Target)
    requires effective.Valid()
    modifies effective
    ensures effective.Valid() && effective.limit == old(effective.limit) && t.observed == effective.entries
    ensures t == GatheredInto(snapshot, w, c, CapabilitySet(old(effective.entries), effective.limit))
  {
    hide PutAll, AssessedClass, Canonical;
    var class_ := FindClass(snapshot, w, c);
    var runtime := AssessedRuntime(snapshot, c);
    ghost var s0 := CapabilitySet(effective.entries, effective.limit);
    PutEach(effective, EntriesOf(CapabilitiesOfClass(class_)));
    PutAllLimit(s0, EntriesOf(CapabilitiesOfClass(class_)));
    ghost var s1 := PutAll(s0, EntriesOf(CapabilitiesOfClass(class_)));
    assert s1 == CapabilitySet(effective.entries, effective.limit);
    PutEach(effective, c.capabilities.entries);
    PutAllLimit(s1, c.capabilities.entries);
    assert PutAll(s1, c.capabilities.entries) == CapabilitySet(effective.entries, effective.limit);
    PutEach(effective, EntriesOf(CapabilitiesOfRuntime(runtime)));
    return Target(w, ArtifactOf(snapshot, w), c, if c.site in snapshot.sites then Some(c.site) else None, class_, runtime,
                  PolicyOf(snapshot, w), effective.entries);
  }

  function Assessed(snapshot: Snapshot, w: Option<WorkloadRecord>, e: Entry<ClusterRecord>): Assessment {
    var t := Gathered(snapshot, w, e.record);
    Assess(t, Some(t.observed), e.currentness)
  }

  /** The compatibility query for a registered cluster and workload. */
  method AssessCluster(snapshot: Snapshot, w: Option<WorkloadRecord>, e: Entry<ClusterRecord>) returns (a: Assessment)
    ensures a == Assessed(snapshot, w, e)
  {
    hide GatheredInto, Assess;
    var effective := new CapabilityTable(MAX_ENTRIES);
    var t := CollectInputs(snapshot, w, e.record, effective);
    a := AssessCompatibility(t, Some(effective.entries), e.currentness);
  }

  // ---------------------------------------------------------------------------------
  // Explaining a placement
  // ---------------------------------------------------------------------------------

  function FindCluster(clusters: seq<Entry<ClusterRecord>>, id: Id): Option<Entry<ClusterRecord>> {
    if clusters == [] then None
    else if clusters[0].record.id == id then Some(clusters[0])
    else FindCluster(clusters[1..], id)
  }

  /** Assessments made one after the other into the same capability set. */
  function AssessedInTurn(snapshot: Snapshot, w: Option<WorkloadRecord>, ids: seq<Id>, effective: CapabilitySet): seq<Assessment> {
    if ids == [] then []
    else
      match FindCluster(snapshot.clusters, ids[0])
      case None => AssessedInTurn(snapshot, w, ids[1..], effective)
      case Some(e) =>
        var t := GatheredInto(snapshot, w, e.record, effective);
        [Assess(t, Some(t.observed), e.currentness)]
        + AssessedInTurn(snapshot, w, ids[1..], CapabilitySet(t.observed, effective.limit))
  }

  /** Rows that claim to be selected besides the selection. */
  function OtherSelections(candidates: seq<Candidate>, selected: Id): seq<Id> {
    if candidates == [] then []
    else (if candidates[0].status.Selected? && candidates[0].cluster != selected then [candidates[0].cluster] else [])
         + OtherSelections(candidates[1..], selected)
  }

  method AssessOne(
    snapshot: Snapshot, w: Option<WorkloadRecord>, id: Id, effective: CapabilityTable, ghost rest: seq<Id>)
    returns (assessments: seq<Assessment>, ghost after: CapabilitySet)
    requires effective.Valid()
    modifies effective
    ensures effective.Valid() && effective.limit == old(effective.limit)
    ensures after == CapabilitySet(effective.entries, effective.limit)
    ensures AssessedInTurn(snapshot, w, [id] + rest, CapabilitySet(old(effective.entries), effective.limit)) ==
            assessments + AssessedInTurn(snapshot, w, rest, after)
  {
    hide GatheredInto, Assess, Canonical;
    ghost var before := CapabilitySet(effective.entries, effective.limit);
    var found := FindCluster(snapshot.clusters, id);
    assessments := [];
    if found.Some? {
      var t := CollectInputs(snapshot, w, found.value.record, effective);
      var assessment := AssessCompatibility(t, Some(effective.entries), found.value.currentness);
      assessments := [assessment];
    }
    after := CapabilitySet(effective.entries, effective.limit);
    assert ([id] + rest)[1..] == rest && ([id] + rest)[0] == id;
    assert AssessedInTurn(snapshot, w, [id] + rest, before) == assessments + AssessedInTurn(snapshot, w, rest, after);
  }

  lemma NobodyInTurn(snapshot: Snapshot, w: Option<WorkloadRecord>, effective: CapabilitySet)
    ensures AssessedInTurn(snapshot, w, [], effective) == []
  {
  }

  lemma NextSelection(candidates: seq<Candidate>, selected: Id, i: nat)
    requires i < |candidates|
    ensures var rest := OtherSelections(candidates[i + 1..], selected);
            var c := candidates[i];
            OtherSelections(candidates[i..], selected) ==
            if c.status.Selected? && c.cluster != selected then [c.cluster] + rest else rest
  {
    assert candidates[i..][1..] == candidates[i + 1..];
  }

  /** Explaining a placement assesses its selection and then every other row that claims to be
      selected, all into one capability set that is never cleared. */
  method AssessPlacement(snapshot: Snapshot, w: Option<WorkloadRecord>, p: PlacementRecord)
    returns (assessments: seq<Assessment>)
    ensures assessments == AssessedInTurn(snapshot, w, [p.selected] + OtherSelections(p.candidates, p.selected), EMPTY_SET)
  {
    hide AssessedInTurn, OtherSelections, Canonical;
    var effective := new CapabilityTable(MAX_ENTRIES);
    ghost var after;
    assessments, after := AssessOne(snapshot, w, p.selected, effective, OtherSelections(p.candidates, p.selected));
    assert p.candidates[0..] == p.candidates;
    for i := 0 to |p.candidates|
      invariant effective.Valid() && after == CapabilitySet(effective.entries, effective.limit)
      invariant AssessedInTurn(snapshot, w, [p.selected] + OtherSelections(p.candidates, p.selected), EMPTY_SET) ==
                assessments + AssessedInTurn(snapshot, w, OtherSelections(p.candidates[i..], p.selected), after)
    {
      NextSelection(p.candidates, p.selected, i);
      var c := p.candidates[i];
      if c.status.Selected? && c.cluster != p.selected {
        var more;
        more, after := AssessOne(snapshot, w, c.cluster, effective, OtherSelections(p.candidates[i + 1..], p.selected));
        assessments := assessments + more;
      }
    }
    NoOtherSelections([], p.selected);
    assert p.candidates[|p.candidates|..] == [];
    NobodyInTurn(snapshot, w, after);
  }

  lemma {:induction false} NoOtherSelections(candidates: seq<Candidate>, selected: Id)
    requires forall i :: 0 <= i < |candidates| && candidates[i].status.Selected? ==> candidates[i].cluster == selected
    ensures OtherSelections(candidates, selected) == []
  {
    if candidates != [] {
      NoOtherSelections(candidates[1..], selected);
    }
  }

  /** A placement that validates names no other selection, so explaining it gathers once, into an
      empty set: it gives the answer of the compatibility query for the selection. */
  lemma ValidPlacementsAreAssessedAfresh(snapshot: Snapshot, w: Option<WorkloadRecord>, p: PlacementRecord)
    requires p.Problem().None?
    ensures AssessedInTurn(snapshot, w, [p.selected] + OtherSelections(p.candidates, p.selected), EMPTY_SET) ==
            match FindCluster(snapshot.clusters, p.selected)
            case None => []
            case Some(e) => [Assessed(snapshot, w, e)]
  {
    hide GatheredInto, Assess;
    forall i | 0 <= i < |p.candidates| && p.candidates[i].status.Selected?
      ensures p.candidates[i].cluster == p.selected
    {
      var c := p.candidates[i];
      assert !(c.status.Selected? && c.cluster != p.selected);
    }
    NoOtherSelections(p.candidates, p.selected);
    assert [p.selected] + [] == [p.selected] && [p.selected][1..] == [];
  }

  // ---------------------------------------------------------------------------------
  // Admission and stranded capacity
  // ---------------------------------------------------------------------------------

  /** The assessment and the analysis look at the same class, runtime and bound. */
  predicate SameInputs(snapshot: Snapshot, w: Option<WorkloadRecord>, c: ClusterRecord, pool: Pool) {
    && ClassOf(snapshot, pool) == AssessedClass(snapshot, w, c)
    && (c.runtimes != [] ==> c.runtimes[0] in snapshot.runtimes)
    && c.capabilities.limit == MAX_ENTRIES
  }

  lemma SameInputsGatherAlike(snapshot: Snapshot, w: Option<WorkloadRecord>, c: ClusterRecord, pool: Pool)
    requires SameInputs(snapshot, w, c, pool)
    ensures Gathered(snapshot, w, c) == TargetOf(snapshot, w, c, pool)
  {
    hide PutAll, ClassOf, AssessedClass;
  }

  /** On one snapshot: when the compatibility query admits a workload to a cluster, the
      stranded-capacity analysis finds every idle unit of a pool it looked at usable. */
  lemma AdmittedPoolsAreUsable(snapshot: Snapshot, w: Option<WorkloadRecord>, e: Entry<ClusterRecord>, pool: Pool)
    requires SameInputs(snapshot, w, e.record, pool) && AskedByPoolOnly(TargetOf(snapshot, w, e.record, pool), pool.kind)
    requires Assessed(snapshot, w, e).AdmitsPlacement()
    ensures var b := FindingOf(snapshot, w, e.record, pool).breakdown;
            b.usable == pool.ledger.idle && b.unknown == 0 && b.Stranded() == 0
  {
    hide Assess, PoolEligibility, AskedByPoolOnly, BreakdownOf;
    SameInputsGatherAlike(snapshot, w, e.record, pool);
    var t := TargetOf(snapshot, w, e.record, pool);
    assert SiteMatches(t);
    AdmittedPoolsAreEligible(t, pool.kind, e.currentness);
    FindingPartitionsIdle(PoolEligibility(t, pool.kind), pool.ledger.idle);
  }

  /** The questions whose answer depends on the class, the runtime and the evidence gathered,
      asked about the pool. */
  predicate Suits(t: Target) {
    && ArchitectureVote(t).Pass? && AllPass(TextVotes(t)) && AbiVote(t).Pass?
    && AllPass(RequirementVotes(t.observed, Requirements(t))) && MemoryVote(t).Pass?
  }

  /** Exactly what an admission is worth for a pool of any class: whatever class, runtime and
      evidence the query looked at, all idle capacity is usable if and only if the cluster is
      ready, a class the kind needs is published, and the pool's own class, runtime and evidence
      suit the workload. Only the policy question is settled by the admission. */
  lemma AdmissionIsWorth(snapshot: Snapshot, w: Option<WorkloadRecord>, e: Entry<ClusterRecord>, pool: Pool)
    requires Assessed(snapshot, w, e).AdmitsPlacement()
    ensures var t := TargetOf(snapshot, w, e.record, pool);
            PoolEligibility(t, pool.kind).eligible <==> !Declines(t, pool.kind) && Suits(t)
  {
    hide PutAll, PoolEligibility, Checks, AllCompatible, Overall, Votes, AllPass, Declines, ArchitectureVote, TextVotes,
         AbiVote, RequirementVotes, MemoryVote, CompatibleFamily, CurrentnessOutcome, ArchitectureOutcomes,
         ArtifactOutcomes, AbiOutcomes, RequirementOutcomes, MemoryOutcomes, AnyOfOutcomes, PolicyOutcomes,
         AssessedClass, AssessedRuntime, ClassOf, PrimaryRuntime;
    var g, t := Gathered(snapshot, w, e.record), TargetOf(snapshot, w, e.record, pool);
    OverallIsWeakest(Checks(g, Some(g.observed), e.currentness));
    ChecksInParts(g, Some(g.observed), e.currentness);
    PolicyAgrees(g);
    EligibilityInParts(t, pool.kind);
    VotesInParts(t);
    assert PolicyVote(t) == PolicyVote(g);
  }

  /** The two targets agree on everything the questions of class, runtime and evidence read. */
  predicate ReadAlike(g: Target, t: Target) {
    && Architecture(g) == Architecture(t) && MemoryPerDevice(g) == MemoryPerDevice(t)
    && RuntimeAbi(g) == RuntimeAbi(t) && g.observed == t.observed
  }

  /** Looking at the same class, runtime and bound is more than enough for that. */
  lemma SameInputsReadAlike(snapshot: Snapshot, w: Option<WorkloadRecord>, c: ClusterRecord, pool: Pool)
    requires SameInputs(snapshot, w, c, pool)
    ensures ReadAlike(Gathered(snapshot, w, c), TargetOf(snapshot, w, c, pool))
  {
    hide Gathered, TargetOf, Architecture, MemoryPerDevice, RuntimeAbi;
    SameInputsGatherAlike(snapshot, w, c, pool);
  }

  lemma ReadAlikeVoteAlike(g: Target, t: Target)
    requires ReadAlike(g, t) && g.workload == t.workload && g.artifact == t.artifact
    ensures ArchitectureVote(g) == ArchitectureVote(t) && AbiVote(g) == AbiVote(t) && MemoryVote(g) == MemoryVote(t)
    ensures TextVotes(g) == TextVotes(t) && Requirements(g) == Requirements(t)
  {
    hide TextVote;
  }

  /** What an admitted target passes of the questions both ask. */
  lemma AdmittedSuits(g: Target, currentness: Currentness)
    requires Assess(g, Some(g.observed), currentness).AdmitsPlacement()
    ensures Suits(g) <==> AllPass(TextVotes(g))
    ensures g.artifact.Some? ==> (AllPass(TextVotes(g)) <==> AskedByPoolTexts(g))
    ensures g.artifact.None? ==> AllPass(TextVotes(g))
  {
    hide Checks, AllCompatible, CurrentnessOutcome, ArchitectureOutcomes, ArtifactOutcomes, AbiOutcomes, RequirementOutcomes,
         MemoryOutcomes, AnyOfOutcomes, PolicyOutcomes, ArchitectureVote, TextVotes, AbiVote, RequirementVotes, MemoryVote,
         AskedByPoolTexts, Overall, CompatibleFamily, AllPass;
    OverallIsWeakest(Checks(g, Some(g.observed), currentness));
    ChecksInParts(g, Some(g.observed), currentness);
    ArchitectureAgrees(g);
    AbiAgrees(g);
    RequirementsAgree(g.observed, Requirements(g));
    MemoryAgrees(g);
    if g.artifact.Some? {
      ArtifactAgrees(g);
    } else {
      NoArtifact(g);
    }
  }

  /** For a pool of any class that reads like what the query looked at (the same architecture, memory,
      runtime ABI and effective capabilities), an admitted workload finds the idle capacity usable if
      and only if the pool raises none of the objections it alone raises. */
  lemma AdmittedPoolsAreUsableExactly(snapshot: Snapshot, w: Option<WorkloadRecord>, e: Entry<ClusterRecord>, pool: Pool)
    requires ReadAlike(Gathered(snapshot, w, e.record), TargetOf(snapshot, w, e.record, pool))
    requires Assessed(snapshot, w, e).AdmitsPlacement()
    ensures var t := TargetOf(snapshot, w, e.record, pool);
            PoolEligibility(t, pool.kind).eligible <==> AskedByPoolOnly(t, pool.kind)
  {
    var g, t := Gathered(snapshot, w, e.record), TargetOf(snapshot, w, e.record, pool);
    assert g.workload == t.workload && g.artifact == t.artifact;
    hide Gathered, TargetOf, Assess, PoolEligibility, ArchitectureVote, AbiVote, RequirementVotes, MemoryVote, TextVotes, AllPass,
         Requirements, Architecture, MemoryPerDevice, RuntimeAbi, Declines, TextVote;
    AdmissionIsWorth(snapshot, w, e, pool);
    ReadAlikeVoteAlike(g, t);
    AdmittedSuits(g, e.currentness);
    assert Suits(t) <==> Suits(g);
  }

  // ---------------------------------------------------------------------------------
  // Pools of another class
  // ---------------------------------------------------------------------------------

  function PlainClass(id: Id, memory: U64): AcceleratorClassRecord {
    AcceleratorClassRecord(id, 1, [], [], memory, EMPTY_SET, [])
  }

  /** A cluster whose one pool is of class 66, and a workload whose first choice is class 65. */
  function MixedCluster(pool: Pool): ClusterRecord {
    ClusterRecord([1], 1, 1, [2], [3], [], [[66]], [pool], [], [], 0, 0, 0, Readiness.Ready, EMPTY_SET, [])
  }

  function PickyWorkload(memory: U64): WorkloadRecord {
    WorkloadRecord([4], 1, [5], [], 1, memory, [[65]], [], [], [], DomainKind.Unknown, [], [])
  }

  function TwoClasses(large: U64, small: U64): Snapshot {
    Snapshot([2], [], {[3]}, map[[65] := PlainClass([65], large), [66] := PlainClass([66], small)], map[], [], [], map[], map[])
  }

  /** An admission says nothing about pools of other classes: a workload that needs more memory
      than the cluster's only class has is admitted on the strength of a class the cluster does
      not have, while the whole idle capacity of the cluster is stranded. */
  lemma AdmissionMayRestOnAnAbsentClass(large: U64, small: U64, memory: U64, pool: Pool)
    requires 0 < small < memory <= large
    requires pool.kind.Accelerator? && pool.acceleratorClass == [66]
    ensures var snapshot, w, c := TwoClasses(large, small), Some(PickyWorkload(memory)), MixedCluster(pool);
            && [65] !in c.acceleratorClasses
            && Assessed(snapshot, w, Entry(c, Current, Stamp([], 0, 0, 0, 0, 0, 0, 0, 0))).AdmitsPlacement()
            && FindingOf(snapshot, w, c, pool).breakdown.Stranded() == pool.ledger.idle
  {
    hide Overall, Noted, PutAll, BreakdownOf, Index;
    var snapshot, w, c := TwoClasses(large, small), Some(PickyWorkload(memory)), MixedCluster(pool);
    var t := Gathered(snapshot, w, c);
    assert MemoryOutcomes(t) == [Compatible];
    assert Checks(t, Some(t.observed), Current) == [Compatible, Compatible];
    OverallIsWeakest(Checks(t, Some(t.observed), Current));
    var p := TargetOf(snapshot, w, c, pool);
    assert MemoryVote(p) == Fails(MemoryInsufficient);
    var votes := Votes(p);
    assert votes[1] == AbiVote(p) && votes[2] == MemoryVote(p);
    var eligibility := PoolEligibility(p, pool.kind);
    assert eligibility.decided && !eligibility.eligible;
    FindingPartitionsIdle(eligibility, pool.ledger.idle);
  }
}
