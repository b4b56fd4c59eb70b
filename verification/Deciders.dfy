/** Two separate answers to "can this workload run there": the eligibility of a capacity pool
    (src/analysis.cpp) and the compatibility assessment of a placement (src/compatibility.cpp). */
module Deciders {
  import opened Foundation
  import opened Capability
  import opened Capacity
  import opened Model
  import Versions

  /** The records both look at. `site` is the identifier of the site record, when there is one;
      `observed` are the effective capabilities of the target. */
  datatype Target = Target(
    workload: Option<WorkloadRecord>,
    artifact: Option<ArtifactRecord>,
    cluster: ClusterRecord,
    site: Option<Id>,
    acceleratorClass: Option<AcceleratorClassRecord>,
    runtime: Option<RuntimeRecord>,
    policy: Option<PolicyRecord>,
    observed: seq<CapabilityEntry>)

  // ---------------------------------------------------------------------------------
  // Effective capabilities: catalogue, then cluster, then runtime; a later entry wins
  // ---------------------------------------------------------------------------------

  function PutAll(s: CapabilitySet, entries: seq<CapabilityEntry>): CapabilitySet {
    if entries == [] then s
    else
      var before := PutAll(s, entries[..|entries| - 1]);
      match PutInto(before, entries[|entries| - 1])
      case Ok(after) => after
      case Err(_) => before
  }

  function EntriesOf(s: Option<CapabilitySet>): seq<CapabilityEntry> {
    if s.Some? then s.value.entries else []
  }

  function Merged(limit: nat, acceleratorClass: Option<CapabilitySet>, cluster: CapabilitySet, runtime: Option<CapabilitySet>)
    : CapabilitySet
  {
    PutAll(PutAll(PutAll(CapabilitySet([], limit), EntriesOf(acceleratorClass)), cluster.entries), EntriesOf(runtime))
  }

  method PutEach(merged: CapabilityTable, entries: seq<CapabilityEntry>)
    requires merged.Valid()
    modifies merged
    ensures merged.Valid() && merged.limit == old(merged.limit)
    ensures merged.entries == PutAll(CapabilitySet(old(merged.entries), merged.limit), entries).entries
  {
    hide Insert, RefLess, Find, Canonical;
    ghost var start := CapabilitySet(merged.entries, merged.limit);
    PutAllLimit(start, []);
    for i := 0 to |entries|
      invariant merged.Valid() && merged.limit == start.limit
      invariant merged.entries == PutAll(start, entries[..i]).entries && PutAll(start, entries[..i]).limit == merged.limit
    {
      assert entries[..i + 1][..i] == entries[..i];
      var problem := merged.Put(entries[i]);
      PutAllLimit(start, entries[..i + 1]);
    }
    assert entries[..|entries|] == entries;
  }

  lemma {:induction false} PutAllLimit(s: CapabilitySet, entries: seq<CapabilityEntry>)
    ensures PutAll(s, entries).limit == s.limit
  {
    hide Insert, Find;
    if entries != [] {
      PutAllLimit(s, entries[..|entries| - 1]);
    }
  }

  /** Merges by repeated puts; a put that fails is skipped. */
  method MergeCapabilities(
    limit: nat, acceleratorClass: Option<CapabilitySet>, cluster: CapabilitySet, runtime: Option<CapabilitySet>)
    returns (entries: seq<CapabilityEntry>)
    ensures entries == Merged(limit, acceleratorClass, cluster, runtime).entries
    ensures Canonical(entries)
  {
    hide PutAll;
    var merged := new CapabilityTable(limit);
    ghost var s0 := CapabilitySet([], limit);
    PutEach(merged, EntriesOf(acceleratorClass));
    ghost var s1 := PutAll(s0, EntriesOf(acceleratorClass));
    PutAllLimit(s0, EntriesOf(acceleratorClass));
    assert s1 == CapabilitySet(merged.entries, merged.limit);
    PutEach(merged, cluster.entries);
    PutAllLimit(s1, cluster.entries);
    assert PutAll(s1, cluster.entries) == CapabilitySet(merged.entries, merged.limit);
    PutEach(merged, EntriesOf(runtime));
    return merged.entries;
  }

  // ---------------------------------------------------------------------------------
  // Pool eligibility
  // ---------------------------------------------------------------------------------

  /** What one check says about the pool. */
  datatype Vote = Pass | Undecided | Fails(reason: StrandingReason)

  function ReasonForRequirement(key: CapabilityKey): StrandingReason {
    if 20 <= key <= 30 then UnsupportedPrecision
    else if 60 <= key <= 63 then MissingInterconnectFeature
    else if key == 204 then MissingOffloadCapability
    else if 80 <= key <= 83 then PartitionGeometry
    else if key == 100 || key == 101 || key == 103 then RuntimeMismatch
    else if key == 102 then AbiMismatch
    else if 104 <= key <= 107 then DriverMismatch
    else if key == 120 || key == 121 then MissingCompilerTarget
    else if 180 <= key <= 185 || key == 122 || key == 123 then ArtifactIncompatibility
    else if 140 <= key <= 142 then TopologyConstraint
    else if key == SECURITY_ISOLATION then IsolationRequirement
    else if 40 <= key <= 43 then MemoryInsufficient
    else UnsupportedAcceleratorCapability
  }

  function Architecture(t: Target): Text {
    if t.acceleratorClass.Some? then t.acceleratorClass.value.architecture else []
  }

  function ArchitectureVote(t: Target): Vote {
    if t.artifact.None? || !t.artifact.value.kind.CodeBearing() then Pass
    else if t.artifact.value.targetArchitectures == [] || Architecture(t) == [] then Undecided
    else if !t.artifact.value.TargetsArchitecture(Architecture(t)) then Fails(ArtifactIncompatibility)
    else Pass
  }

  function TextVote(observed: seq<CapabilityEntry>, value: Text, key: CapabilityKey, reason: StrandingReason): Vote {
    if value == [] then Pass
    else
      match Find(observed, CapabilityRef(key, []))
      case None => Undecided
      case Some(entry) =>
        if entry.value.TextValue? then (if entry.value.text == value then Pass else Fails(reason))
        else if entry.value.TextSet? then (if value in entry.value.texts then Pass else Fails(reason))
        else Undecided
  }

  function TextVotes(t: Target): seq<Vote> {
    if t.artifact.None? then []
    else
      var a := t.artifact.value;
      [TextVote(t.observed, a.format, ARTIFACT_FORMATS, ArtifactIncompatibility),
       TextVote(t.observed, a.kernelFormat, KERNEL_FORMAT, ArtifactIncompatibility),
       TextVote(t.observed, a.stateFormat, ARTIFACT_FORMATS, MissingLocalStorageState),
       TextVote(t.observed, a.compilerTarget, COMPILER_TARGET, MissingCompilerTarget)]
  }

  function RuntimeAbi(t: Target): Text {
    if t.runtime.Some? then t.runtime.value.abi else []
  }

  function AbiVote(t: Target): Vote {
    if t.artifact.None? || t.artifact.value.runtimeAbi == [] then Pass
    else if RuntimeAbi(t) == [] then Undecided
    else if RuntimeAbi(t) != t.artifact.value.runtimeAbi then Fails(AbiMismatch)
    else Pass
  }

  function RequirementVote(observed: seq<CapabilityEntry>, r: Requirement): Vote {
    match Evaluate(r, observed)
    case Yes => Pass
    case Unknown => Undecided
    case No => if r.optional then Pass else Fails(ReasonForRequirement(r.key.key))
  }

  function RequirementVotes(observed: seq<CapabilityEntry>, requirements: seq<Requirement>): seq<Vote> {
    seq(|requirements|, i requires 0 <= i < |requirements| => RequirementVote(observed, requirements[i]))
  }

  function MemoryPerDevice(t: Target): U64 {
    if t.acceleratorClass.Some? then t.acceleratorClass.value.memoryBytesPerDevice else 0
  }

  function MemoryVote(t: Target): Vote {
    if t.workload.None? || t.workload.value.requiredMemoryPerAccelerator == 0 then Pass
    else if MemoryPerDevice(t) == 0 then Undecided
    else if t.workload.value.requiredMemoryPerAccelerator > MemoryPerDevice(t) then Fails(MemoryInsufficient)
    else Pass
  }

  predicate SiteExcluded(t: Target) {
    t.policy.Some? && t.site.Some? && t.policy.value.PermitsSite(t.site.value) == Tri.No
  }

  function PolicyVote(t: Target): Vote {
    if t.policy.None? then Pass
    else if SiteExcluded(t) then Fails(SiteRestriction)
    else
      match t.policy.value.PermitsCluster(t.cluster.id)
      case No => Fails(PolicyRestriction)
      case Unknown => Undecided
      case Yes => Pass
  }

  function Requirements(t: Target): seq<Requirement> {
    if t.workload.Some? then t.workload.value.requirements else []
  }

  function Votes(t: Target): seq<Vote> {
    [ArchitectureVote(t)] + TextVotes(t) + [AbiVote(t)] + RequirementVotes(t.observed, Requirements(t))
    + [MemoryVote(t)] + [PolicyVote(t)]
  }

  datatype Eligibility = Eligibility(decided: bool, eligible: bool, primary: StrandingReason, occurrences: Tally)

  const DECLINED := Eligibility(false, false, NoReason, EMPTY_TALLY)

  /** The strongest reason so far after one more. */
  function Stronger(primary: StrandingReason, reason: StrandingReason): StrandingReason {
    if primary.NoReason? || Precedence(reason) < Precedence(primary) then reason else primary
  }

  function Count(t: Tally, reason: StrandingReason): Tally {
    match AddAmount(t, reason, 1) case Some(counted) => counted case None => t
  }

  datatype Notes = Notes(primary: StrandingReason, occurrences: Tally)

  /** Primary reason and counts of the reasons in a list of votes. */
  function Noted(votes: seq<Vote>): Notes {
    if votes == [] then Notes(NoReason, EMPTY_TALLY)
    else
      var notes := Noted(votes[..|votes| - 1]);
      match votes[|votes| - 1]
      case Fails(reason) => Notes(Stronger(notes.primary, reason), Count(notes.occurrences, reason))
      case _ => notes
  }

  predicate SomeFail(votes: seq<Vote>) {
    exists i :: 0 <= i < |votes| && votes[i].Fails?
  }

  predicate SomeUndecided(votes: seq<Vote>) {
    exists i :: 0 <= i < |votes| && votes[i].Undecided?
  }

  predicate AllPass(votes: seq<Vote>) {
    forall i :: 0 <= i < |votes| ==> votes[i].Pass?
  }

  predicate Declines(t: Target, kind: ResourceKind) {
    || t.cluster.readiness.NotReady? || t.cluster.readiness.Draining?
    || (kind.Accelerator? && t.acceleratorClass.None?)
  }

  function PoolEligibility(t: Target, kind: ResourceKind): Eligibility {
    if Declines(t, kind) then DECLINED
    else
      var notes := Noted(Votes(t));
      Eligibility(SomeFail(Votes(t)) || !SomeUndecided(Votes(t)), AllPass(Votes(t)), notes.primary, notes.occurrences)
  }

  /** The running state of the evaluation: the two flags and the noted reasons. */
  class PoolEvaluation {
    var anyFailure: bool
    var anyUndecided: bool
    var primary: StrandingReason
    var occurrences: Tally
    ghost var votes: seq<Vote>

    ghost predicate Valid()
      reads this
    {
      && anyFailure == SomeFail(votes) && anyUndecided == SomeUndecided(votes)
      && Notes(primary, occurrences) == Noted(votes)
    }

    constructor ()
      ensures Valid() && votes == []
    {
      anyFailure, anyUndecided, primary, occurrences, votes := false, false, NoReason, EMPTY_TALLY, [];
    }

    method Note(reason: StrandingReason)
      modifies this`primary, this`occurrences
      ensures primary == Stronger(old(primary), reason) && occurrences == Count(old(occurrences), reason)
    {
      match AddAmount(occurrences, reason, 1) {
        case Some(counted) => occurrences := counted;
        case None =>
      }
      if primary == NoReason || Precedence(reason) < Precedence(primary) {
        primary := reason;
      }
    }

    method Consider(vote: Vote)
      requires Valid()
      modifies this
      ensures Valid() && votes == old(votes) + [vote]
    {
      votes := votes + [vote];
      assert votes[..|votes| - 1] == old(votes);
      match vote {
        case Pass =>
        case Undecided =>
          anyUndecided := true;
          assert votes[|votes| - 1].Undecided?;
        case Fails(reason) =>
          anyFailure := true;
          assert votes[|votes| - 1].Fails?;
          Note(reason);
      }
      assert forall i :: 0 <= i < |old(votes)| ==> votes[i] == old(votes)[i];
    }
  }

  lemma PassingIsNeither(votes: seq<Vote>)
    ensures AllPass(votes) <==> !SomeFail(votes) && !SomeUndecided(votes)
  {
  }

  /** Runs every check in the source's order. */
  method CollectVotes(t: Target) returns (evaluation: PoolEvaluation)
    ensures fresh(evaluation) && evaluation.Valid() && evaluation.votes == Votes(t)
  {
    hide ArchitectureVote, TextVote, AbiVote, RequirementVote, MemoryVote, PolicyVote, Noted, SomeFail, SomeUndecided;
    evaluation := new PoolEvaluation();
    evaluation.Consider(ArchitectureVote(t));
    var texts := TextVotes(t);
    ghost var before := evaluation.votes;
    for i := 0 to |texts|
      invariant evaluation.Valid() && evaluation.votes == before + texts[..i]
    {
      evaluation.Consider(texts[i]);
    }
    evaluation.Consider(AbiVote(t));
    before := evaluation.votes;
    var requirements := Requirements(t);
    ghost var all := RequirementVotes(t.observed, requirements);
    for i := 0 to |requirements|
      invariant evaluation.Valid() && evaluation.votes == before + all[..i]
    {
      evaluation.Consider(RequirementVote(t.observed, requirements[i]));
    }
    evaluation.Consider(MemoryVote(t));
    evaluation.Consider(PolicyVote(t));
    assert texts[..|texts|] == texts && all[..|all|] == all;
  }

  method EvaluatePool(t: Target, kind: ResourceKind) returns (result: Eligibility)
    ensures result == PoolEligibility(t, kind)
  {
    hide Votes, Noted, SomeFail, SomeUndecided, AllPass;
    if t.cluster.readiness.NotReady? || t.cluster.readiness.Draining? {
      return DECLINED;
    }
    if kind.Accelerator? && t.acceleratorClass.None? {
      return DECLINED;
    }
    var evaluation := CollectVotes(t);
    PassingIsNeither(Votes(t));
    if evaluation.anyFailure {
      return Eligibility(true, false, evaluation.primary, evaluation.occurrences);
    }
    if evaluation.anyUndecided {
      return Eligibility(false, false, evaluation.primary, evaluation.occurrences);
    }
    return Eligibility(true, true, evaluation.primary, evaluation.occurrences);
  }

  // ---------------------------------------------------------------------------------
  // What the noted reasons mean
  // ---------------------------------------------------------------------------------

  function Occurs(votes: seq<Vote>, reason: StrandingReason): nat {
    if votes == [] then 0
    else Occurs(votes[..|votes| - 1], reason) + if votes[|votes| - 1] == Fails(reason) then 1 else 0
  }

  lemma {:induction false} OccursIfVoted(votes: seq<Vote>, reason: StrandingReason)
    ensures Occurs(votes, reason) > 0 <==> Fails(reason) in votes
    ensures Occurs(votes, reason) <= |votes|
  {
    if votes != [] {
      OccursIfVoted(votes[..|votes| - 1], reason);
      assert votes == votes[..|votes| - 1] + [votes[|votes| - 1]];
    }
  }

  /** No check fails for the reason "none". */
  predicate Reasoned(votes: seq<Vote>) {
    Fails(NoReason) !in votes
  }

  /** Every reason is counted as often as it was exhibited. */
  lemma {:induction false} CountsAreExact(votes: seq<Vote>, reason: StrandingReason)
    requires |votes| <= U64_MAX
    ensures Amount(Noted(votes).occurrences, reason) == Occurs(votes, reason)
  {
    hide Index, Precedence;
    if votes != [] {
      var before := votes[..|votes| - 1];
      var last := votes[|votes| - 1];
      CountsAreExact(before, reason);
      if last.Fails? {
        CountsAreExact(before, last.reason);
        OccursIfVoted(before, last.reason);
        AddAmountConserves(Noted(before).occurrences, last.reason, 1, reason);
      }
    }
  }

  /** The primary reason is the one exhibited reason of least precedence. */
  lemma {:induction false} PrimaryIsStrongest(votes: seq<Vote>, reason: StrandingReason)
    requires Reasoned(votes)
    ensures Noted(votes).primary.NoReason? <==> !SomeFail(votes)
    ensures SomeFail(votes) ==> Fails(Noted(votes).primary) in votes
    ensures Fails(reason) in votes ==>
              Precedence(Noted(votes).primary) < Precedence(reason) || Noted(votes).primary == reason
  {
    hide Index, Precedence, AddAmount;
    if votes != [] {
      var before := votes[..|votes| - 1];
      var last := votes[|votes| - 1];
      assert votes == before + [last];
      PrimaryIsStrongest(before, reason);
      if last.Fails? {
        PrimaryIsStrongest(before, last.reason);
        assert votes[|votes| - 1].Fails?;
        if Precedence(last.reason) == Precedence(Noted(before).primary) {
          PrecedenceIsInjective(last.reason, Noted(before).primary);
        }
      }
      assert forall i :: 0 <= i < |before| ==> votes[i] == before[i];
    }
  }

  lemma ChecksGiveReasons(t: Target, r: Requirement)
    ensures ArchitectureVote(t) != Fails(NoReason) && AbiVote(t) != Fails(NoReason)
    ensures MemoryVote(t) != Fails(NoReason) && PolicyVote(t) != Fails(NoReason)
    ensures RequirementVote(t.observed, r) != Fails(NoReason)
  {
    hide Evaluate;
  }

  lemma TextsGiveReasons(t: Target)
    ensures Reasoned(TextVotes(t))
  {
    hide Find;
  }

  lemma JoinedVotesAreReasoned(a: seq<Vote>, b: seq<Vote>)
    requires Reasoned(a) && Reasoned(b)
    ensures Reasoned(a + b)
  {
  }

  /** Every failed check names a reason. */
  lemma VotesAreReasoned(t: Target)
    ensures Reasoned(Votes(t))
  {
    hide ArchitectureVote, TextVotes, AbiVote, RequirementVote, MemoryVote, PolicyVote;
    var all := RequirementVotes(t.observed, Requirements(t));
    forall i | 0 <= i < |all| ensures all[i] != Fails(NoReason) {
      ChecksGiveReasons(t, Requirements(t)[i]);
    }
    ChecksGiveReasons(t, Requirement(CapabilityRef(0, []), Present, Unpublished, false));
    TextsGiveReasons(t);
    var v1 := [ArchitectureVote(t)] + TextVotes(t);
    JoinedVotesAreReasoned([ArchitectureVote(t)], TextVotes(t));
    JoinedVotesAreReasoned(v1, [AbiVote(t)]);
    JoinedVotesAreReasoned(v1 + [AbiVote(t)], all);
    JoinedVotesAreReasoned(v1 + [AbiVote(t)] + all, [MemoryVote(t)]);
    JoinedVotesAreReasoned(v1 + [AbiVote(t)] + all + [MemoryVote(t)], [PolicyVote(t)]);
  }
}
