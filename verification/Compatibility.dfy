/** The compatibility assessment (src/compatibility.cpp) and its agreement with pool
    eligibility (src/analysis.cpp). */
module Compatibility {
  import opened Foundation
  import opened Capability
  import opened Capacity
  import opened Model
  import opened Deciders
  import Versions

  datatype Outcome =
    | Compatible
    | CompatibleWithFallback
    | CompatibleAfterReconfiguration
    | CompatibleAfterRebuild
    | CapabilityMissing
    | IncompatibleMemory
    | IncompatibleTopology
    | IncompatibleIsolation
    | IncompatibleArtifact
    | IncompatibleAbi
    | IncompatibleDriver
    | IncompatibleRuntime
    | IncompatibleArchitecture
    | StaleEvidence
    | UnknownCompatibility
    | Unsupported

  function Severity(o: Outcome): nat {
    match o
    case Compatible => 0
    case CompatibleWithFallback => 1
    case CompatibleAfterReconfiguration => 2
    case CompatibleAfterRebuild => 3
    case CapabilityMissing => 4
    case IncompatibleMemory => 5
    case IncompatibleTopology => 6
    case IncompatibleIsolation => 7
    case IncompatibleArtifact => 8
    case IncompatibleAbi => 9
    case IncompatibleDriver => 10
    case IncompatibleRuntime => 11
    case IncompatibleArchitecture => 12
    case StaleEvidence => 13
    case UnknownCompatibility => 14
    case Unsupported => 15
  }

  function Weakest(a: Outcome, b: Outcome): Outcome {
    if Severity(a) >= Severity(b) then a else b
  }

  predicate CompatibleFamily(o: Outcome) {
    Severity(o) <= 3
  }

  function OutcomeForFailed(key: CapabilityKey): Outcome {
    if key == 40 || key == 41 then IncompatibleMemory
    else if 80 <= key <= 83 then IncompatibleTopology
    else if key == SECURITY_ISOLATION then IncompatibleIsolation
    else if 180 <= key <= 185 || key == 122 || key == 123 then IncompatibleArtifact
    else if key == 100 || key == 101 || key == 103 then IncompatibleRuntime
    else if key == 102 || key == 120 || key == 121 then IncompatibleAbi
    else if 104 <= key <= 107 then IncompatibleDriver
    else if key == 1 then IncompatibleArchitecture
    else CapabilityMissing
  }

  // ---------------------------------------------------------------------------------
  // The checks
  // ---------------------------------------------------------------------------------

  function CurrentnessOutcome(c: Currentness): Outcome {
    match c
    case Current => Compatible
    case RevalidationRequired => StaleEvidence
    case Stale => StaleEvidence
    case Retired => Unsupported
    case Unknown => UnknownCompatibility
  }

  function ComputeCapability(t: Target): Text {
    if t.acceleratorClass.Some? then t.acceleratorClass.value.computeCapability else []
  }

  function ArchitectureOutcomes(t: Target): seq<Outcome> {
    if t.artifact.None? || !t.artifact.value.kind.CodeBearing() then []
    else
      var a := t.artifact.value;
      [ if a.targetArchitectures == [] || Architecture(t) == [] then UnknownCompatibility
        else if !a.TargetsArchitecture(Architecture(t)) then IncompatibleArchitecture
        else Compatible ]
      + if a.minimumComputeCapability == [] then []
        else [ if ComputeCapability(t) == [] then UnknownCompatibility
               else if Versions.CompareVersions(ComputeCapability(t), a.minimumComputeCapability) >= 0 then Compatible
               else IncompatibleArchitecture ]
  }

  /** None stands for a target without any capability evidence. */
  function RequirementOutcome(observed: Option<seq<CapabilityEntry>>, r: Requirement): Outcome {
    if observed.None? then UnknownCompatibility
    else
      match Evaluate(r, observed.value)
      case Yes => Compatible
      case Unknown => UnknownCompatibility
      case No => if r.optional then CompatibleWithFallback else OutcomeForFailed(r.key.key)
  }

  /** A text asked for as one member of a value set. Values too long for a set ask nothing. */
  function AnyOfOutcomes(observed: Option<seq<CapabilityEntry>>, key: CapabilityKey, value: Text): seq<Outcome> {
    if value == [] || SingletonSet(value).None? then []
    else [RequirementOutcome(observed, Requirement(CapabilityRef(key, []), AnyOf, SingletonSet(value).value, false))]
  }

  function EqualsOutcomes(observed: Option<seq<CapabilityEntry>>, key: CapabilityKey, value: Field): seq<Outcome> {
    if value == [] then []
    else [RequirementOutcome(observed, Requirement(CapabilityRef(key, []), Equals, TextValue(value), false))]
  }

  function ArtifactOutcomes(t: Target, observed: Option<seq<CapabilityEntry>>): seq<Outcome> {
    if t.artifact.None? then []
    else AnyOfOutcomes(observed, ARTIFACT_FORMATS, t.artifact.value.format)
         + EqualsOutcomes(observed, KERNEL_FORMAT, t.artifact.value.kernelFormat)
         + EqualsOutcomes(observed, COMPILER_TARGET, t.artifact.value.compilerTarget)
  }

  function CompareRuntimes(requiredRuntime: Text, observedRuntime: Text, requiredDriver: Text, observedDriver: Text): Outcome {
    if requiredRuntime != [] && observedRuntime == [] then UnknownCompatibility
    else if requiredRuntime != [] && requiredRuntime != observedRuntime then IncompatibleAbi
    else if requiredDriver != [] && observedDriver == [] then UnknownCompatibility
    else if requiredDriver != [] && requiredDriver != observedDriver then IncompatibleDriver
    else Compatible
  }

  function DriverAbi(t: Target): Text {
    if t.runtime.Some? then t.runtime.value.driverAbi else []
  }

  /** One outcome, recorded for the runtime and for the driver. */
  function AbiOutcomes(t: Target): seq<Outcome> {
    if t.artifact.None? || (t.artifact.value.runtimeAbi == [] && t.artifact.value.driverAbi == []) then []
    else
      var o := CompareRuntimes(t.artifact.value.runtimeAbi, RuntimeAbi(t), t.artifact.value.driverAbi, DriverAbi(t));
      [o, o]
  }

  function RequirementOutcomes(observed: Option<seq<CapabilityEntry>>, requirements: seq<Requirement>): seq<Outcome> {
    seq(|requirements|, i requires 0 <= i < |requirements| => RequirementOutcome(observed, requirements[i]))
  }

  function MemoryOutcomes(t: Target): seq<Outcome> {
    if t.workload.None? || t.workload.value.requiredMemoryPerAccelerator == 0 then []
    else if MemoryPerDevice(t) == 0 then [UnknownCompatibility]
    else if t.workload.value.requiredMemoryPerAccelerator > MemoryPerDevice(t) then [IncompatibleMemory]
    else [Compatible]
  }

  function Isolation(t: Target): Field {
    if t.workload.Some? then t.workload.value.isolationRequirement else []
  }

  /** Policy admissibility is tracked beside the checks. */
  function PolicyAdmissible(t: Target): Tri {
    if t.policy.None? then Tri.Unknown
    else TriAnd(t.policy.value.PermitsSite(t.cluster.site), t.policy.value.PermitsCluster(t.cluster.id))
  }

  function PolicyOutcomes(t: Target): seq<Outcome> {
    if PolicyAdmissible(t) == Yes then [Compatible] else []
  }

  function Checks(t: Target, observed: Option<seq<CapabilityEntry>>, currentness: Currentness): seq<Outcome> {
    [CurrentnessOutcome(currentness)] + ArchitectureOutcomes(t) + ArtifactOutcomes(t, observed) + AbiOutcomes(t)
    + RequirementOutcomes(observed, Requirements(t)) + MemoryOutcomes(t)
    + AnyOfOutcomes(observed, SECURITY_ISOLATION, Isolation(t)) + PolicyOutcomes(t)
  }

  /** The weakest of a list, starting from full compatibility. */
  function Overall(checks: seq<Outcome>): Outcome {
    if checks == [] then Compatible else Weakest(Overall(checks[..|checks| - 1]), checks[|checks| - 1])
  }

  datatype Assessment = Assessment(checks: seq<Outcome>, overall: Outcome, policyAdmissible: Tri) {
    predicate AdmitsPlacement() {
      CompatibleFamily(overall) && policyAdmissible != No
    }
  }

  function Assess(t: Target, observed: Option<seq<CapabilityEntry>>, currentness: Currentness): Assessment {
    Assessment(Checks(t, observed, currentness), Overall(Checks(t, observed, currentness)), PolicyAdmissible(t))
  }

  // ---------------------------------------------------------------------------------
  // Building an assessment
  // ---------------------------------------------------------------------------------

  class Builder {
    var checks: seq<Outcome>
    var overall: Outcome

    ghost predicate Valid()
      reads this
    {
      overall == Overall(checks)
    }

    constructor ()
      ensures Valid() && checks == []
    {
      checks, overall := [], Compatible;
    }

    method Add(outcome: Outcome)
      requires Valid()
      modifies this
      ensures Valid() && checks == old(checks) + [outcome]
    {
      checks := checks + [outcome];
      assert checks[..|checks| - 1] == old(checks);
      overall := Weakest(overall, outcome);
    }

    method AddAll(outcomes: seq<Outcome>)
      requires Valid()
      modifies this
      ensures Valid() && checks == old(checks) + outcomes
    {
      hide Overall;
      for i := 0 to |outcomes|
        invariant Valid() && checks == old(checks) + outcomes[..i]
      {
        Add(outcomes[i]);
      }
      assert outcomes[..|outcomes|] == outcomes;
    }

    method AddRequirement(observed: Option<seq<CapabilityEntry>>, r: Requirement)
      requires Valid()
      modifies this
      ensures Valid() && checks == old(checks) + [RequirementOutcome(observed, r)]
    {
      hide Evaluate, Overall, OutcomeForFailed;
      if observed.None? {
        Add(UnknownCompatibility);
        return;
      }
      var satisfied := Evaluate(r, observed.value);
      var outcome := Compatible;
      if satisfied == No {
        outcome := OutcomeForFailed(r.key.key);
        if r.optional {
          outcome := CompatibleWithFallback;
        }
      } else if satisfied == Tri.Unknown {
        outcome := UnknownCompatibility;
      }
      Add(outcome);
    }

    method AddAnyOf(observed: Option<seq<CapabilityEntry>>, key: CapabilityKey, value: Text)
      requires Valid()
      modifies this
      ensures Valid() && checks == old(checks) + AnyOfOutcomes(observed, key, value)
    {
      hide Overall, RequirementOutcome;
      if value != [] {
        var allowed := SingletonSet(value);
        if allowed.Some? {
          AddRequirement(observed, Requirement(CapabilityRef(key, []), AnyOf, allowed.value, false));
        }
      }
    }

    method AddEquals(observed: Option<seq<CapabilityEntry>>, key: CapabilityKey, value: Field)
      requires Valid()
      modifies this
      ensures Valid() && checks == old(checks) + EqualsOutcomes(observed, key, value)
    {
      hide Overall, RequirementOutcome;
      if value != [] {
        AddRequirement(observed, Requirement(CapabilityRef(key, []), Equals, TextValue(value), false));
      }
    }

    method AddRequirements(observed: Option<seq<CapabilityEntry>>, requirements: seq<Requirement>)
      requires Valid()
      modifies this
      ensures Valid() && checks == old(checks) + RequirementOutcomes(observed, requirements)
    {
      hide Overall, RequirementOutcome;
      ghost var all := RequirementOutcomes(observed, requirements);
      for i := 0 to |requirements|
        invariant Valid() && checks == old(checks) + all[..i]
      {
        AddRequirement(observed, requirements[i]);
      }
      assert all[..|all|] == all;
    }
  }

  method AssessCompatibility(t: Target, observed: Option<seq<CapabilityEntry>>, currentness: Currentness)
    returns (a: Assessment)
    ensures a == Assess(t, observed, currentness)
  {
    hide Overall, ArchitectureOutcomes, AnyOfOutcomes, EqualsOutcomes, AbiOutcomes, RequirementOutcomes, MemoryOutcomes,
         CurrentnessOutcome, PolicyAdmissible, Weakest;
    var builder := new Builder();
    builder.Add(CurrentnessOutcome(currentness));
    assert builder.checks == [CurrentnessOutcome(currentness)];
    builder.AddAll(ArchitectureOutcomes(t));
    ghost var before := builder.checks;
    if t.artifact.Some? {
      builder.AddAnyOf(observed, ARTIFACT_FORMATS, t.artifact.value.format);
      builder.AddEquals(observed, KERNEL_FORMAT, t.artifact.value.kernelFormat);
      builder.AddEquals(observed, COMPILER_TARGET, t.artifact.value.compilerTarget);
    }
    assert builder.checks == before + ArtifactOutcomes(t, observed);
    builder.AddAll(AbiOutcomes(t));
    builder.AddRequirements(observed, Requirements(t));
    builder.AddAll(MemoryOutcomes(t));
    builder.AddAnyOf(observed, SECURITY_ISOLATION, Isolation(t));
    var admissible := PolicyAdmissible(t);
    before := builder.checks;
    if admissible == Yes {
      builder.Add(Compatible);
    }
    assert builder.checks == before + PolicyOutcomes(t);
    assert builder.checks == Checks(t, observed, currentness);
    return Assessment(builder.checks, builder.overall, admissible);
  }

  // ---------------------------------------------------------------------------------
  // The overall verdict
  // ---------------------------------------------------------------------------------

  predicate AllCompatible(checks: seq<Outcome>) {
    forall i :: 0 <= i < |checks| ==> CompatibleFamily(checks[i])
  }

  /** The overall verdict is the weakest outcome recorded (or full compatibility), so it is in
      the compatible family exactly when every check is. */
  lemma {:induction false} OverallIsWeakest(checks: seq<Outcome>)
    ensures forall i :: 0 <= i < |checks| ==> Severity(checks[i]) <= Severity(Overall(checks))
    ensures Overall(checks) == Compatible || Overall(checks) in checks
    ensures CompatibleFamily(Overall(checks)) <==> AllCompatible(checks)
  {
    hide Severity;
    if checks == [] {
      assert Severity(Compatible) == 0 by { CompatibleIsStrongest(); }
    } else {
      var before := checks[..|checks| - 1];
      OverallIsWeakest(before);
      assert checks == before + [checks[|checks| - 1]];
      assert forall i :: 0 <= i < |before| ==> checks[i] == before[i];
    }
  }

  lemma CompatibleIsStrongest()
    ensures Severity(Compatible) == 0
  {
  }

  // ---------------------------------------------------------------------------------
  // Agreement
  // ---------------------------------------------------------------------------------

  /** What the assessment asks beyond the pool: current evidence, the compute capability, the
      driver ABI, the isolation requirement, and the site's admissibility even when no site
      record is at hand. */
  predicate AskedByAssessmentOnly(t: Target, currentness: Currentness) {
    && currentness.Current?
    && (t.artifact.Some? && t.artifact.value.kind.CodeBearing() && t.artifact.value.minimumComputeCapability != [] ==>
          && ComputeCapability(t) != []
          && Versions.CompareVersions(ComputeCapability(t), t.artifact.value.minimumComputeCapability) >= 0)
    && (t.artifact.Some? && t.artifact.value.driverAbi != [] ==> DriverAbi(t) == t.artifact.value.driverAbi)
    && AllCompatible(AnyOfOutcomes(Some(t.observed), SECURITY_ISOLATION, Isolation(t)))
    && (t.policy.Some? ==> t.policy.value.PermitsSite(t.cluster.site) != Tri.No)
  }

  /** What the pool asks beyond the assessment: a cluster that does not report itself unready,
      a published class, an accepted state format, and an accepted format even when the format
      is too long to be asked for as a set member. */
  predicate AskedByPoolOnly(t: Target, kind: ResourceKind) {
    && !Declines(t, kind)
    && (t.artifact.Some? ==>
          && TextVote(t.observed, t.artifact.value.stateFormat, ARTIFACT_FORMATS, MissingLocalStorageState).Pass?
          && (|t.artifact.value.format| > MAX_VALUE_SET_ENTRY ==>
                TextVote(t.observed, t.artifact.value.format, ARTIFACT_FORMATS, ArtifactIncompatibility).Pass?))
  }

  /** The site record, when there is one, is the record of the cluster's site. */
  predicate SiteMatches(t: Target) {
    t.site.Some? ==> t.site.value == t.cluster.site
  }

  lemma AnyOfAgrees(observed: seq<CapabilityEntry>, key: CapabilityKey, value: Text, reason: StrandingReason)
    requires |value| <= MAX_VALUE_SET_ENTRY
    ensures AllCompatible(AnyOfOutcomes(Some(observed), key, value)) <==> TextVote(observed, value, key, reason).Pass?
  {
    hide Find;
    if value != [] {
      var r := Requirement(CapabilityRef(key, []), AnyOf, TextSet([value]), false);
      var o := RequirementOutcome(Some(observed), r);
      FailedIsIncompatible(key);
      assert AnyOfOutcomes(Some(observed), key, value) == [o];
      assert AllCompatible([o]) <==> CompatibleFamily(o) by { OneCheck(o); }
      assert value in r.value.texts;
    }
  }

  lemma EqualsAgrees(observed: seq<CapabilityEntry>, key: CapabilityKey, value: Field, reason: StrandingReason)
    ensures AllCompatible(EqualsOutcomes(Some(observed), key, value)) <==> TextVote(observed, value, key, reason).Pass?
  {
    hide Find;
    if value != [] {
      var r := Requirement(CapabilityRef(key, []), Equals, TextValue(value), false);
      var o := RequirementOutcome(Some(observed), r);
      FailedIsIncompatible(key);
      assert EqualsOutcomes(Some(observed), key, value) == [o];
      assert AllCompatible([o]) <==> CompatibleFamily(o) by { OneCheck(o); }
    }
  }

  lemma FailedIsIncompatible(key: CapabilityKey)
    ensures !CompatibleFamily(OutcomeForFailed(key))
  {
  }

  lemma OneCheck(o: Outcome)
    ensures AllCompatible([o]) <==> CompatibleFamily(o)
  {
    assert [o][0] == o;
  }

  lemma TwoChecks(a: seq<Outcome>, b: seq<Outcome>)
    ensures AllCompatible(a + b) <==> AllCompatible(a) && AllCompatible(b)
  {
    hide CompatibleFamily;
    assert forall i :: 0 <= i < |a| ==> (a + b)[i] == a[i];
    assert forall i :: 0 <= i < |b| ==> (a + b)[|a| + i] == b[i];
  }

  lemma TwoVotes(a: seq<Vote>, b: seq<Vote>)
    ensures AllPass(a + b) <==> AllPass(a) && AllPass(b)
  {
    assert forall i :: 0 <= i < |a| ==> (a + b)[i] == a[i];
    assert forall i :: 0 <= i < |b| ==> (a + b)[|a| + i] == b[i];
  }

  lemma ArchitectureAgrees(t: Target)
    ensures AllCompatible(ArchitectureOutcomes(t)) <==>
              && ArchitectureVote(t).Pass?
              && (t.artifact.Some? && t.artifact.value.kind.CodeBearing() && t.artifact.value.minimumComputeCapability != [] ==>
                    && ComputeCapability(t) != []
                    && Versions.CompareVersions(ComputeCapability(t), t.artifact.value.minimumComputeCapability) >= 0)
  {
    hide Versions.CompareVersions;
    var checks := ArchitectureOutcomes(t);
    if checks != [] {
      OneCheck(checks[0]);
      TwoChecks([checks[0]], checks[1..]);
      assert checks == [checks[0]] + checks[1..];
      if |checks| == 2 {
        OneCheck(checks[1]);
        assert checks[1..] == [checks[1]];
      }
    }
  }

  lemma ArtifactAgrees(t: Target)
    requires t.artifact.Some?
    ensures AllCompatible(ArtifactOutcomes(t, Some(t.observed))) && AskedByPoolTexts(t) <==> AllPass(TextVotes(t))
  {
    hide TextVote, AnyOfOutcomes, EqualsOutcomes, CompatibleFamily;
    var a := t.artifact.value;
    var observed := Some(t.observed);
    TwoChecks(AnyOfOutcomes(observed, ARTIFACT_FORMATS, a.format), EqualsOutcomes(observed, KERNEL_FORMAT, a.kernelFormat));
    TwoChecks(AnyOfOutcomes(observed, ARTIFACT_FORMATS, a.format) + EqualsOutcomes(observed, KERNEL_FORMAT, a.kernelFormat),
              EqualsOutcomes(observed, COMPILER_TARGET, a.compilerTarget));
    EqualsAgrees(t.observed, KERNEL_FORMAT, a.kernelFormat, ArtifactIncompatibility);
    EqualsAgrees(t.observed, COMPILER_TARGET, a.compilerTarget, MissingCompilerTarget);
    if |a.format| <= MAX_VALUE_SET_ENTRY {
      AnyOfAgrees(t.observed, ARTIFACT_FORMATS, a.format, ArtifactIncompatibility);
    } else {
      LongFormatsAskNothing(observed, ARTIFACT_FORMATS, a.format);
    }
    FourVotes(TextVotes(t));
  }

  lemma FourVotes(votes: seq<Vote>)
    requires |votes| == 4
    ensures AllPass(votes) <==> votes[0].Pass? && votes[1].Pass? && votes[2].Pass? && votes[3].Pass?
  {
  }

  lemma LongFormatsAskNothing(observed: Option<seq<CapabilityEntry>>, key: CapabilityKey, value: Text)
    requires |value| > MAX_VALUE_SET_ENTRY
    ensures AllCompatible(AnyOfOutcomes(observed, key, value))
  {
  }

  predicate AskedByPoolTexts(t: Target)
    requires t.artifact.Some?
  {
    && TextVote(t.observed, t.artifact.value.stateFormat, ARTIFACT_FORMATS, MissingLocalStorageState).Pass?
    && (|t.artifact.value.format| > MAX_VALUE_SET_ENTRY ==>
          TextVote(t.observed, t.artifact.value.format, ARTIFACT_FORMATS, ArtifactIncompatibility).Pass?)
  }

  lemma AbiAgrees(t: Target)
    ensures AllCompatible(AbiOutcomes(t)) <==>
              && AbiVote(t).Pass?
              && (t.artifact.Some? && t.artifact.value.driverAbi != [] ==> DriverAbi(t) == t.artifact.value.driverAbi)
  {
    if AbiOutcomes(t) != [] {
      var o := AbiOutcomes(t)[0];
      OneCheck(o);
      TwoChecks([o], [o]);
      assert AbiOutcomes(t) == [o] + [o];
    }
  }

  lemma RequirementsAgree(observed: seq<CapabilityEntry>, requirements: seq<Requirement>)
    ensures AllCompatible(RequirementOutcomes(Some(observed), requirements)) <==>
            AllPass(RequirementVotes(observed, requirements))
  {
    hide Evaluate, OutcomeForFailed;
    forall i | 0 <= i < |requirements|
      ensures CompatibleFamily(RequirementOutcomes(Some(observed), requirements)[i]) <==>
              RequirementVotes(observed, requirements)[i].Pass?
    {
      FailedIsIncompatible(requirements[i].key.key);
    }
    var votes := RequirementVotes(observed, requirements);
    var outcomes := RequirementOutcomes(Some(observed), requirements);
    assert forall i :: 0 <= i < |requirements| ==> (CompatibleFamily(outcomes[i]) <==> votes[i].Pass?);
  }

  lemma MemoryAgrees(t: Target)
    ensures AllCompatible(MemoryOutcomes(t)) <==> MemoryVote(t).Pass?
  {
    if MemoryOutcomes(t) != [] {
      OneCheck(MemoryOutcomes(t)[0]);
      assert MemoryOutcomes(t) == [MemoryOutcomes(t)[0]];
    }
  }

  lemma PolicyAgrees(t: Target)
    requires SiteMatches(t)
    ensures AllCompatible(PolicyOutcomes(t))
    ensures PolicyAdmissible(t) != No <==>
              && PolicyVote(t).Pass?
              && (t.policy.Some? ==> t.policy.value.PermitsSite(t.cluster.site) != Tri.No)
  {
    OneCheck(Compatible);
  }

  lemma ChecksInParts(t: Target, observed: Option<seq<CapabilityEntry>>, currentness: Currentness)
    ensures AllCompatible(Checks(t, observed, currentness)) <==>
              && AllCompatible([CurrentnessOutcome(currentness)]) && AllCompatible(ArchitectureOutcomes(t))
              && AllCompatible(ArtifactOutcomes(t, observed)) && AllCompatible(AbiOutcomes(t))
              && AllCompatible(RequirementOutcomes(observed, Requirements(t))) && AllCompatible(MemoryOutcomes(t))
              && AllCompatible(AnyOfOutcomes(observed, SECURITY_ISOLATION, Isolation(t)))
              && AllCompatible(PolicyOutcomes(t))
  {
    hide AllCompatible, CurrentnessOutcome, ArchitectureOutcomes, ArtifactOutcomes, AbiOutcomes, RequirementOutcomes,
         MemoryOutcomes, AnyOfOutcomes, PolicyOutcomes;
    var c1 := [CurrentnessOutcome(currentness)] + ArchitectureOutcomes(t);
    TwoChecks([CurrentnessOutcome(currentness)], ArchitectureOutcomes(t));
    var c2 := c1 + ArtifactOutcomes(t, observed);
    TwoChecks(c1, ArtifactOutcomes(t, observed));
    var c3 := c2 + AbiOutcomes(t);
    TwoChecks(c2, AbiOutcomes(t));
    var c4 := c3 + RequirementOutcomes(observed, Requirements(t));
    TwoChecks(c3, RequirementOutcomes(observed, Requirements(t)));
    var c5 := c4 + MemoryOutcomes(t);
    TwoChecks(c4, MemoryOutcomes(t));
    var c6 := c5 + AnyOfOutcomes(observed, SECURITY_ISOLATION, Isolation(t));
    TwoChecks(c5, AnyOfOutcomes(observed, SECURITY_ISOLATION, Isolation(t)));
    TwoChecks(c6, PolicyOutcomes(t));
  }

  lemma VotesInParts(t: Target)
    ensures AllPass(Votes(t)) <==>
              && ArchitectureVote(t).Pass? && AllPass(TextVotes(t)) && AbiVote(t).Pass?
              && AllPass(RequirementVotes(t.observed, Requirements(t))) && MemoryVote(t).Pass? && PolicyVote(t).Pass?
  {
    hide ArchitectureVote, TextVotes, AbiVote, RequirementVotes, MemoryVote, PolicyVote, AllPass;
    OneVote(ArchitectureVote(t));
    OneVote(AbiVote(t));
    OneVote(MemoryVote(t));
    OneVote(PolicyVote(t));
    var v1 := [ArchitectureVote(t)] + TextVotes(t);
    TwoVotes([ArchitectureVote(t)], TextVotes(t));
    var v2 := v1 + [AbiVote(t)];
    TwoVotes(v1, [AbiVote(t)]);
    var v3 := v2 + RequirementVotes(t.observed, Requirements(t));
    TwoVotes(v2, RequirementVotes(t.observed, Requirements(t)));
    var v4 := v3 + [MemoryVote(t)];
    TwoVotes(v3, [MemoryVote(t)]);
    TwoVotes(v4, [PolicyVote(t)]);
  }

  lemma OneVote(v: Vote)
    ensures AllPass([v]) <==> v.Pass?
  {
    assert [v][0] == v;
  }

  lemma CurrentnessAgrees(currentness: Currentness)
    ensures AllCompatible([CurrentnessOutcome(currentness)]) <==> currentness.Current?
  {
    OneCheck(CurrentnessOutcome(currentness));
  }

  lemma AdmissionInParts(t: Target, currentness: Currentness)
    ensures Assess(t, Some(t.observed), currentness).AdmitsPlacement() <==>
              AllCompatible(Checks(t, Some(t.observed), currentness)) && PolicyAdmissible(t) != No
  {
    hide Checks, AllCompatible, CompatibleFamily, PolicyAdmissible, Overall;
    OverallIsWeakest(Checks(t, Some(t.observed), currentness));
  }

  lemma EligibilityInParts(t: Target, kind: ResourceKind)
    ensures PoolEligibility(t, kind).eligible <==> !Declines(t, kind) && AllPass(Votes(t))
    ensures PoolEligibility(t, kind).eligible ==> PoolEligibility(t, kind).decided
  {
    hide Votes, Noted, AllPass, SomeFail, SomeUndecided;
    PassingIsNeither(Votes(t));
  }

  /** The two deciders agree on everything both ask: a placement is admitted and the pool's own
      questions are answered well, exactly when the pool is eligible and the assessment's own
      questions are answered well. */
  lemma DecidersAgree(t: Target, kind: ResourceKind, currentness: Currentness)
    requires SiteMatches(t)
    ensures Assess(t, Some(t.observed), currentness).AdmitsPlacement() && AskedByPoolOnly(t, kind) <==>
            PoolEligibility(t, kind).eligible && AskedByAssessmentOnly(t, currentness)
  {
    hide Assess, PoolEligibility, AllCompatible, AllPass, Votes, Checks, ArchitectureVote, TextVotes, AbiVote,
         RequirementVotes, MemoryVote, PolicyVote, CurrentnessOutcome, ArchitectureOutcomes, ArtifactOutcomes,
         AbiOutcomes, RequirementOutcomes, MemoryOutcomes, AnyOfOutcomes, PolicyOutcomes, PolicyAdmissible, TextVote,
         Versions.CompareVersions, Declines;
    AdmissionInParts(t, currentness);
    EligibilityInParts(t, kind);
    ChecksInParts(t, Some(t.observed), currentness);
    VotesInParts(t);
    CurrentnessAgrees(currentness);
    ArchitectureAgrees(t);
    if t.artifact.Some? {
      ArtifactAgrees(t);
    } else {
      NoArtifact(t);
    }
    AbiAgrees(t);
    RequirementsAgree(t.observed, Requirements(t));
    MemoryAgrees(t);
    PolicyAgrees(t);
  }

  lemma NoArtifact(t: Target)
    requires t.artifact.None?
    ensures AllPass(TextVotes(t)) && AllCompatible(ArtifactOutcomes(t, Some(t.observed)))
  {
  }

  /** So a stranded or undecided pool is never admitted, as long as the cluster is not unready,
      its class is published, and the artifact's state format and over-long format are accepted. */
  lemma AdmittedPoolsAreEligible(t: Target, kind: ResourceKind, currentness: Currentness)
    requires SiteMatches(t) && AskedByPoolOnly(t, kind)
    requires Assess(t, Some(t.observed), currentness).AdmitsPlacement()
    ensures PoolEligibility(t, kind).decided && PoolEligibility(t, kind).eligible
  {
    hide Assess, PoolEligibility, AskedByPoolOnly, AskedByAssessmentOnly;
    DecidersAgree(t, kind, currentness);
    EligibilityInParts(t, kind);
  }
}
