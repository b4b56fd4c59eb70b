/** What makes each decider say no, one verdict at a time: the reasons a pool exhibits
    (src/analysis.cpp) and the outcomes an assessment records (src/compatibility.cpp). */
module Causes {
  import opened Foundation
  import opened Capability
  import opened Capacity
  import opened Model
  import opened Deciders
  import opened Compatibility
  import Versions

  // ---------------------------------------------------------------------------------
  // Questions
  // ---------------------------------------------------------------------------------

  /** A requirement that cannot be answered, optional or not. */
  ghost predicate Unanswered(t: Target, observed: seq<CapabilityEntry>) {
    exists k :: 0 <= k < |Requirements(t)| && Evaluate(Requirements(t)[k], observed) == Tri.Unknown
  }

  function Published(observed: seq<CapabilityEntry>, key: nat): Option<CapabilityValue>
    requires key < 0x1_0000
  {
    match Find(observed, CapabilityRef(key, []))
    case None => None
    case Some(e) => Some(e.value)
  }

  /** The text is asked for, and other texts are published. */
  predicate Denied(observed: seq<CapabilityEntry>, key: nat, text: Text)
    requires key < 0x1_0000
  {
    && text != [] && Published(observed, key).Some?
    && var v := Published(observed, key).value;
       (v.TextValue? && v.text != text) || (v.TextSet? && text !in v.texts)
  }

  /** The text is asked for, and no text is published. */
  predicate Untold(observed: seq<CapabilityEntry>, key: nat, text: Text)
    requires key < 0x1_0000
  {
    text != [] && (Published(observed, key).None?
                   || (!Published(observed, key).value.TextValue? && !Published(observed, key).value.TextSet?))
  }

  predicate CodeBearing(t: Target) {
    t.artifact.Some? && t.artifact.value.kind.CodeBearing()
  }

  predicate OtherArchitecture(t: Target) {
    && CodeBearing(t) && t.acceleratorClass.Some? && t.acceleratorClass.value.architecture != []
    && t.artifact.value.targetArchitectures != []
    && t.acceleratorClass.value.architecture !in t.artifact.value.targetArchitectures
  }

  predicate NoArchitecture(t: Target) {
    && CodeBearing(t)
    && (t.artifact.value.targetArchitectures == [] || t.acceleratorClass.None? || t.acceleratorClass.value.architecture == [])
  }

  predicate OtherAbi(t: Target) {
    && t.artifact.Some? && t.artifact.value.runtimeAbi != []
    && t.runtime.Some? && t.runtime.value.abi != [] && t.runtime.value.abi != t.artifact.value.runtimeAbi
  }

  predicate NoAbi(t: Target) {
    t.artifact.Some? && t.artifact.value.runtimeAbi != [] && (t.runtime.None? || t.runtime.value.abi == [])
  }

  predicate ShortOfMemory(t: Target) {
    && t.workload.Some? && t.acceleratorClass.Some?
    && 0 < t.acceleratorClass.value.memoryBytesPerDevice < t.workload.value.requiredMemoryPerAccelerator
  }

  predicate MemoryUntold(t: Target) {
    && t.workload.Some? && t.workload.value.requiredMemoryPerAccelerator > 0
    && (t.acceleratorClass.None? || t.acceleratorClass.value.memoryBytesPerDevice == 0)
  }

  predicate SiteRuledOut(t: Target) {
    && t.policy.Some? && t.site.Some?
    && (|| t.site.value in t.policy.value.deniedSites
        || (t.policy.value.allowedSites != [] && t.site.value !in t.policy.value.allowedSites))
  }

  predicate ClusterRuledOut(t: Target) {
    && t.policy.Some?
    && (|| t.cluster.id in t.policy.value.deniedClusters
        || (t.policy.value.allowedClusters != [] && t.cluster.id !in t.policy.value.allowedClusters))
  }

  // ---------------------------------------------------------------------------------
  // Pools
  // ---------------------------------------------------------------------------------

  /** The capability keys a reason stands for. */
  predicate KeyOf(reason: StrandingReason, key: CapabilityKey) {
    match reason
    case UnsupportedPrecision => 20 <= key <= 30
    case MemoryInsufficient => 40 <= key <= 43
    case MissingInterconnectFeature => 60 <= key <= 63
    case PartitionGeometry => 80 <= key <= 83
    case RuntimeMismatch => key in [100, 101, 103]
    case AbiMismatch => key == 102
    case DriverMismatch => 104 <= key <= 107
    case MissingCompilerTarget => 120 <= key <= 121
    case ArtifactIncompatibility => 122 <= key <= 123 || 180 <= key <= 185
    case TopologyConstraint => 140 <= key <= 142
    case IsolationRequirement => key == 203
    case MissingOffloadCapability => key == 204
    case _ => false
  }

  /** Every other key stands for an accelerator capability. */
  lemma ReasonOfKey(key: CapabilityKey, reason: StrandingReason)
    ensures reason != UnsupportedAcceleratorCapability ==> (ReasonForRequirement(key) == reason <==> KeyOf(reason, key))
    ensures ReasonForRequirement(key) == UnsupportedAcceleratorCapability <==> forall other :: !KeyOf(other, key)
  {
    assert ReasonForRequirement(key) != UnsupportedAcceleratorCapability ==> KeyOf(ReasonForRequirement(key), key);
    forall other ensures KeyOf(other, key) ==> ReasonForRequirement(key) == other {
    }
  }

  /** A requirement that is not optional and is not met, under a key the reason stands for. */
  ghost predicate Unmet(t: Target, reason: StrandingReason) {
    exists k :: 0 <= k < |Requirements(t)| && !Requirements(t)[k].optional && Evaluate(Requirements(t)[k], t.observed) == No
                && if reason == UnsupportedAcceleratorCapability then forall other :: !KeyOf(other, Requirements(t)[k].key.key)
                   else KeyOf(reason, Requirements(t)[k].key.key)
  }

  /** What beside an unmet requirement makes a pool exhibit the reason. */
  predicate Besides(t: Target, reason: StrandingReason) {
    match reason
    case AbiMismatch => OtherAbi(t)
    case ArtifactIncompatibility =>
      || OtherArchitecture(t)
      || (t.artifact.Some? && (Denied(t.observed, 181, t.artifact.value.format) || Denied(t.observed, 122, t.artifact.value.kernelFormat)))
    case MissingCompilerTarget => t.artifact.Some? && Denied(t.observed, 120, t.artifact.value.compilerTarget)
    case MissingLocalStorageState => t.artifact.Some? && Denied(t.observed, 181, t.artifact.value.stateFormat)
    case MemoryInsufficient => ShortOfMemory(t)
    case SiteRestriction => SiteRuledOut(t)
    case PolicyRestriction => ClusterRuledOut(t) && !SiteRuledOut(t)
    case _ => false
  }

  /** Something the pool is asked cannot be told. */
  ghost predicate LeavesOpen(t: Target) {
    || NoArchitecture(t) || NoAbi(t) || MemoryUntold(t) || Unanswered(t, t.observed)
    || (t.artifact.Some? && var a := t.artifact.value;
          || Untold(t.observed, 181, a.format) || Untold(t.observed, 122, a.kernelFormat)
          || Untold(t.observed, 181, a.stateFormat) || Untold(t.observed, 120, a.compilerTarget))
  }

  lemma VoteIsOneOf(t: Target, v: Vote)
    ensures v in Votes(t) <==>
            || v == ArchitectureVote(t) || v in TextVotes(t) || v == AbiVote(t) || v == MemoryVote(t) || v == PolicyVote(t)
            || v in RequirementVotes(t.observed, Requirements(t))
  {
    hide ArchitectureVote, TextVotes, AbiVote, RequirementVotes, MemoryVote, PolicyVote;
  }

  lemma TextVoteMeans(observed: seq<CapabilityEntry>, text: Text, key: CapabilityKey, reason: StrandingReason)
    ensures TextVote(observed, text, key, reason) ==
            if Denied(observed, key, text) then Fails(reason) else if Untold(observed, key, text) then Undecided else Pass
  {
    hide Find;
  }

  lemma TextVoteIsOneOf(t: Target, v: Vote)
    ensures v in TextVotes(t) <==>
            t.artifact.Some? && var a := t.artifact.value;
            || v == TextVote(t.observed, a.format, 181, ArtifactIncompatibility)
            || v == TextVote(t.observed, a.kernelFormat, 122, ArtifactIncompatibility)
            || v == TextVote(t.observed, a.stateFormat, 181, MissingLocalStorageState)
            || v == TextVote(t.observed, a.compilerTarget, 120, MissingCompilerTarget)
  {
    hide TextVote;
  }

  lemma RequirementVoteMeans(t: Target, reason: StrandingReason)
    ensures Fails(reason) in RequirementVotes(t.observed, Requirements(t)) <==> Unmet(t, reason)
    ensures Undecided in RequirementVotes(t.observed, Requirements(t)) <==> Unanswered(t, t.observed)
  {
    hide Evaluate, ReasonForRequirement, KeyOf, Requirements;
    var votes := RequirementVotes(t.observed, Requirements(t));
    forall k | 0 <= k < |Requirements(t)|
      ensures votes[k] == Fails(reason) <==>
              && !Requirements(t)[k].optional && Evaluate(Requirements(t)[k], t.observed) == No
              && if reason == UnsupportedAcceleratorCapability then forall other :: !KeyOf(other, Requirements(t)[k].key.key)
                 else KeyOf(reason, Requirements(t)[k].key.key)
    {
      ReasonOfKey(Requirements(t)[k].key.key, reason);
    }
  }

  lemma SingleVotesMean(t: Target, reason: StrandingReason)
    ensures ArchitectureVote(t) == Fails(reason) <==> reason == ArtifactIncompatibility && OtherArchitecture(t)
    ensures AbiVote(t) == Fails(reason) <==> reason == AbiMismatch && OtherAbi(t)
    ensures MemoryVote(t) == Fails(reason) <==> reason == MemoryInsufficient && ShortOfMemory(t)
    ensures PolicyVote(t) == Fails(reason) <==>
            (reason == SiteRestriction && SiteRuledOut(t)) || (reason == PolicyRestriction && ClusterRuledOut(t) && !SiteRuledOut(t))
    ensures (ArchitectureVote(t).Undecided? <==> NoArchitecture(t)) && (AbiVote(t).Undecided? <==> NoAbi(t))
    ensures (MemoryVote(t).Undecided? <==> MemoryUntold(t)) && !PolicyVote(t).Undecided?
  {
  }

  /** Every reason a pool exhibits has its cause, and every cause is exhibited. */
  lemma ReasonsAreCauses(t: Target, reason: StrandingReason)
    ensures Fails(reason) in Votes(t) <==> Unmet(t, reason) || Besides(t, reason)
    ensures Undecided in Votes(t) <==> LeavesOpen(t)
  {
    hide Votes, ArchitectureVote, AbiVote, MemoryVote, PolicyVote, TextVotes, TextVote, RequirementVotes, Unmet, Unanswered,
         OtherArchitecture, OtherAbi, NoArchitecture, NoAbi, ShortOfMemory, MemoryUntold, SiteRuledOut, ClusterRuledOut,
         Denied, Untold;
    VoteIsOneOf(t, Fails(reason));
    VoteIsOneOf(t, Undecided);
    TextVoteIsOneOf(t, Fails(reason));
    TextVoteIsOneOf(t, Undecided);
    RequirementVoteMeans(t, reason);
    SingleVotesMean(t, reason);
    if t.artifact.Some? {
      var a := t.artifact.value;
      TextVoteMeans(t.observed, a.format, 181, ArtifactIncompatibility);
      TextVoteMeans(t.observed, a.kernelFormat, 122, ArtifactIncompatibility);
      TextVoteMeans(t.observed, a.stateFormat, 181, MissingLocalStorageState);
      TextVoteMeans(t.observed, a.compilerTarget, 120, MissingCompilerTarget);
      DeniedIsNotUntold(t.observed, 181, a.format);
      DeniedIsNotUntold(t.observed, 122, a.kernelFormat);
      DeniedIsNotUntold(t.observed, 181, a.stateFormat);
      DeniedIsNotUntold(t.observed, 120, a.compilerTarget);
    }
  }

  lemma DeniedIsNotUntold(observed: seq<CapabilityEntry>, key: CapabilityKey, text: Text)
    ensures !(Denied(observed, key, text) && Untold(observed, key, text))
  {
  }

  /** The cluster reports that it takes no work, or an accelerator pool names no known class. */
  predicate Declined(t: Target, kind: ResourceKind) {
    t.cluster.readiness in {Readiness.NotReady, Readiness.Draining} || (kind == ResourceKind.Accelerator && t.acceleratorClass.None?)
  }

  /** A pool that is not declined is eligible exactly when nothing speaks against it and nothing is
      left open, and undecided exactly when something is left open and nothing speaks against it. */
  lemma EligibleExactly(t: Target, kind: ResourceKind)
    ensures var objection := exists reason :: Unmet(t, reason) || Besides(t, reason);
            var e := PoolEligibility(t, kind);
            && (e.eligible <==> !Declined(t, kind) && !objection && !LeavesOpen(t))
            && (e.decided <==> !Declined(t, kind) && (objection || !LeavesOpen(t)))
  {
    hide Votes, Noted, Unmet, Besides, LeavesOpen;
    var votes := Votes(t);
    ReasonsAreCauses(t, NoReason);
    if SomeFail(votes) {
      var i :| 0 <= i < |votes| && votes[i].Fails?;
      ReasonsAreCauses(t, votes[i].reason);
      assert votes[i] == Fails(votes[i].reason) && votes[i] in votes;
    }
    if reason :| Unmet(t, reason) || Besides(t, reason) {
      ReasonsAreCauses(t, reason);
      var i :| 0 <= i < |votes| && votes[i] == Fails(reason);
    }
    if SomeUndecided(votes) {
      var i :| 0 <= i < |votes| && votes[i].Undecided?;
      assert votes[i] == Undecided && votes[i] in votes;
    }
    if Undecided in votes {
      var i :| 0 <= i < |votes| && votes[i] == Undecided;
    }
  }

  // ---------------------------------------------------------------------------------
  // Assessments
  // ---------------------------------------------------------------------------------

  predicate OtherDriver(t: Target) {
    && t.artifact.Some? && t.artifact.value.driverAbi != []
    && t.runtime.Some? && t.runtime.value.driverAbi != [] && t.runtime.value.driverAbi != t.artifact.value.driverAbi
  }

  predicate NoDriver(t: Target) {
    t.artifact.Some? && t.artifact.value.driverAbi != [] && (t.runtime.None? || t.runtime.value.driverAbi == [])
  }

  predicate AsksForCompute(t: Target) {
    CodeBearing(t) && t.artifact.value.minimumComputeCapability != []
  }

  predicate ComputeTooLow(t: Target) {
    && AsksForCompute(t) && t.acceleratorClass.Some? && t.acceleratorClass.value.computeCapability != []
    && Versions.CompareVersions(t.acceleratorClass.value.computeCapability, t.artifact.value.minimumComputeCapability) < 0
  }

  predicate NoCompute(t: Target) {
    AsksForCompute(t) && (t.acceleratorClass.None? || t.acceleratorClass.value.computeCapability == [])
  }

  /** The text is asked for as a member of a set, and what is published does not offer it. Texts too
      long for a set are not asked for. */
  predicate NotOffered(observed: Option<seq<CapabilityEntry>>, key: nat, text: Text)
    requires key < 0x1_0000
  {
    && text != [] && |text| <= 256 && observed.Some? && Published(observed.value, key).Some?
    && var v := Published(observed.value, key).value;
       v != Unpublished && !(v.TextValue? && v.text == text) && !(v.TextSet? && text in v.texts)
  }

  predicate OfferUntold(observed: Option<seq<CapabilityEntry>>, key: nat, text: Text)
    requires key < 0x1_0000
  {
    && text != [] && |text| <= 256
    && (observed.None? || Published(observed.value, key).None? || Published(observed.value, key).value == Unpublished)
  }

  /** The capability keys an outcome stands for. */
  predicate KeyOfOutcome(o: Outcome, key: CapabilityKey) {
    match o
    case IncompatibleMemory => key == 40 || key == 41
    case IncompatibleTopology => 80 <= key <= 83
    case IncompatibleRuntime => key in [100, 101, 103]
    case IncompatibleAbi => key in [102, 120, 121]
    case IncompatibleDriver => 104 <= key <= 107
    case IncompatibleArtifact => 122 <= key <= 123 || 180 <= key <= 185
    case IncompatibleIsolation => key == 203
    case IncompatibleArchitecture => key == 1
    case _ => false
  }

  lemma OutcomeOfKey(key: CapabilityKey, o: Outcome)
    ensures o != CapabilityMissing ==> (OutcomeForFailed(key) == o <==> KeyOfOutcome(o, key))
    ensures OutcomeForFailed(key) == CapabilityMissing <==> forall other :: !KeyOfOutcome(other, key)
  {
    assert OutcomeForFailed(key) != CapabilityMissing ==> KeyOfOutcome(OutcomeForFailed(key), key);
    forall other ensures KeyOfOutcome(other, key) ==> OutcomeForFailed(key) == other {
    }
  }

  ghost predicate Missed(t: Target, observed: Option<seq<CapabilityEntry>>, o: Outcome) {
    observed.Some?
    && exists k :: 0 <= k < |Requirements(t)| && Evaluate(Requirements(t)[k], observed.value) == No
                   && !Requirements(t)[k].optional
                   && if o == CapabilityMissing then forall other :: !KeyOfOutcome(other, Requirements(t)[k].key.key)
                      else KeyOfOutcome(o, Requirements(t)[k].key.key)
  }

  ghost predicate FellBack(t: Target, observed: Option<seq<CapabilityEntry>>) {
    observed.Some? && exists k :: 0 <= k < |Requirements(t)| && Requirements(t)[k].optional && Evaluate(Requirements(t)[k], observed.value) == No
  }

  ghost predicate AnswerMissing(t: Target, observed: Option<seq<CapabilityEntry>>) {
    if observed.None? then Requirements(t) != [] else Unanswered(t, observed.value)
  }

  predicate Differs(observed: Option<seq<CapabilityEntry>>, key: nat, text: Text)
    requires key < 0x1_0000
  {
    observed.Some? && Denied(observed.value, key, text)
  }

  predicate NothingTold(observed: Option<seq<CapabilityEntry>>, key: nat, text: Text)
    requires key < 0x1_0000
  {
    text != [] && (observed.None? || Untold(observed.value, key, text))
  }

  /** What beside a requirement makes an assessment record the outcome. */
  predicate Shown(t: Target, observed: Option<seq<CapabilityEntry>>, currentness: Currentness, o: Outcome) {
    match o
    case IncompatibleMemory => ShortOfMemory(t)
    case IncompatibleIsolation => t.workload.Some? && NotOffered(observed, 203, t.workload.value.isolationRequirement)
    case IncompatibleArtifact =>
      t.artifact.Some? && (NotOffered(observed, 181, t.artifact.value.format) || Differs(observed, 122, t.artifact.value.kernelFormat))
    case IncompatibleAbi => OtherAbi(t) || (t.artifact.Some? && Differs(observed, 120, t.artifact.value.compilerTarget))
    case IncompatibleDriver => OtherDriver(t) && !NoAbi(t) && !OtherAbi(t)
    case IncompatibleArchitecture => OtherArchitecture(t) || ComputeTooLow(t)
    case StaleEvidence => currentness in {Currentness.Stale, Currentness.RevalidationRequired}
    case Unsupported => currentness == Currentness.Retired
    case UnknownCompatibility =>
      || currentness == Currentness.Unknown || NoArchitecture(t) || NoCompute(t) || MemoryUntold(t)
      || NoAbi(t) || (NoDriver(t) && !OtherAbi(t))
      || (t.artifact.Some? && var a := t.artifact.value;
            || OfferUntold(observed, 181, a.format) || NothingTold(observed, 122, a.kernelFormat)
            || NothingTold(observed, 120, a.compilerTarget))
      || (t.workload.Some? && OfferUntold(observed, 203, t.workload.value.isolationRequirement))
    case _ => false
  }

  /** The assessment has cause to record the outcome. */
  ghost predicate Found(t: Target, observed: Option<seq<CapabilityEntry>>, currentness: Currentness, o: Outcome) {
    || Shown(t, observed, currentness, o) || Missed(t, observed, o)
    || (o == CompatibleWithFallback && FellBack(t, observed))
    || (o == UnknownCompatibility && AnswerMissing(t, observed))
  }

  lemma CheckIsOneOf(t: Target, observed: Option<seq<CapabilityEntry>>, currentness: Currentness, o: Outcome)
    ensures o in Checks(t, observed, currentness) <==>
            || o == CurrentnessOutcome(currentness) || o in ArchitectureOutcomes(t) || o in ArtifactOutcomes(t, observed)
            || o in AbiOutcomes(t) || o in RequirementOutcomes(observed, Requirements(t)) || o in MemoryOutcomes(t)
            || o in AnyOfOutcomes(observed, 203, Isolation(t)) || o in PolicyOutcomes(t)
  {
    hide CurrentnessOutcome, ArchitectureOutcomes, ArtifactOutcomes, AbiOutcomes, RequirementOutcomes, MemoryOutcomes,
         AnyOfOutcomes, PolicyOutcomes, Isolation;
  }

  lemma AnyOfMeans(observed: Option<seq<CapabilityEntry>>, key: CapabilityKey, text: Text, o: Outcome)
    requires o != Compatible
    ensures o in AnyOfOutcomes(observed, key, text) <==>
            || (o == OutcomeForFailed(key) && NotOffered(observed, key, text))
            || (o == UnknownCompatibility && OfferUntold(observed, key, text))
  {
    hide Find;
    FailedIsIncompatible(key);
    if text != [] && |text| <= MAX_VALUE_SET_ENTRY {
      assert text in [text];
    }
  }

  lemma EqualsMeans(observed: Option<seq<CapabilityEntry>>, key: CapabilityKey, text: Field, o: Outcome)
    requires o != Compatible
    ensures o in EqualsOutcomes(observed, key, text) <==>
            || (o == OutcomeForFailed(key) && Differs(observed, key, text))
            || (o == UnknownCompatibility && NothingTold(observed, key, text))
  {
    hide Find;
    FailedIsIncompatible(key);
  }

  /** What the k-th requirement contributes. */
  ghost predicate Contributes(r: Requirement, observed: Option<seq<CapabilityEntry>>, o: Outcome) {
    if observed.None? then o == UnknownCompatibility
    else match Evaluate(r, observed.value)
         case Yes => false
         case Unknown => o == UnknownCompatibility
         case No => if r.optional then o == CompatibleWithFallback
                    else if o == CapabilityMissing then forall other :: !KeyOfOutcome(other, r.key.key)
                    else KeyOfOutcome(o, r.key.key)
  }

  lemma OutcomeMeans(r: Requirement, observed: Option<seq<CapabilityEntry>>, o: Outcome)
    requires o != Compatible
    ensures RequirementOutcome(observed, r) == o <==> Contributes(r, observed, o)
  {
    hide Evaluate, OutcomeForFailed, KeyOfOutcome;
    OutcomeOfKey(r.key.key, o);
  }

  lemma SomeContribution(t: Target, observed: Option<seq<CapabilityEntry>>, o: Outcome)
    ensures (exists k :: 0 <= k < |Requirements(t)| && Contributes(Requirements(t)[k], observed, o)) <==>
            || Missed(t, observed, o) || (o == CompatibleWithFallback && FellBack(t, observed))
            || (o == UnknownCompatibility && AnswerMissing(t, observed))
  {
    hide Evaluate, KeyOfOutcome, Requirements;
    if o == UnknownCompatibility || o == CompatibleWithFallback {
      FallbackHasNoKey(o);
    }
    if observed.None? && Requirements(t) != [] && o == UnknownCompatibility {
      assert Contributes(Requirements(t)[0], observed, o);
    }
    if observed.Some? && Missed(t, observed, o) {
      var k :| 0 <= k < |Requirements(t)| && Evaluate(Requirements(t)[k], observed.value) == No
               && !Requirements(t)[k].optional
               && if o == CapabilityMissing then forall other :: !KeyOfOutcome(other, Requirements(t)[k].key.key)
                  else KeyOfOutcome(o, Requirements(t)[k].key.key);
      assert Contributes(Requirements(t)[k], observed, o);
    }
  }

  lemma RequirementOutcomesMean(t: Target, observed: Option<seq<CapabilityEntry>>, o: Outcome)
    requires o != Compatible
    ensures o in RequirementOutcomes(observed, Requirements(t)) <==>
            || Missed(t, observed, o) || (o == CompatibleWithFallback && FellBack(t, observed))
            || (o == UnknownCompatibility && AnswerMissing(t, observed))
  {
    hide RequirementOutcome, Contributes, Missed, FellBack, AnswerMissing, Requirements;
    var asked, outcomes := Requirements(t), RequirementOutcomes(observed, Requirements(t));
    SomeContribution(t, observed, o);
    forall k | 0 <= k < |asked| ensures outcomes[k] == o <==> Contributes(asked[k], observed, o) {
      OutcomeMeans(asked[k], observed, o);
    }
    if k :| 0 <= k < |asked| && Contributes(asked[k], observed, o) {
      assert outcomes[k] == o;
    }
  }

  lemma FallbackHasNoKey(o: Outcome)
    requires o == UnknownCompatibility || o == CompatibleWithFallback
    ensures forall key :: !KeyOfOutcome(o, key)
  {
  }

  lemma SingleOutcomesMean(t: Target, o: Outcome)
    requires o != Compatible
    ensures o in ArchitectureOutcomes(t) <==>
            || (o == IncompatibleArchitecture && (OtherArchitecture(t) || ComputeTooLow(t)))
            || (o == UnknownCompatibility && (NoArchitecture(t) || NoCompute(t)))
    ensures o in MemoryOutcomes(t) <==>
            (o == IncompatibleMemory && ShortOfMemory(t)) || (o == UnknownCompatibility && MemoryUntold(t))
    ensures o in AbiOutcomes(t) <==>
            || (o == IncompatibleAbi && OtherAbi(t)) || (o == IncompatibleDriver && OtherDriver(t) && !NoAbi(t) && !OtherAbi(t))
            || (o == UnknownCompatibility && (NoAbi(t) || (NoDriver(t) && !OtherAbi(t))))
    ensures o !in PolicyOutcomes(t)
  {
    hide Versions.CompareVersions;
  }

  lemma ArtifactOutcomesMean(t: Target, observed: Option<seq<CapabilityEntry>>, o: Outcome)
    requires o != Compatible
    ensures o in ArtifactOutcomes(t, observed) <==>
            t.artifact.Some? && var a := t.artifact.value;
            || (o == IncompatibleArtifact && (NotOffered(observed, 181, a.format) || Differs(observed, 122, a.kernelFormat)))
            || (o == IncompatibleAbi && Differs(observed, 120, a.compilerTarget))
            || (o == UnknownCompatibility && (|| OfferUntold(observed, 181, a.format) || NothingTold(observed, 122, a.kernelFormat)
                                              || NothingTold(observed, 120, a.compilerTarget)))
  {
    hide AnyOfOutcomes, EqualsOutcomes, NotOffered, OfferUntold, Differs, NothingTold;
    if t.artifact.Some? {
      AnyOfMeans(observed, 181, t.artifact.value.format, o);
      EqualsMeans(observed, 122, t.artifact.value.kernelFormat, o);
      EqualsMeans(observed, 120, t.artifact.value.compilerTarget, o);
    }
  }

  lemma IsolationOutcomesMean(t: Target, observed: Option<seq<CapabilityEntry>>, o: Outcome)
    requires o != Compatible
    ensures o in AnyOfOutcomes(observed, 203, Isolation(t)) <==>
            t.workload.Some?
            && (|| (o == IncompatibleIsolation && NotOffered(observed, 203, t.workload.value.isolationRequirement))
                || (o == UnknownCompatibility && OfferUntold(observed, 203, t.workload.value.isolationRequirement)))
  {
    hide AnyOfOutcomes, NotOffered, OfferUntold;
    AnyOfMeans(observed, 203, Isolation(t), o);
    NothingAsked(observed, 203);
  }

  lemma ShownMeans(t: Target, observed: Option<seq<CapabilityEntry>>, currentness: Currentness, o: Outcome)
    requires o != Compatible
    ensures Shown(t, observed, currentness, o) <==>
            || o == CurrentnessOutcome(currentness) || o in ArchitectureOutcomes(t) || o in ArtifactOutcomes(t, observed)
            || o in AbiOutcomes(t) || o in MemoryOutcomes(t) || o in AnyOfOutcomes(observed, 203, Isolation(t))
  {
    hide ArchitectureOutcomes, ArtifactOutcomes, AbiOutcomes, MemoryOutcomes, PolicyOutcomes, AnyOfOutcomes, Isolation,
         OtherArchitecture, OtherAbi, NoArchitecture, NoAbi, ShortOfMemory, MemoryUntold, OtherDriver, NoDriver,
         ComputeTooLow, NoCompute, NotOffered, OfferUntold, Differs, NothingTold;
    SingleOutcomesMean(t, o);
    ArtifactOutcomesMean(t, observed, o);
    IsolationOutcomesMean(t, observed, o);
  }

  /** A check for the policy is recorded exactly when there is a policy and it rules out neither the
      cluster nor its site; what it rules out is tracked beside the checks. */
  lemma PolicyCheckIsRecorded(t: Target)
    ensures var siteRuledOut := t.policy.Some? && (
              || t.cluster.site in t.policy.value.deniedSites
              || (t.policy.value.allowedSites != [] && t.cluster.site !in t.policy.value.allowedSites));
            && (PolicyOutcomes(t) == [Compatible] <==> t.policy.Some? && !ClusterRuledOut(t) && !siteRuledOut)
            && (PolicyOutcomes(t) != [Compatible] ==> PolicyOutcomes(t) == [])
            && (PolicyAdmissible(t) == Tri.Unknown <==> t.policy.None?)
            && (PolicyAdmissible(t) == No <==> ClusterRuledOut(t) || siteRuledOut)
  {
  }

  /** Every outcome an assessment records has its cause, and every cause is recorded. */
  lemma OutcomesAreCauses(t: Target, observed: Option<seq<CapabilityEntry>>, currentness: Currentness, o: Outcome)
    requires o != Compatible
    ensures o in Checks(t, observed, currentness) <==> Found(t, observed, currentness, o)
  {
    hide Checks, Shown, ArchitectureOutcomes, ArtifactOutcomes, AbiOutcomes, MemoryOutcomes, PolicyOutcomes, AnyOfOutcomes,
         RequirementOutcomes, Missed, FellBack, AnswerMissing, Isolation, CurrentnessOutcome;
    CheckIsOneOf(t, observed, currentness, o);
    RequirementOutcomesMean(t, observed, o);
    SingleOutcomesMean(t, o);
    ShownMeans(t, observed, currentness, o);
  }

  lemma NothingAsked(observed: Option<seq<CapabilityEntry>>, key: CapabilityKey)
    ensures !NotOffered(observed, key, []) && !OfferUntold(observed, key, [])
  {
  }

  /** The outcomes, the weakest first. */
  const BY_WEAKNESS: seq<Outcome> := [
    Unsupported, UnknownCompatibility, StaleEvidence,
    IncompatibleArchitecture, IncompatibleRuntime, IncompatibleDriver, IncompatibleAbi, IncompatibleArtifact,
    IncompatibleIsolation, IncompatibleTopology, IncompatibleMemory, CapabilityMissing,
    CompatibleAfterRebuild, CompatibleAfterReconfiguration, CompatibleWithFallback, Compatible]

  lemma SeverityIsPlaceInList(o: Outcome)
    ensures 0 <= 15 - Severity(o) < |BY_WEAKNESS| && BY_WEAKNESS[15 - Severity(o)] == o
    ensures CompatibleFamily(o) <==> o in BY_WEAKNESS[12..]
  {
    assert BY_WEAKNESS[12..] == [CompatibleAfterRebuild, CompatibleAfterReconfiguration, CompatibleWithFallback, Compatible];
    match o
    case Compatible => case CompatibleWithFallback => case CompatibleAfterReconfiguration => case CompatibleAfterRebuild =>
    case CapabilityMissing => case IncompatibleMemory => case IncompatibleTopology => case IncompatibleIsolation =>
    case IncompatibleArtifact => case IncompatibleAbi => case IncompatibleDriver => case IncompatibleRuntime =>
    case IncompatibleArchitecture => case StaleEvidence => case UnknownCompatibility => case Unsupported =>
  }

  /** The i-th outcome of the list has a cause, or is full compatibility, and none before it has. */
  ghost predicate FirstFound(t: Target, observed: Option<seq<CapabilityEntry>>, currentness: Currentness, i: nat)
    requires i < |BY_WEAKNESS|
  {
    && (Found(t, observed, currentness, BY_WEAKNESS[i]) || BY_WEAKNESS[i] == Compatible)
    && forall k :: 0 <= k < i ==> !Found(t, observed, currentness, BY_WEAKNESS[k])
  }

  lemma WeakerIsNotFound(t: Target, observed: Option<seq<CapabilityEntry>>, currentness: Currentness, o: Outcome)
    requires Severity(o) > Severity(Overall(Checks(t, observed, currentness))) && o != Compatible
    ensures !Found(t, observed, currentness, o)
  {
    hide Checks, Found, Overall, Severity;
    OverallIsWeakest(Checks(t, observed, currentness));
    OutcomesAreCauses(t, observed, currentness, o);
  }

  /** The overall outcome is the first in the list that the assessment has cause to record. */
  lemma OverallIsFirstFound(t: Target, observed: Option<seq<CapabilityEntry>>, currentness: Currentness) returns (i: nat)
    ensures i < |BY_WEAKNESS| && Assess(t, observed, currentness).overall == BY_WEAKNESS[i]
    ensures FirstFound(t, observed, currentness, i)
  {
    hide Checks, Found, Overall, Severity;
    var overall := Overall(Checks(t, observed, currentness));
    OverallIsWeakest(Checks(t, observed, currentness));
    SeverityIsPlaceInList(overall);
    i := 15 - Severity(overall);
    if overall != Compatible {
      OutcomesAreCauses(t, observed, currentness, overall);
    }
    forall k | 0 <= k < i ensures !Found(t, observed, currentness, BY_WEAKNESS[k]) {
      ListIsBySeverity(k);
      WeakerIsNotFound(t, observed, currentness, BY_WEAKNESS[k]);
    }
  }

  lemma ListIsBySeverity(k: nat)
    requires k < |BY_WEAKNESS|
    ensures Severity(BY_WEAKNESS[k]) == 15 - k && (k < 15 ==> BY_WEAKNESS[k] != Compatible)
  {
  }

  /** A placement is admitted exactly when nothing stands against it beyond an optional requirement
      that falls back, and no policy rules out the cluster or its site. */
  lemma AdmittedExactly(t: Target, observed: Option<seq<CapabilityEntry>>, currentness: Currentness)
    ensures Assess(t, observed, currentness).AdmitsPlacement() <==>
            && (forall o :: Found(t, observed, currentness, o) ==> o == CompatibleWithFallback)
            && !ClusterRuledOut(t)
            && !(t.policy.Some? && (|| t.cluster.site in t.policy.value.deniedSites
                                    || (t.policy.value.allowedSites != [] && t.cluster.site !in t.policy.value.allowedSites)))
  {
    hide Checks, Found, Overall, Severity;
    var checks := Checks(t, observed, currentness);
    OverallIsWeakest(checks);
    hide CompatibleFamily;
    forall o | o != Compatible ensures o in checks <==> Found(t, observed, currentness, o) {
      OutcomesAreCauses(t, observed, currentness, o);
    }
    NoCauseForCompatible(t, observed, currentness);
    forall o ensures CompatibleFamily(o) <==> o in [Compatible, CompatibleWithFallback, CompatibleAfterReconfiguration, CompatibleAfterRebuild] {
      FamilyOf(o);
    }
    assert AllCompatible(checks) <==> forall o :: o in checks ==> CompatibleFamily(o) by {
      assert forall i :: 0 <= i < |checks| ==> checks[i] in checks;
    }
  }

  lemma FamilyOf(o: Outcome)
    ensures CompatibleFamily(o) <==> o in [Compatible, CompatibleWithFallback, CompatibleAfterReconfiguration, CompatibleAfterRebuild]
  {
  }

  lemma NoCauseForCompatible(t: Target, observed: Option<seq<CapabilityEntry>>, currentness: Currentness)
    ensures !Found(t, observed, currentness, Compatible)
    ensures !Found(t, observed, currentness, CompatibleAfterReconfiguration)
    ensures !Found(t, observed, currentness, CompatibleAfterRebuild)
  {
  }
}
