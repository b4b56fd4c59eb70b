/** What a capability requirement and a policy ask for, and what follows for both deciders when they
    are not met (src/capability.cpp, src/model.cpp, src/analysis.cpp, src/compatibility.cpp). */
module Requirements {
  import opened Foundation
  import opened Capability
  import opened Capacity
  import opened Model
  import opened Deciders
  import opened Compatibility
  import Versions

  // ---------------------------------------------------------------------------------
  // Requirements on published values
  // ---------------------------------------------------------------------------------

  predicate Whole(v: CapabilityValue) {
    v.Integer? || v.Unsigned?
  }

  function Number(v: CapabilityValue): int
    requires Whole(v)
  {
    match v
    case Integer(n) => n
    case Unsigned(n) => n
  }

  /** A key is given by its number, and by a name exactly when it is a custom one. */
  lemma ValidKeys(key: CapabilityRef)
    ensures key.Valid() <==> key.key != 0 && (key.custom != [] <==> key.key == 4096)
  {
  }

  /** Identifiers are ordered byte by byte, a proper prefix first. */
  lemma {:induction false} IdentifierOrder(p: Text, q: Text)
    ensures TextLess(p, q) <==> exists k: nat :: k <= |p| && k < |q| && p[..k] == q[..k] && (k == |p| || p[k] < q[k])
  {
    if p == [] || q == [] {
      if q != [] {
        assert p[..0] == q[..0];
      }
    } else if p[0] != q[0] {
      if p[0] < q[0] {
        assert p[..0] == q[..0];
      }
      forall k: nat | 0 < k <= |p| && k <= |q| ensures p[..k] != q[..k] {
        assert p[..k][0] == p[0] && q[..k][0] == q[0];
      }
    } else {
      IdentifierOrder(p[1..], q[1..]);
      assert p == [p[0]] + p[1..] && q == [q[0]] + q[1..];
      if k: nat :| k <= |p| && k < |q| && p[..k] == q[..k] && (k == |p| || p[k] < q[k]) {
        assert k > 0 && p[1..][..k - 1] == p[..k][1..] && q[1..][..k - 1] == q[..k][1..];
      }
      if k: nat :| k <= |p[1..]| && k < |q[1..]| && p[1..][..k] == q[1..][..k] && (k == |p[1..]| || p[1..][k] < q[1..][k]) {
        assert p[..k + 1] == [p[0]] + p[1..][..k] && q[..k + 1] == [q[0]] + q[1..][..k];
      }
    }
  }

  /** The key is published with this value. */
  predicate Publishes(observed: seq<CapabilityEntry>, key: CapabilityRef, value: CapabilityValue) {
    Find(observed, key).Some? && Find(observed, key).value.value == value
  }

  /** The comparator asks something of the value that can be answered: what it is. */
  predicate Says(r: Requirement, observed: seq<CapabilityEntry>, met: bool) {
    Evaluate(r, observed) == if met then Yes else No
  }

  /** Integers compare as the mathematical integers they stand for. */
  lemma IntegerRequirement(r: Requirement, observed: seq<CapabilityEntry>, published: CapabilityValue)
    requires Publishes(observed, r.key, published) && Whole(published) && Whole(r.value)
    ensures r.comparator.AtLeast? ==> Says(r, observed, Number(published) >= Number(r.value))
    ensures r.comparator.AtMost? ==> Says(r, observed, Number(published) <= Number(r.value))
    ensures r.comparator.Equals? ==> Says(r, observed, Number(published) == Number(r.value))
    ensures r.comparator.NotEquals? ==> Says(r, observed, Number(published) != Number(r.value))
  {
    NumericComparisonIsExact(published, r.value);
    hide CompareNumeric, Find;
  }

  /** One component list comes before another: it is a proper prefix, or smaller where they first differ. */
  ghost predicate ComesBefore(p: seq<nat>, q: seq<nat>) {
    exists k: nat :: k <= |p| && k < |q| && p[..k] == q[..k] && (k == |p| || p[k] < q[k])
  }

  lemma {:induction false} ComponentOrder(p: seq<nat>, q: seq<nat>)
    ensures Versions.CompareComponents(p, q) < 0 <==> ComesBefore(p, q)
    ensures Versions.CompareComponents(p, q) == 0 <==> p == q
  {
    if p == [] || q == [] {
      if q != [] {
        assert p[..0] == q[..0];
      }
    } else if p[0] != q[0] {
      if p[0] < q[0] {
        assert p[..0] == q[..0];
      }
      forall k: nat | 0 < k <= |p| && k <= |q| ensures p[..k] != q[..k] {
        assert p[..k][0] == p[0] && q[..k][0] == q[0];
      }
    } else {
      ComponentOrder(p[1..], q[1..]);
      assert p == [p[0]] + p[1..] && q == [q[0]] + q[1..];
      if ComesBefore(p[1..], q[1..]) {
        var k: nat :| k <= |p[1..]| && k < |q[1..]| && p[1..][..k] == q[1..][..k] && (k == |p[1..]| || p[1..][k] < q[1..][k]);
        assert p[..k + 1] == [p[0]] + p[1..][..k] && q[..k + 1] == [q[0]] + q[1..][..k];
      }
      if ComesBefore(p, q) {
        var k: nat :| k <= |p| && k < |q| && p[..k] == q[..k] && (k == |p| || p[k] < q[k]);
        assert k > 0 && p[1..][..k - 1] == p[..k][1..] && q[1..][..k - 1] == q[..k][1..];
      }
    }
  }

  /** Bounds on version texts the parser accepts compare their components. */
  lemma VersionRequirement(r: Requirement, observed: seq<CapabilityEntry>, published: CapabilityValue)
    requires Publishes(observed, r.key, published) && published.TextValue? && r.value.TextValue?
    requires Versions.ParseVersion(published.text).Ok? && Versions.ParseVersion(r.value.text).Ok?
    ensures var p, q := Versions.ParseVersion(published.text).value, Versions.ParseVersion(r.value.text).value;
            && (r.comparator.AtLeast? ==> Says(r, observed, !ComesBefore(p, q)))
            && (r.comparator.AtMost? ==> Says(r, observed, !ComesBefore(q, p)))
  {
    hide Versions.CompareVersions, Versions.ParseVersion, Versions.CompareComponents, Find, ComesBefore;
    Versions.ParsedVersionsCompareByComponents(published.text, r.value.text);
    Versions.ParsedVersionsCompareByComponents(r.value.text, published.text);
    Versions.VersionOrderIsTotalPreorder(published.text, r.value.text, published.text);
    ComponentOrder(Versions.ParseVersion(published.text).value, Versions.ParseVersion(r.value.text).value);
    ComponentOrder(Versions.ParseVersion(r.value.text).value, Versions.ParseVersion(published.text).value);
  }

  /** Equality of texts, membership of a text in a published set, and equality of flags. */
  lemma EqualityRequirement(r: Requirement, observed: seq<CapabilityEntry>, published: CapabilityValue)
    requires Publishes(observed, r.key, published) && (r.comparator.Equals? || r.comparator.NotEquals?)
    ensures published.TextValue? && r.value.TextValue? ==>
              Says(r, observed, (published.text == r.value.text) == r.comparator.Equals?)
    ensures published.TextSet? && r.value.TextValue? ==>
              Says(r, observed, (r.value.text in published.texts) == r.comparator.Equals?)
    ensures published.Boolean? && r.value.Boolean? ==>
              Says(r, observed, (published.flag == r.value.flag) == r.comparator.Equals?)
  {
    hide Find;
  }

  /** The published text, or some member of the published set, is one of the alternatives; every
      required member is in the published set. */
  lemma SetRequirement(r: Requirement, observed: seq<CapabilityEntry>, published: CapabilityValue)
    requires Publishes(observed, r.key, published) && published != Unpublished && r.value.TextSet?
    ensures r.comparator.AnyOf? ==>
              Says(r, observed, || (published.TextValue? && published.text in r.value.texts)
                                || (published.TextSet? && exists t :: t in published.texts && t in r.value.texts))
    ensures r.comparator.AllOf? ==>
              Says(r, observed, published.TextSet? && forall t :: t in r.value.texts ==> t in published.texts)
  {
    hide Find;
  }

  /** A key is present when it is published, unless it is a flag that is off; absent is the opposite. */
  lemma PresenceRequirement(r: Requirement, observed: seq<CapabilityEntry>)
    requires r.comparator.Present? || r.comparator.Absent?
    ensures Find(observed, r.key).None? ==> Says(r, observed, r.comparator.Absent?)
    ensures Find(observed, r.key).Some? && Find(observed, r.key).value.value != Unpublished ==>
              var v := Find(observed, r.key).value.value;
              Says(r, observed, (v.Boolean? ==> v.flag) == r.comparator.Present?)
  {
    hide Find;
  }

  /** A question about an unpublished value, or between values of kinds that do not compare, stays open. */
  lemma OpenRequirement(r: Requirement, observed: seq<CapabilityEntry>)
    requires !r.comparator.Present? && !r.comparator.Absent?
    ensures Evaluate(r, observed) == Tri.Unknown <==>
              || Find(observed, r.key).None?
              || var v := Find(observed, r.key).value.value;
                 || v.Unpublished?
                 || ((r.comparator.AnyOf? || r.comparator.AllOf?) && !r.value.TextSet?)
                 || ((r.comparator.AtLeast? || r.comparator.AtMost?)
                     && !(Whole(v) && Whole(r.value)) && !(v.TextValue? && r.value.TextValue?))
                 || ((r.comparator.Equals? || r.comparator.NotEquals?)
                     && !(Whole(v) && Whole(r.value)) && !(v.TextValue? && r.value.TextValue?)
                     && !(v.TextSet? && r.value.TextValue?) && !(v.Boolean? && r.value.Boolean?))
  {
    hide Find, Versions.CompareVersions;
  }

  // ---------------------------------------------------------------------------------
  // What an unmet requirement means for a decision
  // ---------------------------------------------------------------------------------

  /** A requirement that is not met, and not optional, or that cannot be answered makes the pool
      ineligible and refuses admission. */
  lemma UnmetRequirementRefuses(t: Target, kind: ResourceKind, currentness: Currentness, k: nat)
    requires k < |Requirements(t)|
    requires var r := Requirements(t)[k]; Evaluate(r, t.observed) == Tri.Unknown || (Evaluate(r, t.observed) == No && !r.optional)
    ensures !PoolEligibility(t, kind).eligible && !Assess(t, Some(t.observed), currentness).AdmitsPlacement()
    ensures var r := Requirements(t)[k];
            Evaluate(r, t.observed) == No && !Declines(t, kind) ==>
              PoolEligibility(t, kind).decided && Fails(ReasonForRequirement(r.key.key)) in Votes(t)
  {
    hide PoolEligibility, Assess, Votes, Checks, Evaluate, Declines, ReasonForRequirement, AllCompatible;
    var r := Requirements(t)[k];
    var votes := RequirementVotes(t.observed, Requirements(t));
    assert votes[k] == RequirementVote(t.observed, r) && !votes[k].Pass?;
    EligibilityInParts(t, kind);
    VotesInParts(t);
    AdmissionInParts(t, currentness);
    ChecksInParts(t, Some(t.observed), currentness);
    RequirementsAgree(t.observed, Requirements(t));
    if Evaluate(r, t.observed) == No && !Declines(t, kind) {
      assert votes[k] == Fails(ReasonForRequirement(r.key.key));
      RequirementVotesAreVotes(t, k);
    }
  }

  lemma RequirementVotesAreVotes(t: Target, k: nat)
    requires k < |Requirements(t)|
    ensures var vote := RequirementVote(t.observed, Requirements(t)[k]);
            vote in Votes(t) && (vote.Fails? ==> forall kind :: !Declines(t, kind) ==> PoolEligibility(t, kind).decided)
  {
    hide ArchitectureVote, TextVotes, AbiVote, RequirementVote, MemoryVote, PolicyVote, Noted, Declines;
    var before := [ArchitectureVote(t)] + TextVotes(t) + [AbiVote(t)];
    var votes := RequirementVotes(t.observed, Requirements(t));
    assert Votes(t)[|before| + k] == votes[k];
  }

  /** For instance: a bound on an integer that the published integer misses. */
  lemma MissedBoundRefuses(t: Target, kind: ResourceKind, currentness: Currentness, k: nat, published: CapabilityValue)
    requires k < |Requirements(t)| && !Requirements(t)[k].optional
    requires var r := Requirements(t)[k];
             && Publishes(t.observed, r.key, published) && Whole(published) && Whole(r.value)
             && (|| (r.comparator.AtLeast? && Number(published) < Number(r.value))
                 || (r.comparator.AtMost? && Number(published) > Number(r.value)))
    ensures !PoolEligibility(t, kind).eligible && !Assess(t, Some(t.observed), currentness).AdmitsPlacement()
  {
    hide PoolEligibility, Assess, Evaluate, Publishes, Declines;
    IntegerRequirement(Requirements(t)[k], t.observed, published);
    UnmetRequirementRefuses(t, kind, currentness, k);
  }

  // ---------------------------------------------------------------------------------
  // Policies
  // ---------------------------------------------------------------------------------

  /** A policy permits what it does not deny and, when it lists what it allows, what it lists. */
  lemma PolicyPermits(p: PolicyRecord, id: Id)
    ensures p.PermitsSite(id) == Yes <==> id !in p.deniedSites && (p.allowedSites != [] ==> id in p.allowedSites)
    ensures p.PermitsSite(id) == No <==> id in p.deniedSites || (p.allowedSites != [] && id !in p.allowedSites)
    ensures p.PermitsCluster(id) == Yes <==> id !in p.deniedClusters && (p.allowedClusters != [] ==> id in p.allowedClusters)
    ensures p.PermitsCluster(id) == No <==> id in p.deniedClusters || (p.allowedClusters != [] && id !in p.allowedClusters)
  {
  }

  /** The policy rules out the cluster or its site. */
  predicate RuledOut(p: PolicyRecord, cluster: Id, site: Id) {
    || cluster in p.deniedClusters || (p.allowedClusters != [] && cluster !in p.allowedClusters)
    || site in p.deniedSites || (p.allowedSites != [] && site !in p.allowedSites)
  }

  /** Both deciders honour it: what a policy rules out is neither admitted nor, where its site is
      known, eligible; what it does not rule out is never refused on its account. */
  lemma PolicyIsHonoured(t: Target, kind: ResourceKind, currentness: Currentness)
    requires t.policy.Some? && SiteMatches(t)
    ensures RuledOut(t.policy.value, t.cluster.id, t.cluster.site) ==>
              && !Assess(t, Some(t.observed), currentness).AdmitsPlacement()
              && (t.site.Some? ==> !PoolEligibility(t, kind).eligible)
    ensures !RuledOut(t.policy.value, t.cluster.id, t.cluster.site) ==>
              && PolicyVote(t).Pass? && Assess(t, Some(t.observed), currentness).policyAdmissible == Yes
  {
    hide Checks, Votes, Declines, Noted, Overall, CompatibleFamily, AllPass;
    PolicyPermits(t.policy.value, t.cluster.site);
    PolicyPermits(t.policy.value, t.cluster.id);
    EligibilityInParts(t, kind);
    VotesInParts(t);
    hide PoolEligibility;
  }
}
