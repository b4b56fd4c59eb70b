/** Exact capacity accounting: closed ledgers, reason tallies and the partition of idle
    capacity (src/capacity.cpp). */
module Capacity {
  import opened Foundation

  // ---------------------------------------------------------------------------------
  // Ledgers
  // ---------------------------------------------------------------------------------

  // `allotted` is the field the source calls allocated, which is a Dafny keyword.
  datatype Ledger = Ledger(
    nominal: U64, offline: U64, allotted: U64, reserved: U64, draining: U64, unusable: U64, idle: U64)
  {
    /** The accounting identity. */
    predicate Closes() {
      nominal == offline + allotted + reserved + draining + unusable + idle
    }

    /** nominal - offline, or 0 when the ledger is inconsistent. */
    function Online(): U64 {
      match CheckedSub(nominal, offline) case Some(v) => v case None => 0
    }
  }

  /** Derives idle from the observable components. */
  method FromComponents(nominal: U64, offline: U64, allotted: U64, reserved: U64, draining: U64, unusable: U64)
    returns (r: Result<Ledger>)
    ensures r.Ok? <==> offline + allotted + reserved + draining + unusable <= nominal
    ensures r.Ok? ==> r.value.Closes() &&
                      r.value == Ledger(nominal, offline, allotted, reserved, draining, unusable, r.value.idle)
    ensures r.Err? ==> r.code == CapacityInconsistent
  {
    var committed: U64 := offline;
    var components := [allotted, reserved, draining, unusable];
    for i := 0 to |components|
      invariant committed == offline + Sum(components[..i])
    {
      assert components[..i + 1] == components[..i] + [components[i]];
      SumAppend(components[..i], components[i]);
      match CheckedAdd(committed, components[i])
      case None =>
        SumPrefixBound(components, i + 1);
        ComponentSum(allotted, reserved, draining, unusable);
        return Err(CapacityInconsistent);
      case Some(next) =>
        committed := next;
    }
    assert components[..|components|] == components;
    ComponentSum(allotted, reserved, draining, unusable);
    match CheckedSub(nominal, committed)
    case None => return Err(CapacityInconsistent);
    case Some(idle) => return Ok(Ledger(nominal, offline, allotted, reserved, draining, unusable, idle));
  }

  lemma ComponentSum(a: nat, b: nat, c: nat, d: nat)
    ensures Sum([a, b, c, d]) == a + b + c + d
  {
    SumAppend([], a);
    SumAppend([a], b);
    SumAppend([a, b], c);
    SumAppend([a, b, c], d);
    assert [] + [a] == [a] && [a] + [b] == [a, b] && [a, b] + [c] == [a, b, c];
    assert [a, b, c] + [d] == [a, b, c, d];
  }

  /** Validation rebuilds the ledger from its components and compares idle. It accepts
      exactly the ledgers that satisfy the accounting identity. */
  method ValidateLedger(ledger: Ledger) returns (ok: bool)
    ensures ok <==> ledger.Closes()
  {
    var rebuilt := FromComponents(ledger.nominal, ledger.offline, ledger.allotted, ledger.reserved,
                                  ledger.draining, ledger.unusable);
    return rebuilt.Ok? && rebuilt.value.idle == ledger.idle;
  }

  // ---------------------------------------------------------------------------------
  // Stranding reasons
  // ---------------------------------------------------------------------------------

  datatype StrandingReason =
    | NoReason
    | UnsupportedAcceleratorCapability
    | UnsupportedPrecision
    | MissingOffloadCapability
    | MissingInterconnectFeature
    | RuntimeMismatch
    | DriverMismatch
    | AbiMismatch
    | ArtifactIncompatibility
    | MissingCompilerTarget
    | PartitionGeometry
    | TopologyConstraint
    | IsolationRequirement
    | MissingLocalStorageState
    | MemoryInsufficient
    | SiteRestriction
    | PolicyRestriction
    | UnknownReason

  const REASON_COUNT := 18

  /** The enumerator value, which indexes tallies. */
  function Index(reason: StrandingReason): (i: nat)
    ensures i < REASON_COUNT
  {
    match reason
    case NoReason => 0
    case UnsupportedAcceleratorCapability => 1
    case UnsupportedPrecision => 2
    case MissingOffloadCapability => 3
    case MissingInterconnectFeature => 4
    case RuntimeMismatch => 5
    case DriverMismatch => 6
    case AbiMismatch => 7
    case ArtifactIncompatibility => 8
    case MissingCompilerTarget => 9
    case PartitionGeometry => 10
    case TopologyConstraint => 11
    case IsolationRequirement => 12
    case MissingLocalStorageState => 13
    case MemoryInsufficient => 14
    case SiteRestriction => 15
    case PolicyRestriction => 16
    case UnknownReason => 17
  }

  /** Smaller means more specific: Unknown first, then the enumerators in order, None last. */
  function Precedence(reason: StrandingReason): nat {
    if reason.UnknownReason? then 0
    else if reason.NoReason? then 17
    else Index(reason)
  }

  /** Every reason has its own precedence, so a minimum is unique. */
  lemma PrecedenceIsInjective(a: StrandingReason, b: StrandingReason)
    requires Precedence(a) == Precedence(b)
    ensures a == b
  {
    IndexIsInjective(a, b);
  }

  /** All reasons, the strongest first. */
  const BY_STRENGTH: seq<StrandingReason> := [
    UnknownReason,
    UnsupportedAcceleratorCapability, UnsupportedPrecision, MissingOffloadCapability, MissingInterconnectFeature,
    RuntimeMismatch, DriverMismatch, AbiMismatch, ArtifactIncompatibility, MissingCompilerTarget,
    PartitionGeometry, TopologyConstraint, IsolationRequirement, MissingLocalStorageState, MemoryInsufficient,
    SiteRestriction, PolicyRestriction,
    NoReason]

  /** The precedence of a reason is its place in that list, which holds every reason once. */
  lemma PrecedenceIsPlaceInList(reason: StrandingReason)
    ensures |BY_STRENGTH| == REASON_COUNT
    ensures 0 <= Precedence(reason) < |BY_STRENGTH| && BY_STRENGTH[Precedence(reason)] == reason
    ensures forall i :: 0 <= i < |BY_STRENGTH| ==> (BY_STRENGTH[i] == reason <==> i == Precedence(reason))
  {
    match reason
    case NoReason => case UnsupportedAcceleratorCapability => case UnsupportedPrecision =>
    case MissingOffloadCapability => case MissingInterconnectFeature => case RuntimeMismatch =>
    case DriverMismatch => case AbiMismatch => case ArtifactIncompatibility =>
    case MissingCompilerTarget => case PartitionGeometry => case TopologyConstraint =>
    case IsolationRequirement => case MissingLocalStorageState => case MemoryInsufficient =>
    case SiteRestriction => case PolicyRestriction => case UnknownReason =>
  }

  lemma IndexIsInjective(a: StrandingReason, b: StrandingReason)
    ensures Index(a) == Index(b) ==> a == b
  {
    match a
    case NoReason => case UnsupportedAcceleratorCapability => case UnsupportedPrecision =>
    case MissingOffloadCapability => case MissingInterconnectFeature => case RuntimeMismatch =>
    case DriverMismatch => case AbiMismatch => case ArtifactIncompatibility =>
    case MissingCompilerTarget => case PartitionGeometry => case TopologyConstraint =>
    case IsolationRequirement => case MissingLocalStorageState => case MemoryInsufficient =>
    case SiteRestriction => case PolicyRestriction => case UnknownReason =>
  }

  // ---------------------------------------------------------------------------------
  // Tallies
  // ---------------------------------------------------------------------------------

  /** Amounts indexed by stranding reason. */
  type Tally = s: seq<U64> | |s| == REASON_COUNT witness seq(REASON_COUNT, i => 0)

  const EMPTY_TALLY: Tally := [0, 0, 0, 0, 0, 0, 0, 0, 0, 0, 0, 0, 0, 0, 0, 0, 0, 0]

  function Amount(t: Tally, reason: StrandingReason): U64 {
    t[Index(reason)]
  }

  /** Adds to one reason; overflow is reported and leaves nothing changed. */
  function AddAmount(t: Tally, reason: StrandingReason, amount: U64): Option<Tally> {
    match CheckedAdd(Amount(t, reason), amount)
    case None => None
    case Some(v) => Some(t[Index(reason) := v])
  }

  function Total(t: Tally): nat {
    Sum(t)
  }

  lemma {:induction false} SumUpdate(values: seq<nat>, i: nat, v: nat)
    requires i < |values|
    ensures Sum(values[i := v]) == Sum(values) - values[i] + v
  {
    var n := |values| - 1;
    if i == n {
      assert values[i := v][..n] == values[..n];
    } else {
      assert values[i := v][..n] == values[..n][i := v];
      SumUpdate(values[..n], i, v);
    }
  }

  lemma {:induction false} SumOfZeros(n: nat)
    ensures Sum(seq(n, i => 0)) == 0
  {
    if n > 0 {
      assert seq(n, i => 0)[..n - 1] == seq(n - 1, i => 0);
      SumOfZeros(n - 1);
    }
  }

  lemma EmptyTallyTotal()
    ensures Total(EMPTY_TALLY) == 0
  {
    SumOfZeros(REASON_COUNT);
    assert EMPTY_TALLY == seq(REASON_COUNT, i => 0);
  }

  /** A tally grows by exactly what is added to it, and only under the named reason. */
  lemma AddAmountConserves(t: Tally, reason: StrandingReason, amount: U64, other: StrandingReason)
    requires AddAmount(t, reason, amount).Some?
    ensures Total(AddAmount(t, reason, amount).value) == Total(t) + amount
    ensures other != reason ==> Amount(AddAmount(t, reason, amount).value, other) == Amount(t, other)
    ensures Amount(AddAmount(t, reason, amount).value, reason) == Amount(t, reason) + amount
  {
    SumUpdate(t, Index(reason), Amount(t, reason) + amount);
    IndexIsInjective(reason, other);
  }

  // ---------------------------------------------------------------------------------
  // The partition of idle capacity
  // ---------------------------------------------------------------------------------

  datatype Breakdown = Breakdown(idle: U64, usable: U64, unknown: U64, primary: Tally, occurrences: Tally) {

    /** idle - usable - unknown, or 0 when the parts exceed idle. */
    function Stranded(): U64 {
      match CheckedSub(idle, usable)
      case None => 0
      case Some(rest) => (match CheckedSub(rest, unknown) case None => 0 case Some(v) => v)
    }

    /** Every idle unit is usable, unknown or stranded under exactly one primary reason. */
    predicate Partitions() {
      usable + unknown + Total(primary) == idle
    }

    /** The test the source makes: a tally whose sum overflows counts as the largest word. */
    predicate Closes() {
      usable + unknown + ReportedTotal(primary) == idle
    }

    /** All of the largest possible idle capacity is claimed to be stranded. */
    predicate AllStrandedAtLimit() {
      usable == 0 && unknown == 0 && idle == U64_MAX
    }
  }

  function ReportedTotal(t: Tally): U64 {
    if Total(t) <= U64_MAX then Total(t) else U64_MAX
  }

  method TallyTotal(t: Tally) returns (total: U64)
    ensures total == ReportedTotal(t)
  {
    var sum := CheckedSum(t);
    return if sum.Some? then sum.value else U64_MAX;
  }

  /** Adds up the parts with checked additions. It accepts exactly the partitions, and the tallies
      that overflow when all of the largest possible idle capacity is claimed to be stranded. */
  method ValidateBreakdown(b: Breakdown) returns (ok: bool)
    ensures ok <==> b.Closes()
    ensures ok <==> b.Partitions() || (b.AllStrandedAtLimit() && Total(b.primary) > U64_MAX)
  {
    SumNonNegative(b.primary);
    var expected := CheckedAdd(b.usable, b.unknown);
    if expected.None? {
      return false;
    }
    var total := TallyTotal(b.primary);
    expected := CheckedAdd(expected.value, total);
    return expected.Some? && expected.value == b.idle;
  }

  lemma ClosedBreakdownPartitionsIdle(b: Breakdown)
    requires b.Partitions()
    ensures b.Closes() && b.Stranded() == Total(b.primary)
    ensures b.usable + b.unknown + b.Stranded() == b.idle
  {
    SumNonNegative(b.primary);
  }

  /** What is derived when the parts do not add up: differences that stop at zero. */
  lemma DifferencesStopAtZero(b: Breakdown, l: Ledger)
    ensures b.Stranded() == if b.usable + b.unknown <= b.idle then b.idle - b.usable - b.unknown else 0
    ensures l.Online() == if l.offline <= l.nominal then l.nominal - l.offline else 0
  {
  }

  lemma {:induction false} SumNonNegative(values: seq<nat>)
    ensures 0 <= Sum(values)
    ensures forall i :: 0 <= i < |values| ==> values[i] <= Sum(values)
  {
    if values != [] {
      SumNonNegative(values[..|values| - 1]);
      assert forall i :: 0 <= i < |values| - 1 ==> values[i] == values[..|values| - 1][i];
    }
  }

  /** Merging adds field by field and skips whatever would overflow. */
  function MergeTally(a: Tally, b: Tally): Tally {
    seq(REASON_COUNT, i requires 0 <= i < REASON_COUNT =>
      if a[i] + b[i] <= U64_MAX then a[i] + b[i] else a[i])
  }

  function MergeField(a: U64, b: U64): U64 {
    match CheckedAdd(a, b) case Some(v) => v case None => a
  }

  function Merge(a: Breakdown, b: Breakdown): Breakdown {
    Breakdown(MergeField(a.idle, b.idle), MergeField(a.usable, b.usable), MergeField(a.unknown, b.unknown),
              MergeTally(a.primary, b.primary), MergeTally(a.occurrences, b.occurrences))
  }

  lemma {:induction false} SumPointwise(a: seq<nat>, b: seq<nat>, c: seq<nat>)
    requires |a| == |b| == |c|
    requires forall i :: 0 <= i < |a| ==> c[i] == a[i] + b[i]
    ensures Sum(c) == Sum(a) + Sum(b)
  {
    if a != [] {
      var n := |a| - 1;
      SumPointwise(a[..n], b[..n], c[..n]);
    }
  }

  /** What the merge adds to a tally. */
  function Kept(a: Tally, b: Tally): (k: seq<nat>)
    ensures |k| == REASON_COUNT
  {
    seq(REASON_COUNT, i requires 0 <= i < REASON_COUNT => if a[i] + b[i] <= U64_MAX then b[i] else 0)
  }

  lemma MergedTotal(a: Tally, b: Tally)
    ensures Total(MergeTally(a, b)) == Total(a) + Sum(Kept(a, b))
    ensures Total(a) + Total(b) <= U64_MAX ==> Sum(Kept(a, b)) == Total(b)
    ensures Sum(Kept(a, b)) == 0 <==> forall i :: 0 <= i < REASON_COUNT ==> Kept(a, b)[i] == 0
  {
    SumPointwise(a, Kept(a, b), MergeTally(a, b));
    SumNonNegative(a);
    SumNonNegative(b);
    SumNonNegative(Kept(a, b));
    if Total(a) + Total(b) <= U64_MAX {
      assert Kept(a, b) == b;
    }
    if forall i :: 0 <= i < REASON_COUNT ==> Kept(a, b)[i] == 0 {
      assert Kept(a, b) == seq(REASON_COUNT, i => 0);
      SumOfZeros(REASON_COUNT);
    }
  }

  /** Every part of the second breakdown overflows on top of the same part of the first. */
  predicate NothingFits(a: Breakdown, b: Breakdown) {
    && (b.usable > 0 ==> a.usable + b.usable > U64_MAX)
    && (b.unknown > 0 ==> a.unknown + b.unknown > U64_MAX)
    && (forall i :: 0 <= i < REASON_COUNT && b.primary[i] > 0 ==> a.primary[i] + b.primary[i] > U64_MAX)
  }

  /** Merging two partitions gives a partition of their combined idle capacity exactly when that
      is a word. Beyond a word the merge passes the closing test exactly when nothing of the
      second breakdown was added, or when both are stranded as a whole at the limit. */
  lemma MergeCloses(a: Breakdown, b: Breakdown)
    requires a.Partitions() && b.Partitions()
    ensures Merge(a, b).Partitions() && Merge(a, b).idle == a.idle + b.idle <==> a.idle + b.idle <= U64_MAX
    ensures a.idle + b.idle <= U64_MAX ==> Merge(a, b).Stranded() == a.Stranded() + b.Stranded()
    ensures Merge(a, b).Closes() <==>
              || a.idle + b.idle <= U64_MAX
              || NothingFits(a, b)
              || (a.AllStrandedAtLimit() && b.usable == 0 && b.unknown == 0)
  {
    hide Total, MergeTally, Kept;
    var m := Merge(a, b);
    MergedTotal(a.primary, b.primary);
    ClosedBreakdownPartitionsIdle(a);
    ClosedBreakdownPartitionsIdle(b);
    NothingKept(a.primary, b.primary);
    if a.idle + b.idle <= U64_MAX {
      assert m.Partitions();
      ClosedBreakdownPartitionsIdle(m);
    }
  }

  lemma NothingKept(a: Tally, b: Tally)
    ensures (forall i :: 0 <= i < REASON_COUNT ==> Kept(a, b)[i] == 0) <==>
            (forall i :: 0 <= i < REASON_COUNT && b[i] > 0 ==> a[i] + b[i] > U64_MAX)
  {
    forall i | 0 <= i < REASON_COUNT ensures Kept(a, b)[i] == 0 <==> (b[i] > 0 ==> a[i] + b[i] > U64_MAX) {
    }
  }

  /** So the merge can stop closing without saying so: the parts are added and the whole is not. */
  lemma MergeOverflowBreaksClosure()
    ensures var a := Breakdown(U64_MAX, U64_MAX - 1, 1, EMPTY_TALLY, EMPTY_TALLY);
            var b := Breakdown(1, 0, 1, EMPTY_TALLY, EMPTY_TALLY);
            a.Partitions() && b.Partitions() && !Merge(a, b).Closes()
  {
    EmptyTallyTotal();
    assert MergeTally(EMPTY_TALLY, EMPTY_TALLY) == EMPTY_TALLY;
  }

  /** Adds a breakdown into another field by field. */
  class MergedBreakdown {
    var total: Breakdown

    constructor (start: Breakdown)
      ensures total == start
    {
      total := start;
    }

    method Include(other: Breakdown)
      modifies this
      ensures total == Merge(old(total), other)
    {
      var primary, occurrences := total.primary, total.occurrences;
      for i := 0 to REASON_COUNT
        invariant forall k :: 0 <= k < i ==>
          primary[k] == MergeTally(old(total).primary, other.primary)[k]
          && occurrences[k] == MergeTally(old(total).occurrences, other.occurrences)[k]
        invariant forall k :: i <= k < REASON_COUNT ==>
          primary[k] == old(total).primary[k] && occurrences[k] == old(total).occurrences[k]
      {
        primary := primary[i := MergeField(primary[i], other.primary[i])];
        occurrences := occurrences[i := MergeField(occurrences[i], other.occurrences[i])];
      }
      assert primary == MergeTally(total.primary, other.primary);
      assert occurrences == MergeTally(total.occurrences, other.occurrences);
      total := Breakdown(MergeField(total.idle, other.idle), MergeField(total.usable, other.usable),
                         MergeField(total.unknown, other.unknown), primary, occurrences);
    }
  }
}
