/** Fragmentation: usable capacity regrouped by placement domain, and why a group does not fit
    (src/analysis.cpp). */
module Fragmentation {
  import opened Foundation
  import opened Capability
  import opened Capacity
  import opened Model
  import opened Deciders
  import opened Stranding

  // ---------------------------------------------------------------------------------
  // Domains
  // ---------------------------------------------------------------------------------

  datatype DomainCapacity = DomainCapacity(
    domain: Id, kind: DomainKind, site: Id, clusters: set<Id>, nominal: U64, usable: U64, stranded: U64, unknown: U64)

  function Members(ids: seq<Id>): set<Id> {
    set i | 0 <= i < |ids| :: ids[i]
  }

  function Registered(d: DomainRecord): DomainCapacity {
    DomainCapacity(d.id, d.kind, d.site, Members(d.clusters), 0, 0, 0, 0)
  }

  /** Domains in identifier order; a later record with the same identifier replaces. */
  function PutDomain(table: seq<DomainCapacity>, d: DomainCapacity): seq<DomainCapacity> {
    if table == [] then [d]
    else if table[0].domain == d.domain then [d] + table[1..]
    else if TextLess(d.domain, table[0].domain) then [d] + table
    else [table[0]] + PutDomain(table[1..], d)
  }

  function RegisteredDomains(domains: seq<DomainRecord>, federation: Id): seq<DomainCapacity> {
    if domains == [] then []
    else
      var before := RegisteredDomains(domains[..|domains| - 1], federation);
      var d := domains[|domains| - 1];
      if federation != [] && d.federation != federation then before else PutDomain(before, Registered(d))
  }

  function FindCluster(clusters: seq<Entry<ClusterRecord>>, id: Id): Option<ClusterRecord> {
    if clusters == [] then None
    else if clusters[0].record.id == id then Some(clusters[0].record)
    else FindCluster(clusters[1..], id)
  }

  function FindDomain(domains: seq<DomainRecord>, id: Id): Option<DomainRecord> {
    if domains == [] then None
    else if domains[0].id == id then Some(domains[0])
    else FindDomain(domains[1..], id)
  }

  /** The domain a finding counts towards: its cluster's, or one made up for the cluster. */
  function DomainOf(snapshot: Snapshot, row: Finding): (Id, DomainKind) {
    var c := FindCluster(snapshot.clusters, row.cluster);
    if c.Some? && c.value.domain != [] then
      var d := FindDomain(snapshot.domains, c.value.domain);
      (c.value.domain, if d.Some? then d.value.kind else DomainKind.Cluster)
    else (row.cluster, DomainKind.Cluster)
  }

  function Credit(d: DomainCapacity, row: Finding): DomainCapacity {
    d.(nominal := SaturatingAdd(d.nominal, row.ledger.nominal),
       usable := SaturatingAdd(d.usable, row.breakdown.usable),
       stranded := SaturatingAdd(d.stranded, row.breakdown.Stranded()),
       unknown := SaturatingAdd(d.unknown, row.breakdown.unknown),
       clusters := d.clusters + {row.cluster})
  }

  function Fresh(id: Id, kind: DomainKind, row: Finding): DomainCapacity {
    DomainCapacity(id, kind, row.site, {}, 0, 0, 0, 0)
  }

  function CreditTable(table: seq<DomainCapacity>, id: Id, kind: DomainKind, row: Finding): seq<DomainCapacity> {
    if table == [] then [Credit(Fresh(id, kind, row), row)]
    else if table[0].domain == id then [Credit(table[0], row)] + table[1..]
    else if TextLess(id, table[0].domain) then [Credit(Fresh(id, kind, row), row)] + table
    else [table[0]] + CreditTable(table[1..], id, kind, row)
  }

  function Grouped(snapshot: Snapshot, federation: Id, rows: seq<Finding>): seq<DomainCapacity> {
    if rows == [] then RegisteredDomains(snapshot.domains, federation)
    else
      var row := rows[|rows| - 1];
      var (id, kind) := DomainOf(snapshot, row);
      CreditTable(Grouped(snapshot, federation, rows[..|rows| - 1]), id, kind, row)
  }

  // ---------------------------------------------------------------------------------
  // Stranding reasons over all rows
  // ---------------------------------------------------------------------------------

  predicate Fits(a: Tally, b: Tally) {
    forall i :: 0 <= i < REASON_COUNT ==> a[i] + b[i] <= U64_MAX
  }

  /** Adds one tally to another reason by reason; None when a reason overflows. */
  function AddTally(a: Tally, b: Tally): Option<Tally> {
    if Fits(a, b) then Some(seq(REASON_COUNT, i requires 0 <= i < REASON_COUNT && Fits(a, b) => a[i] + b[i])) else None
  }

  method AddEach(a: Tally, b: Tally) returns (r: Option<Tally>)
    ensures r == AddTally(a, b)
  {
    var sum: Tally := a;
    for i := 0 to REASON_COUNT
      invariant forall k :: 0 <= k < i ==> sum[k] == a[k] + b[k] <= U64_MAX
      invariant forall k :: i <= k < REASON_COUNT ==> sum[k] == a[k]
    {
      if b[i] > 0 {
        match CheckedAdd(sum[i], b[i]) {
          case None => return None;
          case Some(v) => sum := sum[i := v];
        }
      }
    }
    assert sum == AddTally(a, b).value;
    return Some(sum);
  }

  function Reasons(rows: seq<Finding>): Option<Tally> {
    if rows == [] then Some(EMPTY_TALLY)
    else
      match Reasons(rows[..|rows| - 1])
      case None => None
      case Some(t) => AddTally(t, rows[|rows| - 1].breakdown.primary)
  }

  predicate PolicyReasons(t: Tally) {
    Amount(t, SiteRestriction) > 0 || Amount(t, PolicyRestriction) > 0
  }

  predicate TopologyReasons(t: Tally) {
    Amount(t, TopologyConstraint) > 0 || Amount(t, PartitionGeometry) > 0 || Amount(t, MissingInterconnectFeature) > 0
  }

  predicate CompatibilityReasons(t: Tally) {
    || Amount(t, UnsupportedAcceleratorCapability) > 0 || Amount(t, UnsupportedPrecision) > 0
    || Amount(t, MissingOffloadCapability) > 0 || Amount(t, RuntimeMismatch) > 0 || Amount(t, DriverMismatch) > 0
    || Amount(t, AbiMismatch) > 0 || Amount(t, ArtifactIncompatibility) > 0 || Amount(t, MissingCompilerTarget) > 0
  }

  // ---------------------------------------------------------------------------------
  // Aggregation and classification
  // ---------------------------------------------------------------------------------

  datatype Aggregate = Aggregate(
    nominal: U64, usable: U64, stranded: U64, unknown: U64, largest: U64, largestDomain: Id, legalDomains: nat)

  const EMPTY_AGGREGATE := Aggregate(0, 0, 0, 0, 0, [], 0)

  function AddDomain(a: Aggregate, d: DomainCapacity, required: U64): Aggregate {
    Aggregate(SaturatingAdd(a.nominal, d.nominal), SaturatingAdd(a.usable, d.usable),
              SaturatingAdd(a.stranded, d.stranded), SaturatingAdd(a.unknown, d.unknown),
              if d.usable > a.largest then d.usable else a.largest,
              if d.usable > a.largest then d.domain else a.largestDomain,
              a.legalDomains + if required != 0 && d.usable >= required then 1 else 0)
  }

  function Aggregated(table: seq<DomainCapacity>, required: U64): Aggregate {
    if table == [] then EMPTY_AGGREGATE
    else AddDomain(Aggregated(table[..|table| - 1], required), table[|table| - 1], required)
  }

  datatype Class =
    | UnknownClass
    | NotFragmented
    | CapacityShortage
    | PhysicalFragmentation
    | CompatibilityFragmentation
    | TopologyFragmentation
    | PolicyFragmentation
    | SiteFragmentation
    | MixedFragmentation

  function Classify(a: Aggregate, required: U64, domainKind: DomainKind, t: Tally): Class {
    if required == 0 then UnknownClass
    else if a.usable < required then CapacityShortage
    else if a.largest >= required then NotFragmented
    else if domainKind == DomainKind.Federation && PolicyReasons(t) then SiteFragmentation
    else if PolicyReasons(t) && (CompatibilityReasons(t) || TopologyReasons(t)) then MixedFragmentation
    else if PolicyReasons(t) then PolicyFragmentation
    else if CompatibilityReasons(t) && TopologyReasons(t) then MixedFragmentation
    else if CompatibilityReasons(t) then CompatibilityFragmentation
    else if TopologyReasons(t) then TopologyFragmentation
    else PhysicalFragmentation
  }

  datatype Fragments = Fragments(
    required: U64, domains: seq<DomainCapacity>, totals: Aggregate, strandedByReason: Tally, classification: Class)

  function RequestFor(federation: Id, workloadClass: Id, kind: ResourceKind): Request {
    Request(federation, workloadClass, [], [], kind, false)
  }

  function FragmentationOf(snapshot: Snapshot, federation: Id, workloadClass: Id, kind: ResourceKind): Result<Fragments> {
    var scope := if federation == [] then snapshot.federation else federation;
    match SelectedWorkload(snapshot.workloads, workloadClass)
    case None => Err(NotFound)
    case Some(w) =>
      match StrandedReport(snapshot, RequestFor(scope, workloadClass, kind))
      case Err(code) => Err(code)
      case Ok(report) =>
        match Reasons(report.findings)
        case None => Err(CapacityInconsistent)
        case Some(t) =>
          var table := Grouped(snapshot, scope, report.findings);
          var totals := Aggregated(table, w.requiredAccelerators);
          Ok(Fragments(w.requiredAccelerators, table, totals, t,
                       Classify(totals, w.requiredAccelerators, w.requiredDomainKind, t)))
  }

  method CollectDomains(domains: seq<DomainRecord>, federation: Id) returns (table: seq<DomainCapacity>)
    ensures table == RegisteredDomains(domains, federation)
  {
    table := [];
    for i := 0 to |domains|
      invariant table == RegisteredDomains(domains[..i], federation)
    {
      assert domains[..i + 1][..i] == domains[..i];
      var d := domains[i];
      if !(federation != [] && d.federation != federation) {
        table := PutDomain(table, Registered(d));
      }
    }
    assert domains[..|domains|] == domains;
  }

  lemma {:induction false} ReasonsOverflow(rows: seq<Finding>, k: nat)
    requires k <= |rows| && Reasons(rows[..k]).None?
    ensures Reasons(rows).None?
    decreases |rows| - k
  {
    hide AddTally;
    if k == |rows| {
      assert rows[..k] == rows;
    } else {
      assert rows[..k + 1][..k] == rows[..k];
      ReasonsOverflow(rows, k + 1);
    }
  }

  /** Books every finding under its domain and its reason. */
  method GroupRows(snapshot: Snapshot, federation: Id, rows: seq<Finding>)
    returns (table: seq<DomainCapacity>, reasons: Option<Tally>)
    ensures reasons == Reasons(rows)
    ensures reasons.Some? ==> table == Grouped(snapshot, federation, rows)
  {
    hide CreditTable, DomainOf, AddTally;
    table := CollectDomains(snapshot.domains, federation);
    reasons := Some(EMPTY_TALLY);
    for i := 0 to |rows|
      invariant reasons.Some? && reasons == Reasons(rows[..i])
      invariant table == Grouped(snapshot, federation, rows[..i])
    {
      assert rows[..i + 1][..i] == rows[..i];
      var (id, kind) := DomainOf(snapshot, rows[i]);
      table := CreditTable(table, id, kind, rows[i]);
      reasons := AddEach(reasons.value, rows[i].breakdown.primary);
      if reasons.None? {
        ReasonsOverflow(rows, i + 1);
        return;
      }
    }
    assert rows[..|rows|] == rows;
  }

  method AggregateDomains(table: seq<DomainCapacity>, required: U64) returns (a: Aggregate)
    ensures a == Aggregated(table, required)
  {
    a := EMPTY_AGGREGATE;
    for i := 0 to |table|
      invariant a == Aggregated(table[..i], required)
    {
      assert table[..i + 1][..i] == table[..i];
      var d := table[i];
      a := a.(nominal := SaturatingAdd(a.nominal, d.nominal), usable := SaturatingAdd(a.usable, d.usable),
              stranded := SaturatingAdd(a.stranded, d.stranded), unknown := SaturatingAdd(a.unknown, d.unknown));
      if d.usable > a.largest {
        a := a.(largest := d.usable, largestDomain := d.domain);
      }
      if required != 0 && d.usable >= required {
        a := a.(legalDomains := a.legalDomains + 1);
      }
    }
    assert table[..|table|] == table;
  }

  method AnalyzeFragmentation(snapshot: Snapshot, federation: Id, workloadClass: Id, kind: ResourceKind)
    returns (r: Result<Fragments>)
    ensures r == FragmentationOf(snapshot, federation, workloadClass, kind)
  {
    hide SelectedWorkload, StrandedReport, Grouped, Reasons, Aggregated, Classify;
    var scope := if federation == [] then snapshot.federation else federation;
    var w := SelectWorkload(snapshot, workloadClass);
    if w.None? {
      return Err(NotFound);
    }
    var report := AnalyzeStrandedCapacity(snapshot, RequestFor(scope, workloadClass, kind));
    if report.Err? {
      return Err(report.code);
    }
    var required := w.value.requiredAccelerators;
    var table, reasons := GroupRows(snapshot, scope, report.value.findings);
    if reasons.None? {
      return Err(CapacityInconsistent);
    }
    var totals := AggregateDomains(table, required);
    var class_ := Classify(totals, required, w.value.requiredDomainKind, reasons.value);
    return Ok(Fragments(required, table, totals, reasons.value, class_));
  }

  // ---------------------------------------------------------------------------------
  // Grouping conserves capacity
  // ---------------------------------------------------------------------------------

  datatype Parts = Parts(nominal: nat, usable: nat, stranded: nat, unknown: nat)

  function PartsOf(table: seq<DomainCapacity>): Parts {
    if table == [] then Parts(0, 0, 0, 0)
    else
      var rest := PartsOf(table[1..]);
      var d := table[0];
      Parts(d.nominal + rest.nominal, d.usable + rest.usable, d.stranded + rest.stranded, d.unknown + rest.unknown)
  }

  function AddRow(p: Parts, row: Finding): Parts {
    Parts(p.nominal + row.ledger.nominal, p.usable + row.breakdown.usable, p.stranded + row.breakdown.Stranded(),
          p.unknown + row.breakdown.unknown)
  }

  predicate InWords(p: Parts) {
    p.nominal <= U64_MAX && p.usable <= U64_MAX && p.stranded <= U64_MAX && p.unknown <= U64_MAX
  }

  /** Crediting a finding moves exactly its capacity into the table. */
  lemma {:induction false} CreditConserves(table: seq<DomainCapacity>, id: Id, kind: DomainKind, row: Finding)
    requires InWords(AddRow(PartsOf(table), row))
    ensures PartsOf(CreditTable(table, id, kind, row)) == AddRow(PartsOf(table), row)
  {
    hide TextLess, Breakdown.Stranded;
    if table != [] && table[0].domain != id && !TextLess(id, table[0].domain) {
      CreditConserves(table[1..], id, kind, row);
    }
  }

  predicate AllEmpty(table: seq<DomainCapacity>) {
    forall i :: 0 <= i < |table| ==>
      table[i].nominal == 0 && table[i].usable == 0 && table[i].stranded == 0 && table[i].unknown == 0
  }

  lemma {:induction false} PuttingEmptyDomains(table: seq<DomainCapacity>, d: DomainCapacity)
    requires AllEmpty(table) && AllEmpty([d])
    ensures AllEmpty(PutDomain(table, d))
  {
    hide TextLess;
    assert [d][0] == d;
    if table != [] && table[0].domain != d.domain && !TextLess(d.domain, table[0].domain) {
      PuttingEmptyDomains(table[1..], d);
    }
  }

  lemma {:induction false} EmptyTablesHoldNothing(table: seq<DomainCapacity>)
    requires AllEmpty(table)
    ensures PartsOf(table) == Parts(0, 0, 0, 0)
  {
    if table != [] {
      EmptyTablesHoldNothing(table[1..]);
    }
  }

  lemma {:induction false} RegisteredDomainsAreEmpty(domains: seq<DomainRecord>, federation: Id)
    ensures AllEmpty(RegisteredDomains(domains, federation))
  {
    if domains != [] {
      RegisteredDomainsAreEmpty(domains[..|domains| - 1], federation);
      PuttingEmptyDomains(RegisteredDomains(domains[..|domains| - 1], federation), Registered(domains[|domains| - 1]));
    }
  }

  function PartsOfTotals(t: Totals): Parts {
    Parts(t.nominal, t.usable, t.stranded, t.unknown)
  }

  /** The domains together hold exactly the capacity of the findings. */
  lemma {:induction false} GroupingConserves(snapshot: Snapshot, federation: Id, rows: seq<Finding>)
    requires Sound(rows) && Exact(rows).nominal <= U64_MAX
    ensures PartsOf(Grouped(snapshot, federation, rows)) == PartsOfTotals(Exact(rows))
  {
    hide Ledger.Closes, Partitioned, Breakdown.Stranded, CreditTable, DomainOf, Sound, PartsOf;
    if |rows| == 0 {
      RegisteredDomainsAreEmpty(snapshot.domains, federation);
      EmptyTablesHoldNothing(RegisteredDomains(snapshot.domains, federation));
    } else {
      var before := rows[..|rows| - 1];
      SoundnessSplits(rows);
      GroupingConserves(snapshot, federation, before);
      TotalsBalance(rows);
      var (id, kind) := DomainOf(snapshot, rows[|rows| - 1]);
      CreditConserves(Grouped(snapshot, federation, before), id, kind, rows[|rows| - 1]);
    }
  }

  lemma {:induction false} PartsOfLast(table: seq<DomainCapacity>, d: DomainCapacity)
    ensures var p := PartsOf(table);
            PartsOf(table + [d]) ==
            Parts(p.nominal + d.nominal, p.usable + d.usable, p.stranded + d.stranded, p.unknown + d.unknown)
  {
    if table == [] {
      assert table + [d] == [d];
      assert PartsOf([d][1..]) == Parts(0, 0, 0, 0);
    } else {
      PartsOfLast(table[1..], d);
      assert (table + [d])[1..] == table[1..] + [d];
    }
  }

  /** Aggregation neither loses nor saturates: totals are the sums over the domains, the largest
      group is attained, and legal domains are those that hold the required group. */
  lemma {:induction false} AggregationIsExact(table: seq<DomainCapacity>, required: U64)
    requires InWords(PartsOf(table))
    ensures var a := Aggregated(table, required);
            && Parts(a.nominal, a.usable, a.stranded, a.unknown) == PartsOf(table)
            && (forall i :: 0 <= i < |table| ==> table[i].usable <= a.largest)
            && (a.largest == 0 || exists i :: 0 <= i < |table| && table[i].usable == a.largest && table[i].domain == a.largestDomain)
            && (a.legalDomains > 0 <==> required != 0 && exists i :: 0 <= i < |table| && table[i].usable >= required)
  {
    if |table| > 0 {
      var before := table[..|table| - 1];
      var d := table[|table| - 1];
      assert table == before + [d];
      PartsOfLast(before, d);
      hide PartsOf;
      AggregationIsExact(before, required);
      assert forall i :: 0 <= i < |before| ==> table[i] == before[i];
      assert table[|table| - 1] == d;
    }
  }

  lemma TallyFits(a: Tally, b: Tally)
    requires Total(a) + Total(b) <= U64_MAX
    ensures Fits(a, b) && Total(AddTally(a, b).value) == Total(a) + Total(b)
  {
    SumNonNegative(a);
    SumNonNegative(b);
    forall i | 0 <= i < REASON_COUNT ensures a[i] + b[i] <= U64_MAX {
      assert a[i] <= Total(a) && b[i] <= Total(b);
    }
    SumPointwise(a, b, AddTally(a, b).value);
  }

  /** The reasons account for all stranded capacity and never overflow. */
  lemma {:induction false} ReasonsAreExact(rows: seq<Finding>)
    requires Sound(rows) && Exact(rows).nominal <= U64_MAX
    ensures Reasons(rows).Some? && Total(Reasons(rows).value) == Exact(rows).stranded
  {
    hide Ledger.Closes, Breakdown.Stranded, Breakdown.Closes, Sound, AddTally, Total;
    if |rows| == 0 {
      EmptyTallyTotal();
    } else {
      var before := rows[..|rows| - 1];
      var last := rows[|rows| - 1];
      SoundnessSplits(rows);
      ReasonsAreExact(before);
      TotalsBalance(rows);
      ClosedBreakdownPartitionsIdle(last.breakdown);
      TallyFits(Reasons(before).value, last.breakdown.primary);
      FittingAdds(Reasons(before).value, last.breakdown.primary);
    }
  }

  lemma FittingAdds(a: Tally, b: Tally)
    ensures AddTally(a, b).Some? <==> Fits(a, b)
  {
  }

  // ---------------------------------------------------------------------------------
  // Classification
  // ---------------------------------------------------------------------------------

  predicate SomeDomainFits(f: Fragments) {
    exists i :: 0 <= i < |f.domains| && f.domains[i].usable >= f.required
  }

  predicate TwoDomainsUsable(f: Fragments) {
    exists i, j :: 0 <= i < j < |f.domains| && f.domains[i].usable > 0 && f.domains[j].usable > 0
  }

  lemma {:induction false} SomeUsable(table: seq<DomainCapacity>) returns (k: nat)
    requires PartsOf(table).usable > 0
    ensures k < |table| && table[k].usable > 0
  {
    if table[0].usable > 0 {
      k := 0;
    } else {
      k := SomeUsable(table[1..]);
      k := k + 1;
    }
  }

  lemma {:induction false} UsableWithout(table: seq<DomainCapacity>, i: nat)
    requires i < |table|
    ensures PartsOf(table[i := table[i].(usable := 0)]).usable == PartsOf(table).usable - table[i].usable
  {
    if i > 0 {
      UsableWithout(table[1..], i - 1);
      assert table[i := table[i].(usable := 0)][1..] == table[1..][i - 1 := table[i].(usable := 0)];
    } else {
      assert table[0 := table[0].(usable := 0)][1..] == table[1..];
    }
  }

  /** When the total exceeds every single domain, two domains contribute. */
  lemma TwoContribute(f: Fragments)
    requires PartsOf(f.domains).usable >= f.required > 0 && !SomeDomainFits(f)
    ensures TwoDomainsUsable(f)
  {
    var i := SomeUsable(f.domains);
    var without := f.domains[i := f.domains[i].(usable := 0)];
    UsableWithout(f.domains, i);
    assert f.domains[i].usable < f.required;
    var j := SomeUsable(without);
    assert i != j && f.domains[j].usable > 0;
    if i < j {
      assert f.domains[i].usable > 0 && f.domains[j].usable > 0;
    } else {
      assert f.domains[j].usable > 0 && f.domains[i].usable > 0;
    }
  }

  /** What an analysis of closed ledgers reports. */
  lemma FragmentationConserves(snapshot: Snapshot, federation: Id, workloadClass: Id, kind: ResourceKind)
    requires LedgersClose(RequestFor(if federation == [] then snapshot.federation else federation, workloadClass, kind),
                          snapshot.clusters)
    ensures var scope := if federation == [] then snapshot.federation else federation;
            var report := StrandedReport(snapshot, RequestFor(scope, workloadClass, kind));
            var r := FragmentationOf(snapshot, federation, workloadClass, kind);
            && (r.Ok? <==> SelectedWorkload(snapshot.workloads, workloadClass).Some? && report.Ok?)
            && (r.Ok? ==>
                  && r.value.totals.nominal == report.value.summary.nominal
                  && r.value.totals.usable == report.value.summary.usable
                  && r.value.totals.stranded == report.value.summary.stranded
                  && r.value.totals.unknown == report.value.summary.unknown
                  && Parts(r.value.totals.nominal, r.value.totals.usable, r.value.totals.stranded, r.value.totals.unknown)
                     == PartsOf(r.value.domains)
                  && Total(r.value.strandedByReason) == r.value.totals.stranded)
  {
    hide SelectedWorkload, ClusterFindings, Accumulated, Exact, Sound, LedgersClose, Grouped, Reasons, Aggregated, PartsOf,
         Total, Classify, StaleIds, UnknownIds, Summary.Closes, Balanced;
    var scope := if federation == [] then snapshot.federation else federation;
    StrandedReportIsExact(snapshot, RequestFor(scope, workloadClass, kind));
    var report := StrandedReport(snapshot, RequestFor(scope, workloadClass, kind));
    if report.Ok? && SelectedWorkload(snapshot.workloads, workloadClass).Some? {
      var w := SelectedWorkload(snapshot.workloads, workloadClass).value;
      var rows := report.value.findings;
      ReportTotals(snapshot, RequestFor(scope, workloadClass, kind));
      ReasonsAreExact(rows);
      GroupingConserves(snapshot, scope, rows);
      AggregationIsExact(Grouped(snapshot, scope, rows), w.requiredAccelerators);
    }
  }

  lemma ReportTotals(snapshot: Snapshot, r: Request)
    requires LedgersClose(r, snapshot.clusters) && StrandedReport(snapshot, r).Ok?
    ensures var report := StrandedReport(snapshot, r).value;
            && Sound(report.findings) && Matches(report.summary, Exact(report.findings))
            && InWords(PartsOfTotals(Exact(report.findings)))
  {
    hide ClusterFindings, Accumulated, Exact, Sound, LedgersClose, StaleIds, UnknownIds, Summary.Closes, SelectedWorkload;
    StrandedReportIsExact(snapshot, r);
  }

  /** With a group to place: the class is a shortage exactly when the usable total is too small,
      no fragmentation exactly when some domain holds the whole group, and in every other case
      the capacity is there but spread over two domains or more. */
  lemma ClassificationIsExact(snapshot: Snapshot, federation: Id, workloadClass: Id, kind: ResourceKind)
    requires LedgersClose(RequestFor(if federation == [] then snapshot.federation else federation, workloadClass, kind),
                          snapshot.clusters)
    requires FragmentationOf(snapshot, federation, workloadClass, kind).Ok?
    requires FragmentationOf(snapshot, federation, workloadClass, kind).value.required > 0
    ensures var f := FragmentationOf(snapshot, federation, workloadClass, kind).value;
            && (f.classification.CapacityShortage? <==> PartsOf(f.domains).usable < f.required)
            && (f.classification.NotFragmented? <==> SomeDomainFits(f))
            && (f.totals.legalDomains > 0 <==> SomeDomainFits(f))
            && (!f.classification.CapacityShortage? && !f.classification.NotFragmented? ==>
                  TwoDomainsUsable(f) && !SomeDomainFits(f) && PartsOf(f.domains).usable >= f.required)
  {
    hide SelectedWorkload, StrandedReport, LedgersClose, Grouped, Reasons, PartsOf, Total, Aggregated;
    FragmentationConserves(snapshot, federation, workloadClass, kind);
    var f := FragmentationOf(snapshot, federation, workloadClass, kind).value;
    AggregationIsExact(f.domains, f.required);
    if SomeDomainFits(f) {
      var i :| 0 <= i < |f.domains| && f.domains[i].usable >= f.required;
      OneOfTheParts(f.domains, i);
    } else if PartsOf(f.domains).usable >= f.required {
      TwoContribute(f);
    }
  }

  const POLICY := {SiteRestriction, PolicyRestriction}

  const TOPOLOGY := {TopologyConstraint, PartitionGeometry, MissingInterconnectFeature}

  const COMPATIBILITY := {
    UnsupportedAcceleratorCapability, UnsupportedPrecision, MissingOffloadCapability, RuntimeMismatch, DriverMismatch,
    AbiMismatch, ArtifactIncompatibility, MissingCompilerTarget}

  /** Some pool has capacity booked under one of the reasons. */
  ghost predicate StrandedBy(rows: seq<Finding>, reasons: set<StrandingReason>) {
    exists i, reason :: 0 <= i < |rows| && reason in reasons && Amount(rows[i].breakdown.primary, reason) > 0
  }

  /** A reason has an amount in the combined tally exactly when a pool has capacity booked under it. */
  lemma {:induction false} ReasonsComeFromPools(rows: seq<Finding>, reason: StrandingReason)
    requires Reasons(rows).Some?
    ensures Amount(Reasons(rows).value, reason) > 0 <==>
            exists i :: 0 <= i < |rows| && Amount(rows[i].breakdown.primary, reason) > 0
  {
    hide Index;
    if rows != [] {
      var before, last := rows[..|rows| - 1], rows[|rows| - 1];
      ReasonsComeFromPools(before, reason);
      assert rows == before + [last];
      assert forall i :: 0 <= i < |before| ==> rows[i] == before[i];
      assert Amount(last.breakdown.primary, reason) > 0 ==> Amount(rows[|rows| - 1].breakdown.primary, reason) > 0;
    }
  }

  lemma TallyShowsReasons(rows: seq<Finding>)
    requires Reasons(rows).Some?
    ensures var t := Reasons(rows).value;
            && (PolicyReasons(t) <==> StrandedBy(rows, POLICY))
            && (TopologyReasons(t) <==> StrandedBy(rows, TOPOLOGY))
            && (CompatibilityReasons(t) <==> StrandedBy(rows, COMPATIBILITY))
  {
    hide Reasons, Amount;
    forall reason ensures Amount(Reasons(rows).value, reason) > 0 <==>
                          exists i :: 0 <= i < |rows| && Amount(rows[i].breakdown.primary, reason) > 0 {
      ReasonsComeFromPools(rows, reason);
    }
  }

  /** Capacity that is there in total but held whole by no domain is classified by what strands
      the rest: two families of reasons or more make it mixed, one names the class, and none
      leaves it physical. For a workload that spans the federation, policy alone decides. */
  lemma SpreadCapacityIsClassified(snapshot: Snapshot, federation: Id, workloadClass: Id, kind: ResourceKind)
    requires FragmentationOf(snapshot, federation, workloadClass, kind).Ok?
    requires var f := FragmentationOf(snapshot, federation, workloadClass, kind).value;
             f.required > 0 && !f.classification.CapacityShortage? && !f.classification.NotFragmented?
    ensures var scope := if federation == [] then snapshot.federation else federation;
            var rows := StrandedReport(snapshot, RequestFor(scope, workloadClass, kind)).value.findings;
            var spans := SelectedWorkload(snapshot.workloads, workloadClass).value.requiredDomainKind.Federation?;
            var policy, topology, compatibility :=
              StrandedBy(rows, POLICY), StrandedBy(rows, TOPOLOGY), StrandedBy(rows, COMPATIBILITY);
            var c := FragmentationOf(snapshot, federation, workloadClass, kind).value.classification;
            && (c.SiteFragmentation? <==> spans && policy)
            && (c.PolicyFragmentation? <==> !spans && policy && !topology && !compatibility)
            && (c.TopologyFragmentation? <==> !policy && topology && !compatibility)
            && (c.CompatibilityFragmentation? <==> !policy && !topology && compatibility)
            && (c.PhysicalFragmentation? <==> !policy && !topology && !compatibility)
            && (c.MixedFragmentation? <==>
                  || (!spans && policy && (topology || compatibility))
                  || (!policy && topology && compatibility))
  {
    hide SelectedWorkload, StrandedReport, Grouped, Reasons, Aggregated, StrandedBy, PolicyReasons, TopologyReasons,
         CompatibilityReasons;
    var scope := if federation == [] then snapshot.federation else federation;
    TallyShowsReasons(StrandedReport(snapshot, RequestFor(scope, workloadClass, kind)).value.findings);
  }

  lemma {:induction false} OneOfTheParts(table: seq<DomainCapacity>, i: nat)
    requires i < |table|
    ensures table[i].usable <= PartsOf(table).usable
  {
    if i > 0 {
      OneOfTheParts(table[1..], i - 1);
    }
  }
}
