/** Which placement domain each pool counts towards (src/analysis.cpp). */
module Grouping {
  import opened Foundation
  import opened Capability
  import opened Capacity
  import opened Model
  import opened Stranding
  import opened Fragmentation

  /** The domain of a finding: that of its cluster, when the snapshot has the cluster and it has
      one, and otherwise the cluster itself. */
  ghost predicate IsHome(snapshot: Snapshot, row: Finding, id: Id) {
    if exists i :: 0 <= i < |snapshot.clusters| && snapshot.clusters[i].record.id == row.cluster
    then exists i :: 0 <= i < |snapshot.clusters| && FirstNamed(snapshot.clusters, i, row.cluster)
                     && id == if snapshot.clusters[i].record.domain == [] then row.cluster else snapshot.clusters[i].record.domain
    else id == row.cluster
  }

  predicate FirstNamed(clusters: seq<Entry<ClusterRecord>>, i: nat, id: Id)
    requires i < |clusters|
  {
    clusters[i].record.id == id && forall k :: 0 <= k < i ==> clusters[k].record.id != id
  }

  lemma {:induction false} FoundIsFirst(clusters: seq<Entry<ClusterRecord>>, id: Id)
    ensures FindCluster(clusters, id).None? <==> forall i :: 0 <= i < |clusters| ==> clusters[i].record.id != id
    ensures FindCluster(clusters, id).Some? ==>
              exists i :: 0 <= i < |clusters| && FirstNamed(clusters, i, id) && FindCluster(clusters, id).value == clusters[i].record
  {
    if clusters != [] {
      if clusters[0].record.id == id {
        assert FirstNamed(clusters, 0, id);
      } else {
        FoundIsFirst(clusters[1..], id);
        if FindCluster(clusters[1..], id).Some? {
          var i :| 0 <= i < |clusters[1..]| && FirstNamed(clusters[1..], i, id)
                   && FindCluster(clusters[1..], id).value == clusters[1..][i].record;
          forall k | 0 <= k < i + 1 ensures clusters[k].record.id != id {
            if k > 0 {
              assert clusters[k] == clusters[1..][k - 1];
            }
          }
          assert clusters[i + 1] == clusters[1..][i];
          assert FirstNamed(clusters, i + 1, id);
        } else {
          assert forall i :: 0 < i < |clusters| ==> clusters[i] == clusters[1..][i - 1];
        }
      }
    }
  }

  lemma HomeIsUnique(snapshot: Snapshot, row: Finding, id: Id)
    ensures IsHome(snapshot, row, id) <==> id == DomainOf(snapshot, row).0
  {
    hide FindCluster;
    FoundIsFirst(snapshot.clusters, row.cluster);
    forall i, j | 0 <= i < |snapshot.clusters| && 0 <= j < |snapshot.clusters|
                  && FirstNamed(snapshot.clusters, i, row.cluster) && FirstNamed(snapshot.clusters, j, row.cluster)
      ensures i == j
    {
    }
  }

  // ---------------------------------------------------------------------------------
  // The table
  // ---------------------------------------------------------------------------------

  function Ids(table: seq<DomainCapacity>): set<Id> {
    if table == [] then {} else {table[0].domain} + Ids(table[1..])
  }

  /** In identifier order, each identifier once. */
  ghost predicate Ordered(table: seq<DomainCapacity>) {
    table == [] || ((forall id :: id in Ids(table[1..]) ==> TextLess(table[0].domain, id)) && Ordered(table[1..]))
  }

  /** What the table holds under an identifier. */
  function Held(table: seq<DomainCapacity>, id: Id): Parts {
    if table == [] then Parts(0, 0, 0, 0)
    else
      var rest, d := Held(table[1..], id), table[0];
      if d.domain != id then rest
      else Parts(d.nominal + rest.nominal, d.usable + rest.usable, d.stranded + rest.stranded, d.unknown + rest.unknown)
  }

  lemma {:induction false} PuttingMeans(table: seq<DomainCapacity>, d: DomainCapacity)
    requires Ordered(table)
    ensures Ids(PutDomain(table, d)) == Ids(table) + {d.domain} && Ordered(PutDomain(table, d))
  {
    hide TextLess;
    if table == [] {
      assert [d][1..] == [];
    } else {
      TextOrder(d.domain, table[0].domain, table[0].domain);
      if table[0].domain == d.domain {
        assert ([d] + table[1..])[1..] == table[1..];
      } else if TextLess(d.domain, table[0].domain) {
        assert ([d] + table)[1..] == table;
        forall id | id in Ids(table) ensures TextLess(d.domain, id) {
          TextOrder(d.domain, table[0].domain, id);
        }
      } else {
        PuttingMeans(table[1..], d);
        assert ([table[0]] + PutDomain(table[1..], d))[1..] == PutDomain(table[1..], d);
      }
    }
  }

  lemma {:induction false} CreditingMeans(table: seq<DomainCapacity>, id: Id, kind: DomainKind, row: Finding)
    requires Ordered(table)
    ensures Ids(CreditTable(table, id, kind, row)) == Ids(table) + {id} && Ordered(CreditTable(table, id, kind, row))
  {
    hide TextLess, Breakdown.Stranded, SaturatingAdd;
    var made := Credit(Fragmentation.Fresh(id, kind, row), row);
    if table == [] {
      assert [made][1..] == [];
    } else {
      TextOrder(id, table[0].domain, table[0].domain);
      if table[0].domain == id {
        assert ([Credit(table[0], row)] + table[1..])[1..] == table[1..];
      } else if TextLess(id, table[0].domain) {
        assert ([made] + table)[1..] == table;
        forall other | other in Ids(table) ensures TextLess(id, other) {
          TextOrder(id, table[0].domain, other);
        }
      } else {
        CreditingMeans(table[1..], id, kind, row);
        assert ([table[0]] + CreditTable(table[1..], id, kind, row))[1..] == CreditTable(table[1..], id, kind, row);
      }
    }
  }

  lemma {:induction false} NothingHeld(table: seq<DomainCapacity>, id: Id)
    requires id !in Ids(table) || AllEmpty(table)
    ensures Held(table, id) == Parts(0, 0, 0, 0)
  {
    if table != [] {
      NothingHeld(table[1..], id);
    }
  }

  function Amounts(d: DomainCapacity): Parts {
    Parts(d.nominal, d.usable, d.stranded, d.unknown)
  }

  lemma CreditIsExact(d: DomainCapacity, row: Finding)
    requires InWords(AddRow(Amounts(d), row))
    ensures Credit(d, row).domain == d.domain && Amounts(Credit(d, row)) == AddRow(Amounts(d), row)
  {
    hide Breakdown.Stranded;
  }

  /** A finding is credited to its own domain and to no other. */
  lemma {:induction false} CreditIsHeld(table: seq<DomainCapacity>, id: Id, kind: DomainKind, row: Finding, other: Id)
    requires InWords(AddRow(PartsOf(table), row))
    ensures Ordered(table) ==>
              Held(CreditTable(table, id, kind, row), other) ==
              if other == id then AddRow(Held(table, other), row) else Held(table, other)
  {
    hide TextLess, Breakdown.Stranded, Credit;
    if Ordered(table) {
      CreditIsExact(Fragmentation.Fresh(id, kind, row), row);
      if table != [] {
        CreditIsExact(table[0], row);
      }
      if table != [] && table[0].domain != id {
        if TextLess(id, table[0].domain) {
          AbsentBefore(table, id);
          NothingHeld(table, id);
        } else {
          CreditIsHeld(table[1..], id, kind, row, other);
        }
      } else if table != [] {
        AbsentAfter(table);
        NothingHeld(table[1..], id);
      }
    }
  }

  lemma AbsentBefore(table: seq<DomainCapacity>, id: Id)
    requires table != [] && Ordered(table) && TextLess(id, table[0].domain)
    ensures id !in Ids(table)
  {
    hide TextLess;
    TextOrder(id, table[0].domain, id);
    TextOrder(id, id, id);
  }

  lemma AbsentAfter(table: seq<DomainCapacity>)
    requires table != [] && Ordered(table)
    ensures table[0].domain !in Ids(table[1..])
  {
    hide TextLess;
    TextOrder(table[0].domain, table[0].domain, table[0].domain);
  }

  // ---------------------------------------------------------------------------------
  // The groups
  // ---------------------------------------------------------------------------------

  /** The domains a request lists whether or not anything counts towards them. */
  ghost predicate Listed(domains: seq<DomainRecord>, federation: Id, id: Id) {
    exists i :: 0 <= i < |domains| && domains[i].id == id && federation in {[], domains[i].federation}
  }

  lemma {:induction false} RegisteredAreListed(domains: seq<DomainRecord>, federation: Id)
    ensures Ordered(RegisteredDomains(domains, federation))
    ensures forall id :: id in Ids(RegisteredDomains(domains, federation)) <==> Listed(domains, federation, id)
  {
    if domains != [] {
      var before, d := domains[..|domains| - 1], domains[|domains| - 1];
      assert domains == before + [d] && domains[|domains| - 1] == d;
      assert forall i :: 0 <= i < |before| ==> domains[i] == before[i];
      RegisteredAreListed(before, federation);
      PuttingMeans(RegisteredDomains(before, federation), Registered(d));
      forall id ensures Listed(domains, federation, id) <==>
                        Listed(before, federation, id) || (d.id == id && federation in {[], d.federation}) {
        if Listed(before, federation, id) {
          var i :| 0 <= i < |before| && before[i].id == id && federation in {[], before[i].federation};
          assert domains[i] == before[i];
        }
      }
    }
  }

  /** What the findings of one domain add up to. */
  ghost function Belonging(snapshot: Snapshot, rows: seq<Finding>, id: Id): Parts {
    if rows == [] then Parts(0, 0, 0, 0)
    else
      var before := Belonging(snapshot, rows[..|rows| - 1], id);
      if IsHome(snapshot, rows[|rows| - 1], id) then AddRow(before, rows[|rows| - 1]) else before
  }

  /** Each domain holds exactly the capacity of the pools whose cluster belongs to it. */
  lemma {:induction false} GroupsAreExact(snapshot: Snapshot, federation: Id, rows: seq<Finding>, id: Id)
    requires Sound(rows) && Exact(rows).nominal <= U64_MAX
    ensures Held(Grouped(snapshot, federation, rows), id) == Belonging(snapshot, rows, id)
    ensures Ordered(Grouped(snapshot, federation, rows))
  {
    hide Held, Ordered, CreditTable, DomainOf, Sound, Partitioned, Ledger.Closes, Breakdown.Stranded, IsHome, PartsOf, Exact;
    if rows == [] {
      RegisteredAreListed(snapshot.domains, federation);
      RegisteredDomainsAreEmpty(snapshot.domains, federation);
      NothingHeld(RegisteredDomains(snapshot.domains, federation), id);
    } else {
      var before, row := rows[..|rows| - 1], rows[|rows| - 1];
      FirstRowsFit(rows);
      GroupsAreExact(snapshot, federation, before, id);
      GroupingConserves(snapshot, federation, before);
      var (home, kind) := DomainOf(snapshot, row);
      HomeIsUnique(snapshot, row, id);
      CreditIsHeld(Grouped(snapshot, federation, before), home, kind, row, id);
      CreditingMeans(Grouped(snapshot, federation, before), home, kind, row);
    }
  }

  lemma FirstRowsFit(rows: seq<Finding>)
    requires rows != [] && Sound(rows) && Exact(rows).nominal <= U64_MAX
    ensures var before := rows[..|rows| - 1];
            && Sound(before) && Exact(before).nominal <= U64_MAX
            && InWords(AddRow(PartsOfTotals(Exact(before)), rows[|rows| - 1]))
  {
    hide Partitioned, Ledger.Closes, Breakdown.Stranded;
    SoundnessSplits(rows);
    TotalsBalance(rows);
  }

  /** The table lists exactly the registered domains in scope and the domains of the findings. */
  lemma {:induction false} GroupsAreListed(snapshot: Snapshot, federation: Id, rows: seq<Finding>, id: Id)
    ensures Ordered(Grouped(snapshot, federation, rows))
    ensures id in Ids(Grouped(snapshot, federation, rows)) <==>
            Listed(snapshot.domains, federation, id) || exists i :: 0 <= i < |rows| && IsHome(snapshot, rows[i], id)
  {
    hide Ordered, CreditTable, DomainOf, IsHome, Listed;
    RegisteredAreListed(snapshot.domains, federation);
    if rows != [] {
      var before, row := rows[..|rows| - 1], rows[|rows| - 1];
      assert rows == before + [row] && rows[|rows| - 1] == row;
      assert forall i :: 0 <= i < |before| ==> rows[i] == before[i];
      GroupsAreListed(snapshot, federation, before, id);
      var (home, kind) := DomainOf(snapshot, row);
      HomeIsUnique(snapshot, row, id);
      CreditingMeans(Grouped(snapshot, federation, before), home, kind, row);
    }
  }
}
