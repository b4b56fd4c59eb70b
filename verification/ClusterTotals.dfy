/** Adding up the pools of a cluster (ClusterRecord::total_ledger in src/model.cpp). */
module ClusterTotals {
  import opened Foundation
  import opened Capacity
  import opened Model

  /** The entries of a ledger, idle last. */
  function Parts(l: Ledger): (p: seq<nat>)
    ensures |p| == 7
  {
    [l.nominal, l.offline, l.allotted, l.reserved, l.draining, l.unusable, l.idle]
  }

  /** What the pools of one kind hold under one entry. */
  function Total(pools: seq<Pool>, kind: ResourceKind, entry: nat): nat
    requires entry < 7
  {
    if |pools| > 0 then
      var last := pools[|pools| - 1];
      Total(pools[..|pools| - 1], kind, entry) + (if last.kind == kind then Parts(last.ledger)[entry] else 0)
    else 0
  }

  function Committed(pools: seq<Pool>, kind: ResourceKind): nat {
    Total(pools, kind, 1) + Total(pools, kind, 2) + Total(pools, kind, 3) + Total(pools, kind, 4) + Total(pools, kind, 5)
  }

  /** The nominal total is a word and covers what is committed. */
  predicate Fits(pools: seq<Pool>, kind: ResourceKind) {
    Committed(pools, kind) <= Total(pools, kind, 0) <= U64_MAX
  }

  predicate AllClose(pools: seq<Pool>) {
    forall i :: 0 <= i < |pools| ==> pools[i].ledger.Closes()
  }

  lemma {:induction false} TotalsGrow(pools: seq<Pool>, kind: ResourceKind, entry: nat, k: nat)
    requires entry < 7 && k <= |pools|
    ensures Total(pools[..k], kind, entry) <= Total(pools, kind, entry)
  {
    if k < |pools| {
      TotalsGrow(pools[..|pools| - 1], kind, entry, k);
      assert pools[..|pools| - 1][..k] == pools[..k];
    } else {
      assert pools[..k] == pools;
    }
  }

  /** Closed ledgers add up to a closed total. */
  lemma {:induction false} ClosedLedgersAddUp(pools: seq<Pool>, kind: ResourceKind)
    requires AllClose(pools)
    ensures Total(pools, kind, 0) == Committed(pools, kind) + Total(pools, kind, 6)
  {
    if |pools| > 0 {
      ClosedLedgersAddUp(pools[..|pools| - 1], kind);
      assert pools[|pools| - 1].ledger.Closes();
    }
  }

  /** So over closed ledgers the totals fit all along exactly when the nominal total is a word. */
  lemma ClosedLedgersFit(pools: seq<Pool>, kind: ResourceKind)
    requires AllClose(pools)
    ensures (forall k :: 0 <= k <= |pools| ==> Fits(pools[..k], kind)) <==> Total(pools, kind, 0) <= U64_MAX
  {
    hide Total;
    forall k | 0 <= k <= |pools|
      ensures Total(pools[..k], kind, 0) <= Total(pools, kind, 0)
      ensures Committed(pools[..k], kind) <= Total(pools[..k], kind, 0)
    {
      TotalsGrow(pools, kind, 0, k);
      ClosedLedgersAddUp(pools[..k], kind);
    }
    assert pools[..|pools|] == pools;
  }

  function CommittedBy(l: Ledger): nat {
    l.offline + l.allotted + l.reserved + l.draining + l.unusable
  }

  /** A ledger whose components are the totals; its idle part follows from them. */
  ghost predicate Holds(total: Ledger, pools: seq<Pool>, kind: ResourceKind) {
    total.Closes() && forall e :: 0 <= e < 6 ==> Parts(total)[e] == Total(pools, kind, e)
  }

  /** Adds one ledger component by component. */
  method AddLedger(total: Ledger, l: Ledger) returns (r: Result<Ledger>)
    ensures r.Ok? <==> CommittedBy(total) + CommittedBy(l) <= total.nominal + l.nominal <= U64_MAX
    ensures r.Err? ==> r.code == CapacityInconsistent
    ensures r.Ok? ==> r.value.Closes() && forall e :: 0 <= e < 6 ==> Parts(r.value)[e] == Parts(total)[e] + Parts(l)[e]
  {
    var nominal := CheckedAdd(total.nominal, l.nominal);
    var offline := CheckedAdd(total.offline, l.offline);
    var allotted := CheckedAdd(total.allotted, l.allotted);
    var reserved := CheckedAdd(total.reserved, l.reserved);
    var draining := CheckedAdd(total.draining, l.draining);
    var unusable := CheckedAdd(total.unusable, l.unusable);
    if nominal.None? || offline.None? || allotted.None? || reserved.None? || draining.None? || unusable.None? {
      return Err(CapacityInconsistent);
    }
    r := FromComponents(nominal.value, offline.value, allotted.value, reserved.value, draining.value, unusable.value);
  }

  lemma PartStep(pools: seq<Pool>, kind: ResourceKind, i: nat, entry: nat)
    requires i < |pools| && entry < 7
    ensures Total(pools[..i + 1], kind, entry) ==
            Total(pools[..i], kind, entry) + (if pools[i].kind == kind then Parts(pools[i].ledger)[entry] else 0)
  {
    hide Parts;
    assert pools[..i + 1][..i] == pools[..i];
  }

  lemma TotalStep(total: Ledger, pools: seq<Pool>, kind: ResourceKind, i: nat)
    requires i < |pools| && Holds(total, pools[..i], kind) && Fits(pools[..i], kind)
    ensures pools[i].kind != kind ==> Holds(total, pools[..i + 1], kind) && Fits(pools[..i + 1], kind)
    ensures var l := pools[i].ledger;
            pools[i].kind == kind ==>
              && (Fits(pools[..i + 1], kind) <==>
                    CommittedBy(total) + CommittedBy(l) <= total.nominal + l.nominal <= U64_MAX)
              && forall e :: 0 <= e < 6 ==> Total(pools[..i + 1], kind, e) == Parts(total)[e] + Parts(l)[e]
  {
    hide Total;
    var l, before, after := pools[i].ledger, pools[..i], pools[..i + 1];
    forall e | 0 <= e < 6
      ensures Total(after, kind, e) == Total(before, kind, e) + (if pools[i].kind == kind then Parts(l)[e] else 0)
    {
      PartStep(pools, kind, i, e);
    }
    assert Parts(total)[0] == Total(before, kind, 0);
    assert Parts(total)[1] == Total(before, kind, 1) && Parts(total)[2] == Total(before, kind, 2);
    assert Parts(total)[3] == Total(before, kind, 3) && Parts(total)[4] == Total(before, kind, 4);
    assert Parts(total)[5] == Total(before, kind, 5);
  }

  /** Adds pool by pool, rebuilding the total each time. It fails exactly when some running total
      does not fit; otherwise every component is the exact sum over the pools of the kind, and
      over closed ledgers so is the idle capacity. */
  method TotalLedger(pools: seq<Pool>, kind: ResourceKind) returns (r: Result<Ledger>)
    ensures r.Ok? <==> forall k :: 0 <= k <= |pools| ==> Fits(pools[..k], kind)
    ensures r.Err? ==> r.code == CapacityInconsistent
    ensures r.Ok? ==> Holds(r.value, pools, kind)
    ensures AllClose(pools) ==> (r.Ok? <==> Total(pools, kind, 0) <= U64_MAX)
    ensures r.Ok? && AllClose(pools) ==> r.value.idle == Total(pools, kind, 6)
  {
    if AllClose(pools) {
      ClosedLedgersFit(pools, kind);
      ClosedLedgersAddUp(pools, kind);
    }
    assert |pools[..0]| == 0;
    var total := Ledger(0, 0, 0, 0, 0, 0, 0);
    assert Holds(total, pools[..0], kind);
    for i := 0 to |pools|
      invariant Holds(total, pools[..i], kind)
      invariant forall k :: 0 <= k <= i ==> Fits(pools[..k], kind)
    {
      hide Total, Committed, CommittedBy, Fits, AllClose;
      TotalStep(total, pools, kind, i);
      if pools[i].kind == kind {
        var sum := AddLedger(total, pools[i].ledger);
        if sum.Err? {
          assert !Fits(pools[..i + 1], kind);
          return sum;
        }
        total := sum.value;
      }
    }
    assert pools[..|pools|] == pools;
    return Ok(total);
  }
}
