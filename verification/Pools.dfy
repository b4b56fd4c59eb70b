/** Capacity pools in identifier order, and when a repeated capacity publication is
    recognised as the one already stored (src/observatory.cpp). */
module Pools {
  import opened Foundation
  import opened Capability
  import opened Capacity
  import opened Model
  import opened Observatory
  import opened Durability
  import opened Generations

  // ---------------------------------------------------------------------------------
  // Sorting
  // ---------------------------------------------------------------------------------

  predicate InIdOrder(pools: seq<Pool>) {
    forall i, j :: 0 <= i < j < |pools| ==> !TextLess(pools[j].id, pools[i].id)
  }

  lemma {:induction false} InsertedPools(sorted: seq<Pool>, pool: Pool)
    requires InIdOrder(sorted)
    ensures InIdOrder(InsertPool(sorted, pool))
    ensures multiset(InsertPool(sorted, pool)) == multiset(sorted) + multiset{pool}
    ensures Sum(Nominals(InsertPool(sorted, pool))) == Sum(Nominals(sorted)) + pool.ledger.nominal
  {
    hide TextLess, Sum;
    if sorted == [] || TextLess(pool.id, sorted[0].id) {
      forall j | 0 <= j < |sorted| ensures !TextLess(sorted[j].id, pool.id) {
        TextOrder(sorted[j].id, pool.id, sorted[0].id);
        TextOrder(pool.id, pool.id, pool.id);
        TextOrder(sorted[0].id, sorted[j].id, sorted[0].id);
      }
      SumOfFirst(pool, sorted);
    } else {
      var rest := InsertPool(sorted[1..], pool);
      InsertedPools(sorted[1..], pool);
      assert sorted == [sorted[0]] + sorted[1..];
      forall j | 0 <= j < |rest| ensures !TextLess(rest[j].id, sorted[0].id) {
        assert rest[j] in multiset(rest);
        assert rest[j] == pool || rest[j] in sorted[1..];
      }
      SumOfFirst(sorted[0], sorted[1..]);
      SumOfFirst(sorted[0], rest);
    }
  }

  lemma {:induction false} SumOfFirst(pool: Pool, rest: seq<Pool>)
    ensures Sum(Nominals([pool] + rest)) == pool.ledger.nominal + Sum(Nominals(rest))
  {
    if rest == [] {
      assert [pool] + rest == [pool];
      assert Nominals([pool])[..0] == [];
    } else {
      var n := |rest| - 1;
      SumOfFirst(pool, rest[..n]);
      assert Nominals([pool] + rest)[..n + 1] == Nominals([pool] + rest[..n]);
      assert Nominals(rest)[..n] == Nominals(rest[..n]);
    }
  }

  lemma NothingToOrder()
    ensures InIdOrder([])
  {
  }

  /** Sorting orders the pools by identifier, loses and invents none, and keeps the total. */
  lemma {:induction false} SortedPools(pools: seq<Pool>)
    ensures InIdOrder(SortPools(pools))
    ensures multiset(SortPools(pools)) == multiset(pools)
    ensures |SortPools(pools)| == |pools|
    ensures Sum(Nominals(SortPools(pools))) == Sum(Nominals(pools))
  {
    hide InIdOrder, InsertPool;
    if pools == [] {
      NothingToOrder();
    }
    if pools != [] {
      var n := |pools| - 1;
      SortedPools(pools[..n]);
      InsertedPools(SortPools(pools[..n]), pools[n]);
      assert pools == pools[..n] + [pools[n]];
      assert Nominals(pools)[..n] == Nominals(pools[..n]);
    }
    assert |multiset(SortPools(pools))| == |multiset(pools)|;
  }

  lemma {:induction false} InsertLargest(sorted: seq<Pool>, pool: Pool)
    requires forall i :: 0 <= i < |sorted| ==> !TextLess(pool.id, sorted[i].id)
    ensures InsertPool(sorted, pool) == sorted + [pool]
  {
    hide TextLess;
    if sorted != [] {
      InsertLargest(sorted[1..], pool);
    }
  }

  lemma {:induction false} SortingSorted(pools: seq<Pool>)
    requires InIdOrder(pools)
    ensures SortPools(pools) == pools
  {
    hide TextLess;
    if pools != [] {
      var n := |pools| - 1;
      SortingSorted(pools[..n]);
      InsertLargest(pools[..n], pools[n]);
    }
  }

  lemma {:induction false} InsertingStamped(sorted: seq<Pool>, pool: Pool, ctx: Context, g: U64)
    ensures InsertPool(StampPools(sorted, ctx, g), StampPool(pool, ctx, g)) == StampPools(InsertPool(sorted, pool), ctx, g)
  {
    hide TextLess;
    if sorted != [] && !TextLess(pool.id, sorted[0].id) {
      InsertingStamped(sorted[1..], pool, ctx, g);
      assert StampPools(sorted, ctx, g)[1..] == StampPools(sorted[1..], ctx, g);
    }
  }

  /** Stamping looks at no identifier, so it may be done before or after sorting. */
  lemma {:induction false} SortingStamped(pools: seq<Pool>, ctx: Context, g: U64)
    ensures SortPools(StampPools(pools, ctx, g)) == StampPools(SortPools(pools), ctx, g)
  {
    if pools != [] {
      var n := |pools| - 1;
      SortingStamped(pools[..n], ctx, g);
      assert StampPools(pools, ctx, g)[..n] == StampPools(pools[..n], ctx, g);
      InsertingStamped(SortPools(pools[..n]), pools[n], ctx, g);
    }
  }

  // ---------------------------------------------------------------------------------
  // Repeated identifiers
  // ---------------------------------------------------------------------------------

  lemma {:induction false} OccursTwice(pools: seq<Pool>, x: Pool)
    requires multiset(pools)[x] >= 2
    ensures HasDuplicates(PoolIds(pools))
  {
    var n := |pools| - 1;
    assert pools == pools[..n] + [pools[n]];
    if pools[n] == x {
      assert x in multiset(pools[..n]);
      var i :| 0 <= i < n && pools[i] == x;
      assert PoolIds(pools)[i] == PoolIds(pools)[n];
    } else {
      OccursTwice(pools[..n], x);
      var ids := PoolIds(pools[..n]);
      var i, j :| 0 <= i < j < |ids| && ids[i] == ids[j];
      assert PoolIds(pools)[i] == PoolIds(pools)[j];
    }
  }

  lemma DuplicatesSurvive(a: seq<Pool>, b: seq<Pool>)
    requires multiset(a) == multiset(b) && HasDuplicates(PoolIds(a))
    ensures HasDuplicates(PoolIds(b))
  {
    var ids := PoolIds(a);
    var i, j :| 0 <= i < j < |ids| && ids[i] == ids[j];
    if a[i] == a[j] {
      assert a == a[..j] + a[j..] && a[i] in a[..j] && a[j] in a[j..];
      assert multiset(a) == multiset(a[..j]) + multiset(a[j..]);
      OccursTwice(b, a[i]);
    } else {
      assert a[i] in multiset(b) && a[j] in multiset(b);
      var k :| 0 <= k < |b| && b[k] == a[i];
      var l :| 0 <= l < |b| && b[l] == a[j];
      assert PoolIds(b)[k] == PoolIds(b)[l];
    }
  }

  predicate NeighboursRepeat(sorted: seq<Pool>) {
    exists i :: 0 <= i < |sorted| - 1 && sorted[i].id == sorted[i + 1].id
  }

  /** Sorting brings repeated identifiers next to each other. */
  lemma SortingFindsDuplicates(pools: seq<Pool>)
    ensures HasDuplicates(PoolIds(pools)) <==> NeighboursRepeat(SortPools(pools))
  {
    hide TextLess, SortPools, Sum;
    SortedPools(pools);
    var sorted := SortPools(pools);
    if HasDuplicates(PoolIds(pools)) {
      DuplicatesSurvive(pools, sorted);
      var ids := PoolIds(sorted);
      var i, j :| 0 <= i < j < |ids| && ids[i] == ids[j];
      TextOrder(sorted[i].id, sorted[i + 1].id, sorted[j].id);
      TextOrder(sorted[i + 1].id, sorted[i].id, sorted[i].id);
      assert sorted[i].id == sorted[i + 1].id;
    }
    if NeighboursRepeat(sorted) {
      var i :| 0 <= i < |sorted| - 1 && sorted[i].id == sorted[i + 1].id;
      assert PoolIds(sorted)[i] == PoolIds(sorted)[i + 1];
      DuplicatesSurvive(sorted, pools);
    }
  }

  // ---------------------------------------------------------------------------------
  // Repeating a capacity publication
  // ---------------------------------------------------------------------------------

  /** The pools already say about themselves what the publication says about them. */
  predicate SelfStamped(pools: seq<Pool>, ctx: Context) {
    forall i :: 0 <= i < |pools| ==>
      pools[i].precision == ctx.precision && pools[i].evidenceClass == ctx.evidenceClass && pools[i].generation != 0
  }

  /** What is stored by an accepted publication matches a repetition of it exactly when the
      pools were self-stamped. */
  lemma RepetitionIsRecognised(pools: seq<Pool>, ctx: Context, g: U64)
    requires g != 0
    ensures SamePools(pools, SortPools(StampPools(pools, ctx, g))) <==> SelfStamped(pools, ctx)
  {
    hide TextLess, SortPools, Sum;
    var sorted := SortPools(pools);
    SortedPools(pools);
    SortingStamped(pools, ctx, g);
    SortedPools(StampPools(pools, ctx, g));
    SortingSorted(SortPools(StampPools(pools, ctx, g)));
    assert Nominals(StampPools(pools, ctx, g)) == Nominals(pools);
    if SelfStamped(pools, ctx) {
      forall i | 0 <= i < |sorted| ensures StampPool(sorted[i], ctx, g) == sorted[i] {
        assert sorted[i] in multiset(sorted);
        assert sorted[i] in pools;
      }
      assert StampPools(sorted, ctx, g) == sorted;
    }
    if sorted == StampPools(sorted, ctx, g) {
      forall i | 0 <= i < |pools|
        ensures pools[i].precision == ctx.precision && pools[i].evidenceClass == ctx.evidenceClass && pools[i].generation != 0
      {
        assert pools[i] in multiset(pools);
        assert pools[i] in sorted;
        var j :| 0 <= j < |sorted| && sorted[j] == pools[i];
        assert StampPool(sorted[j], ctx, g) == sorted[j];
      }
    }
  }

  /** Publishing the same capacity under the same generation again, once accepted, is answered
      as a duplicate exactly when its pools carry the publication's own precision and evidence
      class and a generation; otherwise it is refused as a conflict. */
  lemma RepeatedCapacityPublication(
    s: State, ctx: Context, now: I64, id: Id, target: U64, g: U64, pools: seq<Pool>, again: Context, time: I64)
    requires pools != []
    requires Publish(s, ctx, now, PublishedCapacity(id, target, g, pools)).1.Ok?
    requires Publish(s, ctx, now, PublishedCapacity(id, target, g, pools)).1.value.disposition.Applied?
    requires Gate(Publish(s, ctx, now, PublishedCapacity(id, target, g, pools)).0, again).Open?
    requires FederationProblem(Publish(s, ctx, now, PublishedCapacity(id, target, g, pools)).0, again).None?
    ensures var t := Publish(s, ctx, now, PublishedCapacity(id, target, g, pools)).0;
            var reply := Publish(t, again, time, PublishedCapacity(id, target, g, pools)).1;
            if SelfStamped(pools, ctx) then reply.Ok? && reply.value.disposition.Duplicate?
            else reply == Err(Conflict)
  {
    hide TextLess, SortPools, Sum, Gate, FederationProblem, FirstPoolProblem, SamePools, StampPools, HasDuplicates, SelfStamped;
    var p := PublishedCapacity(id, target, g, pools);
    var t := Publish(s, ctx, now, p).0;
    AcceptedPools(s, ctx, now, id, target, g, pools);
    SameProblems(s, t, pools);
    RepetitionIsRecognised(pools, ctx, g);
    StampedPoolsExist(pools, ctx, g);
  }

  lemma StampedPoolsExist(pools: seq<Pool>, ctx: Context, g: U64)
    requires pools != []
    ensures SortPools(StampPools(pools, ctx, g)) != []
  {
    SortedPools(StampPools(pools, ctx, g));
  }

  lemma {:induction false} SameProblems(s: State, t: State, pools: seq<Pool>)
    requires t.records.acceleratorClasses == s.records.acceleratorClasses
    ensures FirstPoolProblem(t, pools) == FirstPoolProblem(s, pools)
  {
    hide Ledger.Closes;
    if pools != [] {
      SameProblems(s, t, pools[..|pools| - 1]);
    }
  }

  lemma AcceptedPools(s: State, ctx: Context, now: I64, id: Id, target: U64, g: U64, pools: seq<Pool>)
    requires Publish(s, ctx, now, PublishedCapacity(id, target, g, pools)).1.Ok?
    requires Publish(s, ctx, now, PublishedCapacity(id, target, g, pools)).1.value.disposition.Applied?
    ensures var t := Publish(s, ctx, now, PublishedCapacity(id, target, g, pools)).0;
            && t.records.acceleratorClasses == s.records.acceleratorClasses
            && id in t.records.clusters && t.records.clusters[id].currentness.Current?
            && t.records.clusters[id].record.capacityGeneration == g != 0
            && (target != 0 ==> t.records.clusters[id].record.generation == target)
            && t.records.clusters[id].record.pools == SortPools(StampPools(pools, ctx, g))
            && |pools| <= MAX_POOLS_PER_CLUSTER && FirstPoolProblem(s, pools) == None
            && !HasDuplicates(PoolIds(pools)) && Sum(Nominals(pools)) <= U64_MAX
  {
    hide SortPools, Sum, Gate, FederationProblem, FirstPoolProblem, SamePools, StampPools, HasDuplicates;
  }

  // ---------------------------------------------------------------------------------
  // A capacity generation is spent
  // ---------------------------------------------------------------------------------

  lemma LaterPools(t: State, ctx: Context, now: I64, id: Id, target: U64, g: U64, stored: seq<Pool>, other: seq<Pool>)
    requires id in t.records.clusters && g <= t.records.clusters[id].record.capacityGeneration
    requires g == t.records.clusters[id].record.capacityGeneration ==>
               t.records.clusters[id].record.pools == stored && stored != []
    ensures var reply := Publish(t, ctx, now, PublishedCapacity(id, target, g, other)).1;
            reply.Ok? ==> reply.value.disposition.Duplicate? && SamePools(other, stored)
  {
    hide SortPools, Sum, Gate, FederationProblem, FirstPoolProblem, SamePools, StampPools, HasDuplicates;
  }

  /** After an accepted capacity publication its generation is spent: until the cluster's pools are
      cleared, by whatever run, a publication under it is refused unless it publishes, in any order,
      exactly the pools as they were stored. It is never applied. */
  lemma CapacityGenerationIsSpent(
    s: State, ctx: Context, now: I64, id: Id, target: U64, g: U64, pools: seq<Pool>, ops: seq<Op>,
    later: Context, time: I64, aim: U64, other: seq<Pool>)
    requires InOrder(s.records, s.bounds) && pools != []
    requires Publish(s, ctx, now, PublishedCapacity(id, target, g, pools)).1.Ok?
    requires Publish(s, ctx, now, PublishedCapacity(id, target, g, pools)).1.value.disposition.Applied?
    requires Constructible(ops) && forall i :: 0 <= i < |ops| ==> !Clears(ops[i], id)
    ensures var t := Run(Publish(s, ctx, now, PublishedCapacity(id, target, g, pools)).0, ops);
            var reply := Publish(t, later, time, PublishedCapacity(id, aim, g, other)).1;
            reply.Ok? ==> reply.value.disposition.Duplicate? && multiset(other) == multiset(StampPools(pools, ctx, g))
  {
    hide InOrder, Run, Publish, Gate, SortPools, StampPools, Grows, FirstPoolProblem, HasDuplicates, Sum, InIdOrder;
    var p := PublishedCapacity(id, target, g, pools);
    var t, stored := Publish(s, ctx, now, p).0, SortPools(StampPools(pools, ctx, g));
    AcceptedPools(s, ctx, now, id, target, g, pools);
    StampedPoolsExist(pools, ctx, g);
    PublicationKeepsOrder(s, ctx, now, p);
    PublishKeepsBounds(s, ctx, now, p);
    CapacityFollowsOverRuns(t, ops, id);
    LaterPools(Run(t, ops), later, time, id, aim, g, stored, other);
    if SamePools(other, stored) {
      SortedPools(other);
      SortedPools(stored);
      SortedPools(StampPools(pools, ctx, g));
    }
  }
}
