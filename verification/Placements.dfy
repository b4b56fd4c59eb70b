/** Which placement of a workload is the latest (publish_placement and apply_durable_state in
    src/observatory.cpp). */
module Placements {
  import opened Foundation
  import opened Capability
  import opened Model
  import opened Observatory
  import opened Fencing
  import opened Registrations
  import Migration

  // ---------------------------------------------------------------------------------
  // One placement
  // ---------------------------------------------------------------------------------

  /** The stored placement was observed later than the given time, or at that time under a higher
      generation. */
  predicate Newer(stored: Entry<PlacementRecord>, observedAt: I64, generation: U64) {
    stored.stamp.observedAt > observedAt || (stored.stamp.observedAt == observedAt && stored.record.generation > generation)
  }

  /** The workload's latest placement is still stored. */
  predicate HasLatest(r: Records, workload: Id) {
    workload in r.latestPlacement && r.latestPlacement[workload] in r.placements
  }

  function LatestOf(r: Records, workload: Id): Entry<PlacementRecord>
    requires HasLatest(r, workload)
  {
    r.placements[r.latestPlacement[workload]]
  }

  /** A placement of new content that passed the gate, is valid and refers to known records. It is
      stored when its identifier is free or holds a lower generation, its sequence number is unused
      and there is room; `observedAt` is the time the record itself carries. */
  ghost predicate Storable(s: State, ctx: Context, r: PlacementRecord) {
    && Gate(s, ctx).Open? && PlacementProblem(s, ctx, r).None?
    && !Reused(s, ctx) && |s.records.placements| < s.bounds.placementHistory
    && (r.id in s.records.placements ==>
          s.records.placements[r.id].record != r && s.records.placements[r.id].record.generation < r.generation)
  }

  /** A stored placement becomes the workload's latest and is current, unless the one that is latest
      and still stored is newer: then it is history, stored as stale, and the index stays. */
  lemma PlacementSettles(s: State, ctx: Context, now: I64, r: PlacementRecord, observedAt: I64)
    requires Storable(s, ctx, r)
    ensures var (t, reply) := Publish(s, ctx, now, PublishedPlacement(r, observedAt));
            var history := HasLatest(s.records, r.workload) && Newer(LatestOf(s.records, r.workload), observedAt, r.generation);
            var prior := s.records;
            if history then
              && Gave(reply, Superseded)
              && t.records == prior.(placements := prior.placements[r.id := Entry(r, Stale, StampFor(ctx, now))])
            else
              && Gave(reply, Applied)
              && t.records == prior.(placements := prior.placements[r.id := Entry(r, Current, StampFor(ctx, now))],
                                   latestPlacement := prior.latestPlacement[r.workload := r.id])
  {
    hide PlacementProblem, StampFor, AdvanceAuthority, CountAccepted, CountRefusal, CountMilestone, Bumped, Choose;
  }

  /** The other answers, each exactly when: a repetition, a reused number, an outdated or conflicting
      identifier, a full table. They leave the placements and the index alone. */
  lemma OtherPlacementsSettle(s: State, ctx: Context, now: I64, r: PlacementRecord, observedAt: I64)
    requires Gate(s, ctx).Open? && PlacementProblem(s, ctx, r).None? && !Storable(s, ctx, r)
    ensures var (t, reply) := Publish(s, ctx, now, PublishedPlacement(r, observedAt));
            var known := r.id in s.records.placements;
            var same := known && s.records.placements[r.id].record == r;
            && t.records == s.records
            && (Gave(reply, Duplicate) <==> same)
            && (Gave(reply, Superseded) <==>
                  !same && !Reused(s, ctx) && known && s.records.placements[r.id].record.generation > r.generation)
            && (reply == Err(Conflict) <==>
                  !same && (Reused(s, ctx) || (known && s.records.placements[r.id].record.generation == r.generation)))
            && (reply == Err(BoundExceeded) <==>
                  !same && !Reused(s, ctx) && (known ==> s.records.placements[r.id].record.generation < r.generation))
  {
    hide PlacementProblem, StampFor, AdvanceAuthority, CountAccepted, CountRefusal, Choose, LatestIsNewer;
  }

  // ---------------------------------------------------------------------------------
  // What the index means
  // ---------------------------------------------------------------------------------

  /** The index names, for exactly the workloads that have a placement, a placement of theirs that
      none of theirs was observed after. */
  ghost predicate IndexIsNewest(r: Records) {
    && (forall w :: w in r.latestPlacement ==> HasLatest(r, w) && LatestOf(r, w).record.workload == w)
    && (forall id :: id in r.placements ==>
          && r.placements[id].record.workload in r.latestPlacement
          && HasLatest(r, r.placements[id].record.workload)
          && r.placements[id].stamp.observedAt <= LatestOf(r, r.placements[id].record.workload).stamp.observedAt)
  }

  /** No other placement of the workload was observed after the time. */
  ghost predicate NoneAfter(r: Records, workload: Id, id: Id, time: I64) {
    forall other :: other in r.placements && other != id && r.placements[other].record.workload == workload ==>
      r.placements[other].stamp.observedAt <= time
  }

  /** The index keeps its meaning when the placement is stored: its identifier is not the latest
      placement of another workload, and by the time it is stamped with it is at least as new as the
      others of its workload if the index names it afterwards, and no newer than the latest if not. */
  ghost predicate KeepsIndex(s: State, r: PlacementRecord, observedAt: I64, stampedAt: I64) {
    var prior := s.records;
    var history := HasLatest(prior, r.workload) && Newer(LatestOf(prior, r.workload), observedAt, r.generation);
    && (forall w :: w in prior.latestPlacement && prior.latestPlacement[w] == r.id ==> w == r.workload)
    && (if !history || prior.latestPlacement[r.workload] == r.id then NoneAfter(prior, r.workload, r.id, stampedAt)
        else stampedAt <= LatestOf(prior, r.workload).stamp.observedAt)
  }

  /** Exactly when a stored placement keeps the meaning of the index. */
  lemma IndexIsKeptExactly(s: State, ctx: Context, now: I64, r: PlacementRecord, observedAt: I64)
    requires Storable(s, ctx, r) && IndexIsNewest(s.records)
    ensures IndexIsNewest(Publish(s, ctx, now, PublishedPlacement(r, observedAt)).0.records) <==>
            KeepsIndex(s, r, observedAt, StampFor(ctx, now).observedAt)
  {
    PlacementSettles(s, ctx, now, r, observedAt);
    hide Publish, StampFor, Storable;
    var t := Publish(s, ctx, now, PublishedPlacement(r, observedAt)).0.records;
    var stamp := StampFor(ctx, now);
    assert t == Stored(s.records, r, observedAt, stamp);
    if KeepsIndex(s, r, observedAt, stamp.observedAt) {
      IndexStays(s, r, observedAt, stamp);
    }
    if IndexIsNewest(t) {
      IndexWasKept(s, r, observedAt, stamp);
    }
  }

  /** The records after a storable placement was stored. */
  function Stored(prior: Records, r: PlacementRecord, observedAt: I64, stamp: Stamp): Records {
    if HasLatest(prior, r.workload) && Newer(LatestOf(prior, r.workload), observedAt, r.generation)
    then prior.(placements := prior.placements[r.id := Entry(r, Stale, stamp)])
    else prior.(placements := prior.placements[r.id := Entry(r, Current, stamp)],
                latestPlacement := prior.latestPlacement[r.workload := r.id])
  }

  lemma IndexStays(s: State, r: PlacementRecord, observedAt: I64, stamp: Stamp)
    requires IndexIsNewest(s.records) && KeepsIndex(s, r, observedAt, stamp.observedAt)
    ensures IndexIsNewest(Stored(s.records, r, observedAt, stamp))
  {
    hide Newer;
    var prior, t := s.records, Stored(s.records, r, observedAt, stamp);
    forall w | w in t.latestPlacement ensures HasLatest(t, w) && LatestOf(t, w).record.workload == w {
      if w != r.workload {
        assert w in prior.latestPlacement && t.latestPlacement[w] == prior.latestPlacement[w] != r.id;
      }
    }
    forall id | id in t.placements
      ensures var w := t.placements[id].record.workload;
              w in t.latestPlacement && t.placements[id].stamp.observedAt <= LatestOf(t, w).stamp.observedAt
    {
      var w := t.placements[id].record.workload;
      if id != r.id {
        assert t.placements[id] == prior.placements[id] && w in prior.latestPlacement;
      }
    }
  }

  lemma IndexWasKept(s: State, r: PlacementRecord, observedAt: I64, stamp: Stamp)
    requires IndexIsNewest(s.records) && IndexIsNewest(Stored(s.records, r, observedAt, stamp))
    ensures KeepsIndex(s, r, observedAt, stamp.observedAt)
  {
    hide Newer;
    var prior, t := s.records, Stored(s.records, r, observedAt, stamp);
    var history := HasLatest(prior, r.workload) && Newer(LatestOf(prior, r.workload), observedAt, r.generation);
    assert r.id in t.placements && t.placements[r.id].record == r && t.placements[r.id].stamp == stamp;
    forall w | w in prior.latestPlacement && prior.latestPlacement[w] == r.id ensures w == r.workload {
      assert w in t.latestPlacement && LatestOf(t, w).record.workload == w;
    }
    if !history || prior.latestPlacement[r.workload] == r.id {
      assert t.latestPlacement[r.workload] == r.id;
      forall other | other in prior.placements && other != r.id && prior.placements[other].record.workload == r.workload
        ensures prior.placements[other].stamp.observedAt <= stamp.observedAt
      {
        assert t.placements[other] == prior.placements[other];
      }
    } else {
      assert LatestOf(t, r.workload) == LatestOf(prior, r.workload);
    }
  }

  // ---------------------------------------------------------------------------------
  // After a restore
  // ---------------------------------------------------------------------------------

  /** Among the first `n` placements of the order, this one is the latest of its workload: observed
      after the ones that follow it and not before the ones that precede it. */
  ghost predicate LastOfNewest(t: map<Id, Entry<PlacementRecord>>, order: seq<Id>, n: nat, k: nat)
    requires n <= |order| && k < n && forall i :: 0 <= i < |order| ==> order[i] in t
  {
    forall j :: 0 <= j < n && t[order[j]].record.workload == t[order[k]].record.workload ==>
      || t[order[j]].stamp.observedAt < t[order[k]].stamp.observedAt
      || (t[order[j]].stamp.observedAt == t[order[k]].stamp.observedAt && j <= k)
  }

  /** The identifier is that of the workload's latest placement among the first `n`. */
  ghost predicate Names(t: map<Id, Entry<PlacementRecord>>, order: seq<Id>, n: nat, workload: Id, id: Id)
    requires n <= |order| && forall i :: 0 <= i < |order| ==> order[i] in t
  {
    exists k: nat :: k < n && order[k] == id && t[order[k]].record.workload == workload && LastOfNewest(t, order, n, k)
  }

  ghost predicate Rebuilt(t: map<Id, Entry<PlacementRecord>>, order: seq<Id>, n: nat, latest: map<Id, Id>)
    requires n <= |order| && forall i :: 0 <= i < |order| ==> order[i] in t
  {
    && (forall w :: w in latest ==> Names(t, order, n, w, latest[w]))
    && (forall j :: 0 <= j < n ==> t[order[j]].record.workload in latest)
  }

  lemma StillNamed(t: map<Id, Entry<PlacementRecord>>, order: seq<Id>, n: nat, w: Id, id: Id)
    requires 0 < n <= |order| && (forall i :: 0 <= i < |order| ==> order[i] in t) && Names(t, order, n - 1, w, id)
    ensures id in t
    ensures var last := t[order[n - 1]];
            if last.record.workload == w && t[id].stamp.observedAt <= last.stamp.observedAt
            then Names(t, order, n, w, order[n - 1]) else Names(t, order, n, w, id)
  {
    var k: nat :| k < n - 1 && order[k] == id && t[order[k]].record.workload == w && LastOfNewest(t, order, n - 1, k);
    if t[order[n - 1]].record.workload == w && t[id].stamp.observedAt <= t[order[n - 1]].stamp.observedAt {
      assert LastOfNewest(t, order, n, n - 1);
    } else {
      assert LastOfNewest(t, order, n, k);
    }
  }

  lemma FirstNamed(t: map<Id, Entry<PlacementRecord>>, order: seq<Id>, n: nat)
    requires 0 < n <= |order| && forall i :: 0 <= i < |order| ==> order[i] in t
    requires forall j :: 0 <= j < n - 1 ==> t[order[j]].record.workload != t[order[n - 1]].record.workload
    ensures Names(t, order, n, t[order[n - 1]].record.workload, order[n - 1])
  {
    assert LastOfNewest(t, order, n, n - 1);
  }

  lemma {:induction false} RebuiltPrefix(t: map<Id, Entry<PlacementRecord>>, order: seq<Id>, n: nat)
    requires n <= |order| && forall i :: 0 <= i < |order| ==> order[i] in t
    ensures Rebuilt(t, order, n, RebuildLatest(t, order[..n]))
  {
    hide Names;
    if n > 0 {
      RebuiltPrefix(t, order, n - 1);
      assert order[..n][..n - 1] == order[..n - 1];
      var before, after, id := RebuildLatest(t, order[..n - 1]), RebuildLatest(t, order[..n]), order[n - 1];
      var workload := t[id].record.workload;
      if workload in before {
        StillNamed(t, order, n, workload, before[workload]);
      } else {
        FirstNamed(t, order, n);
      }
      assert Names(t, order, n, workload, after[workload]);
      assert forall w :: w in before && w != workload ==> w in after && after[w] == before[w];
      assert forall w :: w in after && w != workload ==> w in before;
      hide RebuildLatest;
      forall w | w in after && w != workload ensures Names(t, order, n, w, after[w]) {
        StillNamed(t, order, n, w, before[w]);
      }
    }
  }

  /** After any file is loaded the index means what it should: each workload's latest placement is
      one that none of its placements was observed after, and of several observed at that time the
      last in the file. */
  lemma LoadedIndexIsNewest(s: State, d: DurableState, order: FileOrder)
    requires OrderOf(order, d.records)
    ensures var r := Apply(s, d, order).records;
            && IndexIsNewest(r)
            && forall w :: w in r.latestPlacement ==>
                 Names(r.placements, order.placements, |order.placements|, w, r.latestPlacement[w])
  {
    var t, o := History(d.records.placements), order.placements;
    assert o[..|o|] == o;
    RebuiltPrefix(t, o, |o|);
    var r := Apply(s, d, order).records;
    assert r.placements == t && r.latestPlacement == RebuildLatest(t, o);
    hide Apply, RebuildLatest, History;
    RebuiltIsNewest(r, o);
  }

  lemma RebuiltIsNewest(r: Records, order: seq<Id>)
    requires Lists(order, r.placements) && Rebuilt(r.placements, order, |order|, r.latestPlacement)
    ensures IndexIsNewest(r)
  {
    forall w | w in r.latestPlacement ensures HasLatest(r, w) && LatestOf(r, w).record.workload == w {
      assert Names(r.placements, order, |order|, w, r.latestPlacement[w]);
    }
    forall id | id in r.placements
      ensures var w := r.placements[id].record.workload;
              w in r.latestPlacement && HasLatest(r, w)
              && r.placements[id].stamp.observedAt <= LatestOf(r, w).stamp.observedAt
    {
      var j :| 0 <= j < |order| && order[j] == id;
      var w := r.placements[order[j]].record.workload;
      assert Names(r.placements, order, |order|, w, r.latestPlacement[w]);
      var k: nat :| k < |order| && order[k] == r.latestPlacement[w] && r.placements[order[k]].record.workload == w
                    && LastOfNewest(r.placements, order, |order|, k);
    }
  }

  // ---------------------------------------------------------------------------------
  // Over runs
  // ---------------------------------------------------------------------------------

  ghost predicate SameIndex(a: Records, b: Records) {
    a.placements == b.placements && a.latestPlacement == b.latestPlacement
  }

  lemma RegistrationsLeavePlacements(s: State, ctx: Context, now: I64, p: Publication)
    requires p.Structural() && VerdictOn(s, ctx, now, p).Store?
    ensures SameIndex(VerdictOn(s, ctx, now, p).records, s.records)
  {
    hide SiteProblem, DomainProblem, WorkloadProblem, ReplayedSequence, ClusterChoice, Choose, StampFor,
         FederationRecord.Problem, AcceleratorClassRecord.Problem, RuntimeRecord.Problem, BackendRecord.Problem,
         PolicyRecord.Problem, ArtifactRecord.Problem, WorkloadClassRecord.Problem, ClusterTable, NewIncarnation;
  }

  lemma EvidenceLeavesPlacements(s: State, ctx: Context, now: I64, p: Publication)
    requires !p.Structural() && !p.PublishedPlacement? && VerdictOn(s, ctx, now, p).Store?
    ensures SameIndex(VerdictOn(s, ctx, now, p).records, s.records)
  {
    hide ReplayedSequence, MigrationProblem, EvidenceProblem, PortabilityRecord.Problem, SameAssessment, DemoteMigration,
         FirstPoolProblem, SamePools, SortPools, StampPools, Sum, KeysValid, HasDuplicates, StampFor, Migration.Advance,
         Migration.IsAcceptableEvent, Migration.IsTerminal, Migration.Last;
  }

  lemma SameIndexAsBefore(r: Records)
    ensures SameIndex(r, r)
  {
  }

  lemma OtherPublicationsLeavePlacements(s: State, ctx: Context, now: I64, p: Publication)
    requires p.Constructible() && !p.PublishedPlacement?
    ensures SameIndex(Publish(s, ctx, now, p).0.records, s.records)
  {
    hide VerdictOn, OnlyStamped, SameIndex, AdvanceAuthority, CountAccepted, CountRefusal, CountMilestone, Bumped;
    PublicationStamps(s, ctx, now, p);
    SameIndexAsBefore(s.records);
    if VerdictOn(s, ctx, now, p).Store? {
      if p.Structural() {
        RegistrationsLeavePlacements(s, ctx, now, p);
      } else {
        EvidenceLeavesPlacements(s, ctx, now, p);
      }
    }
  }

  lemma RefusedPlacementsLeaveIndex(s: State, ctx: Context, now: I64, r: PlacementRecord, observedAt: I64)
    requires !Storable(s, ctx, r)
    ensures SameIndex(Publish(s, ctx, now, PublishedPlacement(r, observedAt)).0.records, s.records)
  {
    if Gate(s, ctx).Open? && PlacementProblem(s, ctx, r).None? {
      OtherPlacementsSettle(s, ctx, now, r, observedAt);
    } else {
      hide PlacementProblem, StampFor, AdvanceAuthority, CountAccepted, CountRefusal, LatestIsNewer;
    }
  }

  lemma SilentStepsLeaveIndex(s: State, op: Op)
    requires !op.Ingest? && !op.Restore?
    ensures SameIndex(Step(s, op).records, s.records)
  {
    hide Demote, InvalidateClusters, Publish, Apply, Restores, RegisterPublisher;
    if op.Register? {
      RegistrationKeepsRecords(s, op.ctx, op.now);
    }
  }

  /** The event is no placement that would be stored and mislay the index. */
  ghost predicate Keeps(s: State, e: Event) {
    e.Operation? && e.op.Ingest? && e.op.publication.PublishedPlacement?
    && Storable(s, e.op.ctx, e.op.publication.placement) ==>
      KeepsIndex(s, e.op.publication.placement, e.op.publication.placedAt, StampFor(e.op.ctx, e.op.now).observedAt)
  }

  /** Every other event keeps the meaning of the index; such a placement loses it. */
  lemma IndexStep(s: State, e: Event)
    requires IndexIsNewest(s.records) && (e.Operation? ==> e.op.Constructible())
    ensures IndexIsNewest(Happen(s, e).records) <==> Keeps(s, e)
  {
    hide Publish, Apply, Loadable, IndexIsNewest, Storable, KeepsIndex, RegisterPublisher, FencePublisher,
         InvalidateDynamicEvidence, StampFor;
    match e
    case LoadFile(d, order) =>
      if Loadable(d, s.bounds) && OrderOf(order, d.records) {
        LoadedIndexIsNewest(s, d, order);
      }
    case Operation(op) =>
      match op {
        case Ingest(ctx, now, p) =>
          if p.PublishedPlacement? {
            if Storable(s, ctx, p.placement) {
              IndexIsKeptExactly(s, ctx, now, p.placement, p.placedAt);
            } else {
              RefusedPlacementsLeaveIndex(s, ctx, now, p.placement, p.placedAt);
              SameIndexSameMeaning(s.records, Step(s, op).records);
            }
          } else {
            OtherPublicationsLeavePlacements(s, ctx, now, p);
            SameIndexSameMeaning(s.records, Step(s, op).records);
          }
        case Restore(order) =>
          if Restores(s, order) {
            LoadedIndexIsNewest(s, Saved(s), order);
          }
        case _ =>
          SilentStepsLeaveIndex(s, op);
          SameIndexSameMeaning(s.records, Step(s, op).records);
      }
  }

  lemma SameIndexSameMeaning(a: Records, b: Records)
    requires SameIndex(b, a) && IndexIsNewest(a)
    ensures IndexIsNewest(b)
  {
  }

  /** Over every run, restarts and files included, in which no such placement is stored, each
      workload's latest placement is one that none of its placements was observed after. */
  lemma {:induction false} LatestIsNewestOverRuns(bounds: Bounds, events: seq<Event>)
    requires Feasible(events)
    requires forall i :: 0 <= i < |events| ==> Keeps(RunWithFiles(Initial(bounds), events[..i]), events[i])
    ensures IndexIsNewest(RunWithFiles(Initial(bounds), events).records)
  {
    hide Happen, Keeps;
    if events != [] {
      hide IndexIsNewest;
      var n := |events| - 1;
      var before := events[..n];
      forall i | 0 <= i < n ensures Keeps(RunWithFiles(Initial(bounds), before[..i]), before[i]) {
        assert before[..i] == events[..i];
      }
      LatestIsNewestOverRuns(bounds, before);
      IndexStep(RunWithFiles(Initial(bounds), before), events[n]);
    }
  }
}
