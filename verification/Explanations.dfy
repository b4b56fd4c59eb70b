/** Explaining the placements an engine has stored (src/observatory.cpp). */
module Explanations {
  import opened Foundation
  import opened Capability
  import opened Model
  import opened Observatory
  import opened Durability
  import opened Stranding
  import opened Assessing

  /** Every placement of every reachable state is explained by the answer of the compatibility
      query for its selection alone: the capability set that explaining reuses never carries
      evidence of one cluster into the assessment of another. */
  lemma StoredPlacementsAreAssessedAfresh(bounds: Bounds, ops: seq<Op>, id: Id, snapshot: Snapshot, w: Option<WorkloadRecord>)
    requires Constructible(ops) && id in Run(Initial(bounds), ops).records.placements
    ensures var p := Run(Initial(bounds), ops).records.placements[id].record;
            AssessedInTurn(snapshot, w, [p.selected] + OtherSelections(p.candidates, p.selected), EMPTY_SET) ==
            match FindCluster(snapshot.clusters, p.selected)
            case None => []
            case Some(e) => [Assessed(snapshot, w, e)]
  {
    hide Run, PlacementRecord.Problem, AssessedInTurn, OtherSelections, Assessed, FindCluster;
    ReachableStatesAreInOrder(bounds, ops);
    var s := Run(Initial(bounds), ops);
    assert PlacementSound(s.records, id);
    ValidPlacementsAreAssessedAfresh(snapshot, w, s.records.placements[id].record);
  }
}
