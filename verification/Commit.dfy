/** What committing a plan does to the store. */
module Commit {
  import opened Domain
  import opened StateMachine
  import opened Placement
  import opened Capacity

  /** Commits in order until the first rejection. */
  function ApplyAll(s: Store, plan: seq<Allocation>): (Store, Result<()>) {
    if |plan| == 0 then (s, Ok(())) else
    var (t, r) := ApplyAll(s, plan[..|plan| - 1]);
    if r.Err? then (t, r) else
    match Apply(t, UpsertAlloc(plan[|plan| - 1]))
    case Ok(u) => (u, Ok(()))
    case Err(e) => (t, Err(e))
  }

  lemma {:induction false} ApplyAllStops(s: Store, plan: seq<Allocation>, k: nat)
    requires k <= |plan| && ApplyAll(s, plan[..k]).1.Err?
    ensures ApplyAll(s, plan) == ApplyAll(s, plan[..k])
  {
    if k == |plan| {
      assert plan[..k] == plan;
    } else {
      assert plan[..|plan| - 1][..k] == plan[..k];
      ApplyAllStops(s, plan[..|plan| - 1], k);
    }
  }

  /** The store with a whole plan in it. */
  function Committed(s: Store, plan: seq<Allocation>): Store {
    s.(allocs := Stored(s.allocs, plan))
  }

  lemma {:induction false} ValidPlanCommits(s: Store, plan: seq<Allocation>)
    requires forall k | 0 <= k < |plan| :: ValidAlloc(plan[k])
    ensures ApplyAll(s, plan) == (Committed(s, plan), Ok(()))
  {
    if |plan| == 0 {
    } else {
      ValidPlanCommits(s, plan[..|plan| - 1]);
    }
  }

  /** A plan fails exactly when one of its allocations is missing an id or a link; what comes before the
      first of those stays committed, and nothing from it on is. */
  lemma {:induction false} FailsAtFirst(s: Store, plan: seq<Allocation>)
    ensures ApplyAll(s, plan).1.Err? <==> exists k | 0 <= k < |plan| :: !ValidAlloc(plan[k])
    ensures forall k | 0 <= k < |plan| && !ValidAlloc(plan[k]) && (forall i | 0 <= i < k :: ValidAlloc(plan[i])) ::
              ApplyAll(s, plan) == (Committed(s, plan[..k]), Err(Validation))
  {
    if |plan| == 0 {
    } else {
      var n := |plan| - 1;
      FailsAtFirst(s, plan[..n]);
      assert forall i | 0 <= i < n :: plan[..n][i] == plan[i];
      if forall i | 0 <= i < n :: ValidAlloc(plan[i]) { ValidPlanCommits(s, plan[..n]); }
      forall k | 0 <= k < n ensures plan[..n][..k] == plan[..k] { }
    }
  }

  lemma {:induction false} StoredKept(s: Store, plan: seq<Allocation>)
    requires Kept(s) && forall k | 0 <= k < |plan| :: ValidAlloc(plan[k])
    ensures Kept(Committed(s, plan))
  {
    if |plan| == 0 {
    } else {
      var n := |plan| - 1;
      StoredKept(s, plan[..n]);
      OfferKept(Committed(s, plan[..n]), UpsertAlloc(plan[n]));
    }
  }

  /** After the commit: nodes the plan touched are within capacity, no other node's usage grew. */
  ghost predicate WithinCapacity(before: Store, plan: seq<Allocation>, after: Store) {
    forall nodeId ::
      if Touches(plan, nodeId)
      then nodeId in after.nodes && Fits(after.nodes[nodeId].resources, Usage(after.allocs, nodeId))
      else Fits(Usage(before.allocs, nodeId), Usage(after.allocs, nodeId))
  }

  lemma StoredFits(s: Store, plan: seq<Allocation>, nodeId: string)
    requires NoNegativeReservation(s.allocs) && NonNegativePlan(plan) && FitsOn(s, plan, nodeId)
    ensures var after := Stored(s.allocs, plan);
            if Touches(plan, nodeId)
            then nodeId in s.nodes && Fits(s.nodes[nodeId].resources, Usage(after, nodeId))
            else Fits(Usage(s.allocs, nodeId), Usage(after, nodeId))
  {
    StoredUsage(s.allocs, plan, nodeId);
    if !Touches(plan, nodeId) { PlanUseUntouched(plan, nodeId); }
  }

  /** Every plan made from a well-kept store commits in full and keeps the store well kept; when no
      stored reservation is negative it is also safe, even where it overwrites earlier allocations
      of the same evaluation that may sit on other nodes. */
  lemma PlanCommits(e: Evaluation, s: Store, order: seq<string>)
    requires Kept(s) && Lists(order, s.nodes)
    ensures var plan := Plan(e, s, order);
            var t := Committed(s, plan);
            && ApplyAll(s, plan) == (t, Ok(()))
            && Kept(t)
            && (NoNegativeReservation(s.allocs) ==> NoNegativeReservation(t.allocs) && WithinCapacity(s, plan, t))
  {
    var plan := Plan(e, s, order);
    PlanFits(e, s, order);
    assert forall k | 0 <= k < |plan| :: ValidAlloc(plan[k]) && NonNegative(plan[k].resources) by {
      forall k | 0 <= k < |plan| ensures ValidAlloc(plan[k]) && NonNegative(plan[k].resources) {
        assert WellMade(plan[k], e, k);
      }
    }
    ValidPlanCommits(s, plan);
    StoredKept(s, plan);
    if NoNegativeReservation(s.allocs) {
      StoredNonNegative(s.allocs, plan);
      forall nodeId
        ensures if Touches(plan, nodeId)
                then nodeId in s.nodes && Fits(s.nodes[nodeId].resources, Usage(Committed(s, plan).allocs, nodeId))
                else Fits(Usage(s.allocs, nodeId), Usage(Committed(s, plan).allocs, nodeId))
      {
        StoredFits(s, plan, nodeId);
      }
    }
  }
}
