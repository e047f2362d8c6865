/** The scheduler's loops: planning one evaluation, committing the plan, draining the queue. */
module Scheduler {
  import opened Domain
  import opened StateMachine
  import opened Finite
  import opened Placement
  import opened Capacity
  import opened PlanLaws
  import opened Commit

  // ---- Planning -------------------------------------------------------------------------------

  lemma UsageOfNone(allocs: map<string, Allocation>, nodeId: string)
    requires |allocs| == 0
    ensures Usage(allocs, nodeId) == ZERO
  { }

  lemma ShrinksBy<K, V>(m: map<K, V>, k: K)
    requires k in m
    ensures |m - {k}| == |m| - 1
  {
    assert (m - {k}).Keys == m.Keys - {k};
  }

  /** Advertised capacity minus every live reservation, subtracted in the table's arbitrary order. */
  method FreeCapacity(node: Node, state: StateStore) returns (free: Resources)
    ensures free == Free(node, state.allocs)
  {
    hide Usage;
    free := node.resources;
    var rest := state.allocs;
    while |rest| > 0
      invariant Minus(free, Usage(rest, node.id)) == Free(node, state.allocs)
      decreases |rest|
    {
      assert rest.Keys != {};
      var k :| k in rest.Keys;
      UsageRemove(rest, k, node.id);
      ShrinksBy(rest, k);
      if rest[k].nodeId == node.id && IsLive(rest[k]) {
        free := Minus(free, rest[k].resources);
      }
      rest := rest - {k};
    }
    UsageOfNone(rest, node.id);
  }

  /** All nodes, in the table's arbitrary order. */
  method ListNodes(state: StateStore) returns (nodes: seq<Node>, ghost order: seq<string>)
    ensures Lists(order, state.nodes)
    ensures |nodes| == |order| && forall i | 0 <= i < |order| :: nodes[i] == state.nodes[order[i]]
  {
    nodes, order := [], [];
    var todo := state.nodes.Keys;
    while todo != {}
      invariant todo <= state.nodes.Keys
      invariant forall k | k in state.nodes :: k in todo <==> k !in order
      invariant NoRepeats(order)
      invariant |nodes| == |order|
      invariant forall i | 0 <= i < |order| :: order[i] in state.nodes && nodes[i] == state.nodes[order[i]]
      decreases |todo|
    {
      var k :| k in todo;
      nodes, order, todo := nodes + [state.nodes[k]], order + [k], todo - {k};
    }
  }

  /** The eligible nodes with their free capacity. */
  method EligibleSlots(state: StateStore) returns (slots: seq<Slot>, ghost order: seq<string>)
    ensures Lists(order, state.nodes)
    ensures slots == StartSlots(state.View(), order)
  {
    var nodes;
    nodes, order := ListNodes(state);
    slots := [];
    for i := 0 to |nodes|
      invariant slots == StartSlots(state.View(), order[..i])
    {
      assert order[..i + 1][..i] == order[..i];
      if NodeEligible(nodes[i]) {
        var avail := FreeCapacity(nodes[i], state);
        slots := slots + [Slot(nodes[i], avail)];
      }
    }
    assert order[..|order|] == order;
  }

  lemma {:induction false} FirstStays(slots: seq<Slot>, g: TaskGroup, k: nat, n: nat)
    requires k <= n <= |slots| && First(slots, g, k).Some?
    ensures First(slots, g, n) == First(slots, g, k)
  {
    if k < n { FirstStays(slots, g, k, n - 1); }
  }

  method FindFirst(slots: seq<Slot>, g: TaskGroup) returns (r: Option<nat>)
    ensures r == First(slots, g, |slots|)
  {
    for k := 0 to |slots|
      invariant First(slots, g, k) == None
    {
      if Suits(slots[k], g) {
        FirstStays(slots, g, k + 1, |slots|);
        return Some(k);
      }
    }
    r := None;
  }

  /** The head of the candidate list sorted by falling score, then position. */
  method FindBest(slots: seq<Slot>, g: TaskGroup, state: StateStore) returns (r: Option<nat>)
    ensures r == Best(slots, g, ScoreBy(g, state.View()), |slots|)
  {
    r := None;
    for k := 0 to |slots|
      invariant r == Best(slots, g, ScoreBy(g, state.View()), k)
    {
      if Suits(slots[k], g) &&
         (r.None? || Score(slots[k], g, state.View()) > Score(slots[r.value], g, state.View())) {
        r := Some(k);
      }
    }
  }

  lemma {:induction false} LocateStays(slots: seq<Slot>, id: string, k: nat, n: nat)
    requires k <= n <= |slots| && Locate(slots, id, k).Some?
    ensures Locate(slots, id, n) == Locate(slots, id, k)
  {
    if k < n { LocateStays(slots, id, k, n - 1); }
  }

  method FindById(slots: seq<Slot>, id: string) returns (r: Option<nat>)
    ensures r == Locate(slots, id, |slots|)
  {
    for k := 0 to |slots|
      invariant Locate(slots, id, k) == None
    {
      if slots[k].node.id == id {
        LocateStays(slots, id, k + 1, |slots|);
        return Some(k);
      }
    }
    r := None;
  }

  lemma PlaceGroupDone(c: Context, g: TaskGroup, policy: Policy, p: Progress)
    ensures PlaceGroup(c, g, policy, p, 0) == p
  { }

  /** One round of the loop is one unfolding of `PlaceGroup`. */
  lemma PlaceGroupRound(c: Context, g: TaskGroup, rank: Ranking, p: Progress, n: nat)
    requires n > 0
    ensures var policy, choice := Rule(g, rank), Choose(p.slots, g, rank);
            match choice
            case None => PlaceGroup(c, g, policy, p, n) == p
            case Some(i) => PlaceGroup(c, g, policy, p, n) == PlaceGroup(c, g, policy, PlaceOne(c, g, p, i), n - 1)
  { }

  /** The loop without preferences: first-fit with decrement. */
  method PlaceFirstFit(c: Context, g: TaskGroup, slots0: seq<Slot>, plan0: seq<Allocation>, ghost rank: Ranking)
    returns (slots: seq<Slot>, plan: seq<Allocation>)
    requires !Ranked(g)
    ensures Progress(slots, plan) == PlaceGroup(c, g, Rule(g, rank), Progress(slots0, plan0), Wanted(g))
  {
    hide PlaceGroup, Rule, First, Best;
    slots, plan := slots0, plan0;
    var n: nat := Wanted(g);
    while n > 0
      invariant PlaceGroup(c, g, Rule(g, rank), Progress(slots, plan), n) ==
                PlaceGroup(c, g, Rule(g, rank), Progress(slots0, plan0), Wanted(g))
    {
      PlaceGroupRound(c, g, rank, Progress(slots, plan), n);
      var found := FindFirst(slots, g);
      if found.None? { return; }
      var i := found.value;
      plan := plan + [MakeAlloc(c, g, |plan|, slots[i].node.id)];
      slots := Take(slots, i, Demand(g));
      n := n - 1;
    }
    PlaceGroupDone(c, g, Rule(g, rank), Progress(slots, plan));
  }

  /** The loop with preferences: best score first, charged by node id. */
  method PlaceRanked(c: Context, g: TaskGroup, slots0: seq<Slot>, plan0: seq<Allocation>, state: StateStore)
    returns (slots: seq<Slot>, plan: seq<Allocation>)
    requires Ranked(g)
    ensures Progress(slots, plan) ==
            PlaceGroup(c, g, Rule(g, ScoreBy(g, state.View())), Progress(slots0, plan0), Wanted(g))
  {
    hide PlaceGroup, Rule, First, Best, ScoreBy;
    slots, plan := slots0, plan0;
    ghost var rank := ScoreBy(g, state.View());
    var n: nat := Wanted(g);
    while n > 0
      invariant PlaceGroup(c, g, Rule(g, rank), Progress(slots, plan), n) ==
                PlaceGroup(c, g, Rule(g, rank), Progress(slots0, plan0), Wanted(g))
    {
      PlaceGroupRound(c, g, rank, Progress(slots, plan), n);
      var best := FindBest(slots, g, state);
      if best.None? { return; }
      var id := slots[best.value].node.id;
      var charged := FindById(slots, id);
      if charged.Some? {
        slots := Take(slots, charged.value, Demand(g));
        plan := plan + [MakeAlloc(c, g, |plan|, id)];
      }
      n := n - 1;
    }
    PlaceGroupDone(c, g, Rule(g, rank), Progress(slots, plan));
  }

  /** Turns an evaluation into a plan against the current state. */
  method ProcessEval(eval: Evaluation, state: StateStore) returns (plan: seq<Allocation>, ghost order: seq<string>)
    ensures Lists(order, state.nodes)
    ensures plan == Plan(eval, state.View(), order)
    ensures Kept(state.View()) ==> forall k | 0 <= k < |plan| :: PlannedFor(eval, state.View(), plan[k])
  {
    plan := [];
    var slots;
    slots, order := EligibleSlots(state);
    if eval.jobId !in state.jobs { return; }
    var job := state.jobs[eval.jobId];
    ghost var s, start := state.View(), Progress(slots, []);
    var c := Context(eval, job);
    for k := 0 to |job.taskGroups|
      invariant Progress(slots, plan) == PlaceGroups(c, s, job.taskGroups[..k], start)
    {
      var g := job.taskGroups[k];
      assert job.taskGroups[..k + 1][..k] == job.taskGroups[..k];
      if !Ranked(g) {
        slots, plan := PlaceFirstFit(c, g, slots, plan, ScoreBy(g, s));
      } else {
        slots, plan := PlaceRanked(c, g, slots, plan, state);
      }
    }
    assert job.taskGroups[..|job.taskGroups|] == job.taskGroups;
    if Kept(s) { PlanMeans(eval, s, order); }
  }

  // ---- Committing -----------------------------------------------------------------------------

  /** Commits placements one by one, stopping at the first rejection. */
  method ApplyPlan(fsm: Fsm, plan: seq<Allocation>) returns (r: Result<()>)
    modifies fsm.state
    ensures (fsm.state.View(), r) == ApplyAll(old(fsm.state.View()), plan)
  {
    for k := 0 to |plan|
      invariant (fsm.state.View(), Ok(())) == ApplyAll(old(fsm.state.View()), plan[..k])
    {
      assert plan[..k + 1][..k] == plan[..k];
      r := fsm.Apply(UpsertAlloc(plan[k]));
      if r.Err? {
        ApplyAllStops(old(fsm.state.View()), plan, k + 1);
        return;
      }
    }
    assert plan[..|plan|] == plan;
    r := Ok(());
  }

  /** Plans and commits. From a well-kept store nothing is rejected; and when no stored reservation is
      negative, live reservations are within capacity afterwards on every node that receives an
      allocation and have grown on no other node. */
  method ProcessAndApply(eval: Evaluation, fsm: Fsm) returns (r: Result<seq<Allocation>>, ghost order: seq<string>)
    modifies fsm.state
    ensures Lists(order, old(fsm.state.nodes))
    ensures var s, plan := old(fsm.state.View()), Plan(eval, old(fsm.state.View()), order);
            && fsm.state.View() == ApplyAll(s, plan).0
            && (r == match ApplyAll(s, plan).1 case Ok(_) => Ok(plan) case Err(e) => Err(e))
            && (Kept(s) ==>
                  && r.Ok? && Kept(fsm.state.View()) && fsm.state.View() == Committed(s, plan)
                  && (NoNegativeReservation(s.allocs) ==> WithinCapacity(s, plan, fsm.state.View())))
  {
    ghost var s := fsm.state.View();
    var plan;
    plan, order := ProcessEval(eval, fsm.state);
    var done := ApplyPlan(fsm, plan);
    if Kept(s) { PlanCommits(eval, s, order); }
    if done.Err? { return Err(done.error), order; }
    return Ok(plan), order;
  }
}
