/** How many instances a whole plan lands, and when the listing order of the nodes matters. */
module PlanLaws {
  import opened Domain
  import opened StateMachine
  import opened Finite
  import opened Placement
  import opened PlacementLaws
  import opened Capacity

  // ---- The starting slots ---------------------------------------------------------------------

  lemma StartSlotIs(s: Store, order: seq<string>, slot: Slot)
    requires Kept(s) && Lists(order, s.nodes)
    ensures slot in StartSlots(s, order) <==> StartsFrom(s, slot)
  {
    StartSlotsFrom(s, order);
    if StartsFrom(s, slot) {
      StartSlotsCover(s, order, slot.node.id);
    }
  }

  /** Two listings of one store start the plan from the same slots, in some other order. */
  lemma StartSlotsPermuted(s: Store, o1: seq<string>, o2: seq<string>)
    requires Kept(s) && Lists(o1, s.nodes) && Lists(o2, s.nodes)
    ensures multiset(StartSlots(s, o1)) == multiset(StartSlots(s, o2))
  {
    StartSlotsFrom(s, o1);
    StartSlotsFrom(s, o2);
    forall slot ensures slot in StartSlots(s, o1) <==> slot in StartSlots(s, o2) {
      StartSlotIs(s, o1, slot);
      StartSlotIs(s, o2, slot);
    }
    SameListed(StartSlots(s, o1), StartSlots(s, o2));
  }

  lemma StartValid(s: Store, order: seq<string>)
    requires Kept(s) && Lists(order, s.nodes)
    ensures ValidSlots(StartSlots(s, order))
  {
    StartSlotsFrom(s, order);
  }

  // ---- Each group in its turn -----------------------------------------------------------------

  /** Where the plan for a known job stands when group `k` gets its turn. */
  ghost function Turn(e: Evaluation, s: Store, order: seq<string>, k: nat): Progress
    requires Lists(order, s.nodes) && e.jobId in s.jobs && k <= |s.jobs[e.jobId].taskGroups|
  {
    var job := s.jobs[e.jobId];
    PlaceGroups(Context(e, job), s, job.taskGroups[..k], Progress(StartSlots(s, order), []))
  }

  lemma SoundDistinct(c: Context, start: seq<Slot>, p: Progress)
    requires Sound(c, start, p)
    ensures DistinctNodes(p.slots)
  {
    TracksDistinct(start, p);
  }

  lemma TurnNext(e: Evaluation, s: Store, order: seq<string>, k: nat)
    requires Kept(s) && Lists(order, s.nodes) && e.jobId in s.jobs && k < |s.jobs[e.jobId].taskGroups|
    ensures var job := s.jobs[e.jobId];
            var g := job.taskGroups[k];
            var policy := Rule(g, ScoreBy(g, s));
            && Turn(e, s, order, k + 1) == PlaceGroup(Context(e, job), g, policy, Turn(e, s, order, k), Wanted(g))
            && Sensible(policy, g) && DistinctNodes(Turn(e, s, order, k).slots) && NonNegative(Demand(g))
  {
    hide PlaceGroup, Rule, Sensible, StartSlots, Sound;
    var job := s.jobs[e.jobId];
    var g, start := job.taskGroups[k], StartSlots(s, order);
    assert job.taskGroups[..k + 1][..k] == job.taskGroups[..k];
    StartValid(s, order);
    SoundGroups(Context(e, job), s, job.taskGroups[..k], start);
    SoundDistinct(Context(e, job), start, Turn(e, s, order, k));
    RuleSensible(g, ScoreBy(g, s));
    DemandNonNegative(g.tasks);
  }

  lemma TurnEnds(e: Evaluation, s: Store, order: seq<string>)
    requires Lists(order, s.nodes) && e.jobId in s.jobs
    ensures Turn(e, s, order, 0) == Progress(StartSlots(s, order), [])
    ensures Turn(e, s, order, |s.jobs[e.jobId].taskGroups|).allocs == Plan(e, s, order)
  {
    var groups := s.jobs[e.jobId].taskGroups;
    assert groups[..|groups|] == groups;
  }

  lemma CountIsWanted(e: Evaluation, s: Store, k: nat)
    requires Kept(s) && e.jobId in s.jobs && k < |s.jobs[e.jobId].taskGroups|
    ensures s.jobs[e.jobId].taskGroups[k].count >= 0
    ensures Wanted(s.jobs[e.jobId].taskGroups[k]) == s.jobs[e.jobId].taskGroups[k].count
  {
    assert ValidGroup(s.jobs[e.jobId].taskGroups[k]);
  }

  /** Every group of a plan lands the fewer of its count and the room left to it, and no assignment of
      at most its count to the slots as it finds them would land more. */
  lemma GroupTurn(e: Evaluation, s: Store, order: seq<string>, k: nat)
    requires Kept(s) && Lists(order, s.nodes) && e.jobId in s.jobs && k < |s.jobs[e.jobId].taskGroups|
    ensures var g, p := s.jobs[e.jobId].taskGroups[k], Turn(e, s, order, k);
            var placed := |Turn(e, s, order, k + 1).allocs| - |p.allocs|;
            && g.count >= 0
            && placed == Min(g.count, TotalRoom(p.slots, g, g.count))
            && forall a | Feasible(p.slots, g, a) && SumOf(a) <= g.count :: SumOf(a) <= placed
  {
    hide *;
    TurnNext(e, s, order, k);
    CountIsWanted(e, s, k);
    var job := s.jobs[e.jobId];
    var g, p := job.taskGroups[k], Turn(e, s, order, k);
    var policy := Rule(g, ScoreBy(g, s));
    GreedyCount(Context(e, job), g, policy, p, Wanted(g));
    forall a | Feasible(p.slots, g, a) && SumOf(a) <= Wanted(g)
      ensures SumOf(a) <= |Turn(e, s, order, k + 1).allocs| - |p.allocs|
    {
      GreedyIsOptimal(Context(e, job), g, policy, p, Wanted(g), a);
    }
  }

  /** The instances a stored job wants are the sum of its counts. */
  lemma DesiredIsSum(e: Evaluation, s: Store)
    requires Kept(s)
    ensures e.jobId !in s.jobs ==> DesiredCount(e, s) == 0
    ensures e.jobId in s.jobs ==>
              var groups := s.jobs[e.jobId].taskGroups;
              DesiredCount(e, s) == Sum(seq(|groups|, i requires 0 <= i < |groups| => groups[i].count))
  {
    if e.jobId in s.jobs {
      var groups := s.jobs[e.jobId].taskGroups;
      WantedIsSum(groups);
      forall i | 0 <= i < |groups| ensures groups[i].count >= 0 { CountIsWanted(e, s, i); }
      assert seq(|groups|, i requires 0 <= i < |groups| => if groups[i].count < 0 then 0 else groups[i].count) ==
             seq(|groups|, i requires 0 <= i < |groups| => groups[i].count);
    }
  }

  // ---- What is planned ------------------------------------------------------------------------

  /** An instance of `g` may run on `n`: ready, accepting work, and every constraint is met. */
  ghost predicate MayRun(n: Node, g: TaskGroup) {
    && n.status == Ready && n.eligibility == Eligible && !n.draining
    && forall i | 0 <= i < |g.constraints| :: g.constraints[i].satisfiedBy(n.attributes)
  }

  /** The allocation is a pending instance of the group on the node, reserving what all its tasks need. */
  ghost predicate InstanceOf(a: Allocation, e: Evaluation, g: TaskGroup, n: Node) {
    && a.evalId == e.id && a.jobId == e.jobId && a.taskGroup == g.name && a.nodeId == n.id
    && a.desiredStatus == Run && a.clientStatus == Pending
    && a.resources == TaskTotal(g.tasks)
  }

  /** The allocation is an instance of some wanted group of the job, on a registered node it may run on. */
  ghost predicate PlannedFor(e: Evaluation, s: Store, a: Allocation) {
    && e.jobId in s.jobs && a.nodeId in s.nodes
    && exists i | 0 <= i < |s.jobs[e.jobId].taskGroups| ::
         var g := s.jobs[e.jobId].taskGroups[i];
         g.count > 0 && MayRun(s.nodes[a.nodeId], g) && InstanceOf(a, e, g, s.nodes[a.nodeId])
  }

  /** A placement of one of the groups on one of the slots the plan started from. */
  ghost predicate MadeFrom(c: Context, groups: seq<TaskGroup>, start: seq<Slot>, a: Allocation) {
    exists i, j, k: nat | 0 <= i < |groups| && 0 <= j < |start| ::
      groups[i].count > 0 && MeetsConstraints(start[j].node, groups[i]) &&
      a == MakeAlloc(c, groups[i], k, start[j].node.id)
  }

  ghost predicate AllMadeFrom(c: Context, groups: seq<TaskGroup>, start: seq<Slot>, allocs: seq<Allocation>) {
    forall x | 0 <= x < |allocs| :: MadeFrom(c, groups, start, allocs[x])
  }

  /** The plan's slots are still on the nodes they started on. */
  ghost predicate SameNodes(start: seq<Slot>, slots: seq<Slot>) {
    |slots| == |start| && forall j | 0 <= j < |start| :: slots[j].node == start[j].node
  }

  lemma MadeOne(c: Context, groups: seq<TaskGroup>, i: nat, start: seq<Slot>, p: Progress, j: nat)
    requires i < |groups| && groups[i].count > 0 && SameNodes(start, p.slots) && DistinctNodes(p.slots)
    requires j < |p.slots| && Suits(p.slots[j], groups[i]) && AllMadeFrom(c, groups, start, p.allocs)
    ensures var q := PlaceOne(c, groups[i], p, j);
            SameNodes(start, q.slots) && DistinctNodes(q.slots) && AllMadeFrom(c, groups, start, q.allocs)
  {
    PlaceOneCharges(c, groups[i], p, j);
    var a := MakeAlloc(c, groups[i], |p.allocs|, start[j].node.id);
    assert MadeFrom(c, groups, start, a);
  }

  lemma {:induction false} MadeGroup(
    c: Context, groups: seq<TaskGroup>, i: nat, policy: Policy, start: seq<Slot>, p: Progress, n: nat)
    requires i < |groups| && groups[i].count > 0 && Sensible(policy, groups[i])
    requires SameNodes(start, p.slots) && DistinctNodes(p.slots) && AllMadeFrom(c, groups, start, p.allocs)
    ensures var q := PlaceGroup(c, groups[i], policy, p, n);
            SameNodes(start, q.slots) && DistinctNodes(q.slots) && AllMadeFrom(c, groups, start, q.allocs)
    decreases n
  {
    hide MadeFrom, SameNodes, DistinctNodes, AllMadeFrom, PlaceOne, Suits;
    if n == 0 || policy(p.slots).None? {
    } else {
      var j := policy(p.slots).value;
      MadeOne(c, groups, i, start, p, j);
      MadeGroup(c, groups, i, policy, start, PlaceOne(c, groups[i], p, j), n - 1);
    }
  }

  lemma MadeMore(c: Context, groups: seq<TaskGroup>, start: seq<Slot>, allocs: seq<Allocation>)
    requires |groups| > 0 && AllMadeFrom(c, groups[..|groups| - 1], start, allocs)
    ensures AllMadeFrom(c, groups, start, allocs)
  {
    var before := groups[..|groups| - 1];
    forall x | 0 <= x < |allocs| ensures MadeFrom(c, groups, start, allocs[x]) {
      assert MadeFrom(c, before, start, allocs[x]);
      var i, j, k: nat :| 0 <= i < |before| && 0 <= j < |start| &&
        before[i].count > 0 && MeetsConstraints(start[j].node, before[i]) &&
        allocs[x] == MakeAlloc(c, before[i], k, start[j].node.id);
      assert groups[i] == before[i];
    }
  }

  lemma {:induction false} MadeGroups(c: Context, s: Store, groups: seq<TaskGroup>, start: seq<Slot>)
    requires DistinctNodes(start)
    ensures var p := PlaceGroups(c, s, groups, Progress(start, []));
            SameNodes(start, p.slots) && DistinctNodes(p.slots) && AllMadeFrom(c, groups, start, p.allocs)
  {
    if |groups| == 0 {
    } else {
      var n := |groups| - 1;
      var g, p := groups[n], PlaceGroups(c, s, groups[..n], Progress(start, []));
      hide MadeFrom, SameNodes, DistinctNodes, AllMadeFrom, Sensible, Rule;
      MadeGroups(c, s, groups[..n], start);
      MadeMore(c, groups, start, p.allocs);
      RuleSensible(g, ScoreBy(g, s));
      if g.count > 0 {
        MadeGroup(c, groups, n, Rule(g, ScoreBy(g, s)), start, p, Wanted(g));
      } else {
        PlaceNone(c, g, Rule(g, ScoreBy(g, s)), p);
      }
    }
  }

  lemma MadeIsPlanned(e: Evaluation, s: Store, start: seq<Slot>, a: Allocation)
    requires Kept(s) && e.jobId in s.jobs && forall j | 0 <= j < |start| :: StartsFrom(s, start[j])
    requires MadeFrom(Context(e, s.jobs[e.jobId]), s.jobs[e.jobId].taskGroups, start, a)
    ensures PlannedFor(e, s, a)
  {
    var groups, c := s.jobs[e.jobId].taskGroups, Context(e, s.jobs[e.jobId]);
    var i, j, k: nat :| 0 <= i < |groups| && 0 <= j < |start| &&
      groups[i].count > 0 && MeetsConstraints(start[j].node, groups[i]) &&
      a == MakeAlloc(c, groups[i], k, start[j].node.id);
    assert StartsFrom(s, start[j]);
    DemandIsSum(groups[i].tasks);
    hide TaskTotal;
    assert MayRun(s.nodes[a.nodeId], groups[i]) && InstanceOf(a, e, groups[i], s.nodes[a.nodeId]);
  }

  /** Every planned allocation is a pending instance of a wanted group of the evaluation's job, under that
      job's and group's names, reserving the sum of what its tasks need, on a registered node that is ready,
      eligible and not draining and meets every constraint of the group. */
  lemma PlanMeans(e: Evaluation, s: Store, order: seq<string>)
    requires Kept(s) && Lists(order, s.nodes)
    ensures forall x | 0 <= x < |Plan(e, s, order)| :: PlannedFor(e, s, Plan(e, s, order)[x])
  {
    if e.jobId in s.jobs {
      hide Kept, MadeFrom, PlannedFor, PlaceGroups, StartSlots;
      var start := StartSlots(s, order);
      StartSlotsFrom(s, order);
      MadeGroups(Context(e, s.jobs[e.jobId]), s, s.jobs[e.jobId].taskGroups, start);
      forall x | 0 <= x < |Plan(e, s, order)| ensures PlannedFor(e, s, Plan(e, s, order)[x]) {
        MadeIsPlanned(e, s, start, Plan(e, s, order)[x]);
      }
    }
  }

  /** So a planned instance has room for each of its tasks on its own. */
  lemma PlannedCovers(e: Evaluation, s: Store, a: Allocation) returns (g: TaskGroup)
    requires Kept(s) && PlannedFor(e, s, a)
    ensures g in s.jobs[e.jobId].taskGroups && g.name == a.taskGroup
    ensures forall i | 0 <= i < |g.tasks| :: Fits(a.resources, g.tasks[i].resources)
  {
    var groups := s.jobs[e.jobId].taskGroups;
    var k :| 0 <= k < |groups| && groups[k].count > 0 &&
      MayRun(s.nodes[a.nodeId], groups[k]) && InstanceOf(a, e, groups[k], s.nodes[a.nodeId]);
    g := groups[k];
    assert ValidGroup(g);
    DemandIsSum(g.tasks);
    forall i | 0 <= i < |g.tasks| ensures Fits(a.resources, g.tasks[i].resources) { DemandCovers(g.tasks, i); }
  }

  // ---- Jobs of one shape ----------------------------------------------------------------------

  /** All groups ask for the same of a node; a job with a single group always does. */
  ghost predicate Uniform(groups: seq<TaskGroup>) {
    |groups| > 0 && forall i | 0 <= i < |groups| :: SameShape(groups[i], groups[0])
  }

  lemma UniformStep(groups: seq<TaskGroup>, k: nat)
    requires Uniform(groups) && k < |groups|
    ensures SameShape(groups[k], groups[0])
    ensures WantedAll(groups[..k + 1]) == WantedAll(groups[..k]) + Wanted(groups[k])
  {
    assert groups[..k + 1][..k] == groups[..k];
  }

  lemma NoTurns(e: Evaluation, s: Store, order: seq<string>)
    requires Lists(order, s.nodes) && e.jobId in s.jobs
    ensures Turn(e, s, order, 0) == Progress(StartSlots(s, order), [])
    ensures WantedAll(s.jobs[e.jobId].taskGroups[..0]) == 0
  { }

  lemma {:induction false} UniformTurns(e: Evaluation, s: Store, order: seq<string>, k: nat, more: nat)
    requires Kept(s) && Lists(order, s.nodes) && e.jobId in s.jobs && Uniform(s.jobs[e.jobId].taskGroups)
    requires k <= |s.jobs[e.jobId].taskGroups|
    ensures var groups, p := s.jobs[e.jobId].taskGroups, Turn(e, s, order, k);
            var wanted := WantedAll(groups[..k]) + more;
            |p.allocs| + Min(more, TotalRoom(p.slots, groups[0], more)) ==
            Min(wanted, TotalRoom(StartSlots(s, order), groups[0], wanted))
  {
    hide *;
    var job := s.jobs[e.jobId];
    var groups := job.taskGroups;
    if k == 0 {
      NoTurns(e, s, order);
    } else {
      var g, p, q := groups[k - 1], Turn(e, s, order, k - 1), Turn(e, s, order, k);
      UniformStep(groups, k - 1);
      TurnNext(e, s, order, k - 1);
      UniformTurns(e, s, order, k - 1, Wanted(g) + more);
      RoomLeft(Context(e, job), g, Rule(g, ScoreBy(g, s)), p, Wanted(g), more);
      RoomIgnoresPreference(p.slots, g, groups[0], Wanted(g) + more);
      RoomIgnoresPreference(q.slots, g, groups[0], more);
    }
  }

  /** The whole plan of such a job lands the fewer of what it wants and what the eligible nodes hold. */
  lemma UniformCount(e: Evaluation, s: Store, order: seq<string>)
    requires Kept(s) && Lists(order, s.nodes) && e.jobId in s.jobs && Uniform(s.jobs[e.jobId].taskGroups)
    ensures var g, n := s.jobs[e.jobId].taskGroups[0], DesiredCount(e, s);
            |Plan(e, s, order)| == Min(n, TotalRoom(StartSlots(s, order), g, n))
  {
    var groups := s.jobs[e.jobId].taskGroups;
    assert groups[..|groups|] == groups;
    UniformTurns(e, s, order, |groups|, 0);
    TurnEnds(e, s, order);
  }

  /** A job with a single group lands the fewer of its count and the room there is. */
  lemma SingleCount(e: Evaluation, s: Store, order: seq<string>)
    requires Kept(s) && Lists(order, s.nodes) && e.jobId in s.jobs && |s.jobs[e.jobId].taskGroups| == 1
    ensures var g := s.jobs[e.jobId].taskGroups[0];
            g.count >= 0 && |Plan(e, s, order)| == Min(g.count, TotalRoom(StartSlots(s, order), g, g.count))
  {
    var groups := s.jobs[e.jobId].taskGroups;
    UniformCount(e, s, order);
    CountIsWanted(e, s, 0);
    assert groups == [groups[0]];
    WantedOne(groups[0]);
  }

  /** So neither the listing order of the nodes nor affinities and spreads change how many instances a
      plan lands: evaluations of two jobs of the same shape and size land the same number. */
  lemma UniformIgnoresPathAndOrder(e: Evaluation, f: Evaluation, s: Store, o1: seq<string>, o2: seq<string>)
    requires Kept(s) && Lists(o1, s.nodes) && Lists(o2, s.nodes) && e.jobId in s.jobs && f.jobId in s.jobs
    requires Uniform(s.jobs[e.jobId].taskGroups) && Uniform(s.jobs[f.jobId].taskGroups)
    requires SameShape(s.jobs[e.jobId].taskGroups[0], s.jobs[f.jobId].taskGroups[0])
    requires DesiredCount(e, s) == DesiredCount(f, s)
    ensures |Plan(e, s, o1)| == |Plan(f, s, o2)|
  {
    hide Plan, StartSlots, TotalRoom, Kept;
    var g, h, n := s.jobs[e.jobId].taskGroups[0], s.jobs[f.jobId].taskGroups[0], DesiredCount(e, s);
    UniformCount(e, s, o1);
    UniformCount(f, s, o2);
    StartSlotsPermuted(s, o1, o2);
    TotalRoomPermuted(StartSlots(s, o1), StartSlots(s, o2), g, n);
    RoomIgnoresPreference(StartSlots(s, o2), g, h, n);
  }

  /** An assignment of instances of one shape to nodes, by id: only to eligible nodes that meet the
      constraints, and never more copies than go into what is free there. */
  ghost predicate Assignment(s: Store, g: TaskGroup, a: map<string, nat>) {
    forall id | id in a && a[id] > 0 ::
      && id in s.nodes && NodeEligible(s.nodes[id]) && MeetsConstraints(s.nodes[id], g)
      && Holds(Free(s.nodes[id], s.allocs), Demand(g), a[id])
  }

  function BySlot(slots: seq<Slot>, a: map<string, nat>): seq<nat> {
    if |slots| == 0 then [] else
    var id := slots[|slots| - 1].node.id;
    BySlot(slots[..|slots| - 1], a) + [if id in a then a[id] else 0]
  }

  lemma {:induction false} BySlotAt(slots: seq<Slot>, a: map<string, nat>, i: nat)
    requires i < |slots|
    ensures |BySlot(slots, a)| == |slots|
    ensures BySlot(slots, a)[i] == if slots[i].node.id in a then a[slots[i].node.id] else 0
  {
    var n := |slots| - 1;
    if n == 0 {
      assert BySlot(slots[..n], a) == [];
    } else {
      BySlotAt(slots[..n], a, if i < n then i else n - 1);
    }
  }

  lemma {:induction false} TotalOfZeros(a: map<string, nat>)
    requires forall id | id in a :: a[id] == 0
    ensures Total(a) == 0
    decreases |a|
  {
    if |a| == 0 {
    } else {
      var k := Pick(a);
      assert (a - {k}).Keys == a.Keys - {k};
      TotalRemove(a, k);
      TotalOfZeros(a - {k});
    }
  }

  lemma {:induction false} BySlotWithout(slots: seq<Slot>, a: map<string, nat>, id: string)
    requires !OnSlot(slots, id)
    ensures BySlot(slots, a - {id}) == BySlot(slots, a)
  {
    if |slots| == 0 {
    } else {
      var n := |slots| - 1;
      assert slots[n].node.id != id;
      assert forall i | 0 <= i < n :: slots[..n][i] == slots[i];
      BySlotWithout(slots[..n], a, id);
    }
  }

  lemma BySlotNone(slots: seq<Slot>, a: map<string, nat>)
    requires |slots| == 0
    ensures SumOf(BySlot(slots, a)) == 0
  { }

  lemma BySlotLast(slots: seq<Slot>, a: map<string, nat>)
    requires |slots| > 0
    ensures var n := |slots| - 1;
            var id := slots[n].node.id;
            SumOf(BySlot(slots, a)) == SumOf(BySlot(slots[..n], a)) + if id in a then a[id] else 0
  {
    var n := |slots| - 1;
    assert BySlot(slots, a)[..|BySlot(slots[..n], a)|] == BySlot(slots[..n], a);
  }

  lemma RestOnSlot(slots: seq<Slot>, x: string)
    requires |slots| > 0 && OnSlot(slots, x) && x != slots[|slots| - 1].node.id
    ensures OnSlot(slots[..|slots| - 1], x)
  {
    var i :| 0 <= i < |slots| && slots[i].node.id == x;
    assert slots[..|slots| - 1][i].node.id == x;
  }

  /** Summing an assignment slot by slot loses nothing. */
  lemma {:induction false} BySlotSum(slots: seq<Slot>, a: map<string, nat>)
    requires DistinctNodes(slots) && forall id | id in a && a[id] > 0 :: OnSlot(slots, id)
    ensures SumOf(BySlot(slots, a)) == Total(a)
    decreases |slots|
  {
    hide BySlot, Total, SumOf;
    if |slots| == 0 {
      BySlotNone(slots, a);
      TotalOfZeros(a);
    } else {
      var n := |slots| - 1;
      var id, rest := slots[n].node.id, slots[..n];
      var less := a - {id};
      assert !OnSlot(rest, id);
      hide OnSlot;
      BySlotLast(slots, a);
      BySlotWithout(rest, a, id);
      forall x | x in less && less[x] > 0 ensures OnSlot(rest, x) { RestOnSlot(slots, x); }
      BySlotSum(rest, less);
      if id in a { TotalRemove(a, id); } else { assert less == a; }
    }
  }

  lemma AssignmentFeasible(s: Store, order: seq<string>, g: TaskGroup, a: map<string, nat>)
    requires Kept(s) && Lists(order, s.nodes) && Assignment(s, g, a)
    ensures var slots := StartSlots(s, order);
            Feasible(slots, g, BySlot(slots, a)) && SumOf(BySlot(slots, a)) == Total(a)
  {
    var slots := StartSlots(s, order);
    StartSlotsFrom(s, order);
    if |slots| > 0 { BySlotAt(slots, a, 0); }
    forall i | 0 <= i < |slots| && BySlot(slots, a)[i] > 0
      ensures MeetsConstraints(slots[i].node, g) && Holds(slots[i].free, Demand(g), BySlot(slots, a)[i])
    {
      BySlotAt(slots, a, i);
      assert StartsFrom(s, slots[i]);
    }
    forall id | id in a && a[id] > 0 ensures OnSlot(slots, id) { StartSlotsCover(s, order, id); }
    BySlotSum(slots, a);
  }

  /** And no assignment of the wanted instances to the eligible nodes of the store lands more. */
  lemma UniformIsOptimal(e: Evaluation, s: Store, order: seq<string>, a: map<string, nat>)
    requires Kept(s) && Lists(order, s.nodes) && e.jobId in s.jobs && Uniform(s.jobs[e.jobId].taskGroups)
    requires Assignment(s, s.jobs[e.jobId].taskGroups[0], a) && Total(a) <= DesiredCount(e, s)
    ensures Total(a) <= |Plan(e, s, order)|
  {
    var g, n := s.jobs[e.jobId].taskGroups[0], DesiredCount(e, s);
    UniformCount(e, s, order);
    AssignmentFeasible(s, order, g, a);
    DemandNonNegative(g.tasks);
    FeasibleHasRoom(StartSlots(s, order), g, BySlot(StartSlots(s, order), a), n);
  }

  // ---- Jobs of several shapes -----------------------------------------------------------------

  lemma StartSlotsTwo(s: Store, a: string, b: string)
    requires a in s.nodes && b in s.nodes && NodeEligible(s.nodes[a]) && NodeEligible(s.nodes[b])
    ensures StartSlots(s, [a, b]) ==
            [Slot(s.nodes[a], Free(s.nodes[a], s.allocs)), Slot(s.nodes[b], Free(s.nodes[b], s.allocs))]
  {
    assert [a, b][..1] == [a] && [a][..0] == [];
    assert StartSlots(s, []) == [];
  }

  /** Placing one instance of a group without preferences on two slots. */
  lemma PlaceOnTwo(c: Context, g: TaskGroup, rank: Ranking, p: Progress)
    requires |p.slots| == 2 && !Ranked(g)
    ensures PlaceGroup(c, g, Rule(g, rank), p, 1) ==
            if Suits(p.slots[0], g) then PlaceOne(c, g, p, 0)
            else if Suits(p.slots[1], g) then PlaceOne(c, g, p, 1)
            else p
  {
    FirstMeans(p.slots, g, 2);
    var choice := Rule(g, rank)(p.slots);
    if choice.Some? { PlaceNone(c, g, Rule(g, rank), PlaceOne(c, g, p, choice.value)); }
  }

  lemma PlaceTwoGroups(c: Context, s: Store, g: TaskGroup, h: TaskGroup, p: Progress)
    ensures PlaceGroups(c, s, [g, h], p) ==
            PlaceGroup(c, h, Rule(h, ScoreBy(h, s)), PlaceGroup(c, g, Rule(g, ScoreBy(g, s)), p, Wanted(g)), Wanted(h))
  {
    hide PlaceGroup, Rule;
    assert [g, h][..1] == [g] && [g][..0] == [];
    assert PlaceGroups(c, s, [], p) == p;
  }

  /** One instance each of `g` and then `h`, either of which fits on `x`; `y` has room for `g` only, and
      `x` not for both. */
  ghost predicate Tight(x: Resources, y: Resources, g: TaskGroup, h: TaskGroup) {
    && Fits(x, Demand(g)) && Fits(x, Demand(h)) && !Fits(Minus(x, Demand(g)), Demand(h))
    && Fits(y, Demand(g)) && !Fits(y, Demand(h))
  }

  ghost predicate TwoPlainGroups(job: Job) {
    && |job.taskGroups| == 2
    && forall i | 0 <= i < 2 :: var g := job.taskGroups[i]; g.count == 1 && g.constraints == [] && !Ranked(g)
  }

  lemma TightPlaces(c: Context, s: Store, x: Slot, y: Slot, g: TaskGroup, h: TaskGroup)
    requires Tight(x.free, y.free, g, h) && !Ranked(g) && !Ranked(h) && g.count == 1 && h.count == 1
    requires g.constraints == [] && h.constraints == []
    ensures |PlaceGroups(c, s, [g, h], Progress([x, y], [])).allocs| == 1
    ensures |PlaceGroups(c, s, [g, h], Progress([y, x], [])).allocs| == 2
  {
    hide PlaceGroup, PlaceGroups, Rule, DemandOf;
    PlaceTwoGroups(c, s, g, h, Progress([x, y], []));
    PlaceTwoGroups(c, s, g, h, Progress([y, x], []));
    PlaceOnTwo(c, g, ScoreBy(g, s), Progress([x, y], []));
    PlaceOnTwo(c, g, ScoreBy(g, s), Progress([y, x], []));
    PlaceOnTwo(c, h, ScoreBy(h, s), PlaceOne(c, g, Progress([x, y], []), 0));
    PlaceOnTwo(c, h, ScoreBy(h, s), PlaceOne(c, g, Progress([y, x], []), 0));
  }

  /** With groups of different shapes the listing order of the nodes does decide how many instances
      land: first-fit may put the small one where only the large one fits. */
  lemma OrderMatters(e: Evaluation, s: Store, x: string, y: string)
    requires e.jobId in s.jobs && TwoPlainGroups(s.jobs[e.jobId])
    requires x != y && s.nodes.Keys == {x, y} && NodeEligible(s.nodes[x]) && NodeEligible(s.nodes[y])
    requires Tight(Free(s.nodes[x], s.allocs), Free(s.nodes[y], s.allocs),
                   s.jobs[e.jobId].taskGroups[0], s.jobs[e.jobId].taskGroups[1])
    ensures Lists([x, y], s.nodes) && |Plan(e, s, [x, y])| == 1
    ensures Lists([y, x], s.nodes) && |Plan(e, s, [y, x])| == 2
  {
    hide PlaceGroups, StartSlots, Tight, Free, NodeEligible;
    assert Lists([x, y], s.nodes) && Lists([y, x], s.nodes);
    var job := s.jobs[e.jobId];
    var g, h := job.taskGroups[0], job.taskGroups[1];
    assert job.taskGroups == [g, h];
    StartSlotsTwo(s, x, y);
    StartSlotsTwo(s, y, x);
    var free := Free(s.nodes[x], s.allocs);
    TightPlaces(Context(e, job), s, Slot(s.nodes[x], free), Slot(s.nodes[y], Free(s.nodes[y], s.allocs)), g, h);
  }

  function PlainGroup(name: string, need: Resources): TaskGroup {
    TaskGroup(name, 1, [Task("task", "exec", need)], [], [], [])
  }

  lemma PlainDemand(name: string, need: Resources)
    ensures Demand(PlainGroup(name, need)) == need
  {
    var tasks := PlainGroup(name, need).tasks;
    assert DemandOf(tasks[..0]) == ZERO;
  }

  function PlainNode(id: string, resources: Resources): Node {
    Node(id, id, "dc", resources, Ready, Eligible, false, map[])
  }

  lemma FreeWhenEmpty(n: Node)
    ensures Free(n, map[]) == n.resources && Usage(map[], n.id) == ZERO
  { }

  /** For instance: one cpu and then two, on nodes with two and with one. */
  lemma OrderMattersHere() returns (e: Evaluation, s: Store, o1: seq<string>, o2: seq<string>)
    ensures Kept(s) && Lists(o1, s.nodes) && Lists(o2, s.nodes)
    ensures |Plan(e, s, o1)| == 1 && |Plan(e, s, o2)| == 2
  {
    hide Plan, Lists, Free, Demand;
    var one, two := Resources(1, 0, 0), Resources(2, 0, 0);
    var g, h := PlainGroup("small", one), PlainGroup("large", two);
    var x, y := PlainNode("x", two), PlainNode("y", one);
    e := Evaluation("e", "job", 50, JobRegister, EvalPending);
    s := Store(map["job" := Job("job", ["dc"], [g, h], 50)], map["x" := x, "y" := y], map[], map[]);
    assert s.nodes.Keys == {"x", "y"};
    PlainDemand("small", one);
    PlainDemand("large", two);
    FreeWhenEmpty(x);
    FreeWhenEmpty(y);
    OrderMatters(e, s, "x", "y");
    o1, o2 := ["x", "y"], ["y", "x"];
  }

  /** A job for one plain instance, on the only node, which has room. */
  lemma PlanOfOne(e: Evaluation, s: Store, x: string, g: TaskGroup)
    requires e.jobId in s.jobs && s.jobs[e.jobId].taskGroups == [g]
    requires g.count == 1 && g.constraints == [] && !Ranked(g)
    requires s.nodes.Keys == {x} && NodeEligible(s.nodes[x]) && Fits(Free(s.nodes[x], s.allocs), Demand(g))
    ensures Lists([x], s.nodes)
    ensures Plan(e, s, [x]) == [MakeAlloc(Context(e, s.jobs[e.jobId]), g, 0, s.nodes[x].id)]
  {
    hide Free, DemandOf;
    var c, slot := Context(e, s.jobs[e.jobId]), Slot(s.nodes[x], Free(s.nodes[x], s.allocs));
    assert [x][..0] == [] && [g][..0] == [];
    assert StartSlots(s, [x]) == [slot] by { assert StartSlots(s, []) == []; }
    var p := Progress([slot], []);
    assert PlaceGroups(c, s, [], p) == p;
    FirstMeans([slot], g, 1);
    PlaceNone(c, g, Rule(g, ScoreBy(g, s)), PlaceOne(c, g, p, 0));
  }
}
