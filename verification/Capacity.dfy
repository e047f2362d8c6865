/** Why a plan never over-commits a node, whatever its allocations overwrite. */
module Capacity {
  import opened Domain
  import opened StateMachine
  import opened Finite
  import opened Ids
  import opened Placement
  import opened PlacementLaws

  // ---- Reservations in the allocation table ---------------------------------------------------

  ghost predicate NoNegativeReservation(allocs: map<string, Allocation>) {
    forall k | k in allocs :: NonNegative(allocs[k].resources)
  }

  lemma {:induction false} UsageRemove(allocs: map<string, Allocation>, k: string, nodeId: string)
    requires k in allocs
    ensures Usage(allocs, nodeId) == Plus(Usage(allocs - {k}, nodeId), Share(allocs[k], nodeId))
    decreases |allocs|
  {
    var p := Pick(allocs);
    if p != k {
      assert (allocs - {p}).Keys == allocs.Keys - {p};
      assert (allocs - {k}).Keys == allocs.Keys - {k};
      assert (allocs - {p}) - {k} == (allocs - {k}) - {p};
      UsageRemove(allocs - {p}, k, nodeId);
      UsageRemove(allocs - {k}, p, nodeId);
    }
  }

  lemma {:induction false} UsageDiscard(allocs: map<string, Allocation>, k: string, nodeId: string)
    requires NoNegativeReservation(allocs)
    ensures Fits(Usage(allocs, nodeId), Usage(allocs - {k}, nodeId))
    ensures k !in allocs ==> Usage(allocs, nodeId) == Usage(allocs - {k}, nodeId)
  {
    if k in allocs {
      UsageRemove(allocs, k, nodeId);
    } else {
      assert allocs - {k} == allocs;
    }
  }

  /** The three tracked resources. */
  datatype Kind = Cpu | Memory | Network

  function In(r: Resources, kind: Kind): int {
    match kind
    case Cpu => r.cpu
    case Memory => r.memory
    case Network => r.network
  }

  /** What fits, fits in each resource. */
  lemma FitsIff(avail: Resources, need: Resources)
    ensures Fits(avail, need) <==> forall kind :: In(need, kind) <= In(avail, kind)
  {
    if forall kind :: In(need, kind) <= In(avail, kind) {
      assert In(need, Cpu) <= In(avail, Cpu);
      assert In(need, Memory) <= In(avail, Memory);
      assert In(need, Network) <= In(avail, Network);
    }
  }

  /** How much of one resource each allocation holds on the node: all it reserved while it is pending or
      running there, nothing otherwise. */
  function Held(allocs: map<string, Allocation>, nodeId: string, kind: Kind): map<string, int> {
    map k | k in allocs ::
      if allocs[k].nodeId == nodeId && (allocs[k].clientStatus == Pending || allocs[k].clientStatus == Running)
      then In(allocs[k].resources, kind) else 0
  }

  lemma HeldRemove(allocs: map<string, Allocation>, k: string, nodeId: string, kind: Kind)
    requires k in allocs
    ensures k in Held(allocs, nodeId, kind) && Held(allocs, nodeId, kind)[k] == In(Share(allocs[k], nodeId), kind)
    ensures Held(allocs, nodeId, kind) - {k} == Held(allocs - {k}, nodeId, kind)
  { }

  lemma NothingHeld(allocs: map<string, Allocation>, nodeId: string, kind: Kind)
    requires |allocs| == 0
    ensures Total(Held(allocs, nodeId, kind)) == 0 && Usage(allocs, nodeId) == ZERO
  {
    assert Held(allocs, nodeId, kind).Keys == allocs.Keys;
  }

  /** Usage is, for each resource, the total of what the allocations hold. */
  lemma {:induction false} UsageIsTotal(allocs: map<string, Allocation>, nodeId: string, kind: Kind)
    ensures In(Usage(allocs, nodeId), kind) == Total(Held(allocs, nodeId, kind))
    decreases |allocs|
  {
    hide Usage, Total, Held, Share;
    if |allocs| == 0 {
      NothingHeld(allocs, nodeId, kind);
    } else {
      var k := Pick(allocs);
      assert (allocs - {k}).Keys == allocs.Keys - {k};
      UsageIsTotal(allocs - {k}, nodeId, kind);
      UsageRemove(allocs, k, nodeId);
      HeldRemove(allocs, k, nodeId, kind);
      TotalRemove(Held(allocs, nodeId, kind), k);
    }
  }

  /** A node is within capacity when no resource is reserved beyond what the node has of it. */
  lemma WithinIff(allocs: map<string, Allocation>, node: Node)
    ensures Fits(node.resources, Usage(allocs, node.id)) <==>
              forall kind :: Total(Held(allocs, node.id, kind)) <= In(node.resources, kind)
  {
    FitsIff(node.resources, Usage(allocs, node.id));
    forall kind ensures In(Usage(allocs, node.id), kind) == Total(Held(allocs, node.id, kind)) {
      UsageIsTotal(allocs, node.id, kind);
    }
  }

  lemma ReplacedKey<K, V>(m: map<K, V>, k: K, v: V)
    ensures m[k := v] - {k} == m - {k}
  { }

  /** Storing an allocation adds at most its own share, and exactly that when its id is new. */
  lemma {:induction false} UsageUpsert(allocs: map<string, Allocation>, a: Allocation, nodeId: string)
    requires NoNegativeReservation(allocs)
    ensures Fits(Plus(Usage(allocs, nodeId), Share(a, nodeId)), Usage(allocs[a.id := a], nodeId))
    ensures a.id !in allocs ==> Usage(allocs[a.id := a], nodeId) == Plus(Usage(allocs, nodeId), Share(a, nodeId))
  {
    UsageRemove(allocs[a.id := a], a.id, nodeId);
    ReplacedKey(allocs, a.id, a);
    UsageDiscard(allocs, a.id, nodeId);
  }

  /** The table after storing a plan's allocations in order. */
  function Stored(allocs: map<string, Allocation>, plan: seq<Allocation>): map<string, Allocation> {
    if |plan| == 0 then allocs else
    var a := plan[|plan| - 1];
    Stored(allocs, plan[..|plan| - 1])[a.id := a]
  }

  /** What a plan reserves on a node. */
  function PlanUse(plan: seq<Allocation>, nodeId: string): Resources {
    if |plan| == 0 then ZERO else Plus(PlanUse(plan[..|plan| - 1], nodeId), Share(plan[|plan| - 1], nodeId))
  }

  predicate Touches(plan: seq<Allocation>, nodeId: string) {
    exists k | 0 <= k < |plan| :: plan[k].nodeId == nodeId
  }

  ghost predicate NonNegativePlan(plan: seq<Allocation>) {
    forall k | 0 <= k < |plan| :: NonNegative(plan[k].resources)
  }

  lemma {:induction false} StoredNonNegative(allocs: map<string, Allocation>, plan: seq<Allocation>)
    requires NoNegativeReservation(allocs) && NonNegativePlan(plan)
    ensures NoNegativeReservation(Stored(allocs, plan))
  {
    if |plan| == 0 {
    } else {
      StoredNonNegative(allocs, plan[..|plan| - 1]);
    }
  }

  /** Usage after the commit is at most usage before plus the plan's reservation, on every node. */
  lemma {:induction false} StoredUsage(allocs: map<string, Allocation>, plan: seq<Allocation>, nodeId: string)
    requires NoNegativeReservation(allocs) && NonNegativePlan(plan)
    ensures Fits(Plus(Usage(allocs, nodeId), PlanUse(plan, nodeId)), Usage(Stored(allocs, plan), nodeId))
  {
    if |plan| == 0 {
    } else {
      var n := |plan| - 1;
      StoredUsage(allocs, plan[..n], nodeId);
      StoredNonNegative(allocs, plan[..n]);
      UsageUpsert(Stored(allocs, plan[..n]), plan[n], nodeId);
    }
  }

  lemma UntouchedSplit(plan: seq<Allocation>, nodeId: string)
    requires |plan| > 0 && !Touches(plan, nodeId)
    ensures !Touches(plan[..|plan| - 1], nodeId) && Share(plan[|plan| - 1], nodeId) == ZERO
  {
    assert forall k | 0 <= k < |plan| - 1 :: plan[..|plan| - 1][k] == plan[k];
  }

  lemma {:induction false} PlanUseUntouched(plan: seq<Allocation>, nodeId: string)
    requires !Touches(plan, nodeId)
    ensures PlanUse(plan, nodeId) == ZERO
  {
    hide Touches, Share;
    if |plan| == 0 {
    } else {
      UntouchedSplit(plan, nodeId);
      PlanUseUntouched(plan[..|plan| - 1], nodeId);
    }
  }

  // ---- The free vector inside one plan --------------------------------------------------------

  /** The plan's `k`-th allocation: named after the evaluation and its position, live, valid, with a
      non-negative reservation. */
  ghost predicate WellMade(a: Allocation, e: Evaluation, k: nat) {
    a.id == AllocId(e.id, k) && a.evalId == e.id && IsLive(a) && ValidAlloc(a) && NonNegative(a.resources)
  }

  ghost predicate OnSlot(slots: seq<Slot>, nodeId: string) {
    exists i | 0 <= i < |slots| :: slots[i].node.id == nodeId
  }

  /** The slot lost exactly what the plan reserved on its node, and is not below zero if charged. */
  ghost predicate Accounts(from: Slot, to: Slot, allocs: seq<Allocation>) {
    && to.node == from.node
    && to.free == Minus(from.free, PlanUse(allocs, from.node.id))
    && (Touches(allocs, from.node.id) ==> NonNegative(to.free))
  }

  ghost predicate Tracks(start: seq<Slot>, p: Progress) {
    && |p.slots| == |start|
    && DistinctNodes(start)
    && forall i | 0 <= i < |start| :: Accounts(start[i], p.slots[i], p.allocs)
  }

  ghost predicate AllWellMade(c: Context, start: seq<Slot>, allocs: seq<Allocation>) {
    forall k | 0 <= k < |allocs| :: WellMade(allocs[k], c.eval, k) && OnSlot(start, allocs[k].nodeId)
  }

  ghost predicate Sound(c: Context, start: seq<Slot>, p: Progress) {
    Tracks(start, p) && AllWellMade(c, start, p.allocs)
  }

  ghost predicate ValidSlots(slots: seq<Slot>) {
    DistinctNodes(slots) && forall i | 0 <= i < |slots| :: ValidNode(slots[i].node)
  }

  lemma TouchesSnoc(plan: seq<Allocation>, a: Allocation, nodeId: string)
    ensures Touches(plan + [a], nodeId) <==> Touches(plan, nodeId) || a.nodeId == nodeId
    ensures PlanUse(plan + [a], nodeId) == Plus(PlanUse(plan, nodeId), Share(a, nodeId))
  {
    var more := plan + [a];
    assert more[..|plan|] == plan && more[|plan|] == a;
    if Touches(plan, nodeId) {
      var k :| 0 <= k < |plan| && plan[k].nodeId == nodeId;
      assert more[k].nodeId == nodeId;
    }
  }

  lemma MadeWell(c: Context, g: TaskGroup, k: nat, n: Node)
    requires ValidJob(c.job) && ValidGroup(g) && ValidNode(n)
    ensures WellMade(MakeAlloc(c, g, k, n.id), c.eval, k)
  {
    DemandNonNegative(g.tasks);
  }

  lemma AccountsCharged(from: Slot, to: Slot, allocs: seq<Allocation>, a: Allocation)
    requires Accounts(from, to, allocs) && a.nodeId == from.node.id && IsLive(a) && Fits(to.free, a.resources)
    ensures Accounts(from, to.(free := Minus(to.free, a.resources)), allocs + [a])
  {
    TouchesSnoc(allocs, a, from.node.id);
  }

  lemma AccountsOther(from: Slot, to: Slot, allocs: seq<Allocation>, a: Allocation)
    requires Accounts(from, to, allocs) && a.nodeId != from.node.id
    ensures Accounts(from, to, allocs + [a])
  {
    TouchesSnoc(allocs, a, from.node.id);
  }

  lemma TracksOne(start: seq<Slot>, p: Progress, i: nat, a: Allocation)
    requires Tracks(start, p) && i < |p.slots| && Fits(p.slots[i].free, a.resources)
    requires a.nodeId == start[i].node.id && IsLive(a)
    ensures Tracks(start, Progress(Take(p.slots, i, a.resources), p.allocs + [a]))
  {
    hide Accounts;
    var slots := Take(p.slots, i, a.resources);
    forall j | 0 <= j < |start| ensures Accounts(start[j], slots[j], p.allocs + [a]) {
      if j == i {
        AccountsCharged(start[j], p.slots[j], p.allocs, a);
      } else {
        AccountsOther(start[j], p.slots[j], p.allocs, a);
      }
    }
  }

  lemma TracksDistinct(start: seq<Slot>, p: Progress)
    requires Tracks(start, p)
    ensures DistinctNodes(p.slots)
  {
    forall i, j | 0 <= i < j < |p.slots| ensures p.slots[i].node.id != p.slots[j].node.id {
      assert Accounts(start[i], p.slots[i], p.allocs) && Accounts(start[j], p.slots[j], p.allocs);
    }
  }

  lemma WellMadeSnoc(c: Context, start: seq<Slot>, allocs: seq<Allocation>, a: Allocation)
    requires AllWellMade(c, start, allocs) && WellMade(a, c.eval, |allocs|) && OnSlot(start, a.nodeId)
    ensures AllWellMade(c, start, allocs + [a])
  { }

  lemma {:induction false} SoundOne(c: Context, g: TaskGroup, start: seq<Slot>, p: Progress, i: nat)
    requires ValidJob(c.job) && ValidGroup(g) && ValidSlots(start)
    requires Sound(c, start, p) && i < |p.slots| && Suits(p.slots[i], g)
    ensures Sound(c, start, PlaceOne(c, g, p, i))
  {
    var n := start[i].node;
    var a := MakeAlloc(c, g, |p.allocs|, n.id);
    assert Accounts(start[i], p.slots[i], p.allocs);
    assert OnSlot(start, n.id);
    TracksDistinct(start, p);
    PlaceOneCharges(c, g, p, i);
    MadeWell(c, g, |p.allocs|, n);
    TracksOne(start, p, i, a);
    WellMadeSnoc(c, start, p.allocs, a);
  }

  lemma SoundNext(c: Context, g: TaskGroup, policy: Policy, start: seq<Slot>, p: Progress, n: nat)
    returns (q: Option<Progress>)
    requires Sensible(policy, g) && ValidJob(c.job) && ValidGroup(g) && ValidSlots(start) && Sound(c, start, p)
    ensures q.None? ==> PlaceGroup(c, g, policy, p, n) == p
    ensures q.Some? ==>
              && n > 0 && Sound(c, start, q.value)
              && PlaceGroup(c, g, policy, p, n) == PlaceGroup(c, g, policy, q.value, n - 1)
  {
    if n == 0 || policy(p.slots).None? { return None; }
    var i := policy(p.slots).value;
    SoundOne(c, g, start, p, i);
    return Some(PlaceOne(c, g, p, i));
  }

  lemma {:induction false} SoundGroup(c: Context, g: TaskGroup, policy: Policy, start: seq<Slot>, p: Progress, n: nat)
    requires Sensible(policy, g) && ValidJob(c.job) && ValidGroup(g) && ValidSlots(start) && Sound(c, start, p)
    ensures Sound(c, start, PlaceGroup(c, g, policy, p, n))
    decreases n
  {
    hide *;
    var q := SoundNext(c, g, policy, start, p, n);
    if q.Some? { SoundGroup(c, g, policy, start, q.value, n - 1); }
  }

  lemma {:induction false} SoundGroups(c: Context, s: Store, groups: seq<TaskGroup>, start: seq<Slot>)
    requires ValidJob(c.job) && ValidSlots(start)
    requires forall i | 0 <= i < |groups| :: ValidGroup(groups[i])
    ensures Sound(c, start, PlaceGroups(c, s, groups, Progress(start, [])))
    ensures |PlaceGroups(c, s, groups, Progress(start, [])).allocs| <= WantedAll(groups)
  {
    if |groups| == 0 {
    } else {
      var before, g := groups[..|groups| - 1], groups[|groups| - 1];
      SoundGroups(c, s, before, start);
      var p := PlaceGroups(c, s, before, Progress(start, []));
      var policy := Rule(g, ScoreBy(g, s));
      RuleSensible(g, ScoreBy(g, s));
      SoundGroup(c, g, policy, start, p, Wanted(g));
      TracksDistinct(start, p);
      DemandNonNegative(g.tasks);
      GreedyCount(c, g, policy, p, Wanted(g));
    }
  }

  // ---- Where the plan starts ------------------------------------------------------------------

  /** The slot is an eligible node of the store with its free capacity. */
  ghost predicate StartsFrom(s: Store, slot: Slot) {
    && slot.node.id in s.nodes
    && slot.node == s.nodes[slot.node.id]
    && ValidNode(slot.node)
    && NodeEligible(slot.node)
    && slot.free == Free(slot.node, s.allocs)
  }

  /** The starting slots are eligible nodes of the store, each once. */
  lemma {:induction false} StartSlotsFrom(s: Store, order: seq<string>)
    requires Kept(s) && NoRepeats(order)
    requires forall i | 0 <= i < |order| :: order[i] in s.nodes
    ensures var slots := StartSlots(s, order);
            && DistinctNodes(slots)
            && forall i | 0 <= i < |slots| :: StartsFrom(s, slots[i]) && slots[i].node.id in order
  {
    if |order| == 0 {
    } else {
      var n := |order| - 1;
      StartSlotsFrom(s, order[..n]);
      assert order[n] !in order[..n];
      assert forall id | id in order[..n] :: id in order;
    }
  }

  /** And every eligible node is among them. */
  lemma {:induction false} StartSlotsCover(s: Store, order: seq<string>, id: string)
    requires Kept(s) && id in order
    requires forall i | 0 <= i < |order| :: order[i] in s.nodes
    requires NodeEligible(s.nodes[id])
    ensures OnSlot(StartSlots(s, order), id)
  {
    var n := |order| - 1;
    var before, slots := StartSlots(s, order[..n]), StartSlots(s, order);
    if order[n] == id {
      assert slots[|before|].node.id == id;
    } else {
      assert order == order[..n] + [order[n]];
      StartSlotsCover(s, order[..n], id);
      var i :| 0 <= i < |before| && before[i].node.id == id;
      assert slots[i] == before[i];
    }
  }

  /** A plan fits: on every node it touches, what is already live plus what it adds is within the
      advertised capacity; and it asks for no more instances than the job wants. */
  ghost predicate FitsOn(s: Store, plan: seq<Allocation>, nodeId: string) {
    Touches(plan, nodeId) ==>
      && nodeId in s.nodes
      && Fits(s.nodes[nodeId].resources, Plus(Usage(s.allocs, nodeId), PlanUse(plan, nodeId)))
  }

  lemma AccountsFits(s: Store, from: Slot, to: Slot, allocs: seq<Allocation>)
    requires StartsFrom(s, from) && Accounts(from, to, allocs)
    ensures FitsOn(s, allocs, from.node.id)
  { }

  lemma SoundFits(c: Context, s: Store, start: seq<Slot>, p: Progress, nodeId: string)
    requires Sound(c, start, p)
    requires forall i | 0 <= i < |start| :: StartsFrom(s, start[i])
    ensures FitsOn(s, p.allocs, nodeId)
  {
    if Touches(p.allocs, nodeId) {
      var k :| 0 <= k < |p.allocs| && p.allocs[k].nodeId == nodeId;
      assert OnSlot(start, p.allocs[k].nodeId);
      var i :| 0 <= i < |start| && start[i].node.id == nodeId;
      AccountsFits(s, start[i], p.slots[i], p.allocs);
    }
  }

  lemma PlanFits(e: Evaluation, s: Store, order: seq<string>)
    requires Kept(s) && Lists(order, s.nodes)
    ensures var plan := Plan(e, s, order);
            && (forall k | 0 <= k < |plan| :: WellMade(plan[k], e, k))
            && (forall nodeId :: FitsOn(s, plan, nodeId))
            && |plan| <= DesiredCount(e, s)
  {
    if e.jobId in s.jobs {
      var job := s.jobs[e.jobId];
      var c, start := Context(e, job), StartSlots(s, order);
      StartSlotsFrom(s, order);
      SoundGroups(c, s, job.taskGroups, start);
      var p := PlaceGroups(c, s, job.taskGroups, Progress(start, []));
      forall nodeId ensures FitsOn(s, p.allocs, nodeId) {
        SoundFits(c, s, start, p, nodeId);
      }
    }
  }

  // ---- An empty plan --------------------------------------------------------------------------

  /** No eligible node has room for one instance of any group the job wants at least one of. */
  ghost predicate Unplaceable(e: Evaluation, s: Store) {
    && e.jobId in s.jobs
    && forall i, id | 0 <= i < |s.jobs[e.jobId].taskGroups| && id in s.nodes ::
         var g := s.jobs[e.jobId].taskGroups[i];
         g.count > 0 && NodeEligible(s.nodes[id]) && MeetsConstraints(s.nodes[id], g) ==>
           !Fits(Free(s.nodes[id], s.allocs), Demand(g))
  }

  lemma PlaceGroupGrows(c: Context, g: TaskGroup, policy: Policy, p: Progress, n: nat)
    requires Sensible(policy, g) && DistinctNodes(p.slots) && NonNegative(Demand(g))
    ensures |PlaceGroup(c, g, policy, p, n).allocs| >= |p.allocs|
    ensures |PlaceGroup(c, g, policy, p, n).allocs| == |p.allocs| && n > 0 ==>
              forall i | 0 <= i < |p.slots| :: !Suits(p.slots[i], g)
    ensures |PlaceGroup(c, g, policy, p, n).allocs| == |p.allocs| ==> PlaceGroup(c, g, policy, p, n) == p
  {
    GreedyCount(c, g, policy, p, n);
    if n > 0 && policy(p.slots).Some? {
      TotalRoomAtLeast(p.slots, g, n, policy(p.slots).value);
    }
  }

  lemma {:induction false} NothingPlaced(c: Context, s: Store, groups: seq<TaskGroup>, start: seq<Slot>)
    requires ValidJob(c.job) && ValidSlots(start)
    requires forall i | 0 <= i < |groups| :: ValidGroup(groups[i])
    requires PlaceGroups(c, s, groups, Progress(start, [])).allocs == []
    ensures PlaceGroups(c, s, groups, Progress(start, [])) == Progress(start, [])
    ensures forall i, j | 0 <= i < |groups| && 0 <= j < |start| && groups[i].count > 0 :: !Suits(start[j], groups[i])
  {
    if |groups| == 0 {
    } else {
      var before, g := groups[..|groups| - 1], groups[|groups| - 1];
      var p := PlaceGroups(c, s, before, Progress(start, []));
      assert DistinctNodes(p.slots) by {
        SoundGroups(c, s, before, start);
        TracksDistinct(start, p);
      }
      DemandNonNegative(g.tasks);
      var policy := Rule(g, ScoreBy(g, s));
      RuleSensible(g, ScoreBy(g, s));
      PlaceGroupGrows(c, g, policy, p, Wanted(g));
      assert p.allocs == [] && PlaceGroup(c, g, policy, p, Wanted(g)) == p;
      NothingPlaced(c, s, before, start);
      assert forall i | 0 <= i < |groups| - 1 :: groups[i] == before[i];
    }
  }

  /** Something is wanted exactly when some group has a positive count. */
  lemma {:induction false} WantedIff(groups: seq<TaskGroup>)
    ensures WantedAll(groups) > 0 <==> exists i | 0 <= i < |groups| :: groups[i].count > 0
  {
    if |groups| == 0 {
    } else {
      var before := groups[..|groups| - 1];
      WantedIff(before);
      assert forall i | 0 <= i < |before| :: before[i] == groups[i];
    }
  }

  /** An empty plan for a job that exists means that nothing could have been placed. */
  lemma EmptyPlanMeansUnplaceable(e: Evaluation, s: Store, order: seq<string>)
    requires Kept(s) && Lists(order, s.nodes) && e.jobId in s.jobs
    requires Plan(e, s, order) == []
    ensures Unplaceable(e, s)
  {
    var job := s.jobs[e.jobId];
    var start := StartSlots(s, order);
    StartSlotsFrom(s, order);
    NothingPlaced(Context(e, job), s, job.taskGroups, start);
    forall i, id | && 0 <= i < |job.taskGroups| && id in s.nodes && job.taskGroups[i].count > 0
                   && NodeEligible(s.nodes[id]) && MeetsConstraints(s.nodes[id], job.taskGroups[i])
      ensures !Fits(Free(s.nodes[id], s.allocs), Demand(job.taskGroups[i]))
    {
      StartSlotsCover(s, order, id);
      var j :| 0 <= j < |start| && start[j].node.id == id;
      assert StartsFrom(s, start[j]) && !Suits(start[j], job.taskGroups[i]);
    }
  }
}
