/** The placement engine, as a function of the evaluation, the store and the order in which the node
    table happens to list its nodes. */
module Placement {
  import opened Domain
  import opened StateMachine
  import opened Ids
  import opened Finite

  // ---- Capacity -------------------------------------------------------------------------------

  /** An allocation holds its reservation until it reaches a terminal status. */
  predicate IsLive(a: Allocation) {
    a.clientStatus == Pending || a.clientStatus == Running
  }

  /** What `a` reserves on node `nodeId`. */
  function Share(a: Allocation, nodeId: string): Resources {
    if a.nodeId == nodeId && IsLive(a) then a.resources else ZERO
  }

  /** Total live reservation on a node. */
  ghost function Usage(allocs: map<string, Allocation>, nodeId: string): Resources
    decreases |allocs|
  {
    if |allocs| == 0 then ZERO else
    var k := Pick(allocs);
    assert (allocs - {k}).Keys == allocs.Keys - {k};
    Plus(Usage(allocs - {k}, nodeId), Share(allocs[k], nodeId))
  }

  /** Advertised capacity minus live reservations. */
  ghost function Free(node: Node, allocs: map<string, Allocation>): Resources {
    Minus(node.resources, Usage(allocs, node.id))
  }

  function DemandOf(tasks: seq<Task>): Resources {
    if |tasks| == 0 then ZERO else Plus(DemandOf(tasks[..|tasks| - 1]), tasks[|tasks| - 1].resources)
  }

  function Demand(g: TaskGroup): Resources {
    DemandOf(g.tasks)
  }

  predicate NodeEligible(n: Node) {
    n.status == Ready && n.eligibility == Eligible && !n.draining
  }

  predicate MeetsConstraints(n: Node, g: TaskGroup) {
    forall i | 0 <= i < |g.constraints| :: g.constraints[i].satisfiedBy(n.attributes)
  }

  function Wanted(g: TaskGroup): nat {
    if g.count > 0 then g.count else 0
  }

  function WantedAll(groups: seq<TaskGroup>): nat {
    if |groups| == 0 then 0 else WantedAll(groups[..|groups| - 1]) + Wanted(groups[|groups| - 1])
  }

  /** Instances the evaluation's job wants; none when the job is unknown. */
  function DesiredCount(e: Evaluation, s: Store): nat {
    if e.jobId in s.jobs then WantedAll(s.jobs[e.jobId].taskGroups) else 0
  }

  // ---- Scoring --------------------------------------------------------------------------------

  function AffinityScore(n: Node, affinities: seq<Affinity>): real {
    if |affinities| == 0 then 0.0 else
    var a := affinities[|affinities| - 1];
    AffinityScore(n, affinities[..|affinities| - 1]) + if a.satisfiedBy(n.attributes) then a.weight as real else 0.0
  }

  function Utilization(capacity: int, after: int): real {
    if capacity > 0 then (capacity - after) as real / capacity as real else 0.0
  }

  predicate SomeLeft(after: Resources) {
    after.cpu > 0 || after.memory > 0 || after.network > 0
  }

  /** Prefers fuller nodes, but only while something stays free after the placement. */
  function BinPack(n: Node, after: Resources): real {
    if SomeLeft(after) then
      (Utilization(n.resources.cpu, after.cpu)
       + Utilization(n.resources.memory, after.memory)
       + Utilization(n.resources.network, after.network)) / 3.0 * 50.0
    else 0.0
  }

  function LiveCount(s: Store): nat {
    |set k | k in s.allocs && IsLive(s.allocs[k])|
  }

  predicate LiveOn(s: Store, a: Allocation, attribute: string, value: string) {
    && IsLive(a) && a.nodeId in s.nodes
    && attribute in s.nodes[a.nodeId].attributes && s.nodes[a.nodeId].attributes[attribute] == value
  }

  function LiveOnValue(s: Store, attribute: string, value: string): nat {
    |set k | k in s.allocs && LiveOn(s, s.allocs[k], attribute, value)|
  }

  function TargetPercent(targets: seq<SpreadTarget>, value: string): real {
    if |targets| == 0 then 0.0 else
    var t := targets[|targets| - 1];
    TargetPercent(targets[..|targets| - 1], value) + if t.value == value then t.percent as real else 0.0
  }

  function UniqueValues(s: Store, attribute: string): (n: nat)
    ensures n > 0
  {
    var values := set k | k in s.nodes && attribute in s.nodes[k].attributes :: s.nodes[k].attributes[attribute];
    if |values| == 0 then 1 else |values|
  }

  function SpreadTerm(n: Node, spread: Spread, s: Store): real {
    if spread.attribute !in n.attributes || LiveCount(s) == 0 then 0.0 else
    var value := n.attributes[spread.attribute];
    var current := LiveOnValue(s, spread.attribute, value) as real / LiveCount(s) as real * 100.0;
    var explicit := TargetPercent(spread.targets, value);
    var target := if explicit > 0.0 then explicit else 100.0 / UniqueValues(s, spread.attribute) as real;
    target - current
  }

  function SpreadBonus(n: Node, spreads: seq<Spread>, s: Store): real {
    if |spreads| == 0 then 0.0 else
    SpreadBonus(n, spreads[..|spreads| - 1], s) + SpreadTerm(n, spreads[|spreads| - 1], s)
  }

  /** The part of a node's score that a plan in progress cannot change. */
  function Preference(n: Node, g: TaskGroup, s: Store): real {
    AffinityScore(n, g.affinities) + SpreadBonus(n, g.spreads, s)
  }

  function Score(slot: Slot, g: TaskGroup, s: Store): real {
    Preference(slot.node, g, s) + BinPack(slot.node, Minus(slot.free, Demand(g)))
  }

  function ScoreBy(g: TaskGroup, s: Store): Ranking {
    (slot: Slot) => Score(slot, g, s)
  }

  // ---- Choosing a node ------------------------------------------------------------------------

  /** An eligible node and what is left of it within the plan being built. */
  datatype Slot = Slot(node: Node, free: Resources)

  predicate Suits(slot: Slot, g: TaskGroup) {
    Fits(slot.free, Demand(g)) && MeetsConstraints(slot.node, g)
  }

  /** First-fit among the first `k` slots. */
  function First(slots: seq<Slot>, g: TaskGroup, k: nat): (r: Option<nat>)
    requires k <= |slots|
    ensures r.Some? ==> r.value < k
  {
    if k == 0 then None else
    var r := First(slots, g, k - 1);
    if r.Some? then r else if Suits(slots[k - 1], g) then Some(k - 1) else None
  }

  type Ranking = Slot -> real

  /** Highest ranking among the first `k` slots, the earlier one on a tie. */
  function Best(slots: seq<Slot>, g: TaskGroup, rank: Ranking, k: nat): (r: Option<nat>)
    requires k <= |slots|
    ensures r.Some? ==> r.value < k
  {
    if k == 0 then None else
    var r := Best(slots, g, rank, k - 1);
    if !Suits(slots[k - 1], g) then r
    else if r.None? || rank(slots[k - 1]) > rank(slots[r.value]) then Some(k - 1)
    else r
  }

  predicate Ranked(g: TaskGroup) {
    |g.affinities| > 0 || |g.spreads| > 0
  }

  function Choose(slots: seq<Slot>, g: TaskGroup, rank: Ranking): (r: Option<nat>)
    ensures r.Some? ==> r.value < |slots|
  {
    if Ranked(g) then Best(slots, g, rank, |slots|) else First(slots, g, |slots|)
  }

  /** The first of the first `k` slots whose node has this id. */
  function Locate(slots: seq<Slot>, id: string, k: nat): (r: Option<nat>)
    requires k <= |slots|
    ensures r.Some? ==> r.value < k
  {
    if k == 0 then None else
    var r := Locate(slots, id, k - 1);
    if r.Some? then r else if slots[k - 1].node.id == id then Some(k - 1) else None
  }

  // ---- Building the plan ----------------------------------------------------------------------

  datatype Context = Context(eval: Evaluation, job: Job)

  datatype Progress = Progress(slots: seq<Slot>, allocs: seq<Allocation>)

  function MakeAlloc(c: Context, g: TaskGroup, index: nat, nodeId: string): Allocation {
    Allocation(AllocId(c.eval.id, index), c.eval.id, nodeId, c.job.name, g.name, Run, Pending, Demand(g))
  }

  function Take(slots: seq<Slot>, j: nat, need: Resources): seq<Slot>
    requires j < |slots|
  {
    slots[j := slots[j].(free := Minus(slots[j].free, need))]
  }

  /** The slot charged for an instance on slot `i`; the ranked path looks it up by node id. */
  function Charged(slots: seq<Slot>, g: TaskGroup, i: nat): (r: Option<nat>)
    requires i < |slots|
    ensures r.Some? ==> r.value < |slots|
  {
    if Ranked(g) then Locate(slots, slots[i].node.id, |slots|) else Some(i)
  }

  /** One instance lands on slot `i`. */
  function PlaceOne(c: Context, g: TaskGroup, p: Progress, i: nat): Progress
    requires i < |p.slots|
  {
    match Charged(p.slots, g, i)
    case None => p
    case Some(j) =>
      Progress(Take(p.slots, j, Demand(g)), p.allocs + [MakeAlloc(c, g, |p.allocs|, p.slots[i].node.id)])
  }

  /** A rule for choosing the slot of the next instance. */
  type Policy = seq<Slot> -> Option<nat>

  /** The engine's own rule: first-fit, or ranked when the group states preferences. */
  function Rule(g: TaskGroup, rank: Ranking): Policy {
    (slots: seq<Slot>) => Choose(slots, g, rank)
  }

  /** Up to `n` instances of one group, stopping when the policy finds no slot. */
  function PlaceGroup(c: Context, g: TaskGroup, policy: Policy, p: Progress, n: nat): Progress
    decreases n
  {
    if n == 0 then p else
    match policy(p.slots)
    case None => p
    case Some(i) => if i < |p.slots| then PlaceGroup(c, g, policy, PlaceOne(c, g, p, i), n - 1) else p
  }

  /** The groups in turn, sharing the remaining capacity and ranked by what the store says. */
  function PlaceGroups(c: Context, s: Store, groups: seq<TaskGroup>, p: Progress): Progress {
    if |groups| == 0 then p else
    var g := groups[|groups| - 1];
    PlaceGroup(c, g, Rule(g, ScoreBy(g, s)), PlaceGroups(c, s, groups[..|groups| - 1], p), Wanted(g))
  }

  /** `order` lists every node id of the store once. */
  ghost predicate Lists(order: seq<string>, nodes: map<string, Node>) {
    && (forall i, j | 0 <= i < j < |order| :: order[i] != order[j])
    && (forall i | 0 <= i < |order| :: order[i] in nodes)
    && (forall id | id in nodes :: id in order)
  }

  /** Eligible nodes with their free capacity, in listing order. */
  ghost function StartSlots(s: Store, order: seq<string>): seq<Slot>
    requires forall i | 0 <= i < |order| :: order[i] in s.nodes
  {
    if |order| == 0 then [] else
    var n := s.nodes[order[|order| - 1]];
    StartSlots(s, order[..|order| - 1]) + if NodeEligible(n) then [Slot(n, Free(n, s.allocs))] else []
  }

  /** The plan for one evaluation. */
  ghost function Plan(e: Evaluation, s: Store, order: seq<string>): seq<Allocation>
    requires Lists(order, s.nodes)
  {
    if e.jobId !in s.jobs then [] else
    var job := s.jobs[e.jobId];
    PlaceGroups(Context(e, job), s, job.taskGroups, Progress(StartSlots(s, order), [])).allocs
  }
}
