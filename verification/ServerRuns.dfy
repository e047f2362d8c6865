/** What holds of the server over every run, however RPC handlers interleave with the worker. */
module ServerRuns {
  import opened Domain
  import opened StateMachine
  import opened Finite
  import opened Consensus
  import opened Ids
  import opened Placement
  import opened PlanLaws
  import opened Capacity
  import opened Commit
  import opened Drain
  import opened Server
  import Broker
  import BrokerRuns

  // ---- The broker inside the server -----------------------------------------------------------

  /** The broker operations of a run, in order. */
  ghost function OpsOf(s: Sys, evs: seq<Event>): seq<Broker.Op> {
    if |evs| == 0 then [] else
    var before, ev := After(s, evs[..|evs| - 1]), evs[|evs| - 1];
    OpsOf(s, evs[..|evs| - 1]) +
    if Can(before, ev) then (match OpOf(before, ev) case Some(op) => [op] case None => []) else []
  }

  lemma OpEnabled(s: Sys, ev: Event)
    requires Can(s, ev) && OpOf(s, ev).Some?
    ensures Broker.Can(s.queue, OpOf(s, ev).value)
  { }

  /** Every server run is a broker run, so all broker laws hold inside the server. */
  lemma {:induction false} QueueIsBrokerRun(s: Sys, evs: seq<Event>)
    ensures After(s, evs).queue == BrokerRuns.After(s.queue, OpsOf(s, evs))
  {
    if |evs| == 0 {
    } else {
      var before, ev := After(s, evs[..|evs| - 1]), evs[|evs| - 1];
      var ops := OpsOf(s, evs[..|evs| - 1]);
      QueueIsBrokerRun(s, evs[..|evs| - 1]);
      if Can(before, ev) && OpOf(before, ev).Some? {
        var op := OpOf(before, ev).value;
        OpEnabled(before, ev);
        assert (ops + [op])[..|ops|] == ops;
      } else {
        assert OpsOf(s, evs) == ops;
      }
    }
  }

  // ---- State invariant ------------------------------------------------------------------------

  ghost predicate StoreInv(s: Store) {
    Kept(s) && NoNegativeReservation(s.allocs)
  }

  /** Plans in the worker's hands were made by the engine, and a landed one was committed in full. */
  ghost predicate PhaseInv(p: Phase) {
    && (p.Planned? ==> MadeFor(p.plan, p.eval))
    && (p.Landed? ==> p.committed)
  }

  ghost predicate SysInv(s: Sys) {
    && s.raft.role == Leader
    && Replicated(s.raft)
    && StoreInv(s.raft.store)
    && PhaseInv(s.phase)
  }

  lemma MadeForValid(plan: seq<Allocation>, e: Evaluation)
    requires MadeFor(plan, e)
    ensures NonNegativePlan(plan) && forall k | 0 <= k < |plan| :: ValidAlloc(plan[k])
  {
    forall k | 0 <= k < |plan| ensures ValidAlloc(plan[k]) && NonNegative(plan[k].resources) {
      assert WellMade(plan[k], e, k);
    }
  }

  lemma AllocProposed(r: Raft, a: Allocation)
    requires r.role == Leader && ValidAlloc(a)
    ensures Proposed(r, UpsertAlloc(a)) ==
            (r.(log := r.log + [UpsertAlloc(a)], store := r.store.(allocs := r.store.allocs[a.id := a])), Ok(()))
  { }

  /** On the leader a plan made by the engine commits in full, whatever the store has become since. */
  lemma {:induction false} ProposePlanCommits(r: Raft, plan: seq<Allocation>)
    requires r.role == Leader && Replicated(r) && forall k | 0 <= k < |plan| :: ValidAlloc(plan[k])
    ensures var (t, ok) := ProposePlan(r, plan);
            ok && t.role == Leader && Replicated(t) && t.store == Committed(r.store, plan)
  {
    hide Replicated, Proposed;
    if |plan| == 0 {
    } else {
      var n := |plan| - 1;
      ProposePlanCommits(r, plan[..n]);
      var before := ProposePlan(r, plan[..n]).0;
      ProposeReplicated(before, UpsertAlloc(plan[n]));
      AllocProposed(before, plan[n]);
    }
  }

  lemma CommitStepInv(s: Sys)
    requires SysInv(s) && s.phase.Planned?
    ensures SysInv(Next(s, CommitPlan))
    ensures Next(s, CommitPlan).raft.store == Committed(s.raft.store, s.phase.plan)
  {
    MadeForValid(s.phase.plan, s.phase.eval);
    ProposePlanCommits(s.raft, s.phase.plan);
    StoredKept(s.raft.store, s.phase.plan);
    StoredNonNegative(s.raft.store.allocs, s.phase.plan);
  }

  lemma WriteStepInv(s: Sys, c: Command)
    requires SysInv(s) && RpcCommand(c)
    ensures SysInv(Next(s, Write(c)))
  {
    ProposeReplicated(s.raft, c);
    OfferKept(s.raft.store, c);
  }

  lemma StepInv(s: Sys, ev: Event)
    requires SysInv(s)
    ensures SysInv(Step(s, ev))
  {
    hide Replicated, Kept, NoNegativeReservation, MadeFor, Plan, ProposePlan, Proposed;
    if Can(s, ev) {
      match ev
      case Write(c) => WriteStepInv(s, c);
      case MakePlan(order) => PlanMade(s.phase.eval, s.raft.store, order);
      case CommitPlan => CommitStepInv(s);
      case _ =>
    }
  }

  /** In every reachable server state: the store is the replay of the log with nothing rejected, every
      entity is valid and under its own id, no reservation is negative, and no commit of a plan has
      failed, so the worker's negative acknowledgement is never taken. */
  lemma {:induction false} RunInv(evs: seq<Event>)
    ensures SysInv(After(START, evs))
  {
    if |evs| == 0 {
    } else {
      RunInv(evs[..|evs| - 1]);
      StepInv(After(START, evs[..|evs| - 1]), evs[|evs| - 1]);
    }
  }

  // ---- Capacity -------------------------------------------------------------------------------

  ghost predicate HasLive(allocs: map<string, Allocation>, nodeId: string) {
    exists k | k in allocs :: allocs[k].nodeId == nodeId && IsLive(allocs[k])
  }

  /** If anything is live on the node, the node is registered and its reservations are within the
      capacity it advertises. */
  ghost predicate Safe(s: Store, nodeId: string) {
    HasLive(s.allocs, nodeId) ==>
      nodeId in s.nodes && Fits(s.nodes[nodeId].resources, Usage(s.allocs, nodeId))
  }

  /** The plan puts something on the node, and the node's record does not cover what is then live. */
  ghost predicate Overcommits(s: Store, plan: seq<Allocation>, nodeId: string) {
    && Touches(plan, nodeId)
    && (nodeId in s.nodes ==> !Fits(s.nodes[nodeId].resources, Usage(Stored(s.allocs, plan), nodeId)))
  }

  /** The step takes the node over its capacity: a re-registration offers less than what is live on it,
      or a commit adds to it more than its record then covers. */
  ghost predicate Overloads(s: Sys, ev: Event, nodeId: string) {
    var store := s.raft.store;
    match ev
    case Write(UpsertNode(node)) =>
      && node.id == nodeId && ValidNode(node)
      && HasLive(store.allocs, nodeId) && !Fits(node.resources, Usage(store.allocs, nodeId))
    case CommitPlan => s.phase.Planned? && Overcommits(store, s.phase.plan, nodeId)
    case _ => false
  }

  ghost predicate NeverOverloaded(s: Sys, evs: seq<Event>, nodeId: string) {
    |evs| == 0 ||
    (NeverOverloaded(s, evs[..|evs| - 1], nodeId) && !Overloads(After(s, evs[..|evs| - 1]), evs[|evs| - 1], nodeId))
  }

  /** The node is within capacity at every point of the run. */
  ghost predicate AlwaysSafe(s: Sys, evs: seq<Event>, nodeId: string) {
    Safe(After(s, evs).raft.store, nodeId) && (|evs| == 0 || AlwaysSafe(s, evs[..|evs| - 1], nodeId))
  }

  lemma {:induction false} StoredLive(allocs: map<string, Allocation>, plan: seq<Allocation>, nodeId: string)
    requires HasLive(Stored(allocs, plan), nodeId) && !Touches(plan, nodeId)
    ensures HasLive(allocs, nodeId)
  {
    if |plan| == 0 {
    } else {
      var n := |plan| - 1;
      var before := Stored(allocs, plan[..n]);
      var k :| k in Stored(allocs, plan) && Stored(allocs, plan)[k].nodeId == nodeId && IsLive(Stored(allocs, plan)[k]);
      assert plan[n].nodeId != nodeId;
      assert k in before && before[k].nodeId == nodeId && IsLive(before[k]);
      assert forall i | 0 <= i < n :: plan[..n][i] == plan[i];
      StoredLive(allocs, plan[..n], nodeId);
    }
  }

  /** No allocation of a plan overwrites another one of it. */
  lemma {:induction false} StoredHolds(allocs: map<string, Allocation>, plan: seq<Allocation>, e: Evaluation, k: nat)
    requires MadeFor(plan, e) && k < |plan|
    ensures plan[k].id in Stored(allocs, plan) && Stored(allocs, plan)[plan[k].id] == plan[k]
  {
    var n := |plan| - 1;
    assert WellMade(plan[k], e, k) && WellMade(plan[n], e, n);
    if k < n {
      StoredHolds(allocs, plan[..n], e, k);
      if plan[k].id == plan[n].id { AllocIdInjective(e.id, k, e.id, n); }
    }
  }

  lemma StoredTouched(allocs: map<string, Allocation>, plan: seq<Allocation>, e: Evaluation, nodeId: string)
    requires MadeFor(plan, e) && Touches(plan, nodeId)
    ensures HasLive(Stored(allocs, plan), nodeId)
  {
    var k :| 0 <= k < |plan| && plan[k].nodeId == nodeId;
    StoredHolds(allocs, plan, e, k);
    assert WellMade(plan[k], e, k);
  }

  lemma InvPlanned(s: Sys)
    requires SysInv(s) && s.phase.Planned?
    ensures MadeFor(s.phase.plan, s.phase.eval) && NoNegativeReservation(s.raft.store.allocs)
  { }

  lemma StoredUntouched(allocs: map<string, Allocation>, plan: seq<Allocation>, nodeId: string)
    requires NoNegativeReservation(allocs) && NonNegativePlan(plan) && !Touches(plan, nodeId)
    ensures Fits(Usage(allocs, nodeId), Usage(Stored(allocs, plan), nodeId))
  {
    StoredUsage(allocs, plan, nodeId);
    PlanUseUntouched(plan, nodeId);
  }

  lemma CommitSafeIff(s: Sys, nodeId: string)
    requires SysInv(s) && s.phase.Planned? && Safe(s.raft.store, nodeId)
    ensures Safe(Next(s, CommitPlan).raft.store, nodeId) <==> !Overloads(s, CommitPlan, nodeId)
  {
    var store, plan := s.raft.store, s.phase.plan;
    CommitStepInv(s);
    InvPlanned(s);
    MadeForValid(plan, s.phase.eval);
    hide SysInv, Stored, HasLive, Touches, Usage, Next;
    if Touches(plan, nodeId) {
      StoredTouched(store.allocs, plan, s.phase.eval, nodeId);
    } else {
      StoredUntouched(store.allocs, plan, nodeId);
      if HasLive(Stored(store.allocs, plan), nodeId) { StoredLive(store.allocs, plan, nodeId); }
    }
  }

  lemma WriteKeeps(s: Sys, c: Command)
    requires RpcCommand(c)
    ensures var before, after := s.raft.store, Next(s, Write(c)).raft.store;
            && after.allocs == before.allocs
            && after.nodes == if c.UpsertNode? && ValidNode(c.node) && s.raft.role == Leader
                              then before.nodes[c.node.id := c.node] else before.nodes
  { }

  lemma WriteSafeIff(s: Sys, c: Command, nodeId: string)
    requires Safe(s.raft.store, nodeId) && RpcCommand(c) && s.raft.role == Leader
    ensures Safe(Next(s, Write(c)).raft.store, nodeId) <==> !Overloads(s, Write(c), nodeId)
  {
    WriteKeeps(s, c);
    hide HasLive, Usage, RaftAfter;
  }

  /** From a state where the node is within capacity, a step leaves it so exactly unless it overloads it. */
  lemma StepSafeIff(s: Sys, ev: Event, nodeId: string)
    requires SysInv(s) && Safe(s.raft.store, nodeId)
    ensures Safe(Step(s, ev).raft.store, nodeId) <==> !(Can(s, ev) && Overloads(s, ev, nodeId))
  {
    if Can(s, ev) {
      match ev
      case Write(c) => WriteSafeIff(s, c, nodeId);
      case CommitPlan => CommitSafeIff(s, nodeId);
      case _ =>
    }
  }

  lemma OverloadsCan(s: Sys, ev: Event, nodeId: string)
    requires Overloads(s, ev, nodeId)
    ensures Can(s, ev)
  { }

  lemma AlwaysSafeNow(s: Sys, evs: seq<Event>, nodeId: string)
    ensures AlwaysSafe(s, evs, nodeId) ==> Safe(After(s, evs).raft.store, nodeId)
  { }

  lemma AfterLast(s: Sys, evs: seq<Event>)
    requires |evs| > 0
    ensures After(s, evs) == Step(After(s, evs[..|evs| - 1]), evs[|evs| - 1])
  { }

  /** Capacity safety over every run, exactly. Whatever is redelivered and whatever RPC handlers write
      between planning and committing, a node is within the capacity it advertises at every point of the
      run if and only if no re-registration undercuts what is live on it and no commit finds a record
      that does not cover the node's reservations with the plan in place. */
  lemma {:induction false} CapacityOverRuns(evs: seq<Event>, nodeId: string)
    ensures AlwaysSafe(START, evs, nodeId) <==> NeverOverloaded(START, evs, nodeId)
  {
    if |evs| == 0 {
    } else {
      var before, ev := evs[..|evs| - 1], evs[|evs| - 1];
      CapacityOverRuns(before, nodeId);
      RunInv(before);
      AlwaysSafeNow(START, before, nodeId);
      var s := After(START, before);
      hide SysInv, Safe, Overloads, After;
      if AlwaysSafe(START, before, nodeId) {
        StepSafeIff(s, ev, nodeId);
        if Overloads(s, ev, nodeId) { OverloadsCan(s, ev, nodeId); }
      }
      AfterLast(START, evs);
    }
  }

  /** Re-registering a node keeps the invariant, the plan and every reservation. */
  lemma Reregister(s: Sys, node: Node)
    requires SysInv(s) && ValidNode(node)
    ensures var t := Step(s, Write(UpsertNode(node)));
            && SysInv(t) && t.phase == s.phase
            && t.raft.store.allocs == s.raft.store.allocs
            && t.raft.store.nodes == s.raft.store.nodes[node.id := node]
  {
    WriteKeeps(s, UpsertNode(node));
    WriteStepInv(s, UpsertNode(node));
  }

  lemma KeptNode(s: Sys, id: string)
    requires SysInv(s) && id in s.raft.store.nodes
    ensures s.raft.store.nodes[id].id == id && ValidNode(s.raft.store.nodes[id])
  { }

  /** Spelled out: in a run without overloads, whenever something is pending or running on a node, the node
      is registered and no resource is reserved on it, in total, beyond what it has. */
  lemma CapacityPerResource(evs: seq<Event>, nodeId: string, k: string, kind: Kind)
    requires NeverOverloaded(START, evs, nodeId)
    requires var allocs := After(START, evs).raft.store.allocs;
             && k in allocs && allocs[k].nodeId == nodeId
             && (allocs[k].clientStatus == Pending || allocs[k].clientStatus == Running)
    ensures var s := After(START, evs).raft.store;
            nodeId in s.nodes && Total(Held(s.allocs, nodeId, kind)) <= In(s.nodes[nodeId].resources, kind)
  {
    var s := After(START, evs).raft.store;
    CapacityOverRuns(evs, nodeId);
    AlwaysSafeNow(START, evs, nodeId);
    RunInv(evs);
    assert HasLive(s.allocs, nodeId);
    KeptNode(After(START, evs), nodeId);
    hide SysInv, Held, Total, Usage;
    WithinIff(s.allocs, s.nodes[nodeId]);
  }

  // ---- What an overcommit takes ---------------------------------------------------------------

  /** The step re-registers the node with less of something than it had. */
  ghost predicate Shrinks(s: Sys, ev: Event, nodeId: string) {
    && ev.Write? && ev.command.UpsertNode? && ev.command.node.id == nodeId && ValidNode(ev.command.node)
    && nodeId in s.raft.store.nodes
    && !Fits(ev.command.node.resources, s.raft.store.nodes[nodeId].resources)
  }

  /** Some step since the last plan was made shrinks the node. */
  ghost predicate ShrunkSincePlan(s: Sys, evs: seq<Event>, nodeId: string) {
    && |evs| > 0
    && var before, ev := After(s, evs[..|evs| - 1]), evs[|evs| - 1];
       && !(ev.MakePlan? && Can(before, ev))
       && (Shrinks(before, ev, nodeId) || ShrunkSincePlan(s, evs[..|evs| - 1], nodeId))
  }

  /** Until the node shrinks, the plan in the worker's hands fits on it. */
  ghost predicate PlanStillFits(s: Sys, nodeId: string) {
    s.phase.Planned? ==> FitsOn(s.raft.store, s.phase.plan, nodeId)
  }

  lemma WriteStillFits(s: Sys, c: Command, nodeId: string)
    requires PlanStillFits(s, nodeId) && RpcCommand(c) && !Shrinks(s, Write(c), nodeId)
    ensures PlanStillFits(Next(s, Write(c)), nodeId)
  {
    WriteKeeps(s, c);
    hide Touches, Usage, PlanUse, RaftAfter;
  }

  lemma StepStillFits(s: Sys, ev: Event, nodeId: string)
    requires SysInv(s) && ((PlanStillFits(s, nodeId) && !Shrinks(s, ev, nodeId)) || (ev.MakePlan? && Can(s, ev)))
    ensures PlanStillFits(Step(s, ev), nodeId)
  {
    if Can(s, ev) {
      match ev
      case Write(c) => WriteStillFits(s, c, nodeId);
      case MakePlan(order) => PlanFits(s.phase.eval, s.raft.store, order);
      case _ =>
    }
  }

  lemma {:induction false} RunStillFits(evs: seq<Event>, nodeId: string)
    requires !ShrunkSincePlan(START, evs, nodeId)
    ensures PlanStillFits(After(START, evs), nodeId)
  {
    if |evs| == 0 {
    } else {
      var before, ev := evs[..|evs| - 1], evs[|evs| - 1];
      RunInv(before);
      if !(ev.MakePlan? && Can(After(START, before), ev)) { RunStillFits(before, nodeId); }
      StepStillFits(After(START, before), ev, nodeId);
    }
  }

  /** A commit overloads a node only if the node was re-registered with less after the plan was made. */
  lemma OvercommitNeedsShrink(evs: seq<Event>, nodeId: string)
    requires Overloads(After(START, evs), CommitPlan, nodeId)
    ensures ShrunkSincePlan(START, evs, nodeId)
  {
    var s := After(START, evs);
    RunInv(evs);
    InvPlanned(s);
    MadeForValid(s.phase.plan, s.phase.eval);
    if !ShrunkSincePlan(START, evs, nodeId) {
      RunStillFits(evs, nodeId);
      StoredFits(s.raft.store, s.phase.plan, nodeId);
    }
  }

  /** And it really does so: if the ids of the plan are new, re-registering the node before the commit
      takes it over capacity exactly when it offers less than what is live plus what the plan adds. */
  lemma ShrinkOvercommits(s: Sys, node: Node)
    requires SysInv(s) && ValidNode(node) && s.phase.Planned? && Touches(s.phase.plan, node.id)
    requires forall k: nat :: AllocId(s.phase.eval.id, k) !in s.raft.store.allocs
    ensures var done := After(s, [Write(UpsertNode(node)), CommitPlan]);
            var need := Plus(Usage(s.raft.store.allocs, node.id), PlanUse(s.phase.plan, node.id));
            Safe(done.raft.store, node.id) <==> Fits(node.resources, need)
  {
    hide SysInv, Stored, HasLive, Usage, PlanUse, MadeFor, After, RaftAfter, PhaseAfter, OpOf;
    var plan, allocs := s.phase.plan, s.raft.store.allocs;
    AfterTwo(s, Write(UpsertNode(node)), CommitPlan);
    Reregister(s, node);
    var ready := Step(s, Write(UpsertNode(node)));
    CommitStepInv(ready);
    InvPlanned(s);
    StoredTouched(allocs, plan, s.phase.eval, node.id);
    StoredFresh(allocs, plan, s.phase.eval, node.id);
  }

  lemma AfterSnoc(s: Sys, evs: seq<Event>, ev: Event)
    ensures After(s, evs + [ev]) == Step(After(s, evs), ev)
  {
    assert (evs + [ev])[..|evs|] == evs;
  }

  /** The node and the job are registered, and the job's evaluation reaches the worker. */
  lemma ReachHolding(node: Node, job: Job, e: Evaluation) returns (evs: seq<Event>)
    requires ValidNode(node) && ValidJob(job)
    ensures var s := After(START, evs);
            && s.phase == Holding(e)
            && s.raft.store == EMPTY.(jobs := map[job.name := job], nodes := map[node.id := node])
  {
    hide After;
    evs := [];
    assert After(START, evs) == START by { AfterNone(START); }
    var w, j, t := Write(UpsertNode(node)), Write(UpsertJob(job)), Touch(Broker.Enqueue(e));
    AfterSnoc(START, evs, w);
    evs := evs + [w];
    AfterSnoc(START, evs, j);
    evs := evs + [j];
    AfterSnoc(START, evs, t);
    evs := evs + [t];
    AfterSnoc(START, evs, Sweep([], 0));
    evs := evs + [Sweep([], 0)];
    AfterSnoc(START, evs, Fetch(0, 0));
    evs := evs + [Fetch(0, 0)];
  }

  lemma OneReservation(a: Allocation)
    requires IsLive(a)
    ensures Touches([a], a.nodeId) && PlanUse([a], a.nodeId) == a.resources
  {
    assert [a][0].nodeId == a.nodeId && PlanUse([a][..0], a.nodeId) == ZERO;
  }

  lemma OvercommitPlan(s: Sys, e: Evaluation, job: Job, g: TaskGroup, node: Node)
    requires s.phase == Holding(e) && e.jobId == job.name && job.taskGroups == [g] && NodeEligible(node)
    requires s.raft.store == EMPTY.(jobs := map[job.name := job], nodes := map[node.id := node])
    requires g == PlainGroup("group", Resources(1, 0, 0)) && node.resources == Resources(1, 0, 0)
    ensures Can(s, MakePlan([node.id]))
    ensures var planned := Step(s, MakePlan([node.id]));
            && planned.raft == s.raft && planned.phase.Planned? && planned.phase.eval == e
            && Touches(planned.phase.plan, node.id) && PlanUse(planned.phase.plan, node.id) == Resources(1, 0, 0)
            && Usage(s.raft.store.allocs, node.id) == ZERO
  {
    hide Plan, Free, Demand, PlanUse, Touches, Usage, Lists;
    PlainDemand("group", Resources(1, 0, 0));
    FreeWhenEmpty(node);
    PlanOfOne(e, s.raft.store, node.id, g);
    OneReservation(MakeAlloc(Context(e, job), g, 0, node.id));
  }

  /** So the code does over-commit: a node with one cpu is planned for, re-registers with none before the
      commit, and the instance lands on it all the same. */
  lemma OvercommitHappens() returns (evs: seq<Event>, nodeId: string)
    ensures !Safe(After(START, evs).raft.store, nodeId)
  {
    var one := Resources(1, 0, 0);
    var g := PlainGroup("group", one);
    var job, node := Job("job", ["dc"], [g], 50), PlainNode("x", one);
    var e := RegisterEval(job, 0);
    evs := ReachHolding(node, job, e);
    nodeId := "x";
    var s := After(START, evs);
    OvercommitPlan(s, e, job, g, node);
    hide After, Can, Plan;
    RunInv(evs);
    var planned := Step(s, MakePlan(["x"]));
    var none := PlainNode("x", ZERO);
    AfterSnoc(START, evs, MakePlan(["x"]));
    evs := evs + [MakePlan(["x"])];
    RunInv(evs);
    ShrinkOvercommits(planned, none);
    AfterTwo(planned, Write(UpsertNode(none)), CommitPlan);
    AfterSnoc(START, evs, Write(UpsertNode(none)));
    evs := evs + [Write(UpsertNode(none))];
    AfterSnoc(START, evs, CommitPlan);
    evs := evs + [CommitPlan];
  }

  // ---- A condition on re-registrations alone --------------------------------------------------

  /** The step re-registers the node with too little for what is live on it, or for that together with
      what the plan in the worker's hands is about to add. */
  ghost predicate LeavesShort(s: Sys, ev: Event, nodeId: string) {
    && ev.Write? && ev.command.UpsertNode? && ev.command.node.id == nodeId && ValidNode(ev.command.node)
    && var store, offered := s.raft.store, ev.command.node.resources;
       || (HasLive(store.allocs, nodeId) && !Fits(offered, Usage(store.allocs, nodeId)))
       || (s.phase.Planned? && Touches(s.phase.plan, nodeId)
           && !Fits(offered, Plus(Usage(store.allocs, nodeId), PlanUse(s.phase.plan, nodeId))))
  }

  ghost predicate NeverLeftShort(s: Sys, evs: seq<Event>, nodeId: string) {
    |evs| == 0 ||
    (NeverLeftShort(s, evs[..|evs| - 1], nodeId) && !LeavesShort(After(s, evs[..|evs| - 1]), evs[|evs| - 1], nodeId))
  }

  lemma WriteFits(s: Sys, c: Command, nodeId: string)
    requires PlanStillFits(s, nodeId) && RpcCommand(c) && !LeavesShort(s, Write(c), nodeId)
    ensures PlanStillFits(Next(s, Write(c)), nodeId) && !Overloads(s, Write(c), nodeId)
  {
    WriteKeeps(s, c);
    hide HasLive, Touches, Usage, PlanUse, RaftAfter;
  }

  lemma CommitFits(s: Sys, nodeId: string)
    requires SysInv(s) && s.phase.Planned? && PlanStillFits(s, nodeId)
    ensures !Overloads(s, CommitPlan, nodeId)
  {
    InvPlanned(s);
    MadeForValid(s.phase.plan, s.phase.eval);
    StoredFits(s.raft.store, s.phase.plan, nodeId);
  }

  lemma StepFits(s: Sys, ev: Event, nodeId: string)
    requires SysInv(s) && PlanStillFits(s, nodeId) && !LeavesShort(s, ev, nodeId)
    ensures PlanStillFits(Step(s, ev), nodeId) && !Overloads(s, ev, nodeId)
  {
    if Can(s, ev) {
      match ev
      case Write(c) => WriteFits(s, c, nodeId);
      case MakePlan(order) => PlanFits(s.phase.eval, s.raft.store, order);
      case CommitPlan => CommitFits(s, nodeId);
      case _ =>
    } else if Overloads(s, ev, nodeId) {
      OverloadsCan(s, ev, nodeId);
    }
  }

  lemma {:induction false} NeverShortFits(evs: seq<Event>, nodeId: string)
    requires NeverLeftShort(START, evs, nodeId)
    ensures NeverOverloaded(START, evs, nodeId) && PlanStillFits(After(START, evs), nodeId)
  {
    if |evs| == 0 {
    } else {
      var before := evs[..|evs| - 1];
      NeverShortFits(before, nodeId);
      RunInv(before);
      StepFits(After(START, before), evs[|evs| - 1], nodeId);
    }
  }

  /** Enough for capacity safety, and a matter of re-registrations alone: none of them offers less than
      what is live together with what the pending plan adds. */
  lemma NeverShortIsSafe(evs: seq<Event>, nodeId: string)
    requires NeverLeftShort(START, evs, nodeId)
    ensures AlwaysSafe(START, evs, nodeId)
  {
    NeverShortFits(evs, nodeId);
    CapacityOverRuns(evs, nodeId);
  }

  lemma AlwaysSafeThrice(s: Sys, a: Event, b: Event, c: Event, nodeId: string)
    requires Safe(s.raft.store, nodeId) && Safe(Step(s, a).raft.store, nodeId)
    requires Safe(Step(Step(s, a), b).raft.store, nodeId) && Safe(Step(Step(Step(s, a), b), c).raft.store, nodeId)
    ensures AlwaysSafe(s, [a, b, c], nodeId)
  {
    hide Safe, Step;
    assert [a, b, c][..2] == [a, b] && [a, b][..1] == [a] && [a][..0] == [];
    assert After(s, []) == s && AlwaysSafe(s, [], nodeId);
    assert After(s, [a]) == Step(s, a) && AlwaysSafe(s, [a], nodeId);
    assert After(s, [a, b]) == Step(Step(s, a), b) && AlwaysSafe(s, [a, b], nodeId);
  }

  /** It is not necessary: a node with nothing live that re-registers too small for the pending plan, and
      with its old record again before the commit, is within capacity throughout. */
  lemma ShrinkAndGrowBack(s: Sys, small: Node)
    requires SysInv(s) && s.phase.Planned? && PlanStillFits(s, small.id)
    requires !HasLive(s.raft.store.allocs, small.id) && small.id in s.raft.store.nodes
    requires LeavesShort(s, Write(UpsertNode(small)), small.id)
    ensures var back := s.raft.store.nodes[small.id];
            AlwaysSafe(s, [Write(UpsertNode(small)), Write(UpsertNode(back)), CommitPlan], small.id)
  {
    hide SysInv, HasLive, Usage, PlanUse, Touches, Step, AlwaysSafe;
    var back := s.raft.store.nodes[small.id];
    var a, b := Write(UpsertNode(small)), Write(UpsertNode(back));
    KeptNode(s, small.id);
    Reregister(s, small);
    Reregister(Step(s, a), back);
    var ready := Step(Step(s, a), b);
    assert ready.raft.store.nodes == s.raft.store.nodes;
    assert PlanStillFits(ready, small.id);
    CommitFits(ready, small.id);
    StepSafeIff(ready, CommitPlan, small.id);
    AlwaysSafeThrice(s, a, b, CommitPlan, small.id);
  }

  /** Registering with at least as much of everything never leaves a node short. */
  lemma GrowingIsEnough(s: Sys, node: Node)
    requires Safe(s.raft.store, node.id) && PlanStillFits(s, node.id)
    requires node.id in s.raft.store.nodes && Fits(node.resources, s.raft.store.nodes[node.id].resources)
    ensures !LeavesShort(s, Write(UpsertNode(node)), node.id)
  { }

  /** What RPC handlers can do between two worker steps. */
  ghost predicate OnlyRpc(evs: seq<Event>) {
    forall i | 0 <= i < |evs| :: evs[i].Write? || evs[i].Touch?
  }

  lemma {:induction false} RpcKeepsAllocs(s: Sys, evs: seq<Event>)
    requires OnlyRpc(evs)
    ensures After(s, evs).raft.store.allocs == s.raft.store.allocs
    ensures After(s, evs).phase == s.phase
  {
    if |evs| == 0 {
    } else {
      RpcKeepsAllocs(s, evs[..|evs| - 1]);
    }
  }

  ghost predicate SameRecord(s: Store, t: Store, nodeId: string) {
    nodeId in s.nodes && nodeId in t.nodes && s.nodes[nodeId] == t.nodes[nodeId]
  }

  ghost predicate FitsNow(s: Store, nodeId: string) {
    nodeId in s.nodes && Fits(s.nodes[nodeId].resources, Usage(s.allocs, nodeId))
  }

  lemma {:induction false} ReachedInv(s: Sys, evs: seq<Event>)
    requires SysInv(s)
    ensures SysInv(After(s, evs))
  {
    if |evs| == 0 {
    } else {
      ReachedInv(s, evs[..|evs| - 1]);
      StepInv(After(s, evs[..|evs| - 1]), evs[|evs| - 1]);
    }
  }

  /** Capacity under interleaving, from any reachable state: plan, let RPC handlers do anything, commit.
      Every node the plan touches whose record was not changed in between is within capacity. */
  lemma InterleavedCommit(past: seq<Event>, order: seq<string>, rpc: seq<Event>, nodeId: string)
    requires Can(After(START, past), MakePlan(order)) && OnlyRpc(rpc)
    ensures var s := After(START, past);
            var planned := Next(s, MakePlan(order));
            var ready := After(planned, rpc);
            && Can(ready, CommitPlan)
            && var done := Next(ready, CommitPlan);
               && done.phase.Landed? && done.phase.committed
               && (Touches(planned.phase.plan, nodeId) && SameRecord(s.raft.store, ready.raft.store, nodeId) ==>
                     FitsNow(done.raft.store, nodeId))
  {
    var s := After(START, past);
    var planned := Next(s, MakePlan(order));
    var ready := After(planned, rpc);
    RunInv(past);
    PlanFits(s.phase.eval, s.raft.store, order);
    RpcKeepsAllocs(planned, rpc);
    ReachedInv(planned, rpc);
    CommitStepInv(ready);
    MadeForValid(ready.phase.plan, ready.phase.eval);
    assert FitsOn(s.raft.store, planned.phase.plan, nodeId);
    if Touches(planned.phase.plan, nodeId) && SameRecord(s.raft.store, ready.raft.store, nodeId) {
      StoredFits(ready.raft.store, ready.phase.plan, nodeId);
    }
  }

  /** An evaluation the worker parks could not have been placed when it was planned (or its job was not
      known then), whatever RPC handlers did before and after the commit. */
  lemma ParkedWasUnplaceable(past: seq<Event>, order: seq<string>, rpc: seq<Event>, more: seq<Event>)
    requires Can(After(START, past), MakePlan(order)) && OnlyRpc(rpc) && OnlyRpc(more)
    ensures var s := After(START, past);
            var ready := After(Next(s, MakePlan(order)), rpc);
            && Can(ready, CommitPlan)
            && var landed := After(Next(ready, CommitPlan), more);
               && Can(landed, Decide)
               && (Next(landed, Decide).phase.Parking? ==>
                     s.phase.eval.jobId !in s.raft.store.jobs || Unplaceable(s.phase.eval, s.raft.store))
  {
    var s := After(START, past);
    var planned := Next(s, MakePlan(order));
    RunInv(past);
    PlanMade(s.phase.eval, s.raft.store, order);
    RpcKeepsAllocs(planned, rpc);
    var ready := After(planned, rpc);
    ReachedInv(planned, rpc);
    CommitStepInv(ready);
    RpcKeepsAllocs(Next(ready, CommitPlan), more);
    if planned.phase.plan == [] && s.phase.eval.jobId in s.raft.store.jobs {
      EmptyPlanMeansUnplaceable(s.phase.eval, s.raft.store, order);
    }
  }

  // ---- Parked evaluations ---------------------------------------------------------------------

  /** Broker requests only: nothing is written. */
  ghost predicate OnlyTouch(evs: seq<Event>) {
    forall i | 0 <= i < |evs| :: evs[i].Touch?
  }

  lemma {:induction false} TouchKeeps(s: Sys, evs: seq<Event>)
    requires OnlyTouch(evs)
    ensures After(s, evs).raft == s.raft && After(s, evs).phase == s.phase
  {
    if |evs| == 0 {
    } else {
      TouchKeeps(s, evs[..|evs| - 1]);
    }
  }

  lemma InvKept(s: Sys)
    requires SysInv(s)
    ensures Kept(s.raft.store)
  { }

  lemma CommitLands(s: Sys)
    requires SysInv(s) && s.phase.Planned?
    ensures Next(s, CommitPlan).phase == Landed(s.phase.eval, s.phase.plan, true)
  {
    CommitStepInv(s);
  }

  lemma NothingToCommit(s: Sys)
    requires s.phase.Planned? && s.phase.plan == []
    ensures Next(s, CommitPlan) == s.(phase := Landed(s.phase.eval, [], true))
  { }

  /** If nothing is written between planning and parking, an evaluation cannot be placed at the moment it
      is parked either. */
  lemma ParkedIsUnplaceable(past: seq<Event>, order: seq<string>, a: seq<Event>, b: seq<Event>, c: seq<Event>)
    requires Can(After(START, past), MakePlan(order)) && OnlyTouch(a) && OnlyTouch(b) && OnlyTouch(c)
    ensures var ready := After(Next(After(START, past), MakePlan(order)), a);
            && Can(ready, CommitPlan)
            && var landed := After(Next(ready, CommitPlan), b);
               && Can(landed, Decide)
               && var decided := After(Next(landed, Decide), c);
                  decided.phase.Parking? ==>
                    Can(decided, Park) && Unplaceable(decided.phase.eval, Next(decided, Park).raft.store)
  {
    hide SysInv, Plan, Unplaceable;
    var s := After(START, past);
    var planned := Next(s, MakePlan(order));
    RunInv(past);
    InvKept(s);
    StepInv(s, MakePlan(order));
    TouchKeeps(planned, a);
    var ready := After(planned, a);
    ReachedInv(planned, a);
    CommitLands(ready);
    TouchKeeps(Next(ready, CommitPlan), b);
    var landed := After(Next(ready, CommitPlan), b);
    TouchKeeps(Next(landed, Decide), c);
    if Next(landed, Decide).phase.Parking? {
      NothingToCommit(ready);
      EmptyPlanMeansUnplaceable(s.phase.eval, s.raft.store, order);
    }
  }

  lemma PlanOnNodes(e: Evaluation, s: Store, order: seq<string>, k: nat)
    requires Kept(s) && Lists(order, s.nodes) && k < |Plan(e, s, order)|
    ensures Plan(e, s, order)[k].nodeId in s.nodes
  {
    var plan := Plan(e, s, order);
    PlanFits(e, s, order);
    assert Touches(plan, plan[k].nodeId) && FitsOn(s, plan, plan[k].nodeId);
  }

  /** With no node registered the plan is empty. */
  lemma PlanOfNone(e: Evaluation, s: Store)
    requires s.nodes == map[] && Kept(s)
    ensures Lists([], s.nodes) && Plan(e, s, []) == []
  {
    if Plan(e, s, []) != [] { PlanOnNodes(e, s, [], 0); }
  }

  /** A job of one small instance, and a node with room for it. */
  function SmallJob(): Job {
    Job("job", ["dc"], [PlainGroup("group", Resources(1, 0, 0))], 50)
  }

  lemma SmallJobFits(e: Evaluation, s: Store)
    requires e.jobId == "job" && s.jobs == map["job" := SmallJob()] && s.allocs == map[]
    requires s.nodes == map["x" := PlainNode("x", Resources(1, 0, 0))]
    ensures !Unplaceable(e, s) && DesiredCount(e, s) > 0
  {
    var node, g := PlainNode("x", Resources(1, 0, 0)), PlainGroup("group", Resources(1, 0, 0));
    hide Free, Demand;
    PlainDemand("group", Resources(1, 0, 0));
    FreeWhenEmpty(node);
    assert s.jobs[e.jobId].taskGroups[0] == g && "x" in s.nodes;
    WantedIff(s.jobs[e.jobId].taskGroups);
  }

  /** The job is registered and its evaluation reaches the worker while there is no node. */
  lemma ReachLonely(e: Evaluation) returns (evs: seq<Event>)
    ensures var s := After(START, evs);
            && s.phase == Holding(e) && s.queue.blocked == [] && s.raft.role == Leader
            && s.raft.store == EMPTY.(jobs := map["job" := SmallJob()])
  {
    hide After;
    evs := [];
    AfterNone(START);
    var j, t := Write(UpsertJob(SmallJob())), Touch(Broker.Enqueue(e));
    AfterSnoc(START, evs, j);
    evs := evs + [j];
    AfterSnoc(START, evs, t);
    evs := evs + [t];
    AfterSnoc(START, evs, Sweep([], 0));
    evs := evs + [Sweep([], 0)];
    AfterSnoc(START, evs, Fetch(0, 0));
    evs := evs + [Fetch(0, 0)];
  }

  /** A node registers and unblocks what is parked, when nothing is. */
  lemma RegisterServed(s: Sys, node: Node)
    requires s.raft.role == Leader && ValidNode(node) && s.queue.blocked == []
    ensures var t := Step(Step(s, Write(UpsertNode(node))), Touch(Broker.Unblock));
            && t.raft.store == s.raft.store.(nodes := s.raft.store.nodes[node.id := node])
            && t.queue == s.queue && t.phase == s.phase
  {
    var w := Step(s, Write(UpsertNode(node)));
    assert w.queue == s.queue && w.phase == s.phase;
    hide ValidNode, Proposed;
  }

  /** An empty plan for something that is wanted is committed, and its evaluation parked. */
  lemma EmptyParks(s: Sys, e: Evaluation)
    requires s.phase == Planned(e, []) && DesiredCount(e, s.raft.store) > 0
    ensures var t := Step(Step(Step(s, CommitPlan), Decide), Park);
            t.raft == s.raft && t.queue.blocked == s.queue.blocked + [e]
  {
    hide DesiredCount;
    NothingToCommit(s);
    var landed := Step(s, CommitPlan);
    var decided := Step(landed, Decide);
    assert decided == s.(phase := Parking(e));
  }

  /** From there: plan, register a node and unblock what is parked by then, commit, decide and park. */
  lemma LonelyParks(s: Sys, e: Evaluation)
    requires e.jobId == "job" && s.phase == Holding(e) && s.queue.blocked == [] && s.raft.role == Leader
    requires s.raft.store == EMPTY.(jobs := map["job" := SmallJob()])
    ensures var node := PlainNode("x", Resources(1, 0, 0));
            var planned := Step(s, MakePlan([]));
            var served := Step(Step(planned, Write(UpsertNode(node))), Touch(Broker.Unblock));
            var parked := Step(Step(Step(served, CommitPlan), Decide), Park);
            parked.queue.blocked == [e] && !Unplaceable(e, parked.raft.store)
  {
    hide Plan, Unplaceable, DesiredCount;
    var node := PlainNode("x", Resources(1, 0, 0));
    PlanOfNone(e, s.raft.store);
    var planned := Step(s, MakePlan([]));
    assert planned == s.(phase := Planned(e, []));
    hide Step;
    RegisterServed(planned, node);
    var served := Step(Step(planned, Write(UpsertNode(node))), Touch(Broker.Unblock));
    SmallJobFits(e, served.raft.store);
    EmptyParks(served, e);
  }

  /** With a write in between it is otherwise: a node registers and unblocks what is parked after the
      evaluation was planned and before it is parked, and the evaluation stays parked although it fits. */
  lemma ParkedTooLate() returns (evs: seq<Event>, e: Evaluation)
    ensures e in After(START, evs).queue.blocked && !Unplaceable(e, After(START, evs).raft.store)
  {
    e := RegisterEval(SmallJob(), 0);
    evs := ReachLonely(e);
    LonelyParks(After(START, evs), e);
    hide After, Step, Unplaceable;
    var node := PlainNode("x", Resources(1, 0, 0));
    AfterSnoc(START, evs, MakePlan([]));
    evs := evs + [MakePlan([])];
    AfterSnoc(START, evs, Write(UpsertNode(node)));
    evs := evs + [Write(UpsertNode(node))];
    AfterSnoc(START, evs, Touch(Broker.Unblock));
    evs := evs + [Touch(Broker.Unblock)];
    AfterSnoc(START, evs, CommitPlan);
    evs := evs + [CommitPlan];
    AfterSnoc(START, evs, Decide);
    evs := evs + [Decide];
    AfterSnoc(START, evs, Park);
    evs := evs + [Park];
  }

  // ---- At-least-once delivery -----------------------------------------------------------------

  function AllocsOf(s: Store, evalId: string): set<string> {
    set id | id in s.allocs && s.allocs[id].evalId == evalId
  }

  function Names(evalId: string, n: nat): set<string> {
    if n == 0 then {} else Names(evalId, n - 1) + {AllocId(evalId, n - 1)}
  }

  /** The step plans the evaluation when its job wants more than `n` instances. */
  ghost predicate PlansBeyond(s: Sys, ev: Event, evalId: string, n: nat) {
    ev.MakePlan? && Can(s, ev) && s.phase.eval.id == evalId && DesiredCount(s.phase.eval, s.raft.store) > n
  }

  ghost predicate PlansWithin(s: Sys, evs: seq<Event>, evalId: string, n: nat) {
    |evs| == 0 ||
    (PlansWithin(s, evs[..|evs| - 1], evalId, n) && !PlansBeyond(After(s, evs[..|evs| - 1]), evs[|evs| - 1], evalId, n))
  }

  ghost predicate Bounded(s: Sys, evalId: string, n: nat) {
    && AllocsOf(s.raft.store, evalId) <= Names(evalId, n)
    && (s.phase.Planned? && s.phase.eval.id == evalId ==> |s.phase.plan| <= n)
  }

  lemma {:induction false} NamesHas(evalId: string, n: nat, k: nat)
    requires k < n
    ensures AllocId(evalId, k) in Names(evalId, n)
  {
    if k < n - 1 { NamesHas(evalId, n - 1, k); }
  }

  lemma {:induction false} NamesSize(evalId: string, n: nat)
    ensures |Names(evalId, n)| <= n
  {
    if n == 0 {
    } else {
      NamesSize(evalId, n - 1);
    }
  }

  lemma {:induction false} StoredBounded(s: Store, plan: seq<Allocation>, e: Evaluation, evalId: string, n: nat)
    requires MadeFor(plan, e) && AllocsOf(s, evalId) <= Names(evalId, n) && (e.id == evalId ==> |plan| <= n)
    ensures AllocsOf(Committed(s, plan), evalId) <= Names(evalId, n)
  {
    if |plan| == 0 {
    } else {
      var k := |plan| - 1;
      StoredBounded(s, plan[..k], e, evalId, n);
      assert WellMade(plan[k], e, k);
      if e.id == evalId { NamesHas(evalId, n, k); }
      forall id | id in AllocsOf(Committed(s, plan), evalId) ensures id in Names(evalId, n) {
        assert id != plan[k].id ==> id in AllocsOf(Committed(s, plan[..k]), evalId);
      }
    }
  }

  lemma StepBounded(s: Sys, ev: Event, evalId: string, n: nat)
    requires SysInv(s) && Bounded(s, evalId, n) && !PlansBeyond(s, ev, evalId, n)
    ensures Bounded(Step(s, ev), evalId, n)
  {
    if Can(s, ev) {
      match ev
      case Write(c) => assert Next(s, ev).raft.store.allocs == s.raft.store.allocs;
      case MakePlan(order) => PlanFits(s.phase.eval, s.raft.store, order);
      case CommitPlan =>
        CommitStepInv(s);
        StoredBounded(s.raft.store, s.phase.plan, s.phase.eval, evalId, n);
      case _ =>
    }
  }

  lemma {:induction false} RunBounded(evs: seq<Event>, evalId: string, n: nat)
    requires PlansWithin(START, evs, evalId, n)
    ensures Bounded(After(START, evs), evalId, n)
  {
    if |evs| == 0 {
    } else {
      RunBounded(evs[..|evs| - 1], evalId, n);
      RunInv(evs[..|evs| - 1]);
      StepBounded(After(START, evs[..|evs| - 1]), evs[|evs| - 1], evalId, n);
    }
  }

  lemma {:induction false} SubsetSize<T>(a: set<T>, b: set<T>)
    requires a <= b
    ensures |a| <= |b|
  {
    assert b == a + (b - a);
  }

  /** At-least-once delivery does not multiply work: if the job never wanted more than `n` instances
      when the evaluation was planned, then however often it was delivered, at most `n` allocations
      carry its id. */
  lemma RedeliveryDoesNotMultiply(evs: seq<Event>, evalId: string, n: nat)
    requires PlansWithin(START, evs, evalId, n)
    ensures |AllocsOf(After(START, evs).raft.store, evalId)| <= n
  {
    RunBounded(evs, evalId, n);
    NamesSize(evalId, n);
    var held := AllocsOf(After(START, evs).raft.store, evalId);
    SubsetSize(held, Names(evalId, n));
  }

  // ---- Nothing is ever stopped ----------------------------------------------------------------

  /** Every stored allocation is live and named after its evaluation and a position in its plan. */
  ghost predicate AllLive(allocs: map<string, Allocation>) {
    forall id | id in allocs :: IsLive(allocs[id]) && exists k: nat :: id == AllocId(allocs[id].evalId, k)
  }

  lemma {:induction false} StoredAllLive(allocs: map<string, Allocation>, plan: seq<Allocation>, e: Evaluation)
    requires AllLive(allocs) && MadeFor(plan, e)
    ensures AllLive(Stored(allocs, plan))
  {
    if |plan| == 0 {
    } else {
      var n := |plan| - 1;
      StoredAllLive(allocs, plan[..n], e);
      assert WellMade(plan[n], e, n);
    }
  }

  lemma StepAllocs(s: Sys, ev: Event)
    requires SysInv(s)
    ensures Step(s, ev).raft.store.allocs ==
            if ev.CommitPlan? && s.phase.Planned?
            then Stored(s.raft.store.allocs, s.phase.plan) else s.raft.store.allocs
  {
    hide SysInv, Stored;
    if Can(s, ev) {
      match ev
      case Write(c) => WriteKeeps(s, c);
      case CommitPlan => CommitStepInv(s);
      case _ =>
    }
  }

  /** In every reachable state every stored allocation holds its reservation: no run ever stops one, not
      even by deregistering its job. */
  lemma {:induction false} NothingIsStopped(evs: seq<Event>)
    ensures AllLive(After(START, evs).raft.store.allocs)
  {
    if |evs| == 0 {
    } else {
      var s, ev := After(START, evs[..|evs| - 1]), evs[|evs| - 1];
      NothingIsStopped(evs[..|evs| - 1]);
      RunInv(evs[..|evs| - 1]);
      StepAllocs(s, ev);
      if ev.CommitPlan? && s.phase.Planned? {
        StoredAllLive(s.raft.store.allocs, s.phase.plan, s.phase.eval);
      }
    }
  }

  /** The worker plans the evaluation while its job is registered. */
  ghost predicate Replans(s: Sys, ev: Event, evalId: string) {
    ev.MakePlan? && Can(s, ev) && s.phase.eval.id == evalId && s.phase.eval.jobId in s.raft.store.jobs
  }

  ghost predicate NeverReplanned(s: Sys, evs: seq<Event>, evalId: string) {
    |evs| == 0 ||
    (NeverReplanned(s, evs[..|evs| - 1], evalId) && !Replans(After(s, evs[..|evs| - 1]), evs[|evs| - 1], evalId))
  }

  /** No plan for the evaluation is about to land. */
  ghost predicate NothingPending(s: Sys, evalId: string) {
    s.phase.Planned? && s.phase.eval.id == evalId ==> s.phase.plan == []
  }

  lemma {:induction false} StoredElsewhere(
    allocs: map<string, Allocation>, plan: seq<Allocation>, e: Evaluation, id: string)
    requires MadeFor(plan, e) && id in allocs && (plan == [] || forall k: nat :: id != AllocId(e.id, k))
    ensures id in Stored(allocs, plan) && Stored(allocs, plan)[id] == allocs[id]
  {
    if |plan| == 0 {
    } else {
      var n := |plan| - 1;
      StoredElsewhere(allocs, plan[..n], e, id);
      assert WellMade(plan[n], e, n);
    }
  }

  lemma OtherName(evalId: string, j: nat, e: Evaluation)
    requires e.id != evalId
    ensures forall k: nat :: AllocId(evalId, j) != AllocId(e.id, k)
  {
    forall k: nat ensures AllocId(evalId, j) != AllocId(e.id, k) {
      if AllocId(evalId, j) == AllocId(e.id, k) { AllocIdInjective(evalId, j, e.id, k); }
    }
  }

  lemma StepStays(s: Sys, ev: Event, id: string, evalId: string, j: nat)
    requires SysInv(s) && id in s.raft.store.allocs && id == AllocId(evalId, j)
    requires NothingPending(s, evalId) && !Replans(s, ev, evalId)
    ensures NothingPending(Step(s, ev), evalId)
    ensures id in Step(s, ev).raft.store.allocs && Step(s, ev).raft.store.allocs[id] == s.raft.store.allocs[id]
  {
    StepAllocs(s, ev);
    if ev.CommitPlan? && s.phase.Planned? {
      InvPlanned(s);
      if s.phase.eval.id != evalId { OtherName(evalId, j, s.phase.eval); }
      StoredElsewhere(s.raft.store.allocs, s.phase.plan, s.phase.eval, id);
    }
  }

  /** An allocation stays exactly as it is, reservation and node included, until its evaluation is planned
      again while the job is registered. */
  lemma {:induction false} StaysUntilReplanned(past: seq<Event>, evs: seq<Event>, id: string)
    requires id in After(START, past).raft.store.allocs
    requires var evalId := After(START, past).raft.store.allocs[id].evalId;
             NothingPending(After(START, past), evalId) && NeverReplanned(After(START, past), evs, evalId)
    ensures var s, t := After(START, past), After(After(START, past), evs);
            && id in t.raft.store.allocs && t.raft.store.allocs[id] == s.raft.store.allocs[id]
            && NothingPending(t, s.raft.store.allocs[id].evalId)
  {
    if |evs| == 0 {
    } else {
      var s := After(START, past);
      var before, ev := evs[..|evs| - 1], evs[|evs| - 1];
      StaysUntilReplanned(past, before, id);
      NothingIsStopped(past);
      RunInv(past);
      ReachedInv(s, before);
      var evalId := s.raft.store.allocs[id].evalId;
      var j: nat :| id == AllocId(evalId, j);
      hide SysInv, AllLive, Step, NothingPending, Replans;
      StepStays(After(s, before), ev, id, evalId, j);
    }
  }

  /** The job is registered by none of the steps. */
  ghost predicate NeverRegistered(evs: seq<Event>, name: string) {
    forall i | 0 <= i < |evs| ::
      evs[i].Write? && evs[i].command.UpsertJob? ==> evs[i].command.job.name != name
  }

  /** Whenever the worker holds an evaluation of this id, it is one of this job. */
  ghost predicate BelongsTo(s: Sys, evs: seq<Event>, evalId: string, name: string) {
    && (After(s, evs).phase.Holding? && After(s, evs).phase.eval.id == evalId ==>
          After(s, evs).phase.eval.jobId == name)
    && (|evs| == 0 || BelongsTo(s, evs[..|evs| - 1], evalId, name))
  }

  lemma StepAbsent(s: Sys, ev: Event, name: string)
    requires name !in s.raft.store.jobs && SysInv(s)
    requires ev.Write? && ev.command.UpsertJob? ==> ev.command.job.name != name
    ensures name !in Step(s, ev).raft.store.jobs
  {
    hide SysInv;
    if Can(s, ev) && ev.CommitPlan? { CommitStepInv(s); }
  }

  lemma BelongsNow(s: Sys, evs: seq<Event>, evalId: string, name: string)
    requires BelongsTo(s, evs, evalId, name)
    ensures After(s, evs).phase.Holding? && After(s, evs).phase.eval.id == evalId ==>
              After(s, evs).phase.eval.jobId == name
  { }

  lemma {:induction false} AbsentStays(s: Sys, evs: seq<Event>, evalId: string, name: string)
    requires SysInv(s) && name !in s.raft.store.jobs && NeverRegistered(evs, name) && BelongsTo(s, evs, evalId, name)
    ensures name !in After(s, evs).raft.store.jobs && NeverReplanned(s, evs, evalId)
  {
    if |evs| == 0 {
    } else {
      var before := evs[..|evs| - 1];
      assert forall i | 0 <= i < |before| :: before[i] == evs[i];
      AbsentStays(s, before, evalId, name);
      ReachedInv(s, before);
      BelongsNow(s, before, evalId, name);
      hide SysInv, Step;
      StepAbsent(After(s, before), evs[|evs| - 1], name);
    }
  }

  /** So once a job is deregistered and not registered again, each of its allocations stays for good, on its
      node and with its reservation, whatever else happens. */
  lemma DeregisteredStays(past: seq<Event>, evs: seq<Event>, id: string, name: string)
    requires var s := After(START, past);
             && id in s.raft.store.allocs && name !in s.raft.store.jobs
             && NothingPending(s, s.raft.store.allocs[id].evalId)
             && NeverRegistered(evs, name) && BelongsTo(s, evs, s.raft.store.allocs[id].evalId, name)
    ensures var s, t := After(START, past), After(After(START, past), evs);
            id in t.raft.store.allocs && t.raft.store.allocs[id] == s.raft.store.allocs[id]
  {
    RunInv(past);
    hide SysInv, NothingPending, BelongsTo, NeverReplanned, NeverRegistered;
    AbsentStays(After(START, past), evs, After(START, past).raft.store.allocs[id].evalId, name);
    StaysUntilReplanned(past, evs, id);
  }

  // ---- The worker's rounds --------------------------------------------------------------------

  lemma StepNeverNacks(s: Sys, ev: Event)
    requires SysInv(s) && Can(s, ev)
    ensures OpOf(s, ev).Some? ==> !OpOf(s, ev).value.Nack?
  { }

  /** No server run nacks an evaluation. */
  lemma {:induction false} NeverNacks(evs: seq<Event>)
    ensures forall i | 0 <= i < |OpsOf(START, evs)| :: !OpsOf(START, evs)[i].Nack?
  {
    if |evs| == 0 {
    } else {
      var before, ev := After(START, evs[..|evs| - 1]), evs[|evs| - 1];
      NeverNacks(evs[..|evs| - 1]);
      RunInv(evs[..|evs| - 1]);
      hide SysInv;
      if Can(before, ev) { StepNeverNacks(before, ev); }
    }
  }

  /** So in every server run, whatever went back on the heap came from a sweep. */
  lemma RequeuesAreSweeps(evs: seq<Event>)
    ensures var ops := OpsOf(START, evs);
            BrokerRuns.Books(Broker.NOTHING, ops).requeued == BrokerRuns.SweptBack(Broker.NOTHING, ops)
  {
    NeverNacks(evs);
    BrokerRuns.RequeuedBySweeps(Broker.NOTHING, OpsOf(START, evs));
  }

  /** A finished round acknowledges its evaluation: the delivery is gone from the in-flight table, nothing
      else is, and nothing goes back on the heap or to the parking list. */
  lemma FinishAcknowledges(evs: seq<Event>)
    requires Can(After(START, evs), Finish)
    ensures var s := After(START, evs);
            var t := Next(s, Finish);
            && t.queue == s.queue.(inFlight := s.queue.inFlight - {s.phase.eval.id})
            && t.raft == s.raft && t.phase == Idle
  {
    RunInv(evs);
  }

  /** The ids the worker fetched, in order. */
  ghost function Fetched(s: Sys, evs: seq<Event>): seq<string> {
    if |evs| == 0 then [] else
    var before, ev := After(s, evs[..|evs| - 1]), evs[|evs| - 1];
    Fetched(s, evs[..|evs| - 1]) +
    if ev.Fetch? && Can(before, ev) then [before.queue.heap[ev.at].eval.id] else []
  }

  function Acked(ops: seq<Broker.Op>): seq<string> {
    if |ops| == 0 then [] else
    Acked(ops[..|ops| - 1]) + if ops[|ops| - 1].Ack? then [ops[|ops| - 1].id] else []
  }

  /** The evaluation of the round under way, if there is one. */
  function InHand(p: Phase): seq<string> {
    if p.Idle? || p.Swept? then [] else [p.eval.id]
  }

  /** The ids one step fetches and acknowledges, at most one of each. */
  ghost function FetchedBy(s: Sys, ev: Event): seq<string> {
    if ev.Fetch? && Can(s, ev) then [s.queue.heap[ev.at].eval.id] else []
  }

  ghost function AckedBy(s: Sys, ev: Event): seq<string> {
    if Can(s, ev) && OpOf(s, ev).Some? && OpOf(s, ev).value.Ack? then [OpOf(s, ev).value.id] else []
  }

  lemma StepInHand(s: Sys, ev: Event)
    requires SysInv(s)
    ensures InHand(s.phase) + FetchedBy(s, ev) == AckedBy(s, ev) + InHand(Step(s, ev).phase)
  {
    hide Plan, ProposePlan, DesiredCount, Replicated, StoreInv;
  }

  lemma FetchedLast(s: Sys, evs: seq<Event>)
    requires |evs| > 0
    ensures Fetched(s, evs) ==
            Fetched(s, evs[..|evs| - 1]) + FetchedBy(After(s, evs[..|evs| - 1]), evs[|evs| - 1])
  { }

  lemma AckedLast(s: Sys, evs: seq<Event>)
    requires |evs| > 0
    ensures Acked(OpsOf(s, evs)) ==
            Acked(OpsOf(s, evs[..|evs| - 1])) + AckedBy(After(s, evs[..|evs| - 1]), evs[|evs| - 1])
  {
    var before, ev, ops := After(s, evs[..|evs| - 1]), evs[|evs| - 1], OpsOf(s, evs[..|evs| - 1]);
    if Can(before, ev) && OpOf(before, ev).Some? {
      assert (ops + [OpOf(before, ev).value])[..|ops|] == ops;
    } else {
      assert OpsOf(s, evs) == ops;
    }
  }

  lemma NoRounds()
    ensures Fetched(START, []) == Acked(OpsOf(START, [])) + InHand(After(START, []).phase)
  { }

  /** Every evaluation the worker fetched is acknowledged exactly once, in the order it was fetched, except
      for the one of the round under way. */
  lemma {:induction false} RoundsAcknowledge(evs: seq<Event>)
    ensures Fetched(START, evs) == Acked(OpsOf(START, evs)) + InHand(After(START, evs).phase)
  {
    hide *;
    if |evs| == 0 {
      assert evs == [];
      NoRounds();
    } else {
      var before, ev := evs[..|evs| - 1], evs[|evs| - 1];
      var s := After(START, before);
      RoundsAcknowledge(before);
      RunInv(before);
      AfterLast(START, evs);
      FetchedLast(START, evs);
      AckedLast(START, evs);
      StepInHand(s, ev);
      calc {
        Fetched(START, before) + FetchedBy(s, ev);
        Acked(OpsOf(START, before)) + (InHand(s.phase) + FetchedBy(s, ev));
        Acked(OpsOf(START, before)) + (AckedBy(s, ev) + InHand(Step(s, ev).phase));
      }
    }
  }

  ghost function SweepsAheadBy(s: Sys, ev: Event): int {
    if !Can(s, ev) then 0 else if ev.Sweep? then 1 else if ev.Fetch? || ev.FetchNone? then -1 else 0
  }

  /** Sweeps that happened, and attempts to fetch, less one another. */
  ghost function SweepsAhead(s: Sys, evs: seq<Event>): int {
    if |evs| == 0 then 0 else
    SweepsAhead(s, evs[..|evs| - 1]) + SweepsAheadBy(After(s, evs[..|evs| - 1]), evs[|evs| - 1])
  }

  function SweptNow(p: Phase): int {
    if p.Swept? then 1 else 0
  }

  lemma StepSwept(s: Sys, ev: Event)
    requires SysInv(s)
    ensures SweptNow(Step(s, ev).phase) == SweptNow(s.phase) + SweepsAheadBy(s, ev)
  {
    hide Plan, ProposePlan, DesiredCount, Replicated, StoreInv;
  }

  /** Every attempt to fetch, successful or not, is preceded by a sweep of its own. */
  lemma {:induction false} EachFetchSwept(evs: seq<Event>)
    ensures SweepsAhead(START, evs) == SweptNow(After(START, evs).phase)
  {
    if |evs| == 0 {
    } else {
      var before := evs[..|evs| - 1];
      EachFetchSwept(before);
      RunInv(before);
      AfterLast(START, evs);
      hide After, SysInv, Step, SweepsAheadBy;
      StepSwept(After(START, before), evs[|evs| - 1]);
    }
  }

  lemma QueueInv(evs: seq<Event>)
    ensures BrokerRuns.Inv(After(START, evs).queue)
  {
    QueueIsBrokerRun(START, evs);
    BrokerRuns.RunInv(Broker.NOTHING, OpsOf(START, evs));
  }

  /** The worker's sweep takes back exactly the deliveries a minute old or older, in nanoseconds. */
  lemma SweepTakesMinuteOld(evs: seq<Event>, ids: seq<string>, now: int, id: string)
    requires Can(After(START, evs), Sweep(ids, now))
    ensures var q, r := After(START, evs).queue, Next(After(START, evs), Sweep(ids, now)).queue;
            && (id in q.inFlight ==> q.inFlight[id].dequeuedAt.Some?)
            && (id in r.inFlight <==>
                  id in q.inFlight && now - q.inFlight[id].dequeuedAt.value < 60_000_000_000)
  {
    QueueInv(evs);
    BrokerRuns.ReapTakesExpired(After(START, evs).queue, ids, now, VISIBILITY, id);
  }

  /** The worker parks an evaluation exactly when it placed nothing and some group of its job, as registered
      by then, has a positive count. */
  lemma ParksExactly(s: Sys)
    requires Can(s, Decide)
    ensures Next(s, Decide).phase.Parking? <==>
              && s.phase.plan == [] && s.phase.eval.jobId in s.raft.store.jobs
              && var groups := s.raft.store.jobs[s.phase.eval.jobId].taskGroups;
                 exists i | 0 <= i < |groups| :: groups[i].count > 0
  {
    if s.phase.eval.jobId in s.raft.store.jobs {
      WantedIff(s.raft.store.jobs[s.phase.eval.jobId].taskGroups);
    }
  }

  // ---- What a request leaves behind -----------------------------------------------------------

  /** The heap gained one entry, not delivered before. */
  ghost predicate Gained(q: Broker.Queue, r: Broker.Queue, e: Evaluation) {
    && |r.heap| == |q.heap| + 1 && r.heap[..|q.heap|] == q.heap
    && r.heap[|q.heap|].eval == e && r.heap[|q.heap|].dequeues == 0
    && r.inFlight == q.inFlight && r.blocked == q.blocked
  }

  /** Registering a job stores it and leaves an evaluation of it, with its priority and under the id the
      caller is told, waiting on the heap. */
  lemma RegisterTakesEffect(s: Sys, job: Job, nanos: nat) returns (e: Evaluation)
    requires s.raft.role == Leader && ValidJob(job)
    ensures var t := After(s, Handling(s.raft, JobRegisterRequest(job), nanos, []));
            && t.raft.store == s.raft.store.(jobs := s.raft.store.jobs[job.name := job])
            && Gained(s.queue, t.queue, e) && t.phase == s.phase
    ensures Reply(s.raft, JobRegisterRequest(job), nanos) == Ok(JobRegistered(e.id))
    ensures e.jobId == job.name && e.priority == job.priority
    ensures e.trigger == JobRegister && e.status == EvalPending
  {
    e := RegisterEval(job, nanos);
    hide After, ValidJob;
    WriteThenTouch(s, UpsertJob(job), Broker.Enqueue(e));
  }

  /** Deregistering removes the job and leaves an evaluation of it on the heap. */
  lemma DeregisterTakesEffect(s: Sys, name: string, nanos: nat) returns (e: Evaluation)
    requires s.raft.role == Leader && name in s.raft.store.jobs
    ensures var t := After(s, Handling(s.raft, JobDeregisterRequest(name), nanos, []));
            && t.raft.store == s.raft.store.(jobs := s.raft.store.jobs - {name})
            && Gained(s.queue, t.queue, e) && t.phase == s.phase
    ensures Reply(s.raft, JobDeregisterRequest(name), nanos) == Ok(Acknowledged)
    ensures e.jobId == name && e.priority == 50 && e.trigger == JobDeregister && e.status == EvalPending
  {
    e := DeregisterEval(name, nanos);
    hide After;
    WriteThenTouch(s, Command.DeregisterJob(name), Broker.Enqueue(e));
  }

  /** The heap gained these evaluations, in this order and not delivered before. */
  ghost predicate Appended(heap: seq<Broker.Waiting>, more: seq<Broker.Waiting>, evals: seq<Evaluation>) {
    && |more| == |heap| + |evals| && more[..|heap|] == heap
    && forall i | 0 <= i < |evals| :: more[|heap| + i].eval == evals[i] && more[|heap| + i].dequeues == 0
  }

  lemma UnblockAppends(q: Broker.Queue)
    ensures var r := Broker.Next(q, Broker.Unblock);
            r.blocked == [] && r.inFlight == q.inFlight && Appended(q.heap, r.heap, q.blocked)
  {
    var parked := q.(blocked := []);
    BrokerRuns.PushAllAt(parked, q.blocked);
    BrokerRuns.PushAllHeap(parked, q.blocked);
    var r := Broker.PushAll(parked, q.blocked);
    forall i | 0 <= i < |q.blocked|
      ensures r.heap[|q.heap| + i].eval == q.blocked[i] && r.heap[|q.heap| + i].dequeues == 0
    {
      assert r.heap[|parked.heap| + i] == Broker.Waiting(parked.nextSeq + i, q.blocked[i], 0, Domain.None);
    }
  }

  /** Registering a node stores it, empties the parking list, and puts every parked evaluation behind what
      already waits, in the order they were parked and with no deliveries. */
  lemma NodeRegisterTakesEffect(s: Sys, node: Node, nanos: nat)
    requires s.raft.role == Leader && ValidNode(node)
    ensures var t := After(s, Handling(s.raft, NodeRegisterRequest(node), nanos, []));
            && t.raft.store == s.raft.store.(nodes := s.raft.store.nodes[node.id := node])
            && t.queue.blocked == [] && t.queue.inFlight == s.queue.inFlight && t.phase == s.phase
            && Appended(s.queue.heap, t.queue.heap, s.queue.blocked)
    ensures Reply(s.raft, NodeRegisterRequest(node), nanos) == Ok(Acknowledged)
  {
    hide After, ValidNode, Appended;
    WriteThenTouch(s, UpsertNode(node), Broker.Unblock);
    UnblockAppends(s.queue);
  }
}
