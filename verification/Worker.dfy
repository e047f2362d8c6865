/** The scheduler worker: each method is one step of its loop, proved to be that step of the machine. */
module WorkerLoop {
  import opened Domain
  import opened StateMachine
  import opened Consensus
  import opened Placement
  import opened Broker
  import opened Scheduler
  import opened Server

  lemma {:induction false} ProposePlanStops(r: Raft, plan: seq<Allocation>, k: nat)
    requires k <= |plan| && !ProposePlan(r, plan[..k]).1
    ensures ProposePlan(r, plan) == ProposePlan(r, plan[..k])
  {
    if k == |plan| {
      assert plan[..k] == plan;
    } else {
      assert plan[..|plan| - 1][..k] == plan[..k];
      ProposePlanStops(r, plan[..|plan| - 1], k);
    }
  }

  lemma NothingProposed(r: Raft, plan: seq<Allocation>)
    ensures ProposePlan(r, plan[..0]) == (r, true)
  { }

  lemma ProposePlanSnoc(r: Raft, plan: seq<Allocation>, k: nat)
    requires k < |plan| && ProposePlan(r, plan[..k]).1
    ensures var (t, answer) := Proposed(ProposePlan(r, plan[..k]).0, UpsertAlloc(plan[k]));
            ProposePlan(r, plan[..k + 1]) == (t, answer.Ok?)
  {
    hide Proposed;
    assert plan[..k + 1][..k] == plan[..k];
  }

  class Worker {
    const raft: RaftNode
    const queue: EvalQueue
    var phase: Phase

    constructor (raft: RaftNode, queue: EvalQueue)
      ensures this.raft == raft && this.queue == queue && phase == Idle
    {
      this.raft, this.queue, phase := raft, queue, Idle;
    }

    ghost function View(): Sys
      reads this, raft, raft.fsm.state, queue
    {
      Sys(raft.View(), queue.View(), phase)
    }

    /** Reclaims deliveries whose worker went silent; only the leader gets this far. */
    method SweepStep(now: int) returns (ghost ids: seq<string>)
      requires phase.Idle? && raft.role == Leader
      modifies this`phase, queue
      ensures Server.Can(old(View()), Sweep(ids, now))
      ensures View() == Server.Next(old(View()), Sweep(ids, now))
    {
      var reaped;
      reaped, ids := queue.ReapExpired(now, VISIBILITY);
      phase := Swept;
    }

    method FetchStep(now: int) returns (ghost at: nat)
      requires phase.Swept?
      modifies this`phase, queue
      ensures old(queue.heap) == [] ==> View() == Server.Next(old(View()), FetchNone)
      ensures old(queue.heap) != [] ==>
                Server.Can(old(View()), Fetch(at, now)) && View() == Server.Next(old(View()), Fetch(at, now))
    {
      var eval;
      eval, at := queue.Dequeue(now);
      phase := if eval.Some? then Holding(eval.value) else Idle;
    }

    method PlanStep() returns (ghost order: seq<string>)
      requires phase.Holding?
      modifies this`phase
      ensures Server.Can(old(View()), MakePlan(order)) && View() == Server.Next(old(View()), MakePlan(order))
    {
      var plan;
      plan, order := ProcessEval(phase.eval, raft.fsm.state);
      phase := Planned(phase.eval, plan);
    }

    /** Proposes the plan under one lock, stopping at the first error. */
    method CommitStep()
      requires raft.Valid() && phase.Planned?
      modifies this`phase, raft`log, raft.fsm.state
      ensures raft.Valid() && View() == Server.Next(old(View()), CommitPlan)
    {
      hide Replicated, Proposed, ProposePlan;
      var plan := phase.plan;
      NothingProposed(raft.View(), plan);
      for k := 0 to |plan|
        invariant raft.Valid() && phase == old(phase)
        invariant (raft.View(), true) == ProposePlan(old(raft.View()), plan[..k])
      {
        ProposePlanSnoc(old(raft.View()), plan, k);
        var answer := raft.Propose(UpsertAlloc(plan[k]));
        if answer.Err? {
          ProposePlanStops(old(raft.View()), plan, k + 1);
          phase := Landed(phase.eval, plan, false);
          return;
        }
      }
      assert plan[..|plan|] == plan;
      phase := Landed(phase.eval, plan, true);
    }

    method DecideStep()
      requires phase.Landed? && phase.committed
      modifies this`phase
      ensures View() == Server.Next(old(View()), Decide)
    {
      if |phase.plan| == 0 && DesiredCount(phase.eval, raft.fsm.state.View()) > 0 {
        phase := Parking(phase.eval);
      } else {
        phase := Acking(phase.eval);
      }
    }

    method ParkStep()
      requires phase.Parking?
      modifies this`phase, queue
      ensures View() == Server.Next(old(View()), Server.Park)
    {
      queue.Block(phase.eval);
      phase := Acking(phase.eval);
    }

    method FinishStep()
      requires phase.Acking? || (phase.Landed? && !phase.committed)
      modifies this`phase, queue
      ensures View() == Server.Next(old(View()), Finish)
    {
      if phase.Acking? {
        queue.Ack(phase.eval.id);
      } else {
        queue.Nack(phase.eval.id);
      }
      phase := Idle;
    }
  }
}
