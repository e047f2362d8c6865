/** The server as a state machine: one scheduler worker whose loop is cut into the steps between which
    it holds no lock, interleaved with what RPC handlers do to consensus and to the broker. */
module Server {
  import opened Domain
  import opened StateMachine
  import opened Consensus
  import opened Ids
  import opened Placement
  import opened Broker

  const VISIBILITY: nat := 60_000_000_000

  /** Where the worker's loop stands. */
  datatype Phase =
    | Idle
    | Swept
    | Holding(eval: Evaluation)
    | Planned(eval: Evaluation, plan: seq<Allocation>)
    | Landed(eval: Evaluation, plan: seq<Allocation>, committed: bool)
    | Parking(eval: Evaluation)
    | Acking(eval: Evaluation)

  datatype Sys = Sys(raft: Raft, queue: Queue, phase: Phase)

  const START := Sys(Raft(Leader, [], EMPTY), NOTHING, Idle)

  /** Atomic steps. `Write` and `Touch` are the halves of an RPC handler, which another step may
      separate; the rest are the worker's. */
  datatype Event =
    | Write(command: Command)
    | Touch(op: Op)
    | Sweep(ids: seq<string>, now: int)
    | Fetch(at: nat, now: int)
    | FetchNone
    | MakePlan(order: seq<string>)
    | CommitPlan
    | Decide
    | Park
    | Finish

  /** Commands RPC handlers propose: never an allocation. */
  predicate RpcCommand(c: Command) {
    c.UpsertJob? || c.DeregisterJob? || c.UpsertNode?
  }

  predicate RpcOp(op: Op) {
    op.Enqueue? || op.Dequeue? || op.Unblock?
  }

  /** Proposes a plan's allocations in order until the first error. */
  function ProposePlan(r: Raft, plan: seq<Allocation>): (Raft, bool) {
    if |plan| == 0 then (r, true) else
    var (t, ok) := ProposePlan(r, plan[..|plan| - 1]);
    if !ok then (t, false) else
    var (u, answer) := Proposed(t, UpsertAlloc(plan[|plan| - 1]));
    (u, answer.Ok?)
  }

  ghost predicate Can(s: Sys, ev: Event) {
    match ev
    case Write(c) => RpcCommand(c)
    case Touch(op) => RpcOp(op) && Broker.Can(s.queue, op)
    case Sweep(ids, now) => s.phase.Idle? && s.raft.role == Leader && Broker.Can(s.queue, Reap(ids, now, VISIBILITY))
    case Fetch(at, now) => s.phase.Swept? && Broker.Can(s.queue, Dequeue(at, now))
    case FetchNone => s.phase.Swept? && s.queue.heap == []
    case MakePlan(order) => s.phase.Holding? && Lists(order, s.raft.store.nodes)
    case CommitPlan => s.phase.Planned?
    case Decide => s.phase.Landed? && s.phase.committed
    case Park => s.phase.Parking?
    case Finish => s.phase.Acking? || (s.phase.Landed? && !s.phase.committed)
  }

  /** The broker operation a step performs, if any. */
  ghost function OpOf(s: Sys, ev: Event): Option<Op>
    requires Can(s, ev)
  {
    match ev
    case Touch(op) => Some(op)
    case Sweep(ids, now) => Some(Reap(ids, now, VISIBILITY))
    case Fetch(at, now) => Some(Dequeue(at, now))
    case Park => Some(Block(s.phase.eval))
    case Finish => Some(if s.phase.Acking? then Ack(s.phase.eval.id) else Nack(s.phase.eval.id))
    case _ => None
  }

  ghost function RaftAfter(s: Sys, ev: Event): Raft
    requires Can(s, ev)
  {
    match ev
    case Write(c) => Proposed(s.raft, c).0
    case CommitPlan => ProposePlan(s.raft, s.phase.plan).0
    case _ => s.raft
  }

  ghost function PhaseAfter(s: Sys, ev: Event): Phase
    requires Can(s, ev)
  {
    match ev
    case Write(_) => s.phase
    case Touch(_) => s.phase
    case Sweep(_, _) => Swept
    case Fetch(at, _) => Holding(s.queue.heap[at].eval)
    case FetchNone => Idle
    case MakePlan(order) => Planned(s.phase.eval, Plan(s.phase.eval, s.raft.store, order))
    case CommitPlan => Landed(s.phase.eval, s.phase.plan, ProposePlan(s.raft, s.phase.plan).1)
    case Decide =>
      if |s.phase.plan| == 0 && DesiredCount(s.phase.eval, s.raft.store) > 0
      then Parking(s.phase.eval) else Acking(s.phase.eval)
    case Park => Acking(s.phase.eval)
    case Finish => Idle
  }

  ghost function Next(s: Sys, ev: Event): Sys
    requires Can(s, ev)
  {
    Sys(RaftAfter(s, ev),
        match OpOf(s, ev) case Some(op) => Broker.Next(s.queue, op) case None => s.queue,
        PhaseAfter(s, ev))
  }

  /** One step; one the state rules out does not happen. */
  ghost function Step(s: Sys, ev: Event): Sys {
    if Can(s, ev) then Next(s, ev) else s
  }

  ghost function After(s: Sys, evs: seq<Event>): Sys {
    if |evs| == 0 then s else Step(After(s, evs[..|evs| - 1]), evs[|evs| - 1])
  }

  // ---- RPC handlers ---------------------------------------------------------------------------

  datatype Request =
    | JobRegisterRequest(job: Job)
    | JobDeregisterRequest(name: string)
    | NodeRegisterRequest(node: Node)
    | EvalDequeueRequest(schedulers: seq<string>)

  datatype Response =
    | JobRegistered(evalId: string)
    | Acknowledged
    | EvalHandedOut(eval: Option<Evaluation>)
    | NotLeader(leaderAddr: Option<string>)

  function EvalIdFor(job: string, nanos: nat): string {
    "eval-" + job + "-" + Decimal(nanos)
  }

  function RegisterEval(job: Job, nanos: nat): Evaluation {
    Evaluation(EvalIdFor(job.name, nanos), job.name, job.priority, JobRegister, EvalPending)
  }

  function DeregisterEval(name: string, nanos: nat): Evaluation {
    Evaluation(EvalIdFor(name, nanos), name, 50, JobDeregister, EvalPending)
  }

  /** Evaluation ids of different jobs, or of one job at different times, differ. */
  lemma EvalIdInjective(a: string, m: nat, b: string, n: nat)
    requires EvalIdFor(a, m) == EvalIdFor(b, n)
    ensures a == b && m == n
  {
    var x, y := "eval-" + a, "eval-" + b;
    assert EvalIdFor(a, m) == AllocId(x, m) && EvalIdFor(b, n) == AllocId(y, n);
    AllocIdInjective(x, m, y, n);
    assert x[5..] == a && y[5..] == b;
  }

  /** The steps a handler takes on a node in state `r`; none when it is refused. */
  ghost function Handling(r: Raft, request: Request, nanos: nat, dequeued: seq<Event>): seq<Event> {
    match request
    case JobRegisterRequest(job) =>
      if r.role == Leader && ValidJob(job)
      then [Write(UpsertJob(job)), Touch(Enqueue(RegisterEval(job, nanos)))] else []
    case JobDeregisterRequest(name) =>
      if r.role == Leader && name in r.store.jobs
      then [Write(Command.DeregisterJob(name)), Touch(Enqueue(DeregisterEval(name, nanos)))] else []
    case NodeRegisterRequest(node) =>
      if r.role == Leader && ValidNode(node) then [Write(UpsertNode(node)), Touch(Unblock)] else []
    case EvalDequeueRequest(_) => dequeued
  }

  /** The evaluations handlers enqueue would pass validation themselves. */
  lemma HandlerEvalsValid(r: Raft, request: Request, nanos: nat, dequeued: seq<Event>)
    requires Kept(r.store) && !request.EvalDequeueRequest?
    ensures forall i | 0 <= i < |Handling(r, request, nanos, dequeued)| ::
              var ev := Handling(r, request, nanos, dequeued)[i];
              ev.Touch? && ev.op.Enqueue? ==> ValidEval(ev.op.eval)
  { }

  /** The answer to a request that writes, on a node in state `r`. */
  function Reply(r: Raft, request: Request, nanos: nat): Result<Response>
    requires !request.EvalDequeueRequest?
  {
    match request
    case JobRegisterRequest(job) =>
      if !ValidJob(job) then Err(Validation)
      else if r.role != Leader then Ok(NotLeader(None))
      else Ok(JobRegistered(EvalIdFor(job.name, nanos)))
    case JobDeregisterRequest(name) =>
      if r.role != Leader then Ok(NotLeader(None))
      else if name !in r.store.jobs then Err(Validation)
      else Ok(Acknowledged)
    case NodeRegisterRequest(node) =>
      if r.role != Leader then Ok(NotLeader(None))
      else if !ValidNode(node) then Err(Validation)
      else Ok(Acknowledged)
  }

  /** The answer to a dequeue: a top entry of the heap, handed out by one broker step, or none if nothing
      waits. */
  ghost predicate HandsOut(heap: seq<Waiting>, now: int, r: Result<Response>, steps: seq<Event>) {
    if heap == [] then r == Ok(EvalHandedOut(None)) && steps == [] else
    exists at: nat ::
      IsTop(heap, at) && r == Ok(EvalHandedOut(Some(heap[at].eval))) && steps == [Touch(Dequeue(at, now))]
  }

  function Follow(eval: Option<Evaluation>): Op {
    if eval.Some? then Enqueue(eval.value) else Unblock
  }

  /** The reply to a write: the success response unless consensus refused it. */
  function Answer(done: Result<Option<Response>>, success: Response): Result<Response> {
    match done
    case Err(e) => Err(e)
    case Ok(Some(refusal)) => Ok(refusal)
    case Ok(None) => Ok(success)
  }

  lemma AfterTwo(s: Sys, a: Event, b: Event)
    ensures After(s, [a, b]) == Step(Step(s, a), b)
  {
    assert [a, b][..1] == [a] && [a][..0] == [];
    assert After(s, []) == s;
  }

  lemma AfterOne(s: Sys, a: Event)
    ensures After(s, [a]) == Step(s, a) && After(s, []) == s
  {
    assert [a][..0] == [];
  }

  lemma AfterNone(s: Sys)
    ensures After(s, []) == s
  { }

  lemma Refused(r: Raft, c: Command)
    ensures Proposed(r, c).1.Err? ==> Proposed(r, c).0 == r
    ensures r.role != Leader ==> Proposed(r, c).1.Err?
  { }

  lemma WriteThenTouch(s: Sys, c: Command, op: Op)
    requires RpcCommand(c) && RpcOp(op) && Broker.Can(s.queue, op)
    ensures After(s, [Write(c), Touch(op)]) == Sys(Proposed(s.raft, c).0, Broker.Next(s.queue, op), s.phase)
  {
    hide Proposed;
    AfterTwo(s, Write(c), Touch(op));
  }

  lemma DequeueIsStep(s: Sys, at: nat, now: int)
    requires Broker.Can(s.queue, Dequeue(at, now))
    ensures After(s, [Touch(Dequeue(at, now))]) == s.(queue := Broker.Next(s.queue, Dequeue(at, now)))
  {
    AfterOne(s, Touch(Dequeue(at, now)));
  }

  class RpcEndpoint {
    const raft: RaftNode
    const queue: EvalQueue

    constructor (queue: EvalQueue, raft: RaftNode)
      ensures this.queue == queue && this.raft == raft
    {
      this.queue, this.raft := queue, raft;
    }

    ghost function View(phase: Phase): Sys
      reads raft, raft.fsm.state, queue
    {
      Sys(raft.View(), queue.View(), phase)
    }

    /** Refuses on a follower, otherwise proposes. */
    method Commit(command: Command) returns (r: Result<Option<Response>>)
      requires raft.Valid()
      modifies raft`log, raft.fsm.state
      ensures raft.Valid() && raft.View() == Proposed(old(raft.View()), command).0
      ensures raft.role != Leader ==> r == Ok(Some(NotLeader(None)))
      ensures raft.role == Leader ==>
                r == match Proposed(old(raft.View()), command).1 case Ok(_) => Ok(None) case Err(e) => Err(e)
    {
      if raft.role != Leader { return Ok(Some(NotLeader(None))); }
      var answer := raft.Propose(command);
      if answer.Err? { return Err(answer.error); }
      return Ok(None);
    }

    /** Commits, and only then tells the broker: enqueues an evaluation, or unblocks the parked ones. */
    method CommitThen(command: Command, eval: Option<Evaluation>) returns (r: Result<Option<Response>>)
      requires raft.Valid() && RpcCommand(command)
      modifies raft`log, raft.fsm.state, queue
      ensures raft.Valid()
      ensures var evs := if r == Ok(None) then [Write(command), Touch(Follow(eval))] else [];
              forall phase :: View(phase) == After(old(View(phase)), evs)
      ensures raft.role != Leader ==> r == Ok(Some(NotLeader(None)))
      ensures raft.role == Leader ==>
                r == match Proposed(old(raft.View()), command).1 case Ok(_) => Ok(None) case Err(e) => Err(e)
    {
      hide Replicated, Proposed, After;
      r := Commit(command);
      if r != Ok(None) {
        Refused(old(raft.View()), command);
        forall phase ensures old(View(phase)) == After(old(View(phase)), []) { AfterNone(old(View(phase))); }
        return;
      }
      if eval.Some? {
        queue.Enqueue(eval.value);
      } else {
        var moved := queue.UnblockAll();
      }
      forall phase ensures View(phase) == After(old(View(phase)), [Write(command), Touch(Follow(eval))]) {
        WriteThenTouch(old(View(phase)), command, Follow(eval));
      }
    }

    /** Serves one request. Its whole effect is a list of the steps above, whatever the worker is doing;
        a refused request has no effect at all. */
    method Handle(request: Request, nanos: nat, now: int)
      returns (r: Result<Response>, ghost dequeued: seq<Event>)
      requires raft.Valid()
      modifies raft`log, raft.fsm.state, queue
      ensures raft.Valid()
      ensures forall phase ::
                View(phase) == After(old(View(phase)), Handling(old(raft.View()), request, nanos, dequeued))
      ensures r.Err? || r.value.NotLeader? ==> Handling(old(raft.View()), request, nanos, dequeued) == []
      ensures !request.EvalDequeueRequest? ==> r == Reply(old(raft.View()), request, nanos)
      ensures request.EvalDequeueRequest? ==> HandsOut(old(queue.heap), now, r, dequeued)
    {
      hide Step;
      dequeued := [];
      match request {
        case JobRegisterRequest(job) =>
          if !ValidJob(job) { return Err(Validation), []; }
          var done := CommitThen(UpsertJob(job), Some(RegisterEval(job, nanos)));
          r := Answer(done, JobRegistered(EvalIdFor(job.name, nanos)));
        case JobDeregisterRequest(name) =>
          var done := CommitThen(Command.DeregisterJob(name), Some(DeregisterEval(name, nanos)));
          r := Answer(done, Acknowledged);
        case NodeRegisterRequest(node) =>
          var done := CommitThen(UpsertNode(node), None);
          r := Answer(done, Acknowledged);
        case EvalDequeueRequest(_) =>
          var eval, at := queue.Dequeue(now);
          if eval.Some? {
            dequeued := [Touch(Dequeue(at, now))];
            forall phase ensures View(phase) == After(old(View(phase)), dequeued) {
              DequeueIsStep(old(View(phase)), at, now);
            }
          }
          r := Ok(EvalHandedOut(eval));
      }
    }
  }
}
