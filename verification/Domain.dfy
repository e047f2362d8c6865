/** Entities of the orchestrator and the checks each of them must pass before it is stored. */
module Domain {

  datatype Option<+T> = None | Some(value: T)

  datatype Error = Validation | Runtime

  datatype Result<+T> = Ok(value: T) | Err(error: Error)

  type Attributes = map<string, string>

  datatype Resources = Resources(cpu: int, memory: int, network: int)

  const ZERO := Resources(0, 0, 0)

  function Plus(a: Resources, b: Resources): Resources {
    Resources(a.cpu + b.cpu, a.memory + b.memory, a.network + b.network)
  }

  function Minus(a: Resources, b: Resources): Resources {
    Resources(a.cpu - b.cpu, a.memory - b.memory, a.network - b.network)
  }

  /** Whether `avail` covers `need` in every tracked resource. */
  predicate Fits(avail: Resources, need: Resources) {
    avail.cpu >= need.cpu && avail.memory >= need.memory && avail.network >= need.network
  }

  predicate NonNegative(r: Resources) {
    Fits(r, ZERO)
  }

  /** A hard placement rule; the operator language is an arbitrary predicate on a node's attributes. */
  datatype Constraint = Constraint(satisfiedBy: Attributes -> bool)

  datatype Affinity = Affinity(satisfiedBy: Attributes -> bool, weight: int)

  datatype SpreadTarget = SpreadTarget(value: string, percent: nat)

  datatype Spread = Spread(attribute: string, targets: seq<SpreadTarget>)

  datatype Task = Task(name: string, driver: string, resources: Resources)

  datatype TaskGroup = TaskGroup(
    name: string,
    count: int,
    tasks: seq<Task>,
    constraints: seq<Constraint>,
    affinities: seq<Affinity>,
    spreads: seq<Spread>)

  datatype Job = Job(name: string, datacenters: seq<string>, taskGroups: seq<TaskGroup>, priority: int)

  datatype NodeStatus = Init | Ready | Down | Disconnected

  datatype Eligibility = Eligible | Ineligible

  datatype Node = Node(
    id: string,
    name: string,
    datacenter: string,
    resources: Resources,
    status: NodeStatus,
    eligibility: Eligibility,
    draining: bool,
    attributes: Attributes)

  datatype DesiredStatus = Run | Stop | Evict

  datatype ClientStatus = Pending | Running | Complete | Failed | Lost

  datatype Allocation = Allocation(
    id: string,
    evalId: string,
    nodeId: string,
    jobId: string,
    taskGroup: string,
    desiredStatus: DesiredStatus,
    clientStatus: ClientStatus,
    resources: Resources)

  datatype EvalTrigger = JobRegister | JobDeregister | NodeUpdate | NodeDrain | AllocFailure | MaxPlanAttempts

  datatype EvalStatus = EvalBlocked | EvalPending | EvalComplete | EvalFailed | EvalCanceled

  datatype Evaluation = Evaluation(
    id: string,
    jobId: string,
    priority: int,
    trigger: EvalTrigger,
    status: EvalStatus)

  const JOB_MIN_PRIORITY := 1
  const JOB_MAX_PRIORITY := 100

  predicate ValidTask(t: Task) {
    t.name != "" && t.driver != "" && NonNegative(t.resources)
  }

  predicate ValidGroup(g: TaskGroup) {
    && g.name != ""
    && g.count >= 0
    && g.tasks != []
    && (forall i, j | 0 <= i < j < |g.tasks| :: g.tasks[i].name != g.tasks[j].name)
    && (forall i | 0 <= i < |g.tasks| :: ValidTask(g.tasks[i]))
  }

  predicate ValidJob(j: Job) {
    && j.name != ""
    && JOB_MIN_PRIORITY <= j.priority <= JOB_MAX_PRIORITY
    && j.datacenters != []
    && (forall i | 0 <= i < |j.datacenters| :: j.datacenters[i] != "")
    && (forall i | 0 <= i < |j.taskGroups| :: ValidGroup(j.taskGroups[i]))
  }

  /** Advertised resources are not checked: a node may register with negative capacity. */
  predicate ValidNode(n: Node) {
    n.id != "" && n.name != "" && n.datacenter != ""
  }

  /** Reserved resources are not checked either; only the linkage is. */
  predicate ValidAlloc(a: Allocation) {
    a.id != "" && a.nodeId != "" && a.jobId != "" && a.taskGroup != ""
  }

  predicate ValidEval(e: Evaluation) {
    e.id != "" && e.jobId != "" && JOB_MIN_PRIORITY <= e.priority <= JOB_MAX_PRIORITY
  }
}
