/** The replicated state machine: the store, the commands that change it, and what a log of them means. */
module StateMachine {
  import opened Domain

  /** The four tables of the store, as one value. */
  datatype Store = Store(
    jobs: map<string, Job>,
    nodes: map<string, Node>,
    allocs: map<string, Allocation>,
    evals: map<string, Evaluation>)

  const EMPTY := Store(map[], map[], map[], map[])

  datatype Command =
    | UpsertJob(job: Job)
    | DeregisterJob(name: string)
    | UpsertNode(node: Node)
    | UpsertAlloc(alloc: Allocation)
    | UpsertEval(eval: Evaluation)

  /** What one command does to the store, or why it is rejected. */
  function Apply(s: Store, c: Command): Result<Store> {
    match c
    case UpsertJob(job) =>
      if ValidJob(job) then Ok(s.(jobs := s.jobs[job.name := job])) else Err(Validation)
    case DeregisterJob(name) =>
      if name in s.jobs then Ok(s.(jobs := s.jobs - {name})) else Err(Validation)
    case UpsertNode(node) =>
      if ValidNode(node) then Ok(s.(nodes := s.nodes[node.id := node])) else Err(Validation)
    case UpsertAlloc(alloc) =>
      if ValidAlloc(alloc) then Ok(s.(allocs := s.allocs[alloc.id := alloc])) else Err(Validation)
    case UpsertEval(eval) =>
      if ValidEval(eval) then Ok(s.(evals := s.evals[eval.id := eval])) else Err(Validation)
  }

  /** The store after offering it `c`: a rejected command leaves it alone. */
  function Offer(s: Store, c: Command): Store {
    match Apply(s, c)
    case Ok(t) => t
    case Err(_) => s
  }

  /** Folding a log of commands over a store. */
  ghost function Replay(s: Store, log: seq<Command>): Store
    decreases |log|
  {
    if |log| == 0 then s else Offer(Replay(s, log[..|log| - 1]), log[|log| - 1])
  }

  /** No command of the log is rejected at the point where replay reaches it. */
  ghost predicate Accepted(s: Store, log: seq<Command>) {
    forall k | 0 <= k < |log| :: Apply(Replay(s, log[..k]), log[k]).Ok?
  }

  /** Every entity is valid and stored under its own id. */
  ghost predicate Kept(s: Store) {
    && (forall k | k in s.jobs :: s.jobs[k].name == k && ValidJob(s.jobs[k]))
    && (forall k | k in s.nodes :: s.nodes[k].id == k && ValidNode(s.nodes[k]))
    && (forall k | k in s.allocs :: s.allocs[k].id == k && ValidAlloc(s.allocs[k]))
    && (forall k | k in s.evals :: s.evals[k].id == k && ValidEval(s.evals[k]))
  }

  /** Replaying a log in two parts is replaying it whole. */
  lemma {:induction false} ReplayConcat(s: Store, a: seq<Command>, b: seq<Command>)
    ensures Replay(s, a + b) == Replay(Replay(s, a), b)
    decreases |b|
  {
    if |b| == 0 {
      assert a + b == a;
    } else {
      var n := |b| - 1;
      ReplayConcat(s, a, b[..n]);
      assert (a + b)[..|a + b| - 1] == a + b[..n];
    }
  }

  /** Appending one command: the log stays accepted exactly when the command is. */
  lemma AcceptedSnoc(s: Store, log: seq<Command>, c: Command)
    ensures Accepted(s, log + [c]) <==> Accepted(s, log) && Apply(Replay(s, log), c).Ok?
    ensures Replay(s, log + [c]) == Offer(Replay(s, log), c)
  {
    var ext := log + [c];
    assert ext[..|log|] == log;
    forall k | 0 <= k <= |log| ensures ext[..k] == log[..k] { }
    if Accepted(s, log) && Apply(Replay(s, log), c).Ok? {
      forall k | 0 <= k < |ext| ensures Apply(Replay(s, ext[..k]), ext[k]).Ok? {
        assert ext[..k] == log[..k];
        assert k == |log| ==> log[..k] == log;
      }
    }
    if Accepted(s, ext) {
      forall k | 0 <= k < |log| ensures Apply(Replay(s, log[..k]), log[k]).Ok? {
        assert ext[..k] == log[..k] && ext[k] == log[k];
      }
      assert Apply(Replay(s, ext[..|log|]), ext[|log|]).Ok?;
    }
  }

  lemma OfferKept(s: Store, c: Command)
    requires Kept(s)
    ensures Kept(Offer(s, c))
  { }

  /** Whatever was proposed, the replayed store holds only valid entities under their own ids. */
  lemma {:induction false} ReplayKept(s: Store, log: seq<Command>)
    requires Kept(s)
    ensures Kept(Replay(s, log))
    decreases |log|
  {
    if |log| == 0 {
    } else {
      ReplayKept(s, log[..|log| - 1]);
      OfferKept(Replay(s, log[..|log| - 1]), log[|log| - 1]);
    }
  }

  // ---- What is rejected -----------------------------------------------------------------------

  /** A fault in a task: no name, no driver, or a negative amount of some resource. */
  ghost predicate TaskFault(t: Task) {
    t.name == "" || t.driver == "" || t.resources.cpu < 0 || t.resources.memory < 0 || t.resources.network < 0
  }

  /** A fault in a group: no name, a negative count, no tasks, two tasks of one name, or a faulty task. */
  ghost predicate GroupFault(g: TaskGroup) {
    || g.name == "" || g.count < 0 || |g.tasks| == 0
    || (exists i, j | 0 <= i < j < |g.tasks| :: g.tasks[i].name == g.tasks[j].name)
    || (exists i | 0 <= i < |g.tasks| :: TaskFault(g.tasks[i]))
  }

  lemma GroupRejected(g: TaskGroup)
    ensures ValidGroup(g) <==> !GroupFault(g)
  {
    assert forall i | 0 <= i < |g.tasks| :: TaskFault(g.tasks[i]) <==> !ValidTask(g.tasks[i]);
  }

  /** A job is rejected exactly for having no name, a priority outside 1 to 100, no datacenter or a nameless
      one, or a faulty group; and registering then changes nothing. */
  lemma JobRejected(s: Store, job: Job)
    ensures Apply(s, UpsertJob(job)).Err? <==>
              || job.name == "" || job.priority < 1 || job.priority > 100 || |job.datacenters| == 0
              || (exists i | 0 <= i < |job.datacenters| :: job.datacenters[i] == "")
              || (exists i | 0 <= i < |job.taskGroups| :: GroupFault(job.taskGroups[i]))
    ensures Apply(s, UpsertJob(job)).Err? ==> Offer(s, UpsertJob(job)) == s
  {
    forall i | 0 <= i < |job.taskGroups| ensures ValidGroup(job.taskGroups[i]) <==> !GroupFault(job.taskGroups[i]) {
      GroupRejected(job.taskGroups[i]);
    }
    hide ValidGroup, GroupFault;
  }

  /** What the other entities are rejected for: missing names and links, and an evaluation's priority. */
  lemma OthersRejected(s: Store, node: Node, alloc: Allocation, eval: Evaluation)
    ensures Apply(s, UpsertNode(node)).Err? <==> node.id == "" || node.name == "" || node.datacenter == ""
    ensures Apply(s, UpsertAlloc(alloc)).Err? <==>
              alloc.id == "" || alloc.nodeId == "" || alloc.jobId == "" || alloc.taskGroup == ""
    ensures Apply(s, UpsertEval(eval)).Err? <==>
              eval.id == "" || eval.jobId == "" || eval.priority < 1 || eval.priority > 100
  { }

  // ---- Last write wins ------------------------------------------------------------------------

  /** What the log last said about a job: the latest valid registration since the last deregistration.
      `start` is what was known before the log began. */
  ghost function LastJob(start: Option<Job>, log: seq<Command>, name: string): Option<Job> {
    if |log| == 0 then start else
    var before := LastJob(start, log[..|log| - 1], name);
    match log[|log| - 1]
    case UpsertJob(job) => if ValidJob(job) && job.name == name then Some(job) else before
    case DeregisterJob(n) => if n == name then None else before
    case _ => before
  }

  ghost function LastNode(start: Option<Node>, log: seq<Command>, id: string): Option<Node> {
    if |log| == 0 then start else
    var c := log[|log| - 1];
    if c.UpsertNode? && ValidNode(c.node) && c.node.id == id then Some(c.node)
    else LastNode(start, log[..|log| - 1], id)
  }

  ghost function LastAlloc(start: Option<Allocation>, log: seq<Command>, id: string): Option<Allocation> {
    if |log| == 0 then start else
    var c := log[|log| - 1];
    if c.UpsertAlloc? && ValidAlloc(c.alloc) && c.alloc.id == id then Some(c.alloc)
    else LastAlloc(start, log[..|log| - 1], id)
  }

  ghost function LastEval(start: Option<Evaluation>, log: seq<Command>, id: string): Option<Evaluation> {
    if |log| == 0 then start else
    var c := log[|log| - 1];
    if c.UpsertEval? && ValidEval(c.eval) && c.eval.id == id then Some(c.eval)
    else LastEval(start, log[..|log| - 1], id)
  }

  function Lookup<V>(m: map<string, V>, k: string): Option<V> {
    if k in m then Some(m[k]) else None
  }

  // One command changes the lookup of its own key in its own table.

  lemma OfferJob(s: Store, c: Command, k: string)
    ensures Lookup(Offer(s, c).jobs, k) == LastJob(Lookup(s.jobs, k), [c], k)
  {
    hide ValidJob, ValidNode, ValidAlloc, ValidEval;
    assert [c][..0] == [];
  }

  lemma OfferNode(s: Store, c: Command, k: string)
    ensures Lookup(Offer(s, c).nodes, k) == LastNode(Lookup(s.nodes, k), [c], k)
  {
    hide ValidJob, ValidNode, ValidAlloc, ValidEval;
    assert [c][..0] == [];
  }

  lemma OfferAlloc(s: Store, c: Command, k: string)
    ensures Lookup(Offer(s, c).allocs, k) == LastAlloc(Lookup(s.allocs, k), [c], k)
  {
    hide ValidJob, ValidNode, ValidAlloc, ValidEval;
    assert [c][..0] == [];
  }

  lemma OfferEval(s: Store, c: Command, k: string)
    ensures Lookup(Offer(s, c).evals, k) == LastEval(Lookup(s.evals, k), [c], k)
  {
    hide ValidJob, ValidNode, ValidAlloc, ValidEval;
    assert [c][..0] == [];
  }

  lemma {:induction false} LastJobWins(s: Store, log: seq<Command>, name: string)
    ensures Lookup(Replay(s, log).jobs, name) == LastJob(Lookup(s.jobs, name), log, name)
    decreases |log|
  {
    hide Offer, Lookup;
    if |log| == 0 {
    } else {
      var before, c := log[..|log| - 1], log[|log| - 1];
      LastJobWins(s, before, name);
      OfferJob(Replay(s, before), c, name);
      assert [c][..0] == [];
    }
  }

  lemma {:induction false} LastUpsertWins(s: Store, log: seq<Command>, id: string)
    ensures var t := Replay(s, log);
            && Lookup(t.nodes, id) == LastNode(Lookup(s.nodes, id), log, id)
            && Lookup(t.allocs, id) == LastAlloc(Lookup(s.allocs, id), log, id)
            && Lookup(t.evals, id) == LastEval(Lookup(s.evals, id), log, id)
    decreases |log|
  {
    hide Offer, Lookup;
    if |log| == 0 {
    } else {
      var before, c := log[..|log| - 1], log[|log| - 1];
      LastUpsertWins(s, before, id);
      OfferNode(Replay(s, before), c, id);
      OfferAlloc(Replay(s, before), c, id);
      OfferEval(Replay(s, before), c, id);
      assert [c][..0] == [];
    }
  }

  /** Every lookup in a replayed store returns what the log last said about that key, or else what the
      store it started from held. */
  lemma LastWriteWins(s: Store, log: seq<Command>, k: string)
    ensures var t := Replay(s, log);
            && Lookup(t.jobs, k) == LastJob(Lookup(s.jobs, k), log, k)
            && Lookup(t.nodes, k) == LastNode(Lookup(s.nodes, k), log, k)
            && Lookup(t.allocs, k) == LastAlloc(Lookup(s.allocs, k), log, k)
            && Lookup(t.evals, k) == LastEval(Lookup(s.evals, k), log, k)
  {
    hide *;
    LastJobWins(s, log, k);
    LastUpsertWins(s, log, k);
  }

  /** A log either decides a key, whatever was known before it, or leaves it alone. */
  lemma {:induction false} DecidesJob(a: Option<Job>, b: Option<Job>, log: seq<Command>, k: string)
    ensures LastJob(a, log, k) == LastJob(b, log, k) || (LastJob(a, log, k) == a && LastJob(b, log, k) == b)
  {
    if |log| == 0 {
    } else {
      DecidesJob(a, b, log[..|log| - 1], k);
    }
  }

  lemma {:induction false} DecidesNode(a: Option<Node>, b: Option<Node>, log: seq<Command>, k: string)
    ensures LastNode(a, log, k) == LastNode(b, log, k) || (LastNode(a, log, k) == a && LastNode(b, log, k) == b)
  {
    if |log| == 0 {
    } else {
      DecidesNode(a, b, log[..|log| - 1], k);
    }
  }

  lemma {:induction false} DecidesAlloc(a: Option<Allocation>, b: Option<Allocation>, log: seq<Command>, k: string)
    ensures LastAlloc(a, log, k) == LastAlloc(b, log, k) || (LastAlloc(a, log, k) == a && LastAlloc(b, log, k) == b)
  {
    if |log| == 0 {
    } else {
      DecidesAlloc(a, b, log[..|log| - 1], k);
    }
  }

  lemma {:induction false} DecidesEval(a: Option<Evaluation>, b: Option<Evaluation>, log: seq<Command>, k: string)
    ensures LastEval(a, log, k) == LastEval(b, log, k) || (LastEval(a, log, k) == a && LastEval(b, log, k) == b)
  {
    if |log| == 0 {
    } else {
      DecidesEval(a, b, log[..|log| - 1], k);
    }
  }

  lemma SameLookups<V>(a: map<string, V>, b: map<string, V>)
    requires forall k :: Lookup(a, k) == Lookup(b, k)
    ensures a == b
  {
    assert forall k :: k in a <==> Lookup(a, k).Some?;
    assert forall k :: k in b <==> Lookup(b, k).Some?;
    assert forall k | k in a :: Lookup(a, k) == Some(a[k]);
    assert forall k | k in b :: Lookup(b, k) == Some(b[k]);
  }

  /** Every key the log writes, it last writes as the store already has it. */
  ghost predicate Settled(s: Store, log: seq<Command>) {
    forall k ::
      && LastJob(Lookup(s.jobs, k), log, k) == Lookup(s.jobs, k)
      && LastNode(Lookup(s.nodes, k), log, k) == Lookup(s.nodes, k)
      && LastAlloc(Lookup(s.allocs, k), log, k) == Lookup(s.allocs, k)
      && LastEval(Lookup(s.evals, k), log, k) == Lookup(s.evals, k)
  }

  lemma SameStores(s: Store, t: Store)
    requires forall k :: Lookup(s.jobs, k) == Lookup(t.jobs, k) && Lookup(s.nodes, k) == Lookup(t.nodes, k)
    requires forall k :: Lookup(s.allocs, k) == Lookup(t.allocs, k) && Lookup(s.evals, k) == Lookup(t.evals, k)
    ensures s == t
  {
    SameLookups(s.jobs, t.jobs);
    SameLookups(s.nodes, t.nodes);
    SameLookups(s.allocs, t.allocs);
    SameLookups(s.evals, t.evals);
  }

  /** Replaying a log changes nothing exactly when the store is settled for it. */
  lemma ReplaySettledIff(s: Store, log: seq<Command>)
    ensures Replay(s, log) == s <==> Settled(s, log)
  {
    hide Replay, LastJob, LastNode, LastAlloc, LastEval, Lookup;
    forall k
      ensures Lookup(Replay(s, log).jobs, k) == LastJob(Lookup(s.jobs, k), log, k)
      ensures Lookup(Replay(s, log).nodes, k) == LastNode(Lookup(s.nodes, k), log, k)
      ensures Lookup(Replay(s, log).allocs, k) == LastAlloc(Lookup(s.allocs, k), log, k)
      ensures Lookup(Replay(s, log).evals, k) == LastEval(Lookup(s.evals, k), log, k)
    {
      LastWriteWins(s, log, k);
    }
    if Settled(s, log) { SameStores(Replay(s, log), s); }
  }

  /** Replaying a log a second time changes nothing, even where the second pass rejects a command. */
  lemma ReplayTwice(s: Store, log: seq<Command>)
    ensures Replay(Replay(s, log), log) == Replay(s, log)
  {
    hide *;
    var t := Replay(s, log);
    var u := Replay(t, log);
    forall k
      ensures Lookup(t.jobs, k) == Lookup(u.jobs, k) && Lookup(t.nodes, k) == Lookup(u.nodes, k)
      ensures Lookup(t.allocs, k) == Lookup(u.allocs, k) && Lookup(t.evals, k) == Lookup(u.evals, k)
    {
      LastWriteWins(s, log, k);
      LastWriteWins(t, log, k);
      DecidesJob(Lookup(s.jobs, k), Lookup(t.jobs, k), log, k);
      DecidesNode(Lookup(s.nodes, k), Lookup(t.nodes, k), log, k);
      DecidesAlloc(Lookup(s.allocs, k), Lookup(t.allocs, k), log, k);
      DecidesEval(Lookup(s.evals, k), Lookup(t.evals, k), log, k);
    }
    SameStores(t, u);
  }

  /** How a mutating store operation reports: all of the command, or none of it. */
  ghost predicate AllOrNothing(before: Store, c: Command, r: Result<()>, after: Store) {
    match Apply(before, c)
    case Ok(t) => r == Ok(()) && after == t
    case Err(e) => r == Err(e) && after == before
  }

  class StateStore {
    var jobs: map<string, Job>
    var nodes: map<string, Node>
    var allocs: map<string, Allocation>
    var evals: map<string, Evaluation>

    function View(): Store
      reads this
    {
      Store(jobs, nodes, allocs, evals)
    }

    constructor ()
      ensures View() == EMPTY
    {
      jobs, nodes, allocs, evals := map[], map[], map[], map[];
    }

    method UpsertJob(job: Job) returns (r: Result<()>)
      modifies this
      ensures AllOrNothing(old(View()), Command.UpsertJob(job), r, View())
    {
      if !ValidJob(job) { return Err(Validation); }
      jobs := jobs[job.name := job];
      return Ok(());
    }

    method DeleteJob(name: string) returns (r: Result<()>)
      modifies this
      ensures AllOrNothing(old(View()), DeregisterJob(name), r, View())
    {
      var present := name in jobs;
      jobs := jobs - {name};
      if !present {
        assert jobs == old(jobs);
        return Err(Validation);
      }
      return Ok(());
    }

    method UpsertNode(node: Node) returns (r: Result<()>)
      modifies this
      ensures AllOrNothing(old(View()), Command.UpsertNode(node), r, View())
    {
      if !ValidNode(node) { return Err(Validation); }
      nodes := nodes[node.id := node];
      return Ok(());
    }

    method UpsertAlloc(alloc: Allocation) returns (r: Result<()>)
      modifies this
      ensures AllOrNothing(old(View()), Command.UpsertAlloc(alloc), r, View())
    {
      if !ValidAlloc(alloc) { return Err(Validation); }
      allocs := allocs[alloc.id := alloc];
      return Ok(());
    }

    method UpsertEval(eval: Evaluation) returns (r: Result<()>)
      modifies this
      ensures AllOrNothing(old(View()), Command.UpsertEval(eval), r, View())
    {
      if !ValidEval(eval) { return Err(Validation); }
      evals := evals[eval.id := eval];
      return Ok(());
    }
  }

  class Fsm {
    const state: StateStore

    constructor ()
      ensures fresh(state) && state.View() == EMPTY
    {
      state := new StateStore();
    }

    method Apply(command: Command) returns (r: Result<()>)
      modifies state
      ensures AllOrNothing(old(state.View()), command, r, state.View())
    {
      match command {
        case UpsertJob(job) => r := state.UpsertJob(job);
        case DeregisterJob(name) => r := state.DeleteJob(name);
        case UpsertNode(node) => r := state.UpsertNode(node);
        case UpsertAlloc(alloc) => r := state.UpsertAlloc(alloc);
        case UpsertEval(eval) => r := state.UpsertEval(eval);
      }
    }
  }
}
