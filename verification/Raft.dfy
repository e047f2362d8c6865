/** Single-node consensus: the log of committed commands and the state they produced. */
module Consensus {
  import opened Domain
  import opened StateMachine

  datatype Role = Leader | Follower | Candidate

  datatype Raft = Raft(role: Role, log: seq<Command>, store: Store)

  /** State is replay: the store is what the log, none of it rejected, makes of the empty store. */
  ghost predicate Replicated(r: Raft) {
    r.store == Replay(EMPTY, r.log) && Accepted(EMPTY, r.log)
  }

  /** The node after a proposal, and the answer its caller gets. */
  function Proposed(r: Raft, c: Command): (Raft, Result<()>) {
    if r.role != Leader then (r, Err(Runtime)) else
    match Apply(r.store, c)
    case Ok(t) => (r.(log := r.log + [c], store := t), Ok(()))
    case Err(e) => (r, Err(e))
  }

  lemma ProposeReplicated(r: Raft, c: Command)
    requires Replicated(r)
    ensures Replicated(Proposed(r, c).0)
  {
    AcceptedSnoc(EMPTY, r.log, c);
  }

  /** The three answers to a proposal: a runtime error off the leader; the state machine's own error, for a
      deregistration of an unknown job or an invalid entity; or success. */
  lemma ProposalAnswers(r: Raft, c: Command)
    ensures r.role != Leader ==> Proposed(r, c).1 == Err(Runtime)
    ensures r.role == Leader ==>
              Proposed(r, c).1 == match c
                case UpsertJob(job) => if ValidJob(job) then Ok(()) else Err(Validation)
                case DeregisterJob(name) => if name in r.store.jobs then Ok(()) else Err(Validation)
                case UpsertNode(node) => if ValidNode(node) then Ok(()) else Err(Validation)
                case UpsertAlloc(alloc) => if ValidAlloc(alloc) then Ok(()) else Err(Validation)
                case UpsertEval(eval) => if ValidEval(eval) then Ok(()) else Err(Validation)
    ensures Proposed(r, c).1.Err? ==> Proposed(r, c).0 == r
  { }

  /** Proposals one after another, whatever their answers. */
  function ProposeAll(r: Raft, cs: seq<Command>): Raft
    decreases |cs|
  {
    if |cs| == 0 then r else Proposed(ProposeAll(r, cs[..|cs| - 1]), cs[|cs| - 1]).0
  }

  /** In every node reachable by proposals, on a leader or not: the state is the replay of the log,
      no prefix of the log is rejected, and every stored entity is valid and under its own id. */
  lemma {:induction false} ReachableIsReplay(role: Role, cs: seq<Command>)
    ensures var r := ProposeAll(Raft(role, [], EMPTY), cs);
            Replicated(r) && Kept(r.store) && (role != Leader ==> r.log == [] && r.store == EMPTY)
    ensures ProposeAll(Raft(role, [], EMPTY), cs).role == role
    decreases |cs|
  {
    if |cs| == 0 {
    } else {
      ReachableIsReplay(role, cs[..|cs| - 1]);
      ProposeReplicated(ProposeAll(Raft(role, [], EMPTY), cs[..|cs| - 1]), cs[|cs| - 1]);
    }
    ReplayKept(EMPTY, ProposeAll(Raft(role, [], EMPTY), cs).log);
  }

  /** The proposals that were answered with success, in order. */
  function Succeeded(r: Raft, cs: seq<Command>): seq<Command>
    decreases |cs|
  {
    if |cs| == 0 then [] else
    var before, c := cs[..|cs| - 1], cs[|cs| - 1];
    Succeeded(r, before) + if Proposed(ProposeAll(r, before), c).1.Ok? then [c] else []
  }

  /** The log is what succeeded: nothing refused is in it, nothing committed is missing, so the committed
      index counts the proposals that were answered with success. */
  lemma {:induction false} LogIsSucceeded(r: Raft, cs: seq<Command>)
    ensures ProposeAll(r, cs).log == r.log + Succeeded(r, cs)
    decreases |cs|
  {
    if |cs| == 0 {
    } else {
      LogIsSucceeded(r, cs[..|cs| - 1]);
    }
  }

  class RaftNode {
    const id: string
    var role: Role
    var log: seq<Command>
    const fsm: Fsm

    function View(): Raft
      reads this, fsm.state
    {
      Raft(role, log, fsm.state.View())
    }

    ghost predicate Valid()
      reads this, fsm.state
    {
      Replicated(View())
    }

    constructor New(id: string)
      ensures Valid() && fresh(fsm) && fresh(fsm.state)
      ensures View() == Raft(Follower, [], EMPTY)
    {
      this.id, role, log := id, Follower, [];
      fsm := new Fsm();
    }

    constructor Bootstrap(id: string)
      ensures Valid() && fresh(fsm) && fresh(fsm.state)
      ensures View() == Raft(Leader, [], EMPTY)
    {
      this.id, role, log := id, Leader, [];
      fsm := new Fsm();
    }

    /** Appends first and rolls the entry back when the state machine rejects it. */
    method Propose(command: Command) returns (r: Result<()>)
      requires Valid()
      modifies this`log, fsm.state
      ensures Valid()
      ensures (View(), r) == Proposed(old(View()), command)
      ensures r.Err? ==> View() == old(View())
    {
      ProposeReplicated(View(), command);
      if role != Leader { return Err(Runtime); }
      log := log + [command];
      r := fsm.Apply(command);
      if r.Err? {
        log := log[..|log| - 1];
        assert log == old(log);
      }
    }

    method CommittedIndex() returns (n: nat)
      ensures n == |log|
    {
      n := |log|;
    }
  }
}
