/** Draining the queue: it terminates, counts what it placed, and parks only what cannot be placed. */
module Drain {
  import opened Domain
  import opened StateMachine
  import opened Finite
  import opened Ids
  import opened Placement
  import opened Capacity
  import opened Commit
  import opened Broker
  import opened Scheduler

  ghost predicate DistinctIds(heap: seq<Waiting>) {
    forall i, j | 0 <= i < j < |heap| :: heap[i].eval.id != heap[j].eval.id
  }

  /** Waiting evaluations have distinct ids, and no stored allocation is named after one of them. */
  ghost predicate FreshIds(heap: seq<Waiting>, allocs: map<string, Allocation>) {
    && DistinctIds(heap)
    && (forall i, k: nat | 0 <= i < |heap| :: AllocId(heap[i].eval.id, k) !in allocs)
  }

  ghost predicate MadeFor(plan: seq<Allocation>, e: Evaluation) {
    forall k | 0 <= k < |plan| :: WellMade(plan[k], e, k)
  }

  /** Storing a plan adds exactly the ids named after its evaluation. */
  lemma {:induction false} StoredIds(allocs: map<string, Allocation>, plan: seq<Allocation>, e: Evaluation, id: string)
    requires MadeFor(plan, e)
    ensures id in Stored(allocs, plan) <==> id in allocs || exists k: nat | k < |plan| :: id == AllocId(e.id, k)
  {
    if |plan| == 0 {
    } else {
      var n := |plan| - 1;
      StoredIds(allocs, plan[..n], e, id);
      assert WellMade(plan[n], e, n);
    }
  }

  lemma InsertedKey<K, V>(m: map<K, V>, k: K, v: V)
    requires k !in m
    ensures m[k := v] - {k} == m && |m[k := v]| == |m| + 1
  {
    assert m[k := v].Keys == m.Keys + {k};
  }

  lemma GrowsBy(allocs: map<string, Allocation>, a: Allocation, nodeId: string)
    requires a.id !in allocs
    ensures |allocs[a.id := a]| == |allocs| + 1
    ensures Usage(allocs[a.id := a], nodeId) == Plus(Usage(allocs, nodeId), Share(a, nodeId))
  {
    hide Usage;
    UsageRemove(allocs[a.id := a], a.id, nodeId);
    InsertedKey(allocs, a.id, a);
  }

  /** With fresh ids nothing is overwritten: the table grows by the plan, usage by its reservations. */
  lemma {:induction false} StoredFresh(
    allocs: map<string, Allocation>, plan: seq<Allocation>, e: Evaluation, nodeId: string)
    requires MadeFor(plan, e) && forall k: nat :: AllocId(e.id, k) !in allocs
    ensures |Stored(allocs, plan)| == |allocs| + |plan|
    ensures Usage(Stored(allocs, plan), nodeId) == Plus(Usage(allocs, nodeId), PlanUse(plan, nodeId))
    ensures NonNegative(PlanUse(plan, nodeId))
  {
    hide Usage;
    if |plan| == 0 {
    } else {
      var n := |plan| - 1;
      var before := Stored(allocs, plan[..n]);
      assert WellMade(plan[n], e, n);
      StoredFresh(allocs, plan[..n], e, nodeId);
      StoredIds(allocs, plan[..n], e, plan[n].id);
      if k: nat :| k < n && plan[n].id == AllocId(e.id, k) {
        AllocIdInjective(e.id, n, e.id, k);
      }
      GrowsBy(before, plan[n], nodeId);
    }
  }

  lemma StoredGrows(allocs: map<string, Allocation>, plan: seq<Allocation>, e: Evaluation)
    requires MadeFor(plan, e) && forall k: nat :: AllocId(e.id, k) !in allocs
    ensures |Stored(allocs, plan)| == |allocs| + |plan|
    ensures forall nodeId :: Fits(Usage(Stored(allocs, plan), nodeId), Usage(allocs, nodeId))
  {
    StoredFresh(allocs, plan, e, "");
    forall nodeId ensures Fits(Usage(Stored(allocs, plan), nodeId), Usage(allocs, nodeId)) {
      StoredFresh(allocs, plan, e, nodeId);
    }
  }

  /** Processing one evaluation leaves the ids of the others fresh. */
  lemma FreshAfter(heap: seq<Waiting>, at: nat, allocs: map<string, Allocation>, plan: seq<Allocation>)
    requires at < |heap| && FreshIds(heap, allocs) && MadeFor(plan, heap[at].eval)
    ensures FreshIds(Without(heap, at), Stored(allocs, plan))
  {
    var rest := Without(heap, at);
    forall i, k: nat | 0 <= i < |rest| ensures AllocId(rest[i].eval.id, k) !in Stored(allocs, plan) {
      var h := if i < at then i else i + 1;
      assert rest[i] == heap[h] && heap[h].eval.id != heap[at].eval.id;
      var id := AllocId(rest[i].eval.id, k);
      StoredIds(allocs, plan, heap[at].eval, id);
      if j: nat :| j < |plan| && id == AllocId(heap[at].eval.id, j) {
        AllocIdInjective(rest[i].eval.id, k, heap[at].eval.id, j);
      }
    }
  }

  /** What could not be placed still cannot be once usage has only grown. */
  lemma UnplaceableStays(e: Evaluation, s: Store, t: Store)
    requires Unplaceable(e, s) && t.jobs == s.jobs && t.nodes == s.nodes
    requires forall nodeId :: Fits(Usage(t.allocs, nodeId), Usage(s.allocs, nodeId))
    ensures Unplaceable(e, t)
  {
    var groups := s.jobs[e.jobId].taskGroups;
    forall i, id | && 0 <= i < |groups| && id in t.nodes && groups[i].count > 0
                   && NodeEligible(t.nodes[id]) && MeetsConstraints(t.nodes[id], groups[i])
      ensures !Fits(Free(t.nodes[id], t.allocs), Demand(groups[i]))
    {
      assert Fits(Usage(t.allocs, t.nodes[id].id), Usage(s.allocs, s.nodes[id].id));
      assert !Fits(Free(s.nodes[id], s.allocs), Demand(groups[i]));
    }
  }

  /** One round of the drain over fresh ids. */
  lemma DrainRound(heap: seq<Waiting>, at: nat, s: Store, order: seq<string>)
    requires at < |heap| && Kept(s) && FreshIds(heap, s.allocs) && Lists(order, s.nodes)
    ensures var e := heap[at].eval;
            var plan := Plan(e, s, order);
            var t := Committed(s, plan);
            && |t.allocs| == |s.allocs| + |plan|
            && FreshIds(Without(heap, at), t.allocs)
            && (forall x | Unplaceable(x, s) :: Unplaceable(x, t))
            && (plan == [] && DesiredCount(e, t) > 0 ==> Unplaceable(e, t))
  {
    var e := heap[at].eval;
    var plan := Plan(e, s, order);
    var t := Committed(s, plan);
    PlanFits(e, s, order);
    StoredGrows(s.allocs, plan, e);
    FreshAfter(heap, at, s.allocs, plan);
    forall x | Unplaceable(x, s) ensures Unplaceable(x, t) { UnplaceableStays(x, s, t); }
    if plan == [] && DesiredCount(e, t) > 0 {
      EmptyPlanMeansUnplaceable(e, s, order);
    }
  }

  /** The evaluations parked since the list was `n` long can none of them be placed. */
  ghost predicate ParkedUnplaceable(blocked: seq<Evaluation>, n: nat, s: Store) {
    n <= |blocked| && forall i | n <= i < |blocked| :: Unplaceable(blocked[i], s)
  }

  ghost predicate ParkedSince(blocked: seq<Evaluation>, n: nat, e: Evaluation) {
    n <= |blocked| && e in blocked[n..]
  }

  ghost predicate ParkedRightly(q0: Queue, q: Queue, s: Store, e: Evaluation) {
    ParkedSince(q.blocked, |q0.blocked|, e) <==> DesiredCount(e, s) > 0 && AllocId(e.id, 0) !in s.allocs
  }

  /** Of the evaluations the drain started with, those no longer waiting were parked exactly if they want
      something and got nothing; and nothing else was parked. */
  ghost predicate Accounted(q0: Queue, q: Queue, s: Store) {
    && (forall i | 0 <= i < |q.heap| :: q.heap[i] in q0.heap)
    && (forall x | ParkedSince(q.blocked, |q0.blocked|, x) :: exists w :: w in q0.heap && w !in q.heap && w.eval == x)
    && (forall w | w in q0.heap && w !in q.heap :: ParkedRightly(q0, q, s, w.eval))
  }

  ghost predicate OnlyAllocsChange(s: Store, t: Store) {
    t.jobs == s.jobs && t.nodes == s.nodes && t.evals == s.evals
  }

  /** What every round keeps, counted from queue `q0` and store `s0`. */
  ghost predicate DrainInv(q0: Queue, s0: Store, q: Queue, s: Store, placed: nat) {
    && q0.blocked <= q.blocked
    && (forall id | id in q.inFlight :: id in q0.inFlight)
    && (Kept(s0) ==> Kept(s) && OnlyAllocsChange(s0, s))
    && (Kept(s0) && FreshIds(q0.heap, s0.allocs) ==>
          && FreshIds(q.heap, s.allocs)
          && placed == |s.allocs| - |s0.allocs|
          && Accounted(q0, q, s)
          && ParkedUnplaceable(q.blocked, |q0.blocked|, s))
  }

  /** Dequeue, park if nothing was placed although something was wanted, acknowledge. */
  function AfterRound(q: Queue, at: nat, now: int, park: bool): Queue
    requires IsTop(q.heap, at)
  {
    var e := q.heap[at].eval;
    var taken := Next(q, Dequeue(at, now));
    Next(if park then Next(taken, Block(e)) else taken, Ack(e.id))
  }

  lemma AfterRoundShape(q: Queue, at: nat, now: int, park: bool)
    requires IsTop(q.heap, at)
    ensures var r := AfterRound(q, at, now, park);
            && r.heap == Without(q.heap, at) && |r.heap| < |q.heap|
            && r.blocked == q.blocked + (if park then [q.heap[at].eval] else [])
            && forall id | id in r.inFlight :: id in q.inFlight
  { }

  lemma ParkedGrows(blocked: seq<Evaluation>, n: nat, s: Store, t: Store, park: bool, e: Evaluation)
    requires ParkedUnplaceable(blocked, n, s) && (forall x | Unplaceable(x, s) :: Unplaceable(x, t))
    requires park ==> Unplaceable(e, t)
    ensures ParkedUnplaceable(blocked + (if park then [e] else []), n, t)
  {
    hide Unplaceable;
  }

  lemma CommittedAllocs(s: Store, plan: seq<Allocation>)
    ensures OnlyAllocsChange(s, Committed(s, plan))
  { }

  lemma FreshDistinct(heap: seq<Waiting>, allocs: map<string, Allocation>)
    requires FreshIds(heap, allocs)
    ensures DistinctIds(heap)
  { }

  lemma OneId(heap: seq<Waiting>, v: Waiting, w: Waiting)
    requires DistinctIds(heap)
    requires v in heap && w in heap && v.eval.id == w.eval.id
    ensures v == w
  { }

  lemma WithoutIn(heap: seq<Waiting>, at: nat, w: Waiting)
    requires at < |heap| && DistinctIds(heap)
    ensures w in Without(heap, at) <==> w in heap && w != heap[at]
  {
    if w in heap && w != heap[at] {
      var i :| 0 <= i < |heap| && heap[i] == w;
      assert Without(heap, at)[if i < at then i else i - 1] == w;
    }
    if w in Without(heap, at) {
      var i :| 0 <= i < |Without(heap, at)| && Without(heap, at)[i] == w;
      assert heap[if i < at then i else i + 1] == w;
    }
  }

  lemma ParkedMore(blocked: seq<Evaluation>, n: nat, park: bool, e: Evaluation, x: Evaluation)
    requires n <= |blocked|
    ensures ParkedSince(blocked + (if park then [e] else []), n, x) <==> ParkedSince(blocked, n, x) || (park && x == e)
  {
    assert (blocked + [e])[n..] == blocked[n..] + [e];
    assert blocked + [] == blocked;
  }

  lemma NothingStored(allocs: map<string, Allocation>)
    ensures Stored(allocs, []) == allocs
  { }

  /** A commit leaves the first allocation of another evaluation there or not there, as it was. */
  lemma FirstIdKept(allocs: map<string, Allocation>, plan: seq<Allocation>, e: Evaluation, x: Evaluation)
    requires MadeFor(plan, e)
    ensures x.id != e.id ==> (AllocId(x.id, 0) in Stored(allocs, plan) <==> AllocId(x.id, 0) in allocs)
    ensures plan != [] ==> AllocId(e.id, 0) in Stored(allocs, plan)
    ensures plan == [] ==> Stored(allocs, plan) == allocs
  {
    hide Stored;
    StoredIds(allocs, plan, e, AllocId(x.id, 0));
    StoredIds(allocs, plan, e, AllocId(e.id, 0));
    if k: nat :| k < |plan| && AllocId(x.id, 0) == AllocId(e.id, k) { AllocIdInjective(x.id, 0, e.id, k); }
    NothingStored(allocs);
  }

  lemma NotParkedYet(q0: Queue, q: Queue, s: Store, at: nat)
    requires DistinctIds(q0.heap) && at < |q.heap| && Accounted(q0, q, s)
    ensures !ParkedSince(q.blocked, |q0.blocked|, q.heap[at].eval)
  {
    hide ParkedSince;
    var w := q.heap[at];
    forall v | v in q0.heap && v !in q.heap ensures v.eval != w.eval {
      if v.eval.id == w.eval.id { OneId(q0.heap, v, w); }
    }
  }

  lemma DesiredKept(s: Store, t: Store)
    requires t.jobs == s.jobs
    ensures forall e :: DesiredCount(e, t) == DesiredCount(e, s)
  { }

  /** One round keeps the account: `r` is the queue after handling `q.heap[at]`. */
  lemma AccountedKeeps(q0: Queue, q: Queue, s: Store, r: Queue, plan: seq<Allocation>, at: nat, park: bool)
    requires DistinctIds(q0.heap)
    requires |q0.blocked| <= |q.blocked| && at < |q.heap| && FreshIds(q.heap, s.allocs)
    requires Accounted(q0, q, s) && MadeFor(plan, q.heap[at].eval)
    requires r.heap == Without(q.heap, at) && r.blocked == q.blocked + (if park then [q.heap[at].eval] else [])
    requires park <==> plan == [] && DesiredCount(q.heap[at].eval, s) > 0
    ensures Accounted(q0, r, Committed(s, plan))
  {
    hide Stored, DesiredCount, ParkedSince, MadeFor;
    var w, n, t := q.heap[at], |q0.blocked|, Committed(s, plan);
    var e := w.eval;
    DesiredKept(s, t);
    forall v ensures v in r.heap <==> v in q.heap && v != w { WithoutIn(q.heap, at, v); }
    forall x ensures ParkedSince(r.blocked, n, x) <==> ParkedSince(q.blocked, n, x) || (park && x == e) {
      ParkedMore(q.blocked, n, park, e, x);
    }
    NotParkedYet(q0, q, s, at);
    forall v | v in q0.heap && v !in r.heap ensures ParkedRightly(q0, r, t, v.eval) {
      FirstIdKept(s.allocs, plan, e, v.eval);
      if v != w { if v.eval.id == e.id { OneId(q0.heap, v, w); } }
    }
    forall x | ParkedSince(r.blocked, n, x) ensures exists v :: v in q0.heap && v !in r.heap && v.eval == x {
      if !ParkedSince(q.blocked, n, x) { assert w in q0.heap && w !in r.heap && w.eval == x; }
    }
  }

  lemma PlanMade(e: Evaluation, s: Store, order: seq<string>)
    requires Kept(s) && Lists(order, s.nodes)
    ensures MadeFor(Plan(e, s, order), e)
  {
    PlanFits(e, s, order);
  }

  lemma DrainKeeps(q0: Queue, s0: Store, q: Queue, s: Store, placed: nat, at: nat, now: int, order: seq<string>)
    requires DrainInv(q0, s0, q, s, placed) && IsTop(q.heap, at) && Lists(order, s.nodes)
    requires ApplyAll(s, Plan(q.heap[at].eval, s, order)).1.Ok?
    ensures var e := q.heap[at].eval;
            var plan := Plan(e, s, order);
            var t := ApplyAll(s, plan).0;
            var park := |plan| == 0 && DesiredCount(e, t) > 0;
            && DrainInv(q0, s0, AfterRound(q, at, now, park), t, placed + |plan|)
            && |AfterRound(q, at, now, park).heap| < |q.heap|
  {
    hide FreshIds, Unplaceable, Kept, Plan, ApplyAll, Committed, DesiredCount, AfterRound, ParkedUnplaceable;
    hide Accounted, MadeFor, DistinctIds, WithinCapacity, NoNegativeReservation;
    var e := q.heap[at].eval;
    var plan := Plan(e, s, order);
    var t := ApplyAll(s, plan).0;
    var park := |plan| == 0 && DesiredCount(e, t) > 0;
    AfterRoundShape(q, at, now, park);
    if Kept(s0) {
      PlanCommits(e, s, order);
      CommittedAllocs(s, plan);
      if FreshIds(q0.heap, s0.allocs) {
        DrainRound(q.heap, at, s, order);
        PlanMade(e, s, order);
        FreshDistinct(q0.heap, s0.allocs);
        DesiredKept(s, t);
        AccountedKeeps(q0, q, s, AfterRound(q, at, now, park), plan, at, park);
        ParkedGrows(q.blocked, |q0.blocked|, s, t, park, e);
      }
    }
  }

  lemma DrainStarts(q: Queue, s: Store)
    ensures DrainInv(q, s, q, s, 0)
  { }

  lemma DrainNeverFails(q0: Queue, s0: Store, q: Queue, s: Store, placed: nat)
    requires DrainInv(q0, s0, q, s, placed)
    ensures Kept(s0) ==> Kept(s)
  { }

  lemma DrainDone(q0: Queue, s0: Store, q: Queue, s: Store, placed: nat)
    requires DrainInv(q0, s0, q, s, placed) && q.heap == []
    ensures Kept(s0) && FreshIds(q0.heap, s0.allocs) ==>
              forall w | w in q0.heap ::
                ParkedSince(q.blocked, |q0.blocked|, w.eval) <==>
                  DesiredCount(w.eval, s) > 0 && AllocId(w.eval.id, 0) !in s.allocs
  {
    hide Kept, FreshIds, ParkedSince, DesiredCount;
    forall w | w in q0.heap && Accounted(q0, q, s) ensures ParkedRightly(q0, q, s, w.eval) { }
  }

  /** Processes every waiting evaluation. From a well-kept store it always succeeds and leaves the heap
      empty; when the waiting ids are fresh as well, it returns the growth of the allocation table and
      every evaluation it parked still has no node with room for any group that is wanted. Of the
      evaluations that waited it then parked exactly those that want something and got nothing. */
  method DrainQueue(queue: EvalQueue, fsm: Fsm) returns (r: Result<nat>)
    modifies queue, fsm.state
    ensures r.Ok? ==> queue.heap == [] && DrainInv(old(queue.View()), old(fsm.state.View()),
                                                   queue.View(), fsm.state.View(), r.value)
    ensures Kept(old(fsm.state.View())) ==> r.Ok?
    ensures r.Ok? && Kept(old(fsm.state.View())) && FreshIds(old(queue.heap), old(fsm.state.allocs)) ==>
              forall w | w in old(queue.heap) ::
                ParkedSince(queue.blocked, |old(queue.blocked)|, w.eval) <==>
                  DesiredCount(w.eval, fsm.state.View()) > 0 && AllocId(w.eval.id, 0) !in fsm.state.allocs
  {
    hide DrainInv, Kept, Plan, ApplyAll, Committed, WithinCapacity, Lists, FreshIds, ParkedSince, DesiredCount;
    var placed: nat := 0;
    ghost var q0, s0 := queue.View(), fsm.state.View();
    DrainStarts(q0, s0);
    while true
      invariant DrainInv(q0, s0, queue.View(), fsm.state.View(), placed)
      decreases |queue.heap|
    {
      ghost var q, s := queue.View(), fsm.state.View();
      var now: int := *;
      var next, at := queue.Dequeue(now);
      if next.None? { break; }
      var eval := next.value;
      var done, order := ProcessAndApply(eval, fsm);
      if done.Err? {
        DrainNeverFails(q0, s0, q, s, placed);
        queue.Nack(eval.id);
        return Err(done.error);
      }
      DrainKeeps(q0, s0, q, s, placed, at, now, order);
      placed := placed + |done.value|;
      if |done.value| == 0 && DesiredCount(eval, fsm.state.View()) > 0 {
        queue.Block(eval);
      }
      queue.Ack(eval.id);
    }
    DrainDone(q0, s0, queue.View(), fsm.state.View(), placed);
    r := Ok(placed);
  }
}
