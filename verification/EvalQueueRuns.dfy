/** What holds of the broker over every run of its operations. */
module BrokerRuns {
  import opened Domain
  import opened Finite
  import opened Broker

  /** One operation; one the queue's state rules out does not happen. */
  function Step(q: Queue, op: Op): Queue {
    if Can(q, op) then Next(q, op) else q
  }

  function After(q: Queue, ops: seq<Op>): Queue {
    if |ops| == 0 then q else Step(After(q, ops[..|ops| - 1]), ops[|ops| - 1])
  }

  // ---- State invariant ------------------------------------------------------------------------

  /** Sequence numbers are distinct and below the counter; a waiting entry has been delivered at most
      twice, an in-flight one between once and three times and sits under its own id. */
  ghost predicate Inv(q: Queue) {
    && (forall i | 0 <= i < |q.heap| :: q.heap[i].seqNo < q.nextSeq && q.heap[i].dequeues < MAX_DEQUEUE)
    && (forall i, j | 0 <= i < j < |q.heap| :: q.heap[i].seqNo != q.heap[j].seqNo)
    && (forall id | id in q.inFlight ::
          && q.inFlight[id].eval.id == id
          && 1 <= q.inFlight[id].dequeues <= MAX_DEQUEUE
          && q.inFlight[id].dequeuedAt.Some?)
  }

  lemma RequeueInv(q: Queue, id: string)
    requires Inv(q)
    ensures Inv(Requeue(q, id))
  { }

  lemma {:induction false} RequeueAllInv(q: Queue, ids: seq<string>)
    requires Inv(q)
    ensures Inv(RequeueAll(q, ids))
  {
    if |ids| == 0 {
    } else {
      RequeueAllInv(q, ids[..|ids| - 1]);
      RequeueInv(RequeueAll(q, ids[..|ids| - 1]), ids[|ids| - 1]);
    }
  }

  lemma {:induction false} PushAllInv(q: Queue, evals: seq<Evaluation>)
    requires Inv(q)
    ensures Inv(PushAll(q, evals))
  {
    if |evals| == 0 {
    } else {
      PushAllInv(q, evals[..|evals| - 1]);
    }
  }

  lemma {:induction false} StepInv(q: Queue, op: Op)
    requires Inv(q)
    ensures Inv(Step(q, op))
  {
    if Can(q, op) {
      match op
      case Reap(ids, _, _) => RequeueAllInv(q, ids);
      case Unblock => PushAllInv(q.(blocked := []), q.blocked);
      case _ =>
    }
  }

  /** The invariant holds in every reachable queue. */
  lemma {:induction false} RunInv(q: Queue, ops: seq<Op>)
    requires Inv(q)
    ensures Inv(After(q, ops))
  {
    if |ops| == 0 {
    } else {
      RunInv(q, ops[..|ops| - 1]);
      StepInv(After(q, ops[..|ops| - 1]), ops[|ops| - 1]);
    }
  }

  // ---- Conservation ---------------------------------------------------------------------------

  /** What came in, what moved between the heap, the in-flight table and the parking list, and the three
      ways a ticket can end. */
  datatype Ledger = Ledger(
    enqueued: multiset<Evaluation>,
    parked: multiset<Evaluation>,
    unparked: multiset<Evaluation>,
    delivered: multiset<Evaluation>,
    requeued: multiset<Evaluation>,
    acked: multiset<Evaluation>,
    dropped: multiset<Evaluation>,
    overwritten: multiset<Evaluation>)

  const BLANK := Ledger(
    multiset{}, multiset{}, multiset{}, multiset{}, multiset{}, multiset{}, multiset{}, multiset{})

  function Sum(a: Ledger, b: Ledger): Ledger {
    Ledger(a.enqueued + b.enqueued, a.parked + b.parked, a.unparked + b.unparked, a.delivered + b.delivered,
           a.requeued + b.requeued, a.acked + b.acked, a.dropped + b.dropped, a.overwritten + b.overwritten)
  }

  /** Evaluations that entered the broker. */
  function Created(l: Ledger): multiset<Evaluation> {
    l.enqueued + l.parked
  }

  /** Tickets that ended, one way or another. */
  function Ended(l: Ledger): multiset<Evaluation> {
    l.acked + l.dropped + l.overwritten
  }

  /** What was put on the heap. */
  function Queued(l: Ledger): multiset<Evaluation> {
    l.enqueued + l.unparked + l.requeued
  }

  /** What left the in-flight table. */
  function Landed(l: Ledger): multiset<Evaluation> {
    l.requeued + Ended(l)
  }

  function Tracked(m: map<string, Waiting>, id: string): multiset<Evaluation> {
    if id in m then multiset{m[id].eval} else multiset{}
  }

  predicate Spent(q: Queue, id: string) {
    id in q.inFlight && q.inFlight[id].dequeues >= MAX_DEQUEUE
  }

  function DroppedBy(q: Queue, id: string): multiset<Evaluation> {
    if Spent(q, id) then Tracked(q.inFlight, id) else multiset{}
  }

  function RequeuedBy(q: Queue, id: string): multiset<Evaluation> {
    if Spent(q, id) then multiset{} else Tracked(q.inFlight, id)
  }

  function DroppedByAll(q: Queue, ids: seq<string>): multiset<Evaluation> {
    if |ids| == 0 then multiset{} else
    DroppedByAll(q, ids[..|ids| - 1]) + DroppedBy(RequeueAll(q, ids[..|ids| - 1]), ids[|ids| - 1])
  }

  function RequeuedByAll(q: Queue, ids: seq<string>): multiset<Evaluation> {
    if |ids| == 0 then multiset{} else
    RequeuedByAll(q, ids[..|ids| - 1]) + RequeuedBy(RequeueAll(q, ids[..|ids| - 1]), ids[|ids| - 1])
  }

  /** The ledger entry of one operation. */
  function Entry(q: Queue, op: Op): Ledger {
    if !Can(q, op) then BLANK else
    match op
    case Enqueue(e) => BLANK.(enqueued := multiset{e})
    case Block(e) => BLANK.(parked := multiset{e})
    case Unblock => BLANK.(unparked := multiset(q.blocked))
    case Dequeue(at, _) =>
      BLANK.(delivered := multiset{q.heap[at].eval}, overwritten := Tracked(q.inFlight, q.heap[at].eval.id))
    case Ack(id) => BLANK.(acked := Tracked(q.inFlight, id))
    case Nack(id) => BLANK.(requeued := RequeuedBy(q, id), dropped := DroppedBy(q, id))
    case Reap(ids, _, _) => BLANK.(requeued := RequeuedByAll(q, ids), dropped := DroppedByAll(q, ids))
  }

  function Books(q: Queue, ops: seq<Op>): Ledger {
    if |ops| == 0 then BLANK else
    Sum(Books(q, ops[..|ops| - 1]), Entry(After(q, ops[..|ops| - 1]), ops[|ops| - 1]))
  }

  function Evals(heap: seq<Waiting>): seq<Evaluation> {
    seq(|heap|, i requires 0 <= i < |heap| => heap[i].eval)
  }

  function FlightEvals(m: map<string, Waiting>): map<string, Evaluation> {
    map id | id in m :: m[id].eval
  }

  function OnHeap(q: Queue): multiset<Evaluation> {
    multiset(Evals(q.heap))
  }

  ghost function InFlight(q: Queue): multiset<Evaluation> {
    Bag(FlightEvals(q.inFlight))
  }

  /** Every evaluation the broker currently holds, waiting, in flight or parked. */
  ghost function Live(q: Queue): multiset<Evaluation> {
    OnHeap(q) + InFlight(q) + multiset(q.blocked)
  }

  /** The part of a queue `held` took in `more` and gave up `less`. */
  ghost predicate Flows<T>(held: multiset<T>, more: multiset<T>, held': multiset<T>, less: multiset<T>) {
    held + more == held' + less
  }

  lemma SamePlaces(q: Queue, r: Queue)
    ensures q.heap == r.heap ==> OnHeap(q) == OnHeap(r)
  { }

  lemma PushHeap(q: Queue, e: Evaluation, dequeues: nat)
    ensures OnHeap(Push(q, e, dequeues)) == OnHeap(q) + multiset{e}
  {
    assert Evals(Push(q, e, dequeues).heap) == Evals(q.heap) + [e];
  }

  lemma {:induction false} PushAllHeap(q: Queue, evals: seq<Evaluation>)
    ensures OnHeap(PushAll(q, evals)) == OnHeap(q) + multiset(evals)
    ensures PushAll(q, evals).inFlight == q.inFlight && PushAll(q, evals).blocked == q.blocked
  {
    if |evals| == 0 {
    } else {
      var n := |evals| - 1;
      PushAllHeap(q, evals[..n]);
      PushHeap(PushAll(q, evals[..n]), evals[n], 0);
      assert evals == evals[..n] + [evals[n]];
    }
  }

  lemma HeapPop(heap: seq<Waiting>, at: nat)
    requires at < |heap|
    ensures multiset(Evals(heap)) == multiset(Evals(Without(heap, at))) + multiset{heap[at].eval}
  {
    WithoutBag(Evals(heap), at);
    assert Without(Evals(heap), at) == Evals(Without(heap, at));
  }

  lemma FlightDiscard(m: map<string, Waiting>, id: string)
    ensures Bag(FlightEvals(m)) == Bag(FlightEvals(m - {id})) + Tracked(m, id)
  {
    if id in m {
      BagRemove(FlightEvals(m), id);
      assert FlightEvals(m) - {id} == FlightEvals(m - {id});
    } else {
      assert m - {id} == m;
    }
  }

  lemma FlightInsert(m: map<string, Waiting>, id: string, w: Waiting)
    ensures Bag(FlightEvals(m[id := w])) == Bag(FlightEvals(m - {id})) + multiset{w.eval}
  {
    var n := m[id := w];
    assert n - {id} == m - {id};
    FlightDiscard(n, id);
  }

  lemma RequeueShape(q: Queue, id: string)
    ensures Requeue(q, id).inFlight == q.inFlight - {id} && Requeue(q, id).blocked == q.blocked
    ensures OnHeap(Requeue(q, id)) == OnHeap(q) + RequeuedBy(q, id)
  {
    if id in q.inFlight {
      var w := q.inFlight[id];
      var rest := q.(inFlight := q.inFlight - {id});
      PushHeap(rest, w.eval, w.dequeues);
      SamePlaces(q, rest);
      hide OnHeap;
    } else {
      assert q.inFlight - {id} == q.inFlight;
    }
  }

  lemma TrackedSplit(q: Queue, id: string)
    ensures Tracked(q.inFlight, id) == RequeuedBy(q, id) + DroppedBy(q, id)
  { }

  lemma RequeueFlows(q: Queue, id: string)
    ensures OnHeap(Requeue(q, id)) == OnHeap(q) + RequeuedBy(q, id)
    ensures InFlight(q) == InFlight(Requeue(q, id)) + (RequeuedBy(q, id) + DroppedBy(q, id))
    ensures Requeue(q, id).blocked == q.blocked
  {
    hide OnHeap, Requeue, RequeuedBy, DroppedBy, Tracked;
    RequeueShape(q, id);
    FlightDiscard(q.inFlight, id);
    TrackedSplit(q, id);
  }

  lemma Chain<T>(held: multiset<T>, mid: multiset<T>, last: multiset<T>,
                 a: multiset<T>, b: multiset<T>, c: multiset<T>, d: multiset<T>)
    requires held == mid + (a + b) && mid == last + (c + d)
    ensures held == last + ((a + c) + (b + d))
  { }

  lemma {:induction false} RequeueAllFlows(q: Queue, ids: seq<string>)
    ensures OnHeap(RequeueAll(q, ids)) == OnHeap(q) + RequeuedByAll(q, ids)
    ensures InFlight(q) == InFlight(RequeueAll(q, ids)) + (RequeuedByAll(q, ids) + DroppedByAll(q, ids))
    ensures RequeueAll(q, ids).blocked == q.blocked
  {
    hide OnHeap, InFlight, Requeue, RequeuedBy, DroppedBy;
    if |ids| == 0 {
    } else {
      var before, id := ids[..|ids| - 1], ids[|ids| - 1];
      var mid := RequeueAll(q, before);
      RequeueAllFlows(q, before);
      RequeueFlows(mid, id);
      Chain(InFlight(q), InFlight(mid), InFlight(Requeue(mid, id)),
            RequeuedByAll(q, before), DroppedByAll(q, before), RequeuedBy(mid, id), DroppedBy(mid, id));
    }
  }

  lemma DequeueFlows(q: Queue, at: nat, now: int)
    requires IsTop(q.heap, at)
    ensures var r, e := Next(q, Dequeue(at, now)), q.heap[at].eval;
            && OnHeap(q) == OnHeap(r) + multiset{e}
            && InFlight(q) + multiset{e} == InFlight(r) + Tracked(q.inFlight, e.id)
  {
    var w := q.heap[at];
    HeapPop(q.heap, at);
    FlightInsert(q.inFlight, w.eval.id, Deliver(w, now));
    FlightDiscard(q.inFlight, w.eval.id);
  }

  /** The books of one operation balance in each of the three places. */
  ghost predicate Balanced(q: Queue, l: Ledger, r: Queue) {
    && Flows(OnHeap(q), Queued(l), OnHeap(r), l.delivered)
    && Flows(InFlight(q), l.delivered, InFlight(r), Landed(l))
    && Flows(multiset(q.blocked), l.parked, multiset(r.blocked), l.unparked)
  }

  /** Nothing but requeueing and endings: the heap gains what the in-flight table returns. */
  lemma ReturnBalance(q: Queue, l: Ledger, r: Queue)
    requires l == BLANK.(requeued := l.requeued, acked := l.acked, dropped := l.dropped)
    requires OnHeap(r) == OnHeap(q) + l.requeued && r.blocked == q.blocked
    requires InFlight(q) == InFlight(r) + (l.requeued + (l.acked + l.dropped))
    ensures Balanced(q, l, r)
  {
    hide OnHeap, InFlight;
    assert Queued(l) == l.requeued && Landed(l) == l.requeued + (l.acked + l.dropped);
  }

  lemma DequeueBalance(q: Queue, l: Ledger, r: Queue)
    requires l == BLANK.(delivered := l.delivered, overwritten := l.overwritten)
    requires OnHeap(q) == OnHeap(r) + l.delivered && r.blocked == q.blocked
    requires InFlight(q) + l.delivered == InFlight(r) + l.overwritten
    ensures Balanced(q, l, r)
  {
    hide OnHeap, InFlight;
    assert Queued(l) == multiset{} && Landed(l) == l.overwritten;
  }

  lemma EntryBalance(q: Queue, l: Ledger, r: Queue)
    requires l == BLANK.(enqueued := l.enqueued, parked := l.parked, unparked := l.unparked)
    requires OnHeap(r) == OnHeap(q) + (l.enqueued + l.unparked) && r.inFlight == q.inFlight
    requires multiset(q.blocked) + l.parked == multiset(r.blocked) + l.unparked
    ensures Balanced(q, l, r)
  {
    hide OnHeap, FlightEvals;
    assert Queued(l) == l.enqueued + l.unparked && Landed(l) == multiset{};
  }

  lemma AckBalance(q: Queue, id: string)
    ensures Balanced(q, Entry(q, Ack(id)), Next(q, Ack(id)))
  {
    hide FlightEvals;
    FlightDiscard(q.inFlight, id);
    SamePlaces(q, Next(q, Ack(id)));
    hide OnHeap;
    var l := Entry(q, Ack(id));
    assert l.requeued + (l.acked + l.dropped) == Tracked(q.inFlight, id);
    ReturnBalance(q, l, Next(q, Ack(id)));
  }

  lemma NackBalance(q: Queue, id: string)
    ensures Balanced(q, Entry(q, Nack(id)), Next(q, Nack(id)))
  {
    hide OnHeap, InFlight, Requeue, RequeuedBy, DroppedBy, Balanced;
    RequeueFlows(q, id);
    ReturnBalance(q, Entry(q, Nack(id)), Requeue(q, id));
  }

  lemma ReapBalance(q: Queue, ids: seq<string>, now: int, timeout: nat)
    requires Can(q, Reap(ids, now, timeout))
    ensures Balanced(q, Entry(q, Reap(ids, now, timeout)), Next(q, Reap(ids, now, timeout)))
  {
    hide OnHeap, InFlight, RequeueAll, RequeuedByAll, DroppedByAll, Balanced, ListsExpired;
    RequeueAllFlows(q, ids);
    ReturnBalance(q, Entry(q, Reap(ids, now, timeout)), RequeueAll(q, ids));
  }

  lemma UnblockBalance(q: Queue)
    ensures Balanced(q, Entry(q, Unblock), Next(q, Unblock))
  {
    hide PushAll, Balanced;
    PushAllHeap(q.(blocked := []), q.blocked);
    SamePlaces(q, q.(blocked := []));
    hide OnHeap;
    EntryBalance(q, Entry(q, Unblock), Next(q, Unblock));
  }

  lemma {:induction false} StepBalance(q: Queue, op: Op)
    ensures Balanced(q, Entry(q, op), Step(q, op))
  {
    hide OnHeap, InFlight, Requeue, RequeueAll, PushAll, IsTop, Tracked;
    hide RequeuedBy, DroppedBy, RequeuedByAll, DroppedByAll;
    if Can(q, op) {
      hide Balanced;
      var l, r := Entry(q, op), Next(q, op);
      match op
      case Enqueue(x) => PushHeap(q, x, 0); EntryBalance(q, l, r);
      case Dequeue(at, now) => DequeueFlows(q, at, now); DequeueBalance(q, l, r);
      case Ack(id) => AckBalance(q, id);
      case Nack(id) => NackBalance(q, id);
      case Reap(ids, now, timeout) => ReapBalance(q, ids, now, timeout);
      case Block(x) => SamePlaces(q, r); EntryBalance(q, l, r);
      case Unblock => UnblockBalance(q);
    }
  }

  lemma Accumulate<T>(total: multiset<T>, held: multiset<T>, gone: multiset<T>,
                      more: multiset<T>, held': multiset<T>, less: multiset<T>)
    requires total == held + gone && Flows(held, more, held', less)
    ensures total + more == held' + (gone + less)
  {
    assert total + more == (held + more) + gone;
  }

  lemma SumParts(a: Ledger, b: Ledger)
    ensures Queued(Sum(a, b)) == Queued(a) + Queued(b)
    ensures Landed(Sum(a, b)) == Landed(a) + Landed(b)
  { }

  /** Over every run, each place holds what was put into it, less what was taken out. */
  lemma {:induction false} PlacesBalance(ops: seq<Op>)
    ensures var q, b := After(NOTHING, ops), Books(NOTHING, ops);
            && Queued(b) == OnHeap(q) + b.delivered
            && b.delivered == InFlight(q) + Landed(b)
            && b.parked == multiset(q.blocked) + b.unparked
  {
    if |ops| == 0 {
      assert Evals([]) == [] && FlightEvals(map[]) == map[];
    } else {
      var before := ops[..|ops| - 1];
      var q, op := After(NOTHING, before), ops[|ops| - 1];
      var r, b, e := Step(q, op), Books(NOTHING, before), Entry(q, op);
      PlacesBalance(before);
      StepBalance(q, op);
      hide OnHeap, InFlight, Queued, Landed, Step, Entry, Flows;
      Accumulate(Queued(b), OnHeap(q), b.delivered, Queued(e), OnHeap(r), e.delivered);
      Accumulate(b.delivered, InFlight(q), Landed(b), e.delivered, InFlight(r), Landed(e));
      Accumulate(b.parked, multiset(q.blocked), b.unparked, e.parked, multiset(r.blocked), e.unparked);
      SumParts(b, e);
    }
  }

  lemma Balance<T>(enqueued: multiset<T>, unparked: multiset<T>, requeued: multiset<T>, heap: multiset<T>,
                   delivered: multiset<T>, flight: multiset<T>, ended: multiset<T>,
                   parked: multiset<T>, blocked: multiset<T>)
    requires enqueued + unparked + requeued == heap + delivered
    requires delivered == flight + (requeued + ended) && parked == blocked + unparked
    ensures enqueued + parked == heap + flight + blocked + ended
  {
    forall x ensures (enqueued + parked)[x] == (heap + flight + blocked + ended)[x] {
      assert (enqueued + unparked + requeued)[x] == (heap + delivered)[x];
    }
  }

  /** Conservation over every run: each evaluation that was enqueued or parked is, as often as it was,
      still held (waiting, in flight or parked) or was acked, dropped or overwritten. */
  lemma Conservation(ops: seq<Op>)
    ensures var b := Books(NOTHING, ops);
            Created(b) == Live(After(NOTHING, ops)) + Ended(b)
  {
    var q, b := After(NOTHING, ops), Books(NOTHING, ops);
    PlacesBalance(ops);
    Balance(b.enqueued, b.unparked, b.requeued, OnHeap(q), b.delivered, InFlight(q), Ended(b),
            b.parked, multiset(q.blocked));
  }

  /** So each of the three depth counters is what the ledger says went into that place and did not leave. */
  lemma DepthMatchesLedger(ops: seq<Op>)
    ensures var q, b := After(NOTHING, ops), Books(NOTHING, ops);
            && |q.heap| == |b.enqueued| + |b.unparked| + |b.requeued| - |b.delivered|
            && |q.inFlight| == |b.delivered| - |b.requeued| - |b.acked| - |b.dropped| - |b.overwritten|
            && |q.blocked| == |b.parked| - |b.unparked|
  {
    var q, b := After(NOTHING, ops), Books(NOTHING, ops);
    PlacesBalance(ops);
    assert |Queued(b)| == |b.enqueued| + |b.unparked| + |b.requeued|;
    assert |Landed(b)| == |b.requeued| + (|b.acked| + |b.dropped| + |b.overwritten|);
    assert |OnHeap(q)| == |q.heap|;
    assert FlightEvals(q.inFlight).Keys == q.inFlight.Keys;
    assert |InFlight(q)| == |q.inFlight|;
  }

  /** A dequeue that hands out an id whose earlier delivery is still in flight. */
  predicate Collides(q: Queue, op: Op) {
    op.Dequeue? && Can(q, op) && q.heap[op.at].eval.id in q.inFlight
  }

  ghost predicate NoCollision(q: Queue, ops: seq<Op>) {
    |ops| == 0 ||
    (NoCollision(q, ops[..|ops| - 1]) && !Collides(After(q, ops[..|ops| - 1]), ops[|ops| - 1]))
  }

  lemma EmptySum<T>(a: multiset<T>, b: multiset<T>)
    ensures a + b == multiset{} <==> a == multiset{} && b == multiset{}
  {
    assert |a + b| == |a| + |b|;
  }

  /** Overwriting an in-flight delivery is the only loss beyond acks and drops at the cap, and it
      happens if and only if some dequeue collides. */
  lemma {:induction false} OverwrittenIffCollision(q: Queue, ops: seq<Op>)
    ensures Books(q, ops).overwritten == multiset{} <==> NoCollision(q, ops)
  {
    if |ops| == 0 {
    } else {
      var s, op := After(q, ops[..|ops| - 1]), ops[|ops| - 1];
      OverwrittenIffCollision(q, ops[..|ops| - 1]);
      assert Entry(s, op).overwritten == multiset{} <==> !Collides(s, op);
      EmptySum(Books(q, ops[..|ops| - 1]).overwritten, Entry(s, op).overwritten);
    }
  }

  /** A failed or expired delivery is dropped exactly at the third one. Otherwise it waits again, with
      its delivery count, behind everything of its priority that was already waiting. */
  lemma RequeueOrDrop(q: Queue, id: string)
    requires Inv(q) && id in q.inFlight
    ensures var w := q.inFlight[id];
            var r := Requeue(q, id);
            && id !in r.inFlight
            && (DroppedBy(q, id) != multiset{} <==> w.dequeues == 3)
            && (w.dequeues == 3 ==> r.heap == q.heap)
            && (w.dequeues < 3 ==>
                  && |r.heap| == |q.heap| + 1
                  && r.heap[..|q.heap|] == q.heap
                  && r.heap[|q.heap|].eval == w.eval
                  && r.heap[|q.heap|].dequeues == w.dequeues
                  && forall i | 0 <= i < |q.heap| ::
                       q.heap[i].eval.priority >= w.eval.priority ==> Below(r.heap[|q.heap|], q.heap[i]))
  { }

  /** What sweeps put back on the heap. */
  function SweptBack(q: Queue, ops: seq<Op>): multiset<Evaluation> {
    if |ops| == 0 then multiset{} else
    var s, op := After(q, ops[..|ops| - 1]), ops[|ops| - 1];
    SweptBack(q, ops[..|ops| - 1]) + if op.Reap? && Can(s, op) then RequeuedByAll(s, op.ids) else multiset{}
  }

  lemma EntryRequeued(q: Queue, op: Op)
    requires !op.Nack?
    ensures Entry(q, op).requeued == if op.Reap? && Can(q, op) then RequeuedByAll(q, op.ids) else multiset{}
  { }

  /** Without negative acknowledgements, everything requeued came from a sweep. */
  lemma {:induction false} RequeuedBySweeps(q: Queue, ops: seq<Op>)
    requires forall i | 0 <= i < |ops| :: !ops[i].Nack?
    ensures Books(q, ops).requeued == SweptBack(q, ops)
  {
    if |ops| == 0 {
    } else {
      hide Entry, Step, Can, RequeuedByAll;
      RequeuedBySweeps(q, ops[..|ops| - 1]);
      EntryRequeued(After(q, ops[..|ops| - 1]), ops[|ops| - 1]);
    }
  }

  // ---- Delivery cap ---------------------------------------------------------------------------

  /** Which evaluations are counted: one, all with one id, or simply all. */
  type Watched = Evaluation -> bool

  function Only(e: Evaluation): Watched {
    (x: Evaluation) => x == e
  }

  /** Deliveries still owed to an entry that is watched. */
  function Owed(w: Waiting, who: Watched): int {
    if who(w.eval) then MAX_DEQUEUE - w.dequeues else 0
  }

  ghost function HeapFuel(heap: seq<Waiting>, who: Watched): int {
    if |heap| == 0 then 0 else HeapFuel(heap[..|heap| - 1], who) + Owed(heap[|heap| - 1], who)
  }

  ghost function FlightFuel(m: map<string, Waiting>, who: Watched): int {
    Total(map id | id in m :: Owed(m[id], who))
  }

  /** Deliveries still owed to the watched entries that wait or are in flight. */
  ghost function Fuel(q: Queue, who: Watched): int {
    HeapFuel(q.heap, who) + FlightFuel(q.inFlight, who)
  }

  lemma {:induction false} HeapFuelWithout(heap: seq<Waiting>, at: nat, who: Watched)
    requires at < |heap|
    ensures HeapFuel(heap, who) == HeapFuel(Without(heap, at), who) + Owed(heap[at], who)
  {
    var n := |heap| - 1;
    if at == n {
      assert Without(heap, at) == heap[..n];
    } else {
      HeapFuelWithout(heap[..n], at, who);
      assert Without(heap, at)[..n - 1] == Without(heap[..n], at);
    }
  }

  lemma FlightFuelRemove(m: map<string, Waiting>, id: string, who: Watched)
    requires id in m
    ensures FlightFuel(m, who) == FlightFuel(m - {id}, who) + Owed(m[id], who)
  {
    var f := map k | k in m :: Owed(m[k], who);
    TotalRemove(f, id);
    assert f - {id} == map k | k in m - {id} :: Owed((m - {id})[k], who);
  }

  lemma FlightFuelDiscard(q: Queue, id: string, who: Watched)
    requires Inv(q)
    ensures FlightFuel(q.inFlight - {id}, who) <= FlightFuel(q.inFlight, who)
  {
    if id in q.inFlight {
      FlightFuelRemove(q.inFlight, id, who);
    } else {
      assert q.inFlight - {id} == q.inFlight;
    }
  }

  lemma HeapFuelSnoc(heap: seq<Waiting>, w: Waiting, who: Watched)
    ensures HeapFuel(heap + [w], who) == HeapFuel(heap, who) + Owed(w, who)
  {
    assert (heap + [w])[..|heap|] == heap;
  }

  lemma RequeueFuel(q: Queue, id: string, who: Watched)
    requires Inv(q)
    ensures Fuel(Requeue(q, id), who) == Fuel(q, who)
  {
    if id in q.inFlight {
      var w := q.inFlight[id];
      FlightFuelRemove(q.inFlight, id, who);
      HeapFuelSnoc(q.heap, Waiting(q.nextSeq, w.eval, w.dequeues, None), who);
    }
  }

  lemma {:induction false} RequeueAllFuel(q: Queue, ids: seq<string>, who: Watched)
    requires Inv(q)
    ensures Fuel(RequeueAll(q, ids), who) == Fuel(q, who)
  {
    if |ids| == 0 {
    } else {
      RequeueAllFuel(q, ids[..|ids| - 1], who);
      RequeueAllInv(q, ids[..|ids| - 1]);
      RequeueFuel(RequeueAll(q, ids[..|ids| - 1]), ids[|ids| - 1], who);
    }
  }

  function HowMany(evals: seq<Evaluation>, who: Watched): nat {
    if |evals| == 0 then 0 else HowMany(evals[..|evals| - 1], who) + if who(evals[|evals| - 1]) then 1 else 0
  }

  lemma {:induction false} PushAllFuel(q: Queue, evals: seq<Evaluation>, who: Watched)
    ensures Fuel(PushAll(q, evals), who) == Fuel(q, who) + MAX_DEQUEUE * HowMany(evals, who)
  {
    if |evals| == 0 {
    } else {
      var n := |evals| - 1;
      PushAllFuel(q, evals[..n], who);
      var before := PushAll(q, evals[..n]);
      HeapFuelSnoc(before.heap, Waiting(before.nextSeq, evals[n], 0, None), who);
    }
  }

  /** The watched evaluations an operation hands out. */
  function Delivered(q: Queue, op: Op, who: Watched): nat {
    if op.Dequeue? && Can(q, op) && who(q.heap[op.at].eval) then 1 else 0
  }

  /** The watched evaluations that enter the heap anew: enqueued ones, and parked ones when unblocked. */
  function AdmittedBy(q: Queue, op: Op, who: Watched): nat {
    match op
    case Enqueue(e) => if who(e) then 1 else 0
    case Unblock => HowMany(q.blocked, who)
    case _ => 0
  }

  function Deliveries(q: Queue, ops: seq<Op>, who: Watched): nat {
    if |ops| == 0 then 0 else
    Deliveries(q, ops[..|ops| - 1], who) + Delivered(After(q, ops[..|ops| - 1]), ops[|ops| - 1], who)
  }

  function Admitted(q: Queue, ops: seq<Op>, who: Watched): nat {
    if |ops| == 0 then 0 else
    Admitted(q, ops[..|ops| - 1], who) + AdmittedBy(After(q, ops[..|ops| - 1]), ops[|ops| - 1], who)
  }

  lemma DequeueFuel(q: Queue, at: nat, now: int, who: Watched)
    requires Inv(q) && IsTop(q.heap, at)
    ensures Fuel(Next(q, Dequeue(at, now)), who) + Delivered(q, Dequeue(at, now), who) <= Fuel(q, who)
  {
    var id, r := q.heap[at].eval.id, Next(q, Dequeue(at, now));
    hide HeapFuel, FlightFuel, IsTop;
    HeapFuelWithout(q.heap, at, who);
    FlightFuelRemove(r.inFlight, id, who);
    assert r.inFlight - {id} == q.inFlight - {id};
    FlightFuelDiscard(q, id, who);
  }

  /** An operation uses up one delivery owed for each evaluation it hands out, and adds three for each it
      admits. */
  lemma StepFuel(q: Queue, op: Op, who: Watched)
    requires Inv(q)
    ensures Fuel(Step(q, op), who) + Delivered(q, op, who) <= Fuel(q, who) + MAX_DEQUEUE * AdmittedBy(q, op, who)
  {
    hide Inv, HeapFuel, FlightFuel, Requeue, RequeueAll, PushAll, HowMany, IsTop;
    if Can(q, op) {
      match op
      case Enqueue(e) => HeapFuelSnoc(q.heap, Waiting(q.nextSeq, e, 0, None), who);
      case Unblock => PushAllFuel(q.(blocked := []), q.blocked, who);
      case Dequeue(at, now) => DequeueFuel(q, at, now, who);
      case Ack(id) => FlightFuelDiscard(q, id, who);
      case Nack(id) => RequeueFuel(q, id, who);
      case Reap(ids, _, _) => RequeueAllFuel(q, ids, who);
      case Block(_) =>
    }
  }

  lemma {:induction false} FuelNonNegative(q: Queue, who: Watched)
    requires Inv(q)
    ensures Fuel(q, who) >= 0
    decreases |q.heap|, |q.inFlight|
  {
    if |q.heap| > 0 {
      FuelNonNegative(q.(heap := q.heap[..|q.heap| - 1]), who);
    } else if |q.inFlight| > 0 {
      var id := Pick(q.inFlight);
      FlightFuelRemove(q.inFlight, id, who);
      assert (q.inFlight - {id}).Keys == q.inFlight.Keys - {id};
      FuelNonNegative(q.(inFlight := q.inFlight - {id}), who);
    }
  }

  /** From any queue, whatever is watched: deliveries are paid for by what was owed at the start and by
      three for each admission since. */
  lemma {:induction false} DeliveriesPaidFor(q: Queue, ops: seq<Op>, who: Watched)
    requires Inv(q)
    ensures Deliveries(q, ops, who) + Fuel(After(q, ops), who) <= Fuel(q, who) + MAX_DEQUEUE * Admitted(q, ops, who)
    ensures Deliveries(q, ops, who) <= Fuel(q, who) + MAX_DEQUEUE * Admitted(q, ops, who)
  {
    if |ops| == 0 {
    } else {
      hide Inv, Fuel, Step, Delivered, AdmittedBy;
      DeliveriesPaidFor(q, ops[..|ops| - 1], who);
      RunInv(q, ops[..|ops| - 1]);
      StepFuel(After(q, ops[..|ops| - 1]), ops[|ops| - 1], who);
    }
    RunInv(q, ops);
    FuelNonNegative(After(q, ops), who);
  }

  lemma {:induction false} NoneAdmitted(q: Queue, ops: seq<Op>, who: Watched)
    requires forall k | 0 <= k < |ops| :: !ops[k].Enqueue? && !ops[k].Unblock?
    ensures Admitted(q, ops, who) == 0
  {
    if |ops| == 0 {
    } else {
      NoneAdmitted(q, ops[..|ops| - 1], who);
    }
  }

  /** Redelivery terminates: without new or unparked work, a run hands out the watched evaluations at
      most as often as the entries it started with had deliveries left. */
  lemma DeliveriesBounded(q: Queue, ops: seq<Op>, who: Watched)
    requires Inv(q)
    requires forall k | 0 <= k < |ops| :: !ops[k].Enqueue? && !ops[k].Unblock?
    ensures Deliveries(q, ops, who) <= Fuel(q, who)
  {
    DeliveriesPaidFor(q, ops, who);
    NoneAdmitted(q, ops, who);
  }

  lemma NothingOwed(who: Watched)
    ensures Fuel(NOTHING, who) == 0
  {
    var none: map<string, Waiting> := map[];
    assert (map id | id in none :: Owed(none[id], who)) == map[];
  }

  /** Over any run at all, each evaluation is handed out at most three times for each time it was
      enqueued or unblocked. */
  lemma ThreeDeliveriesEach(ops: seq<Op>, e: Evaluation)
    ensures Deliveries(NOTHING, ops, Only(e)) <= 3 * Admitted(NOTHING, ops, Only(e))
  {
    DeliveriesPaidFor(NOTHING, ops, Only(e));
    NothingOwed(Only(e));
  }

  lemma {:induction false} RequeueAllRemoves(q: Queue, ids: seq<string>, id: string)
    ensures id in RequeueAll(q, ids).inFlight <==> id in q.inFlight && id !in ids
    ensures id in RequeueAll(q, ids).inFlight ==> RequeueAll(q, ids).inFlight[id] == q.inFlight[id]
  {
    if |ids| == 0 {
    } else {
      var n := |ids| - 1;
      RequeueAllRemoves(q, ids[..n], id);
      assert ids == ids[..n] + [ids[n]];
    }
  }

  /** Reaping takes back exactly the deliveries older than the timeout and leaves the others as they are. */
  lemma ReapTakesExpired(q: Queue, ids: seq<string>, now: int, timeout: nat, id: string)
    requires Inv(q) && Can(q, Reap(ids, now, timeout))
    ensures var r := Next(q, Reap(ids, now, timeout));
            && (id in r.inFlight <==>
                  id in q.inFlight && timeout > 0 && now - q.inFlight[id].dequeuedAt.value < timeout)
            && (id in r.inFlight ==> r.inFlight[id] == q.inFlight[id])
  {
    RequeueAllRemoves(q, ids, id);
  }

  // ---- How long a delivery lasts --------------------------------------------------------------

  /** The operation ends the delivery of `id`, or hands out that id again. */
  predicate Disturbs(q: Queue, op: Op, id: string) {
    match op
    case Dequeue(at, _) => Can(q, op) && q.heap[at].eval.id == id
    case Ack(x) => x == id
    case Nack(x) => x == id
    case Reap(ids, _, _) => id in ids
    case _ => false
  }

  ghost predicate Undisturbed(q: Queue, ops: seq<Op>, id: string) {
    |ops| == 0 ||
    (Undisturbed(q, ops[..|ops| - 1], id) && !Disturbs(After(q, ops[..|ops| - 1]), ops[|ops| - 1], id))
  }

  lemma StepHolds(q: Queue, op: Op, id: string)
    requires id in q.inFlight && !Disturbs(q, op, id)
    ensures id in Step(q, op).inFlight && Step(q, op).inFlight[id] == q.inFlight[id]
  {
    if Can(q, op) {
      match op
      case Reap(ids, _, _) => RequeueAllRemoves(q, ids, id);
      case Unblock => PushAllHeap(q.(blocked := []), q.blocked);
      case _ =>
    }
  }

  lemma {:induction false} DeliveryHeld(q: Queue, ops: seq<Op>, id: string)
    requires id in q.inFlight && Undisturbed(q, ops, id)
    ensures id in After(q, ops).inFlight && After(q, ops).inFlight[id] == q.inFlight[id]
  {
    if |ops| == 0 {
    } else {
      DeliveryHeld(q, ops[..|ops| - 1], id);
      StepHolds(After(q, ops[..|ops| - 1]), ops[|ops| - 1], id);
    }
  }

  /** A delivery handed out at `now` and neither ended nor handed out again is taken back by a sweep at
      `later` if and only if the timeout has passed since `now`. */
  lemma DeliveryExpires(q: Queue, at: nat, now: int, ops: seq<Op>, ids: seq<string>, later: int, timeout: nat)
    requires Inv(q) && Can(q, Dequeue(at, now))
    requires var held := Next(q, Dequeue(at, now));
             && Undisturbed(held, ops, q.heap[at].eval.id)
             && Can(After(held, ops), Reap(ids, later, timeout))
    ensures var id, r := q.heap[at].eval.id, After(Next(q, Dequeue(at, now)), ops);
            && id in r.inFlight
            && r.inFlight[id].eval == q.heap[at].eval && r.inFlight[id].dequeues == q.heap[at].dequeues + 1
            && (id in Next(r, Reap(ids, later, timeout)).inFlight <==> timeout > 0 && later - now < timeout)
  {
    var id, held := q.heap[at].eval.id, Next(q, Dequeue(at, now));
    StepInv(q, Dequeue(at, now));
    RunInv(held, ops);
    DeliveryHeld(held, ops, id);
    hide Inv, Undisturbed;
    ReapTakesExpired(After(held, ops), ids, later, timeout, id);
  }

  // ---- Order ----------------------------------------------------------------------------------

  /** `out` is what repeated pops of `heap` can return until it is empty. */
  ghost predicate IsDrain(heap: seq<Waiting>, out: seq<Waiting>)
    decreases |heap|
  {
    if |heap| == 0 then out == [] else
    && out != []
    && exists at: nat :: at < |heap| && IsTop(heap, at) && out[0] == heap[at] && IsDrain(Without(heap, at), out[1..])
  }

  ghost predicate Distinct(heap: seq<Waiting>) {
    forall i, j | 0 <= i < j < |heap| :: heap[i].seqNo != heap[j].seqNo
  }

  /** Highest priority first, and within a priority the earliest sequence number first. */
  ghost predicate InOrder(out: seq<Waiting>) {
    forall i, j | 0 <= i < j < |out| :: Below(out[j], out[i])
  }

  lemma TopIsAboveRest(heap: seq<Waiting>, at: nat, w: Waiting)
    requires Distinct(heap) && IsTop(heap, at) && w in Without(heap, at)
    ensures Below(w, heap[at])
  {
    var i :| 0 <= i < |Without(heap, at)| && Without(heap, at)[i] == w;
    var h := if i < at then i else i + 1;
    assert heap[h] == w && h != at;
  }

  lemma DrainHead(heap: seq<Waiting>, out: seq<Waiting>) returns (at: nat)
    requires |heap| > 0 && IsDrain(heap, out)
    ensures at < |heap| && IsTop(heap, at) && out != [] && out[0] == heap[at] && IsDrain(Without(heap, at), out[1..])
  {
    at :| at < |heap| && IsTop(heap, at) && out[0] == heap[at] && IsDrain(Without(heap, at), out[1..]);
  }

  lemma ConsBag(heap: seq<Waiting>, at: nat, out: seq<Waiting>)
    requires at < |heap| && out != [] && out[0] == heap[at]
    requires multiset(out[1..]) == multiset(Without(heap, at))
    ensures multiset(out) == multiset(heap)
  {
    WithoutBag(heap, at);
    assert out == [out[0]] + out[1..];
  }

  lemma ConsOrder(heap: seq<Waiting>, at: nat, out: seq<Waiting>)
    requires Distinct(heap) && IsTop(heap, at) && out != [] && out[0] == heap[at]
    requires InOrder(out[1..]) && multiset(out[1..]) == multiset(Without(heap, at))
    ensures InOrder(out)
  {
    var tail := out[1..];
    SameEntries(tail, Without(heap, at));
    forall i, j | 0 <= i < j < |out| ensures Below(out[j], out[i]) {
      assert out[j] == tail[j - 1];
      if i > 0 {
        assert Below(tail[j - 1], tail[i - 1]);
      } else {
        assert tail[j - 1] in Without(heap, at);
        TopIsAboveRest(heap, at, out[j]);
      }
    }
  }

  lemma DistinctRest(heap: seq<Waiting>, at: nat)
    requires Distinct(heap) && at < |heap|
    ensures Distinct(Without(heap, at))
  { }

  lemma WithoutShorter<T>(s: seq<T>, at: nat)
    requires at < |s|
    ensures |Without(s, at)| < |s|
  { }

  lemma {:induction false} DrainSorts(heap: seq<Waiting>, out: seq<Waiting>)
    requires Distinct(heap) && IsDrain(heap, out)
    ensures InOrder(out) && multiset(out) == multiset(heap)
    decreases |heap|
  {
    if |heap| == 0 {
    } else {
      hide *;
      var at := DrainHead(heap, out);
      DistinctRest(heap, at);
      WithoutShorter(heap, at);
      DrainSorts(Without(heap, at), out[1..]);
      ConsBag(heap, at, out);
      ConsOrder(heap, at, out);
    }
  }

  lemma HeadIsTop(heap: seq<Waiting>, out: seq<Waiting>, at: nat)
    requires InOrder(out) && multiset(out) == multiset(heap) && at < |heap| && out != [] && heap[at] == out[0]
    ensures IsTop(heap, at)
  {
    SameEntries(out, heap);
    forall i | 0 <= i < |heap| ensures !Below(heap[at], heap[i]) {
      assert heap[i] in out;
      var k :| 0 <= k < |out| && out[k] == heap[i];
      assert k > 0 ==> Below(out[k], out[0]);
    }
  }

  lemma TailIsRest(heap: seq<Waiting>, out: seq<Waiting>, at: nat)
    requires multiset(out) == multiset(heap) && at < |heap| && out != [] && heap[at] == out[0]
    ensures multiset(out[1..]) == multiset(Without(heap, at))
  {
    assert Without(out, 0) == out[1..];
    WithoutSame(out, 0, heap, at);
  }

  lemma {:induction false} SortedDrains(heap: seq<Waiting>, out: seq<Waiting>)
    requires Distinct(heap) && InOrder(out) && multiset(out) == multiset(heap)
    ensures IsDrain(heap, out)
    decreases |heap|
  {
    SameEntries(out, heap);
    if |heap| == 0 {
    } else {
      assert out[0] in heap;
      var at: nat :| at < |heap| && heap[at] == out[0];
      HeadIsTop(heap, out, at);
      TailIsRest(heap, out, at);
      SortedDrains(Without(heap, at), out[1..]);
    }
  }

  /** Draining a reachable heap yields its entries in priority order, first-in first-out within a
      priority, and can yield nothing else. */
  lemma DrainIsPriorityFifo(ops: seq<Op>, out: seq<Waiting>)
    ensures var heap := After(NOTHING, ops).heap;
            IsDrain(heap, out) <==> InOrder(out) && multiset(out) == multiset(heap)
  {
    RunInv(NOTHING, ops);
    var heap := After(NOTHING, ops).heap;
    if IsDrain(heap, out) { DrainSorts(heap, out); }
    if InOrder(out) && multiset(out) == multiset(heap) { SortedDrains(heap, out); }
  }

  // ---- Order of unblocked evaluations ---------------------------------------------------------

  /** Unblocking appends the parked evaluations in order, numbered consecutively. */
  lemma {:induction false} PushAllAt(q: Queue, evals: seq<Evaluation>)
    ensures var r := PushAll(q, evals);
            && |r.heap| == |q.heap| + |evals| && r.nextSeq == q.nextSeq + |evals|
            && r.heap[..|q.heap|] == q.heap
            && forall i | 0 <= i < |evals| :: r.heap[|q.heap| + i] == Waiting(q.nextSeq + i, evals[i], 0, None)
  {
    if |evals| == 0 {
    } else {
      PushAllAt(q, evals[..|evals| - 1]);
    }
  }

  lemma Position(heap: seq<Waiting>, out: seq<Waiting>, k: nat) returns (x: nat)
    requires multiset(out) == multiset(heap) && k < |heap|
    ensures x < |out| && out[x] == heap[k]
  {
    SameEntries(out, heap);
    assert heap[k] in out;
    x :| 0 <= x < |out| && out[x] == heap[k];
  }

  lemma OlderFirst(out: seq<Waiting>, a: nat, b: nat)
    requires InOrder(out) && a < |out| && b < |out|
    requires out[a].eval.priority == out[b].eval.priority && out[a].seqNo < out[b].seqNo
    ensures a < b
  { }

  lemma UnblockHeap(q: Queue, i: nat)
    requires Inv(q) && i < |q.blocked|
    ensures var heap := Next(q, Unblock).heap;
            && Distinct(heap) && |q.heap| + i < |heap|
            && heap[|q.heap| + i] == Waiting(q.nextSeq + i, q.blocked[i], 0, None)
  {
    StepInv(q, Unblock);
    PushAllAt(q.(blocked := []), q.blocked);
  }

  /** Of two entries of one priority the one with the lower number is delivered first. */
  lemma DrainsOlderFirst(heap: seq<Waiting>, out: seq<Waiting>, i: nat, j: nat) returns (a: nat, b: nat)
    requires Distinct(heap) && IsDrain(heap, out) && i < |heap| && j < |heap|
    requires heap[i].eval.priority == heap[j].eval.priority && heap[i].seqNo < heap[j].seqNo
    ensures a < b < |out| && out[a] == heap[i] && out[b] == heap[j]
  {
    hide *;
    DrainSorts(heap, out);
    a := Position(heap, out, i);
    b := Position(heap, out, j);
    OlderFirst(out, a, b);
  }

  /** Parked evaluations of one priority are delivered in the order they were parked. */
  lemma UnparkedInOrder(q: Queue, out: seq<Waiting>, i: nat, j: nat) returns (a: nat, b: nat)
    requires Inv(q) && IsDrain(Next(q, Unblock).heap, out)
    requires i < j < |q.blocked| && q.blocked[i].priority == q.blocked[j].priority
    ensures a < b < |out| && out[a].eval == q.blocked[i] && out[b].eval == q.blocked[j]
    ensures out[a].seqNo == q.nextSeq + i && out[b].seqNo == q.nextSeq + j
  {
    hide IsDrain, Inv, PushAll, Distinct;
    UnblockHeap(q, i);
    UnblockHeap(q, j);
    a, b := DrainsOlderFirst(Next(q, Unblock).heap, out, |q.heap| + i, |q.heap| + j);
  }
}
