/** The evaluation broker: an at-least-once priority queue with in-flight tracking, redelivery,
    a delivery cap and a parking list. */
module Broker {
  import opened Domain
  import opened Finite

  const MAX_DEQUEUE: nat := 3

  datatype Waiting = Waiting(seqNo: nat, eval: Evaluation, dequeues: nat, dequeuedAt: Option<int>)

  /** Heap order: lower priority, or the same priority and enqueued later. */
  predicate Below(a: Waiting, b: Waiting) {
    if a.eval.priority == b.eval.priority then a.seqNo > b.seqNo else a.eval.priority < b.eval.priority
  }

  /** `heap` is the binary heap's backing vector, in no particular order. */
  datatype Queue = Queue(
    heap: seq<Waiting>,
    nextSeq: nat,
    inFlight: map<string, Waiting>,
    blocked: seq<Evaluation>)

  const NOTHING := Queue([], 0, map[], [])

  datatype Depth = Depth(pending: nat, inFlight: nat, blocked: nat)

  /** What a max-heap pop may return: an entry no other entry is above. */
  predicate IsTop(heap: seq<Waiting>, at: nat) {
    at < |heap| && forall i | 0 <= i < |heap| :: !Below(heap[at], heap[i])
  }

  function Push(q: Queue, eval: Evaluation, dequeues: nat): Queue {
    q.(heap := q.heap + [Waiting(q.nextSeq, eval, dequeues, None)], nextSeq := q.nextSeq + 1)
  }

  /** End of a delivery that was not acknowledged: back of the line, or dropped at the cap. */
  function Requeue(q: Queue, id: string): Queue {
    if id !in q.inFlight then q else
    var w := q.inFlight[id];
    var rest := q.(inFlight := q.inFlight - {id});
    if w.dequeues < MAX_DEQUEUE then Push(rest, w.eval, w.dequeues) else rest
  }

  function RequeueAll(q: Queue, ids: seq<string>): Queue {
    if |ids| == 0 then q else Requeue(RequeueAll(q, ids[..|ids| - 1]), ids[|ids| - 1])
  }

  function PushAll(q: Queue, evals: seq<Evaluation>): Queue {
    if |evals| == 0 then q else Push(PushAll(q, evals[..|evals| - 1]), evals[|evals| - 1], 0)
  }

  function Deliver(w: Waiting, now: int): Waiting {
    w.(dequeues := w.dequeues + 1, dequeuedAt := Some(now))
  }

  /** Time since delivery; a monotone clock never reports a negative age. */
  predicate Expired(w: Waiting, now: int, timeout: nat) {
    w.dequeuedAt.Some? && (if now > w.dequeuedAt.value then now - w.dequeuedAt.value else 0) >= timeout
  }

  /** `ids` lists the expired deliveries, each once, in some order. */
  predicate ListsExpired(q: Queue, ids: seq<string>, now: int, timeout: nat) {
    && (forall i, j | 0 <= i < j < |ids| :: ids[i] != ids[j])
    && (forall i | 0 <= i < |ids| :: ids[i] in q.inFlight && Expired(q.inFlight[ids[i]], now, timeout))
    && (forall id | id in q.inFlight && Expired(q.inFlight[id], now, timeout) :: id in ids)
  }

  /** Broker operations, with the choices the environment makes: which top entry the heap yields,
      what the clock says, and in which order the in-flight table lists expired deliveries. */
  datatype Op =
    | Enqueue(eval: Evaluation)
    | Dequeue(at: nat, now: int)
    | Ack(id: string)
    | Nack(id: string)
    | Reap(ids: seq<string>, now: int, timeout: nat)
    | Block(eval: Evaluation)
    | Unblock

  predicate Can(q: Queue, op: Op) {
    match op
    case Dequeue(at, _) => IsTop(q.heap, at)
    case Reap(ids, now, timeout) => ListsExpired(q, ids, now, timeout)
    case _ => true
  }

  function Next(q: Queue, op: Op): Queue
    requires Can(q, op)
  {
    match op
    case Enqueue(eval) => Push(q, eval, 0)
    case Dequeue(at, now) =>
      var w := q.heap[at];
      q.(heap := Without(q.heap, at), inFlight := q.inFlight[w.eval.id := Deliver(w, now)])
    case Ack(id) => q.(inFlight := q.inFlight - {id})
    case Nack(id) => Requeue(q, id)
    case Reap(ids, _, _) => RequeueAll(q, ids)
    case Block(eval) => q.(blocked := q.blocked + [eval])
    case Unblock => PushAll(q.(blocked := []), q.blocked)
  }

  /** Some entry is a top entry, so a pop of a non-empty heap always succeeds. */
  lemma {:induction false} TopExists(heap: seq<Waiting>) returns (at: nat)
    requires heap != []
    ensures IsTop(heap, at)
  {
    if |heap| == 1 {
      at := 0;
    } else {
      var n := |heap| - 1;
      var k := TopExists(heap[..n]);
      at := if Below(heap[k], heap[n]) then n else k;
      forall i | 0 <= i < |heap| ensures !Below(heap[at], heap[i]) {
        if i < n { assert !Below(heap[..n][k], heap[..n][i]); }
      }
    }
  }

  /** A top entry is the oldest among those of the highest priority present. */
  lemma TopIsOldestOfHighest(heap: seq<Waiting>, at: nat)
    requires at < |heap|
    ensures IsTop(heap, at) <==>
              forall i | 0 <= i < |heap| ::
                && heap[i].eval.priority <= heap[at].eval.priority
                && (heap[i].eval.priority == heap[at].eval.priority ==> heap[at].seqNo <= heap[i].seqNo)
  { }

  class EvalQueue {
    var heap: seq<Waiting>
    var nextSeq: nat
    var inFlight: map<string, Waiting>
    var blocked: seq<Evaluation>

    function View(): Queue
      reads this
    {
      Queue(heap, nextSeq, inFlight, blocked)
    }

    constructor ()
      ensures View() == NOTHING
    {
      heap, nextSeq, inFlight, blocked := [], 0, map[], [];
    }

    method PushPending(eval: Evaluation, dequeues: nat)
      modifies this`heap, this`nextSeq
      ensures View() == Push(old(View()), eval, dequeues)
    {
      var seqNo := nextSeq;
      nextSeq := nextSeq + 1;
      heap := heap + [Waiting(seqNo, eval, dequeues, None)];
    }

    method Enqueue(eval: Evaluation)
      modifies this
      ensures View() == Next(old(View()), Op.Enqueue(eval))
    {
      PushPending(eval, 0);
    }

    /** Pops an oldest entry of the highest priority and tracks it as in flight. */
    method Dequeue(now: int) returns (r: Option<Evaluation>, ghost at: nat)
      modifies this
      ensures r.None? <==> old(heap) == []
      ensures r.None? ==> View() == old(View())
      ensures r.Some? ==>
                && Can(old(View()), Op.Dequeue(at, now))
                && View() == Next(old(View()), Op.Dequeue(at, now))
                && r.value == old(heap)[at].eval
    {
      if |heap| == 0 { return None, 0; }
      ghost var top := TopExists(heap);
      var k: nat :| k < |heap| && IsTop(heap, k);
      at := k;
      var w := heap[k];
      heap := Without(heap, k);
      inFlight := inFlight[w.eval.id := Deliver(w, now)];
      return Some(w.eval), k;
    }

    method Ack(evalId: string)
      modifies this
      ensures View() == Next(old(View()), Op.Ack(evalId))
    {
      inFlight := inFlight - {evalId};
    }

    method Nack(evalId: string)
      modifies this
      ensures View() == Next(old(View()), Op.Nack(evalId))
    {
      if evalId in inFlight {
        var w := inFlight[evalId];
        inFlight := inFlight - {evalId};
        if w.dequeues < MAX_DEQUEUE {
          PushPending(w.eval, w.dequeues);
        }
      }
    }

    method ListExpired(now: int, timeout: nat) returns (expired: seq<string>)
      ensures ListsExpired(View(), expired, now, timeout)
    {
      expired := [];
      var todo := inFlight;
      while |todo| > 0
        invariant forall k | k in todo :: k in inFlight && todo[k] == inFlight[k] && k !in expired
        invariant forall i, j | 0 <= i < j < |expired| :: expired[i] != expired[j]
        invariant forall i | 0 <= i < |expired| ::
                    expired[i] in inFlight && Expired(inFlight[expired[i]], now, timeout)
        invariant forall k | k in inFlight && Expired(inFlight[k], now, timeout) :: k in todo || k in expired
        decreases |todo|
      {
        assert todo.Keys != {};
        var k :| k in todo.Keys;
        if Expired(todo[k], now, timeout) {
          expired := expired + [k];
        }
        assert (todo - {k}).Keys == todo.Keys - {k};
        todo := todo - {k};
      }
    }

    /** Collects the expired ids in the table's arbitrary order, then requeues them one by one. */
    method ReapExpired(now: int, timeout: nat) returns (reaped: nat, ghost ids: seq<string>)
      modifies this
      ensures Can(old(View()), Reap(ids, now, timeout))
      ensures View() == Next(old(View()), Reap(ids, now, timeout))
      ensures reaped == |ids|
    {
      var expired := ListExpired(now, timeout);
      reaped, ids := |expired|, expired;
      for i := 0 to |expired|
        invariant View() == RequeueAll(old(View()), expired[..i])
      {
        Nack(expired[i]);
        assert expired[..i + 1][..i] == expired[..i];
      }
      assert expired[..|expired|] == expired;
    }

    method Block(eval: Evaluation)
      modifies this
      ensures View() == Next(old(View()), Op.Block(eval))
    {
      blocked := blocked + [eval];
    }

    method UnblockAll() returns (moved: nat)
      modifies this
      ensures View() == Next(old(View()), Unblock)
      ensures moved == |old(blocked)|
    {
      var drained := blocked;
      blocked := [];
      moved := |drained|;
      for i := 0 to |drained|
        invariant View() == PushAll(old(View()).(blocked := []), drained[..i])
      {
        PushPending(drained[i], 0);
        assert drained[..i + 1][..i] == drained[..i];
      }
      assert drained[..|drained|] == drained;
    }

    method GetDepth() returns (d: Depth)
      ensures d == Depth(|View().heap|, |View().inFlight|, |View().blocked|)
    {
      d := Depth(|heap|, |inFlight|, |blocked|);
    }
  }
}
