/** How many instances greedy placement lands, and where it keeps landing them. */
module PlacementLaws {
  import opened Domain
  import opened Finite
  import opened StateMachine
  import opened Placement

  ghost predicate DistinctNodes(slots: seq<Slot>) {
    forall i, j | 0 <= i < j < |slots| :: slots[i].node.id != slots[j].node.id
  }

  // ---- What a choice means --------------------------------------------------------------------

  lemma {:induction false} FirstMeans(slots: seq<Slot>, g: TaskGroup, k: nat)
    requires k <= |slots|
    ensures var r := First(slots, g, k);
            && (r.Some? ==> Suits(slots[r.value], g) && forall i | 0 <= i < r.value :: !Suits(slots[i], g))
            && (r.None? ==> forall i | 0 <= i < k :: !Suits(slots[i], g))
  {
    if k == 0 {
    } else {
      FirstMeans(slots, g, k - 1);
    }
  }

  /** Slot `i` comes before slot `j` when candidates are sorted by falling score, then position. */
  ghost predicate Outranks(slots: seq<Slot>, rank: Ranking, i: nat, j: nat)
    requires i < |slots| && j < |slots|
  {
    rank(slots[i]) > rank(slots[j]) || (rank(slots[i]) == rank(slots[j]) && i <= j)
  }

  lemma {:induction false} BestMeans(slots: seq<Slot>, g: TaskGroup, rank: Ranking, k: nat)
    requires k <= |slots|
    ensures var r := Best(slots, g, rank, k);
            && (r.Some? ==> && Suits(slots[r.value], g)
                            && forall i | 0 <= i < k && Suits(slots[i], g) :: Outranks(slots, rank, r.value, i))
            && (r.None? ==> forall i | 0 <= i < k :: !Suits(slots[i], g))
  {
    if k == 0 {
    } else {
      BestMeans(slots, g, rank, k - 1);
    }
  }

  /** The ranked path picks exactly the head of the sorted candidate list. */
  lemma BestIff(slots: seq<Slot>, g: TaskGroup, rank: Ranking, i: nat)
    requires i < |slots|
    ensures Best(slots, g, rank, |slots|) == Some(i) <==>
              && Suits(slots[i], g)
              && forall j | 0 <= j < |slots| && Suits(slots[j], g) :: Outranks(slots, rank, i, j)
  {
    BestMeans(slots, g, rank, |slots|);
    var r := Best(slots, g, rank, |slots|);
    if Suits(slots[i], g) && forall j | 0 <= j < |slots| && Suits(slots[j], g) :: Outranks(slots, rank, i, j) {
      assert r.Some? && Outranks(slots, rank, i, r.value) && Outranks(slots, rank, r.value, i);
    }
  }

  /** On either path a node is chosen if and only if some node suits. */
  lemma ChooseMeans(slots: seq<Slot>, g: TaskGroup, rank: Ranking)
    ensures var r := Choose(slots, g, rank);
            && (r.Some? ==> Suits(slots[r.value], g))
            && (r.None? <==> forall i | 0 <= i < |slots| :: !Suits(slots[i], g))
  {
    if Ranked(g) { BestMeans(slots, g, rank, |slots|); } else { FirstMeans(slots, g, |slots|); }
  }

  /** The tasks' resources, each summed up on its own. */
  function TaskTotal(tasks: seq<Task>): Resources {
    Resources(
      Sum(seq(|tasks|, i requires 0 <= i < |tasks| => tasks[i].resources.cpu)),
      Sum(seq(|tasks|, i requires 0 <= i < |tasks| => tasks[i].resources.memory)),
      Sum(seq(|tasks|, i requires 0 <= i < |tasks| => tasks[i].resources.network)))
  }

  /** What a group asks for is the sum over all its tasks. */
  lemma {:induction false} DemandIsSum(tasks: seq<Task>)
    ensures DemandOf(tasks) == TaskTotal(tasks)
  {
    if |tasks| == 0 {
    } else {
      var before := tasks[..|tasks| - 1];
      DemandIsSum(before);
      var cpu := seq(|tasks|, i requires 0 <= i < |tasks| => tasks[i].resources.cpu);
      var memory := seq(|tasks|, i requires 0 <= i < |tasks| => tasks[i].resources.memory);
      var network := seq(|tasks|, i requires 0 <= i < |tasks| => tasks[i].resources.network);
      SumSnoc(cpu);
      SumSnoc(memory);
      SumSnoc(network);
      assert cpu[..|before|] == seq(|before|, i requires 0 <= i < |before| => before[i].resources.cpu);
      assert memory[..|before|] == seq(|before|, i requires 0 <= i < |before| => before[i].resources.memory);
      assert network[..|before|] == seq(|before|, i requires 0 <= i < |before| => before[i].resources.network);
    }
  }

  /** Demands add up, and one task demands what it says. */
  lemma {:induction false} DemandConcat(a: seq<Task>, b: seq<Task>)
    ensures DemandOf(a + b) == Plus(DemandOf(a), DemandOf(b))
    decreases |b|
  {
    if |b| == 0 {
      assert a + b == a;
    } else {
      DemandConcat(a, b[..|b| - 1]);
      assert (a + b)[..|a + b| - 1] == a + b[..|b| - 1];
    }
  }

  lemma DemandOne(t: Task)
    ensures DemandOf([t]) == t.resources
  {
    assert DemandOf([t][..0]) == ZERO;
  }

  lemma {:induction false} DemandNonNegative(tasks: seq<Task>)
    requires forall i | 0 <= i < |tasks| :: ValidTask(tasks[i])
    ensures NonNegative(DemandOf(tasks))
  {
    if |tasks| == 0 {
    } else {
      DemandNonNegative(tasks[..|tasks| - 1]);
    }
  }

  /** An instance reserves at least what each of its tasks needs. */
  lemma DemandCovers(tasks: seq<Task>, i: nat)
    requires i < |tasks| && forall j | 0 <= j < |tasks| :: ValidTask(tasks[j])
    ensures Fits(DemandOf(tasks), tasks[i].resources)
  {
    var a, b := tasks[..i], tasks[i + 1..];
    assert tasks == a + ([tasks[i]] + b);
    DemandConcat(a, [tasks[i]] + b);
    DemandConcat([tasks[i]], b);
    DemandOne(tasks[i]);
    DemandNonNegative(a);
    DemandNonNegative(b);
  }

  /** Wanted instances, group by group: the counts, a negative one counting for none. */
  lemma {:induction false} WantedIsSum(groups: seq<TaskGroup>)
    ensures WantedAll(groups) ==
            Sum(seq(|groups|, i requires 0 <= i < |groups| => if groups[i].count < 0 then 0 else groups[i].count))
  {
    if |groups| == 0 {
    } else {
      var before := groups[..|groups| - 1];
      WantedIsSum(before);
      var counts := seq(|groups|, i requires 0 <= i < |groups| => if groups[i].count < 0 then 0 else groups[i].count);
      SumSnoc(counts);
      assert counts[..|before|] ==
             seq(|before|, i requires 0 <= i < |before| => if before[i].count < 0 then 0 else before[i].count);
    }
  }

  lemma {:induction false} WantedConcat(a: seq<TaskGroup>, b: seq<TaskGroup>)
    ensures WantedAll(a + b) == WantedAll(a) + WantedAll(b)
    decreases |b|
  {
    if |b| == 0 {
      assert a + b == a;
    } else {
      WantedConcat(a, b[..|b| - 1]);
      assert (a + b)[..|a + b| - 1] == a + b[..|b| - 1];
    }
  }

  lemma WantedOne(g: TaskGroup)
    ensures WantedAll([g]) == if g.count < 0 then 0 else g.count
  {
    assert WantedAll([g][..0]) == 0;
  }

  /** A policy that picks a slot that suits, and gives up only when none does. */
  ghost predicate Sensible(policy: Policy, g: TaskGroup) {
    forall slots: seq<Slot> ::
      match policy(slots)
      case Some(i) => i < |slots| && Suits(slots[i], g)
      case None => forall i | 0 <= i < |slots| :: !Suits(slots[i], g)
  }

  /** The engine's rule is sensible on both paths, however nodes are scored. */
  lemma RuleSensible(g: TaskGroup, rank: Ranking)
    ensures Sensible(Rule(g, rank), g)
  {
    forall slots: seq<Slot>
      ensures match Rule(g, rank)(slots)
              case Some(i) => i < |slots| && Suits(slots[i], g)
              case None => forall i | 0 <= i < |slots| :: !Suits(slots[i], g)
    {
      ChooseMeans(slots, g, rank);
    }
  }

  // ---- Greedy optimality ----------------------------------------------------------------------

  function Scale(m: nat, r: Resources): Resources {
    Resources(m * r.cpu, m * r.memory, m * r.network)
  }

  /** Whether `m` copies of `need` go into `free` together. */
  predicate Holds(free: Resources, need: Resources, m: nat) {
    m == 0 || Fits(free, Scale(m, need))
  }

  /** Copies of `need` that go in one after another, at most `cap`. */
  function Copies(free: Resources, need: Resources, cap: nat): (m: nat)
    ensures m <= cap
    decreases cap
  {
    if cap == 0 || !Fits(free, need) then 0 else 1 + Copies(Minus(free, need), need, cap - 1)
  }

  lemma ScaleStep(m: nat, r: Resources)
    ensures Scale(m + 1, r) == Plus(Scale(m, r), r)
  { }

  /** One after another is as good as together: `Copies` is the largest number that holds. */
  lemma {:induction false} CopiesIsMax(free: Resources, need: Resources, cap: nat, m: nat)
    requires NonNegative(need) && m <= cap
    ensures Holds(free, need, m) <==> m <= Copies(free, need, cap)
    decreases cap
  {
    if m > 0 {
      ScaleStep(m - 1, need);
      assert NonNegative(Scale(m - 1, need));
      if Fits(free, need) {
        CopiesIsMax(Minus(free, need), need, cap - 1, m - 1);
      }
    }
  }

  lemma CopiesCap(free: Resources, need: Resources, cap: nat, more: nat)
    requires NonNegative(need) && cap <= more
    ensures Copies(free, need, cap) == if Copies(free, need, more) < cap then Copies(free, need, more) else cap
  {
    var a, b := Copies(free, need, cap), Copies(free, need, more);
    CopiesIsMax(free, need, cap, a);
    CopiesIsMax(free, need, more, a);
    if b < cap {
      CopiesIsMax(free, need, more, b);
      CopiesIsMax(free, need, cap, b);
    } else {
      CopiesIsMax(free, need, more, cap);
      CopiesIsMax(free, need, cap, cap);
    }
  }

  function Room(slot: Slot, g: TaskGroup, cap: nat): nat {
    if MeetsConstraints(slot.node, g) then Copies(slot.free, Demand(g), cap) else 0
  }

  /** Copies that fit on all slots together, counting at most `cap` per slot. */
  function TotalRoom(slots: seq<Slot>, g: TaskGroup, cap: nat): nat {
    if |slots| == 0 then 0 else TotalRoom(slots[..|slots| - 1], g, cap) + Room(slots[|slots| - 1], g, cap)
  }

  function Min(a: nat, b: nat): nat {
    if a < b then a else b
  }

  lemma {:induction false} TotalRoomUpdate(slots: seq<Slot>, g: TaskGroup, cap: nat, i: nat, slot: Slot)
    requires i < |slots|
    ensures TotalRoom(slots[i := slot], g, cap) ==
            TotalRoom(slots, g, cap) - Room(slots[i], g, cap) + Room(slot, g, cap)
  {
    var n := |slots| - 1;
    if i == n {
      assert slots[i := slot][..n] == slots[..n];
    } else {
      TotalRoomUpdate(slots[..n], g, cap, i, slot);
      assert slots[i := slot][..n] == slots[..n][i := slot];
    }
  }

  lemma {:induction false} TotalRoomAtLeast(slots: seq<Slot>, g: TaskGroup, cap: nat, i: nat)
    requires i < |slots|
    ensures TotalRoom(slots, g, cap) >= Room(slots[i], g, cap)
  {
    if i < |slots| - 1 { TotalRoomAtLeast(slots[..|slots| - 1], g, cap, i); }
  }

  lemma {:induction false} TotalRoomNone(slots: seq<Slot>, g: TaskGroup, cap: nat)
    requires forall i | 0 <= i < |slots| :: !Suits(slots[i], g)
    ensures TotalRoom(slots, g, cap) == 0
  {
    if |slots| == 0 {
    } else {
      TotalRoomNone(slots[..|slots| - 1], g, cap);
    }
  }

  /** A per-slot cap only matters once the total reaches it. */
  lemma {:induction false} TotalRoomCap(slots: seq<Slot>, g: TaskGroup, cap: nat, more: nat)
    requires NonNegative(Demand(g)) && cap <= more
    ensures TotalRoom(slots, g, cap) <= TotalRoom(slots, g, more)
    ensures TotalRoom(slots, g, cap) == TotalRoom(slots, g, more) || TotalRoom(slots, g, cap) >= cap
  {
    if |slots| == 0 {
    } else {
      TotalRoomCap(slots[..|slots| - 1], g, cap, more);
      CopiesCap(slots[|slots| - 1].free, Demand(g), cap, more);
    }
  }

  /** Placing one instance uses up exactly one copy's room. */
  lemma TakeUsesOne(slots: seq<Slot>, g: TaskGroup, i: nat, n: nat)
    requires NonNegative(Demand(g)) && i < |slots| && Suits(slots[i], g) && n > 0
    ensures Min(n, TotalRoom(slots, g, n)) ==
            1 + Min(n - 1, TotalRoom(Take(slots, i, Demand(g)), g, n - 1))
  {
    var need := Demand(g);
    var after := Take(slots, i, need);
    TotalRoomUpdate(slots, g, n, i, after[i]);
    TotalRoomCap(after, g, n - 1, n);
    CopiesCap(after[i].free, need, n - 1, n);
    TotalRoomAtLeast(slots, g, n, i);
    TotalRoomAtLeast(after, g, n, i);
  }

  lemma {:induction false} LocateSelf(slots: seq<Slot>, i: nat, k: nat)
    requires DistinctNodes(slots) && i < |slots| && k <= |slots|
    ensures Locate(slots, slots[i].node.id, k) == if i < k then Some(i) else None
  {
    if k == 0 {
    } else {
      LocateSelf(slots, i, k - 1);
    }
  }

  /** With distinct node ids, both paths charge the slot they chose. */
  lemma PlaceOneCharges(c: Context, g: TaskGroup, p: Progress, i: nat)
    requires DistinctNodes(p.slots) && i < |p.slots|
    ensures var q := PlaceOne(c, g, p, i);
            && q.slots == Take(p.slots, i, Demand(g))
            && q.allocs == p.allocs + [MakeAlloc(c, g, |p.allocs|, p.slots[i].node.id)]
            && DistinctNodes(q.slots)
  {
    LocateSelf(p.slots, i, |p.slots|);
  }

  lemma GreedyStep(c: Context, g: TaskGroup, p: Progress, n: nat, i: nat)
    requires DistinctNodes(p.slots) && NonNegative(Demand(g)) && n > 0 && i < |p.slots| && Suits(p.slots[i], g)
    ensures var q := PlaceOne(c, g, p, i);
            && DistinctNodes(q.slots) && |q.allocs| == |p.allocs| + 1
            && Min(n, TotalRoom(p.slots, g, n)) == 1 + Min(n - 1, TotalRoom(q.slots, g, n - 1))
  {
    PlaceOneCharges(c, g, p, i);
    TakeUsesOne(p.slots, g, i, n);
  }

  /** One round of the placement loop, when `more` instances may follow the group: no room at all, or one
      instance and one copy's room less. */
  lemma PlaceNext(c: Context, g: TaskGroup, policy: Policy, p: Progress, n: nat, more: nat)
    returns (q: Option<Progress>)
    requires Sensible(policy, g) && DistinctNodes(p.slots) && NonNegative(Demand(g)) && n > 0
    ensures q.None? ==> PlaceGroup(c, g, policy, p, n) == p && forall m: nat :: TotalRoom(p.slots, g, m) == 0
    ensures q.Some? ==>
              && PlaceGroup(c, g, policy, p, n) == PlaceGroup(c, g, policy, q.value, n - 1)
              && DistinctNodes(q.value.slots) && |q.value.allocs| == |p.allocs| + 1
              && Min(n + more, TotalRoom(p.slots, g, n + more)) ==
                 1 + Min(n - 1 + more, TotalRoom(q.value.slots, g, n - 1 + more))
  {
    var choice := policy(p.slots);
    if choice.None? {
      forall m: nat ensures TotalRoom(p.slots, g, m) == 0 { TotalRoomNone(p.slots, g, m); }
      q := None;
    } else {
      GreedyStep(c, g, p, n + more, choice.value);
      q := Some(PlaceOne(c, g, p, choice.value));
    }
  }

  lemma PlaceNone(c: Context, g: TaskGroup, policy: Policy, p: Progress)
    ensures PlaceGroup(c, g, policy, p, 0) == p
  { }

  lemma MinZero(n: nat)
    ensures Min(n, 0) == 0 && Min(0, n) == 0
  { }

  /** Placement uses up room one for one: what a group lands, and what `more` copies would still find
      room for after it, is what they would all have found room for together. */
  lemma {:induction false} RoomLeft(c: Context, g: TaskGroup, policy: Policy, p: Progress, n: nat, more: nat)
    requires Sensible(policy, g) && DistinctNodes(p.slots) && NonNegative(Demand(g))
    ensures var q := PlaceGroup(c, g, policy, p, n);
            && DistinctNodes(q.slots)
            && |q.allocs| + Min(more, TotalRoom(q.slots, g, more)) ==
               |p.allocs| + Min(n + more, TotalRoom(p.slots, g, n + more))
    decreases n
  {
    hide *;
    if n == 0 {
      PlaceNone(c, g, policy, p);
    } else {
      var q := PlaceNext(c, g, policy, p, n, more);
      if q.None? {
        MinZero(more);
        MinZero(n + more);
      } else {
        RoomLeft(c, g, policy, q.value, n - 1, more);
      }
    }
  }

  /** Greedy placement lands as many instances as were asked for, or as many as there is room for
      across all nodes that meet the constraints, whichever is fewer; on both paths. */
  lemma GreedyCount(c: Context, g: TaskGroup, policy: Policy, p: Progress, n: nat)
    requires Sensible(policy, g) && DistinctNodes(p.slots) && NonNegative(Demand(g))
    ensures |PlaceGroup(c, g, policy, p, n).allocs| == |p.allocs| + Min(n, TotalRoom(p.slots, g, n))
  {
    hide *;
    RoomLeft(c, g, policy, p, n, 0);
    MinZero(TotalRoom(PlaceGroup(c, g, policy, p, n).slots, g, 0));
  }

  function SumOf(a: seq<nat>): nat {
    if |a| == 0 then 0 else SumOf(a[..|a| - 1]) + a[|a| - 1]
  }

  /** An assignment of instances to slots that respects capacity and constraints. */
  ghost predicate Feasible(slots: seq<Slot>, g: TaskGroup, a: seq<nat>) {
    && |a| == |slots|
    && forall i | 0 <= i < |slots| ::
         a[i] > 0 ==> MeetsConstraints(slots[i].node, g) && Holds(slots[i].free, Demand(g), a[i])
  }

  lemma {:induction false} FeasibleHasRoom(slots: seq<Slot>, g: TaskGroup, a: seq<nat>, n: nat)
    requires NonNegative(Demand(g)) && Feasible(slots, g, a)
    ensures Min(n, SumOf(a)) <= TotalRoom(slots, g, n)
  {
    if |a| == 0 {
    } else {
      var k := |a| - 1;
      FeasibleHasRoom(slots[..k], g, a[..k], n);
      if a[k] > 0 {
        var more := if a[k] < n then n else a[k];
        CopiesIsMax(slots[k].free, Demand(g), more, a[k]);
        CopiesCap(slots[k].free, Demand(g), n, more);
      }
    }
  }

  /** No assignment of at most `n` instances places more than the greedy plan does. */
  lemma GreedyIsOptimal(c: Context, g: TaskGroup, policy: Policy, p: Progress, n: nat, a: seq<nat>)
    requires Sensible(policy, g) && DistinctNodes(p.slots) && NonNegative(Demand(g))
    requires Feasible(p.slots, g, a) && SumOf(a) <= n
    ensures |p.allocs| + SumOf(a) <= |PlaceGroup(c, g, policy, p, n).allocs|
  {
    GreedyCount(c, g, policy, p, n);
    FeasibleHasRoom(p.slots, g, a, n);
  }

  lemma {:induction false} TotalRoomRemove(slots: seq<Slot>, g: TaskGroup, cap: nat, i: nat)
    requires i < |slots|
    ensures TotalRoom(slots, g, cap) == TotalRoom(Without(slots, i), g, cap) + Room(slots[i], g, cap)
  {
    var n := |slots| - 1;
    if i == n {
      assert Without(slots, i) == slots[..n];
    } else {
      TotalRoomRemove(slots[..n], g, cap, i);
      assert Without(slots, i)[..n - 1] == Without(slots[..n], i);
    }
  }

  lemma {:induction false} TotalRoomPermuted(a: seq<Slot>, b: seq<Slot>, g: TaskGroup, cap: nat)
    requires multiset(a) == multiset(b)
    ensures TotalRoom(a, g, cap) == TotalRoom(b, g, cap)
    decreases |a|
  {
    SameEntries(a, b);
    if |a| == 0 {
    } else {
      assert a[0] in b;
      var i :| 0 <= i < |b| && b[i] == a[0];
      WithoutSame(a, 0, b, i);
      TotalRoomPermuted(Without(a, 0), Without(b, i), g, cap);
      TotalRoomRemove(a, g, cap, 0);
      TotalRoomRemove(b, g, cap, i);
    }
  }

  /** Two groups ask for the same of a node, whatever they prefer and however many they want. */
  ghost predicate SameShape(g: TaskGroup, h: TaskGroup) {
    Demand(g) == Demand(h) && g.constraints == h.constraints
  }

  lemma {:induction false} RoomIgnoresPreference(slots: seq<Slot>, g: TaskGroup, h: TaskGroup, cap: nat)
    requires SameShape(g, h)
    ensures TotalRoom(slots, g, cap) == TotalRoom(slots, h, cap)
  {
    if |slots| == 0 {
    } else {
      RoomIgnoresPreference(slots[..|slots| - 1], g, h, cap);
    }
  }

  /** On the same free capacity, first-fit and ranked placement land the same number of a group, in
      whatever order the nodes are listed. */
  lemma CountIgnoresPathAndOrder(
    c: Context, g: TaskGroup, policy: Policy, p: Progress,
    d: Context, h: TaskGroup, other: Policy, q: Progress, n: nat)
    requires Sensible(policy, g) && Sensible(other, h)
    requires DistinctNodes(p.slots) && DistinctNodes(q.slots) && NonNegative(Demand(g))
    requires SameShape(g, h) && multiset(p.slots) == multiset(q.slots)
    ensures |PlaceGroup(c, g, policy, p, n).allocs| - |p.allocs| == |PlaceGroup(d, h, other, q, n).allocs| - |q.allocs|
  {
    hide Sensible, TotalRoom, PlaceGroup;
    GreedyCount(c, g, policy, p, n);
    GreedyCount(d, h, other, q, n);
    TotalRoomPermuted(p.slots, q.slots, g, n);
    RoomIgnoresPreference(q.slots, g, h, n);
  }

  // ---- Stickiness -----------------------------------------------------------------------------

  lemma UtilizationRises(capacity: int, after: int, less: int)
    requires less <= after
    ensures Utilization(capacity, less) >= Utilization(capacity, after)
  {
    if capacity > 0 {
      var c, x, y := capacity as real, (capacity - less) as real, (capacity - after) as real;
      assert x >= y && c > 0.0;
      assert x / c - y / c == (x - y) / c;
    }
  }

  lemma BinPackRises(n: Node, after: Resources, need: Resources)
    requires NonNegative(need) && SomeLeft(Minus(after, need))
    ensures BinPack(n, Minus(after, need)) >= BinPack(n, after)
  {
    var less := Minus(after, need);
    UtilizationRises(n.resources.cpu, after.cpu, less.cpu);
    UtilizationRises(n.resources.memory, after.memory, less.memory);
    UtilizationRises(n.resources.network, after.network, less.network);
  }

  /** A node just chosen is chosen again exactly when the next instance still fits on it and either
      leaves some resource of it free, or (an exact fill loses the bin-pack term) its affinity and
      spread preference alone still outranks every other candidate. */
  lemma StickyIff(slots: seq<Slot>, g: TaskGroup, s: Store, i: nat)
    requires NonNegative(Demand(g)) && Ranked(g) && Choose(slots, g, ScoreBy(g, s)) == Some(i)
    ensures var need := Demand(g);
            var next := Take(slots, i, need);
            Choose(next, g, ScoreBy(g, s)) == Some(i) <==>
              && Fits(next[i].free, need)
              && (|| SomeLeft(Minus(next[i].free, need))
                  || forall j | 0 <= j < |slots| && j != i && Suits(slots[j], g) ::
                       var mine, theirs := Preference(slots[i].node, g, s), Score(slots[j], g, s);
                       mine > theirs || (mine == theirs && i < j))
  {
    var need := Demand(g);
    var next := Take(slots, i, need);
    BestIff(slots, g, ScoreBy(g, s), i);
    BestIff(next, g, ScoreBy(g, s), i);
    forall j | 0 <= j < |slots| && j != i ensures Score(next[j], g, s) == Score(slots[j], g, s) { }
    if SomeLeft(Minus(next[i].free, need)) {
      BinPackRises(slots[i].node, next[i].free, need);
      assert Score(next[i], g, s) >= Score(slots[i], g, s);
      forall j | 0 <= j < |next| && Suits(next[j], g) ensures Outranks(next, ScoreBy(g, s), i, j) {
        if j != i { assert Suits(slots[j], g) && Outranks(slots, ScoreBy(g, s), i, j); }
      }
    } else {
      assert Score(next[i], g, s) == Preference(slots[i].node, g, s);
      if Choose(next, g, ScoreBy(g, s)) == Some(i) {
        forall j | 0 <= j < |slots| && j != i && Suits(slots[j], g) ensures Outranks(next, ScoreBy(g, s), i, j) {
          assert Suits(next[j], g);
        }
      }
    }
  }

  lemma UtilizationPositive(capacity: int, after: int)
    requires 0 <= after <= capacity
    ensures Utilization(capacity, after) >= 0.0
    ensures after < capacity ==> Utilization(capacity, after) > 0.0
  { }

  /** Fitting again is not enough. Of two equally preferred nodes, each empty and just big enough for
      two instances, the first takes one and then loses the other, which would fill it exactly. */
  lemma ExactFillNotSticky(slots: seq<Slot>, g: TaskGroup, s: Store)
    requires Ranked(g) && NonNegative(Demand(g)) && SomeLeft(Demand(g)) && |slots| == 2
    requires forall i | 0 <= i < 2 ::
               && MeetsConstraints(slots[i].node, g)
               && slots[i].free == slots[i].node.resources == Plus(Demand(g), Demand(g))
    requires Preference(slots[0].node, g, s) == Preference(slots[1].node, g, s)
    ensures Choose(slots, g, ScoreBy(g, s)) == Some(0)
    ensures Fits(Take(slots, 0, Demand(g))[0].free, Demand(g))
    ensures Choose(Take(slots, 0, Demand(g)), g, ScoreBy(g, s)) == Some(1)
  {
    var need, rank := Demand(g), ScoreBy(g, s);
    var next := Take(slots, 0, need);
    var cap := slots[1].node.resources;
    UtilizationPositive(cap.cpu, need.cpu);
    UtilizationPositive(cap.memory, need.memory);
    UtilizationPositive(cap.network, need.network);
    assert BinPack(slots[1].node, need) > 0.0;
    assert Minus(slots[0].free, need) == Minus(slots[1].free, need) == need && Minus(next[0].free, need) == ZERO;
    assert rank(slots[0]) == rank(slots[1]) > rank(next[0]);
    BestIff(slots, g, rank, 0);
    BestIff(next, g, rank, 1);
  }

  lemma ShareGrows(a: real, b: real, total: real)
    requires a < b && total > 0.0
    ensures a / total * 100.0 < b / total * 100.0
  {
    assert b / total - a / total == (b - a) / total;
  }

  /** Spreading prefers the attribute value with fewer live allocations when the targets are equal. */
  lemma SpreadPrefersRarer(m: Node, n: Node, spread: Spread, s: Store)
    requires spread.attribute in m.attributes && spread.attribute in n.attributes && LiveCount(s) > 0
    requires var v, w := m.attributes[spread.attribute], n.attributes[spread.attribute];
             && TargetPercent(spread.targets, v) == TargetPercent(spread.targets, w)
             && LiveOnValue(s, spread.attribute, v) < LiveOnValue(s, spread.attribute, w)
    ensures SpreadTerm(m, spread, s) > SpreadTerm(n, spread, s)
  {
    var a := LiveOnValue(s, spread.attribute, m.attributes[spread.attribute]) as real;
    var b := LiveOnValue(s, spread.attribute, n.attributes[spread.attribute]) as real;
    ShareGrows(a, b, LiveCount(s) as real);
  }
}
