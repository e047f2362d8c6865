/** Which node the ranked path prefers: what each term of a score is worth. */
module ScoringLaws {
  import opened Domain
  import opened StateMachine
  import opened Finite
  import opened Placement
  import opened PlacementLaws

  /** Without affinities and spreads the first node that suits is taken; with either, the node with the
      highest score among those that suit, the earlier one on a tie. */
  lemma ChoosesBy(slots: seq<Slot>, g: TaskGroup, s: Store, i: nat)
    requires i < |slots|
    ensures g.affinities == [] && g.spreads == [] ==>
              (Choose(slots, g, ScoreBy(g, s)) == Some(i) <==>
                 Suits(slots[i], g) && forall j | 0 <= j < i :: !Suits(slots[j], g))
    ensures g.affinities != [] || g.spreads != [] ==>
              (Choose(slots, g, ScoreBy(g, s)) == Some(i) <==>
                 && Suits(slots[i], g)
                 && forall j | 0 <= j < |slots| && Suits(slots[j], g) ::
                      || Score(slots[i], g, s) > Score(slots[j], g, s)
                      || (Score(slots[i], g, s) == Score(slots[j], g, s) && i <= j))
  {
    var rank := ScoreBy(g, s);
    if g.affinities == [] && g.spreads == [] {
      FirstMeans(slots, g, |slots|);
      if Suits(slots[i], g) && forall j | 0 <= j < i :: !Suits(slots[j], g) {
        var r := First(slots, g, |slots|);
        assert r.Some? && !(r.value < i) && !(i < r.value);
      }
    } else {
      BestIff(slots, g, rank, i);
      assert forall j | 0 <= j < |slots| :: Outranks(slots, rank, i, j) <==>
        || Score(slots[i], g, s) > Score(slots[j], g, s)
        || (Score(slots[i], g, s) == Score(slots[j], g, s) && i <= j);
    }
  }

  // ---- Affinities -----------------------------------------------------------------------------

  /** For each affinity that `m` satisfies and `n` does not, its weight. */
  function Gains(affinities: seq<Affinity>, m: Node, n: Node): seq<int> {
    seq(|affinities|, i requires 0 <= i < |affinities| =>
          if affinities[i].satisfiedBy(m.attributes) && !affinities[i].satisfiedBy(n.attributes)
          then affinities[i].weight else 0)
  }

  function Gain(affinities: seq<Affinity>, m: Node, n: Node): int {
    Sum(Gains(affinities, m, n))
  }

  lemma GainSnoc(affinities: seq<Affinity>, m: Node, n: Node)
    requires |affinities| > 0
    ensures var a := affinities[|affinities| - 1];
            Gain(affinities, m, n) == Gain(affinities[..|affinities| - 1], m, n) +
              if a.satisfiedBy(m.attributes) && !a.satisfiedBy(n.attributes) then a.weight else 0
  {
    var k := |affinities| - 1;
    SumSnoc(Gains(affinities, m, n));
    assert Gains(affinities, m, n)[..k] == Gains(affinities[..k], m, n);
  }

  /** Two nodes differ in affinity score by the weights one satisfies and the other does not. */
  lemma {:induction false} AffinityDifference(affinities: seq<Affinity>, m: Node, n: Node)
    ensures AffinityScore(m, affinities) - AffinityScore(n, affinities) ==
            (Gain(affinities, m, n) - Gain(affinities, n, m)) as real
  {
    if |affinities| == 0 {
    } else {
      hide Gain;
      AffinityDifference(affinities[..|affinities| - 1], m, n);
      GainSnoc(affinities, m, n);
      GainSnoc(affinities, n, m);
    }
  }

  ghost predicate SameSize(x: Slot, y: Slot) {
    x.node.resources == y.node.resources && x.free == y.free
  }

  /** Two slots of the same size and equally free differ in score by affinities and spreads alone. */
  lemma ScoreDifference(x: Slot, y: Slot, g: TaskGroup, s: Store)
    requires SameSize(x, y)
    ensures Score(x, g, s) - Score(y, g, s) ==
            (Gain(g.affinities, x.node, y.node) - Gain(g.affinities, y.node, x.node)) as real
            + (SpreadBonus(x.node, g.spreads, s) - SpreadBonus(y.node, g.spreads, s))
  {
    hide Gain, SpreadBonus, AffinityScore;
    AffinityDifference(g.affinities, x.node, y.node);
  }

  lemma GainMeansRanked(g: TaskGroup, m: Node, n: Node)
    requires Gain(g.affinities, m, n) != Gain(g.affinities, n, m)
    ensures g.affinities != []
  { }

  lemma NoSpread(n: Node, g: TaskGroup, s: Store)
    requires g.spreads == []
    ensures SpreadBonus(n, g.spreads, s) == 0.0
  { }

  /** Of two slots of the same size that both suit, one whose affinities weigh less is never chosen. */
  lemma PreferredWins(slots: seq<Slot>, g: TaskGroup, s: Store, i: nat, j: nat)
    requires i < |slots| && j < |slots| && Suits(slots[j], g) && SameSize(slots[i], slots[j]) && g.spreads == []
    requires Gain(g.affinities, slots[j].node, slots[i].node) > Gain(g.affinities, slots[i].node, slots[j].node)
    ensures Choose(slots, g, ScoreBy(g, s)) != Some(i)
  {
    hide Gain, SpreadBonus, Score, Choose;
    ScoreDifference(slots[j], slots[i], g, s);
    NoSpread(slots[i].node, g, s);
    NoSpread(slots[j].node, g, s);
    GainMeansRanked(g, slots[j].node, slots[i].node);
    ChoosesBy(slots, g, s, i);
  }

  lemma GainOfOne(affinities: seq<Affinity>, m: Node, n: Node, k: nat)
    requires k < |affinities| && affinities[k].satisfiedBy(m.attributes) && !affinities[k].satisfiedBy(n.attributes)
    requires forall l | 0 <= l < |affinities| && l != k ::
               affinities[l].satisfiedBy(m.attributes) == affinities[l].satisfiedBy(n.attributes)
    ensures Gain(affinities, m, n) == affinities[k].weight && Gain(affinities, n, m) == 0
  {
    SumOnly(Gains(affinities, m, n), k);
    SumZeros(Gains(affinities, n, m));
  }

  /** In particular a slot is not chosen while one of the same size suits that satisfies one more affinity
      of positive weight. */
  lemma OneMoreAffinityWins(slots: seq<Slot>, g: TaskGroup, s: Store, i: nat, j: nat, k: nat)
    requires i < |slots| && j < |slots| && Suits(slots[j], g) && SameSize(slots[i], slots[j]) && g.spreads == []
    requires k < |g.affinities| && g.affinities[k].weight > 0
    requires g.affinities[k].satisfiedBy(slots[j].node.attributes)
    requires !g.affinities[k].satisfiedBy(slots[i].node.attributes)
    requires forall l | 0 <= l < |g.affinities| && l != k ::
               g.affinities[l].satisfiedBy(slots[j].node.attributes) ==
               g.affinities[l].satisfiedBy(slots[i].node.attributes)
    ensures Choose(slots, g, ScoreBy(g, s)) != Some(i)
  {
    hide Gain, Choose;
    GainOfOne(g.affinities, slots[j].node, slots[i].node, k);
    PreferredWins(slots, g, s, i, j);
  }

  // ---- Bin-packing ----------------------------------------------------------------------------

  /** The part of a resource that `amount` makes up; a node that has none of it offers no part. */
  function Part(amount: int, capacity: int): real {
    if capacity > 0 then amount as real / capacity as real else 0.0
  }

  lemma PartOfDifference(capacity: int, a: int, b: int)
    ensures Utilization(capacity, a) - Utilization(capacity, b) == Part(b - a, capacity)
  {
    if capacity > 0 {
      var c, x, y := capacity as real, (capacity - a) as real, (capacity - b) as real;
      assert x / c - y / c == (x - y) / c;
    }
  }

  /** Bin-packing is worth 50 for all three resources together: while something stays free, using up a part
      of one resource adds a third of 50 times that part. */
  lemma BinPackDifference(n: Node, a: Resources, b: Resources)
    requires (a.cpu > 0 || a.memory > 0 || a.network > 0) && (b.cpu > 0 || b.memory > 0 || b.network > 0)
    ensures 3.0 * (BinPack(n, a) - BinPack(n, b)) ==
            50.0 * (Part(b.cpu - a.cpu, n.resources.cpu) + Part(b.memory - a.memory, n.resources.memory)
                    + Part(b.network - a.network, n.resources.network))
  {
    PartOfDifference(n.resources.cpu, a.cpu, b.cpu);
    PartOfDifference(n.resources.memory, a.memory, b.memory);
    PartOfDifference(n.resources.network, a.network, b.network);
  }

  /** A node left idle earns nothing, and neither does one filled to the last. */
  lemma BinPackEnds(n: Node, after: Resources)
    ensures after == n.resources ==> BinPack(n, after) == 0.0
    ensures after.cpu <= 0 && after.memory <= 0 && after.network <= 0 ==> BinPack(n, after) == 0.0
  { }

  lemma UtilizationBounded(capacity: int, after: int)
    requires 0 <= after <= capacity
    ensures 0.0 <= Utilization(capacity, after) <= 1.0
  { }

  lemma BinPackBounded(n: Node, after: Resources)
    requires NonNegative(after) && Fits(n.resources, after)
    ensures 0.0 <= BinPack(n, after) <= 50.0
  {
    UtilizationBounded(n.resources.cpu, after.cpu);
    UtilizationBounded(n.resources.memory, after.memory);
    UtilizationBounded(n.resources.network, after.network);
  }

  /** A slot that nobody over-filled or over-stated. */
  ghost predicate Sane(slot: Slot) {
    NonNegative(slot.node.resources) && Fits(slot.node.resources, slot.free)
  }

  /** So affinities outweigh bin-packing by more than 50: whatever the sizes and the fill, a slot is never
      chosen while one suits whose affinities weigh over 50 more. */
  lemma AffinityOutweighs(slots: seq<Slot>, g: TaskGroup, s: Store, i: nat, j: nat)
    requires i < |slots| && j < |slots| && Suits(slots[j], g) && Sane(slots[i]) && Sane(slots[j])
    requires g.spreads == [] && NonNegative(Demand(g))
    requires Gain(g.affinities, slots[j].node, slots[i].node) > Gain(g.affinities, slots[i].node, slots[j].node) + 50
    ensures Choose(slots, g, ScoreBy(g, s)) != Some(i)
  {
    hide Gain, SpreadBonus, Choose, AffinityScore, BinPack, Demand;
    AffinityDifference(g.affinities, slots[j].node, slots[i].node);
    NoSpread(slots[i].node, g, s);
    NoSpread(slots[j].node, g, s);
    GainMeansRanked(g, slots[j].node, slots[i].node);
    ChoosesBy(slots, g, s, i);
    if Suits(slots[i], g) {
      BinPackBounded(slots[i].node, Minus(slots[i].free, Demand(g)));
      BinPackBounded(slots[j].node, Minus(slots[j].free, Demand(g)));
    }
  }

  // ---- Spreading ------------------------------------------------------------------------------

  /** The explicit target of a value is the sum of the percentages given for it. */
  lemma {:induction false} TargetIsSum(targets: seq<SpreadTarget>, value: string)
    ensures TargetPercent(targets, value) ==
            Sum(seq(|targets|, i requires 0 <= i < |targets| =>
                      if targets[i].value == value then targets[i].percent else 0)) as real
  {
    if |targets| == 0 {
    } else {
      var before := targets[..|targets| - 1];
      TargetIsSum(before, value);
      var all := seq(|targets|, i requires 0 <= i < |targets| =>
                       if targets[i].value == value then targets[i].percent else 0);
      SumSnoc(all);
      assert all[..|before|] == seq(|before|, i requires 0 <= i < |before| =>
                                      if before[i].value == value then before[i].percent else 0);
    }
  }

  /** Without explicit targets the values present among the nodes, each counted once, share evenly. */
  lemma UniqueValuesCounts(s: Store, attribute: string, listing: seq<string>)
    requires NoRepeats(listing)
    requires forall v :: v in listing <==>
               exists k :: k in s.nodes && attribute in s.nodes[k].attributes && s.nodes[k].attributes[attribute] == v
    ensures UniqueValues(s, attribute) == if |listing| == 0 then 1 else |listing|
  {
    var values := set k | k in s.nodes && attribute in s.nodes[k].attributes :: s.nodes[k].attributes[attribute];
    forall v ensures v in values <==> v in listing {
      assert v in values <==>
        exists k :: k in s.nodes && attribute in s.nodes[k].attributes && s.nodes[k].attributes[attribute] == v;
    }
    ListedSize(values, listing);
  }

  /** The allocation is live on a registered node whose attribute has the value. */
  predicate CountsFor(s: Store, a: Allocation, attribute: string, value: string) {
    && (a.clientStatus == Pending || a.clientStatus == Running)
    && a.nodeId in s.nodes && attribute in s.nodes[a.nodeId].attributes
    && s.nodes[a.nodeId].attributes[attribute] == value
  }

  lemma LiveCountGrows(s: Store, a: Allocation)
    requires a.id !in s.allocs
    ensures LiveCount(s.(allocs := s.allocs[a.id := a])) ==
            LiveCount(s) + if a.clientStatus == Pending || a.clientStatus == Running then 1 else 0
  {
    var t := s.(allocs := s.allocs[a.id := a]);
    var before := set k | k in s.allocs && IsLive(s.allocs[k]);
    var after := set k | k in t.allocs && IsLive(t.allocs[k]);
    assert after == if IsLive(a) then before + {a.id} else before;
  }

  lemma SameNodesSameValue(s: Store, t: Store, a: Allocation, attribute: string, value: string)
    requires t.nodes == s.nodes
    ensures LiveOn(t, a, attribute, value) == LiveOn(s, a, attribute, value) == CountsFor(s, a, attribute, value)
  { }

  lemma LiveOnGrows(s: Store, a: Allocation, attribute: string, value: string)
    requires a.id !in s.allocs
    ensures LiveOnValue(s.(allocs := s.allocs[a.id := a]), attribute, value) ==
            LiveOnValue(s, attribute, value) + if CountsFor(s, a, attribute, value) then 1 else 0
  {
    hide LiveOn, CountsFor;
    var t := s.(allocs := s.allocs[a.id := a]);
    forall x
      ensures LiveOn(t, x, attribute, value) == LiveOn(s, x, attribute, value) == CountsFor(s, x, attribute, value)
    {
      SameNodesSameValue(s, t, x, attribute, value);
    }
    var before := set k | k in s.allocs && LiveOn(s, s.allocs[k], attribute, value);
    var after := set k | k in t.allocs && LiveOn(t, t.allocs[k], attribute, value);
    assert after == if CountsFor(s, a, attribute, value) then before + {a.id} else before;
  }

  /** Storing one more allocation raises the live count of its value, and of no other, by one. */
  lemma LiveGrows(s: Store, a: Allocation, attribute: string, value: string)
    requires a.id !in s.allocs
    ensures var t := s.(allocs := s.allocs[a.id := a]);
            && LiveOnValue(t, attribute, value) ==
               LiveOnValue(s, attribute, value) + (if CountsFor(s, a, attribute, value) then 1 else 0)
            && LiveCount(t) ==
               LiveCount(s) + (if a.clientStatus == Pending || a.clientStatus == Running then 1 else 0)
  {
    hide *;
    LiveOnGrows(s, a, attribute, value);
    LiveCountGrows(s, a);
  }

  /** Allocations that have ended count for nothing. */
  lemma EndedCountsNothing(s: Store, attribute: string, value: string)
    requires forall k | k in s.allocs :: s.allocs[k].clientStatus != Pending && s.allocs[k].clientStatus != Running
    ensures LiveCount(s) == 0 && LiveOnValue(s, attribute, value) == 0
  {
    assert (set k | k in s.allocs && IsLive(s.allocs[k])) == {};
    assert (set k | k in s.allocs && LiveOn(s, s.allocs[k], attribute, value)) == {};
  }

  lemma ShareBack(a: real, b: real)
    requires b > 0.0
    ensures a / b * 100.0 * b == 100.0 * a
  {
    assert a / b * b == a;
  }

  /** A spread is worth the percentage points by which the live share of the node's value falls short of its
      target; nothing when the node lacks the attribute or nothing is live yet. */
  lemma SpreadMeans(n: Node, spread: Spread, s: Store)
    ensures spread.attribute !in n.attributes || LiveCount(s) == 0 ==> SpreadTerm(n, spread, s) == 0.0
    ensures spread.attribute in n.attributes && LiveCount(s) > 0 ==>
              var value := n.attributes[spread.attribute];
              var explicit := TargetPercent(spread.targets, value);
              var target := if explicit > 0.0 then explicit else 100.0 / UniqueValues(s, spread.attribute) as real;
              (target - SpreadTerm(n, spread, s)) * LiveCount(s) as real ==
              100.0 * LiveOnValue(s, spread.attribute, value) as real
  {
    if spread.attribute in n.attributes && LiveCount(s) > 0 {
      var a, b := LiveOnValue(s, spread.attribute, n.attributes[spread.attribute]) as real, LiveCount(s) as real;
      ShareBack(a, b);
    }
  }

  /** Several spreads add up. */
  lemma {:induction false} SpreadsAdd(n: Node, a: seq<Spread>, b: seq<Spread>, s: Store)
    ensures SpreadBonus(n, a + b, s) == SpreadBonus(n, a, s) + SpreadBonus(n, b, s)
    decreases |b|
  {
    if |b| == 0 {
      assert a + b == a;
    } else {
      hide SpreadTerm;
      SpreadsAdd(n, a, b[..|b| - 1], s);
      assert (a + b)[..|a + b| - 1] == a + b[..|b| - 1];
    }
  }

  lemma SpreadOfOne(n: Node, spread: Spread, s: Store)
    ensures SpreadBonus(n, [spread], s) == SpreadTerm(n, spread, s)
  {
    assert SpreadBonus(n, [spread][..0], s) == 0.0;
  }

  lemma NoGain(m: Node, n: Node)
    ensures Gain([], m, n) == 0
  { }

  /** Of two slots of the same size that both suit, and whose values have the same target, the one on the
      value with more live allocations is never chosen. */
  lemma RarerWins(slots: seq<Slot>, g: TaskGroup, s: Store, i: nat, j: nat)
    requires i < |slots| && j < |slots| && Suits(slots[j], g) && SameSize(slots[i], slots[j])
    requires g.affinities == [] && |g.spreads| == 1 && LiveCount(s) > 0
    requires var a := g.spreads[0].attribute;
             && a in slots[i].node.attributes && a in slots[j].node.attributes
             && var v, w := slots[i].node.attributes[a], slots[j].node.attributes[a];
                && TargetPercent(g.spreads[0].targets, v) == TargetPercent(g.spreads[0].targets, w)
                && LiveOnValue(s, a, w) < LiveOnValue(s, a, v)
    ensures Choose(slots, g, ScoreBy(g, s)) != Some(i)
  {
    hide Gain, SpreadBonus, SpreadTerm, Score, Choose, TargetPercent, LiveOnValue, LiveCount;
    var spread := g.spreads[0];
    assert g.spreads == [spread];
    ScoreDifference(slots[j], slots[i], g, s);
    NoGain(slots[j].node, slots[i].node);
    NoGain(slots[i].node, slots[j].node);
    SpreadOfOne(slots[i].node, spread, s);
    SpreadOfOne(slots[j].node, spread, s);
    SpreadPrefersRarer(slots[j].node, slots[i].node, spread, s);
    ChoosesBy(slots, g, s, i);
  }
}
