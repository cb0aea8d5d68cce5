// Exact branch and bound over rigid contracts (src/engine/allocator.cpp).
//
// `Run` is the search as a function of its state. The lemmas show that a search
// that was not cut short ends on the unique preferred selection among all those
// that fit the capacity. Class `RigidSearch` is the search in its own form, fields
// updated by a recursive method, and refines `Run` step for step.
module BranchAndBound {
  import opened Core
  import opened Selections
  import Sorting

  datatype Item = Item(id: nat, weight: nat, priority: nat, value: nat)

  datatype SearchState = SearchState(
    nodes: nat, pruned: nat, exhausted: bool,
    bestValue: nat, bestCount: nat, bestPriority: nat,
    bestSelection: seq<nat>, current: seq<nat>)

  const START := SearchState(0, 0, false, 0, 0, 0, [], [])

  function Weights(items: seq<Item>): (r: seq<nat>) {
    seq(|items|, i requires 0 <= i < |items| => items[i].weight)
  }

  function Priorities(items: seq<Item>): (r: seq<nat>) {
    seq(|items|, i requires 0 <= i < |items| => items[i].priority)
  }

  function Values(items: seq<Item>): (r: seq<nat>) {
    seq(|items|, i requires 0 <= i < |items| => items[i].value)
  }

  // --------------------------------------------------------------------------
  // The search as a function
  // --------------------------------------------------------------------------

  function Consider(st: SearchState, count: nat, priority: nat, value: nat): SearchState {
    if || count > st.bestCount
       || (count == st.bestCount && priority > st.bestPriority)
       || (count == st.bestCount && priority == st.bestPriority && LexLess(st.current, st.bestSelection))
    then st.(bestCount := count, bestPriority := priority, bestValue := value,
             bestSelection := st.current)
    else st
  }

  // The bound loop from item i on, with its saturating accumulator.
  function BoundLoop(items: seq<Item>, i: nat, remaining: nat, total: nat): nat
    decreases |items| - i
  {
    if i >= |items| then total
    else
      var item := items[i];
      if item.weight <= remaining then
        BoundLoop(items, i + 1, remaining - item.weight, Saturating(CheckedAdd(total, item.value)))
      else
        match CheckedMul(item.value, remaining)
        case None => U64_MAX
        case Some(scaled) => Saturating(CheckedAdd(total, scaled / item.weight))
  }

  function Run(items: seq<Item>, budget: nat, st: SearchState, index: nat, remaining: nat, count: nat, priority: nat,
               value: nat): (r: SearchState)
    requires index <= |items|
    ensures r.current == st.current
    decreases |items| - index
  {
    if st.exhausted then st
    else if st.nodes >= budget then st.(exhausted := true)
    else
      var visited := st.(nodes := st.nodes + 1);
      if index == |items| then Consider(visited, count, priority, value)
      else if count + (|items| - index) < visited.bestCount then
        visited.(pruned := visited.pruned + 1)
      else if Saturating(CheckedAdd(value, BoundLoop(items, index, remaining, 0))) < visited.bestValue then
        visited.(pruned := visited.pruned + 1)
      else
        var taken :=
          if items[index].weight <= remaining
          then Take(items, budget, visited, index, remaining, count, priority, value)
          else visited.(pruned := visited.pruned + 1);
        Run(items, budget, taken, index + 1, remaining, count, priority, value)
  }

  // The include branch: push the index, search below it, pop it again.
  function Take(items: seq<Item>, budget: nat, st: SearchState, index: nat, remaining: nat, count: nat, priority: nat,
                value: nat): (r: SearchState)
    requires index < |items| && items[index].weight <= remaining
    ensures r.current == st.current
    decreases |items| - index, 0
  {
    var item := items[index];
    var pushed := st.(current := st.current + [index]);
    match (CheckedAdd(count, 1), CheckedAdd(priority, item.priority), CheckedAdd(value, item.value))
    case (Some(c), Some(p), Some(v)) =>
      Run(items, budget, pushed, index + 1, remaining - item.weight, c, p, v).(current := st.current)
    case _ => pushed.(exhausted := true, current := st.current)
  }

  function Search(items: seq<Item>, capacity: nat, budget: nat): SearchState {
    Run(items, budget, START, 0, capacity, 0, 0, 0)
  }

  // --------------------------------------------------------------------------
  // The relaxation bound
  // --------------------------------------------------------------------------

  // Descending value density, compared without division.
  ghost predicate DensitySorted(items: seq<Item>) {
    forall a, b | 0 <= a < b < |items| ::
      items[a].value * items[b].weight >= items[b].value * items[a].weight
  }

  // The fractional knapsack optimum of items[i..), rounded down.
  function FractionalBound(items: seq<Item>, i: nat, remaining: nat): nat
    decreases |items| - i
  {
    if i >= |items| then 0
    else if items[i].weight <= remaining then
      items[i].value + FractionalBound(items, i + 1, remaining - items[i].weight)
    else items[i].value * remaining / items[i].weight
  }

  // The code's loop is that optimum, or it has saturated.
  lemma {:induction false} BoundLoopIsFractional(items: seq<Item>, i: nat, remaining: nat, total: nat)
    requires total <= U64_MAX
    ensures var r := BoundLoop(items, i, remaining, total);
            r == U64_MAX || r == total + FractionalBound(items, i, remaining)
    decreases |items| - i
  {
    if i < |items| && items[i].weight <= remaining {
      var next := Saturating(CheckedAdd(total, items[i].value));
      BoundLoopIsFractional(items, i + 1, remaining - items[i].weight, next);
      if next != total + items[i].value {
        BoundLoopStaysSaturated(items, i + 1, remaining - items[i].weight);
      }
    }
  }

  lemma {:induction false} BoundLoopStaysSaturated(items: seq<Item>, i: nat, remaining: nat)
    ensures BoundLoop(items, i, remaining, U64_MAX) == U64_MAX
    decreases |items| - i
  {
    if i < |items| && items[i].weight <= remaining {
      BoundLoopStaysSaturated(items, i + 1, remaining - items[i].weight);
    }
  }

  // The first item from i on that no longer fits, or |items|.
  function Critical(items: seq<Item>, i: nat, remaining: nat): (k: nat)
    requires i <= |items|
    ensures i <= k <= |items|
    ensures k < |items| ==> items[k].weight > 0
    decreases |items| - i
  {
    if i == |items| || items[i].weight > remaining then i
    else Critical(items, i + 1, remaining - items[i].weight)
  }

  // What item i is worth above the price per unit of weight set by item k.
  function Gain(items: seq<Item>, k: nat, i: nat): int
    requires k < |items| && i < |items|
  {
    items[k].weight * items[i].value - items[k].value * items[i].weight
  }

  function GainOf(items: seq<Item>, k: nat, sel: seq<nat>): int
    requires k < |items| && Within(sel, 0, |items|)
  {
    items[k].weight * Sum(Values(items), sel) - items[k].value * Sum(Weights(items), sel)
  }

  lemma {:induction false} GainSplit(items: seq<Item>, k: nat, sel: seq<nat>)
    requires k < |items| && Within(sel, 0, |items|) && sel != []
    ensures GainOf(items, k, sel) == Gain(items, k, sel[0]) + GainOf(items, k, sel[1..])
  {
    var w, v := items[k].weight, items[k].value;
    var i, t := sel[0], sel[1..];
    assert Sum(Values(items), sel) == items[i].value + Sum(Values(items), t);
    assert Sum(Weights(items), sel) == items[i].weight + Sum(Weights(items), t);
    assert w * (items[i].value + Sum(Values(items), t)) == w * items[i].value + w * Sum(Values(items), t);
    assert v * (items[i].weight + Sum(Weights(items), t)) == v * items[i].weight + v * Sum(Weights(items), t);
  }

  // Nothing at or past the critical item is worth more than its price.
  lemma {:induction false} NoGainPastCritical(items: seq<Item>, k: nat, sel: seq<nat>)
    requires DensitySorted(items) && k < |items| && Within(sel, k, |items|)
    ensures GainOf(items, k, sel) <= 0
  {
    if sel != [] {
      GainSplit(items, k, sel);
      assert Within(sel[1..], k, |items|);
      NoGainPastCritical(items, k, sel[1..]);
    }
  }

  // What the greedy prefix collects above item k's price.
  function PrefixGain(items: seq<Item>, k: nat, i: nat, remaining: nat): int
    requires k < |items|
    decreases |items| - i
  {
    if i >= |items| || items[i].weight > remaining then 0
    else Gain(items, k, i) + PrefixGain(items, k, i + 1, remaining - items[i].weight)
  }

  // The greedy prefix takes every positive gain, so no selection gains more.
  lemma {:induction false} GreedyGain(items: seq<Item>, k: nat, i: nat, remaining: nat, sel: seq<nat>)
    requires DensitySorted(items) && Within(sel, i, |items|) && i <= |items|
    requires k == Critical(items, i, remaining) < |items|
    ensures GainOf(items, k, sel) <= PrefixGain(items, k, i, remaining)
    decreases |items| - i
  {
    if items[i].weight > remaining {
      NoGainPastCritical(items, i, sel);
    } else {
      var rest := remaining - items[i].weight;
      SplitFirst(sel, i, |items|);
      assert Gain(items, k, i) >= 0;
      if sel != [] && sel[0] == i {
        GainSplit(items, k, sel);
        GreedyGain(items, k, i + 1, rest, sel[1..]);
      } else {
        GreedyGain(items, k, i + 1, rest, sel);
      }
    }
  }

  lemma {:induction false} PrefixGainTotals(items: seq<Item>, k: nat, i: nat, remaining: nat)
    requires k < |items|
    ensures RoomAtCritical(items, i, remaining) <= remaining
    ensures PrefixGain(items, k, i, remaining)
         == items[k].weight * GreedyValue(items, i, remaining)
          - items[k].value * (remaining - RoomAtCritical(items, i, remaining))
    decreases |items| - i
  {
    if i < |items| && items[i].weight <= remaining {
      var rest := remaining - items[i].weight;
      PrefixGainTotals(items, k, i + 1, rest);
      var w, v, g, room := items[k].weight, items[k].value, GreedyValue(items, i + 1, rest),
        RoomAtCritical(items, i + 1, rest);
      Distribute(w, items[i].value, g);
      Distribute(v, items[i].weight, rest - room);
    }
  }

  lemma {:induction false} Distribute(a: int, b: int, c: int)
    ensures a * (b + c) == a * b + a * c
  {
  }

  function GreedyValue(items: seq<Item>, i: nat, remaining: nat): nat
    decreases |items| - i
  {
    if i >= |items| || items[i].weight > remaining then 0
    else items[i].value + GreedyValue(items, i + 1, remaining - items[i].weight)
  }

  function RoomAtCritical(items: seq<Item>, i: nat, remaining: nat): nat
    decreases |items| - i
  {
    if i >= |items| || items[i].weight > remaining then remaining
    else RoomAtCritical(items, i + 1, remaining - items[i].weight)
  }

  lemma {:induction false} FractionalBoundShape(items: seq<Item>, i: nat, remaining: nat)
    requires i <= |items|
    ensures var k := Critical(items, i, remaining);
            FractionalBound(items, i, remaining) == GreedyValue(items, i, remaining)
              + if k < |items| then items[k].value * RoomAtCritical(items, i, remaining) / items[k].weight else 0
    ensures Critical(items, i, remaining) == |items| ==>
              GreedyValue(items, i, remaining) == SumFrom(Values(items), i)
    decreases |items| - i
  {
    if i < |items| && items[i].weight <= remaining {
      FractionalBoundShape(items, i + 1, remaining - items[i].weight);
    }
  }

  lemma {:induction false} CancelFactor(w: int, a: int, b: int)
    requires w > 0 && w * a < w * b
    ensures a < b
  {
  }

  lemma {:induction false} DivideOut(w: nat, v: nat, x: int, g: int, used: nat, room: nat, remaining: nat)
    requires w > 0 && used <= remaining && room <= remaining
    requires w * x - v * used <= w * g - v * (remaining - room)
    ensures x <= g + v * room / w
  {
    assert v * used <= v * remaining;
    Distribute(v, remaining - room, room);
    Distribute(w, x - g, g);
    assert w * (x - g) <= v * room;
    var q := v * room / w;
    assert v * room < w * (q + 1);
    CancelFactor(w, x - g, q + 1);
  }

  // No feasible completion is worth more than the bound.
  lemma {:induction false} BoundDominates(items: seq<Item>, i: nat, remaining: nat, sel: seq<nat>)
    requires DensitySorted(items) && i <= |items| && Within(sel, i, |items|)
    requires Sum(Weights(items), sel) <= remaining
    ensures Sum(Values(items), sel) <= FractionalBound(items, i, remaining)
  {
    FractionalBoundShape(items, i, remaining);
    var k := Critical(items, i, remaining);
    if k == |items| {
      SumBounded(Values(items), sel, i);
    } else {
      GreedyGain(items, k, i, remaining, sel);
      PrefixGainTotals(items, k, i, remaining);
      DivideOut(items[k].weight, items[k].value, Sum(Values(items), sel), GreedyValue(items, i, remaining),
                Sum(Weights(items), sel), RoomAtCritical(items, i, remaining), remaining);
    }
  }

  // --------------------------------------------------------------------------
  // Optimality
  // --------------------------------------------------------------------------

  // Item values encode the lexicographic objective: `big` exceeds every priority sum.
  ghost predicate ValuesEncode(items: seq<Item>, big: nat) {
    && (forall i | 0 <= i < |items| :: items[i].value == big + items[i].priority)
    && SumFrom(Priorities(items), 0) < big
  }

  ghost predicate Fits(items: seq<Item>, capacity: nat, sel: seq<nat>) {
    Within(sel, 0, |items|) && Sum(Weights(items), sel) <= capacity
  }

  // The incumbent fits, its recorded totals are its own, and the work counters agree.
  ghost predicate Honest(items: seq<Item>, capacity: nat, budget: nat, st: SearchState) {
    && Fits(items, capacity, st.bestSelection)
    && st.bestCount == |st.bestSelection|
    && st.bestPriority == Sum(Priorities(items), st.bestSelection)
    && st.bestValue == Sum(Values(items), st.bestSelection) <= U64_MAX
    && st.pruned <= st.nodes <= budget
  }

  // The arguments of a call describe the partial selection in `current`.
  ghost predicate Describes(items: seq<Item>, capacity: nat, current: seq<nat>, index: nat, remaining: nat, count: nat,
                            priority: nat, value: nat) {
    && index <= |items|
    && Within(current, 0, index)
    && count == |current|
    && priority == Sum(Priorities(items), current)
    && value == Sum(Values(items), current) <= U64_MAX
    && remaining + Sum(Weights(items), current) == capacity
  }

  // `best` is at least as good as every way to complete `current` from `index` on.
  ghost predicate Covers(items: seq<Item>, capacity: nat, best: seq<nat>, current: seq<nat>, index: nat) {
    forall ext | Within(ext, index, |items|) && Sum(Weights(items), current + ext) <= capacity ::
      NotWorse(Priorities(items), best, current + ext)
  }

  lemma {:induction false} ValueOf(items: seq<Item>, big: nat, sel: seq<nat>)
    requires ValuesEncode(items, big) && Within(sel, 0, |items|)
    ensures Sum(Values(items), sel) == |sel| * big + Sum(Priorities(items), sel)
    ensures Sum(Priorities(items), sel) < big
  {
    SumBounded(Priorities(items), sel, 0);
    ValueSplits(items, big, sel);
  }

  lemma {:induction false} ValueSplits(items: seq<Item>, big: nat, sel: seq<nat>)
    requires ValuesEncode(items, big) && Within(sel, 0, |items|)
    ensures Sum(Values(items), sel) == |sel| * big + Sum(Priorities(items), sel)
  {
    if sel != [] {
      ValueSplits(items, big, sel[1..]);
      OneMoreTimes(|sel[1..]|, big);
    }
  }

  lemma {:induction false} OneMoreTimes(n: nat, x: nat)
    ensures (n + 1) * x == n * x + x
  {
  }

  // A larger value means a better selection.
  lemma {:induction false} ValueOrders(items: seq<Item>, big: nat, a: seq<nat>, b: seq<nat>)
    requires ValuesEncode(items, big) && Within(a, 0, |items|) && Within(b, 0, |items|)
    requires Sum(Values(items), a) > Sum(Values(items), b)
    ensures NotWorse(Priorities(items), a, b)
  {
    ValueOf(items, big, a);
    ValueOf(items, big, b);
    EncodingOrders(big, |a|, Sum(Priorities(items), a), |b|, Sum(Priorities(items), b));
  }

  lemma {:induction false} EncodingOrders(big: nat, count: nat, priority: nat, count': nat, priority': nat)
    requires priority < big && count * big + priority > count' * big + priority'
    ensures count > count' || (count == count' && priority > priority')
  {
    assert count < count' ==> (count + 1) * big <= count' * big;
  }

  lemma {:induction false} JoinWithin(current: seq<nat>, index: nat, ext: seq<nat>, n: nat)
    requires Within(current, 0, index) && Within(ext, index, n) && index <= n
    ensures Within(current + ext, 0, n)
  {
  }

  lemma {:induction false} CountPruneIsSafe(items: seq<Item>, capacity: nat, best: seq<nat>, current: seq<nat>,
                                            index: nat)
    requires index <= |items| && |current| + (|items| - index) < |best|
    ensures Covers(items, capacity, best, current, index)
  {
    forall ext | Within(ext, index, |items|) ensures |current + ext| < |best| {
      CountBounded(ext, index, |items|);
    }
  }

  lemma {:induction false} BoundPruneIsSafe(items: seq<Item>, big: nat, capacity: nat, best: seq<nat>,
                                            current: seq<nat>, index: nat, remaining: nat)
    requires DensitySorted(items) && ValuesEncode(items, big)
    requires Describes(items, capacity, current, index, remaining, |current|,
                       Sum(Priorities(items), current), Sum(Values(items), current))
    requires Within(best, 0, |items|) && Sum(Values(items), best) <= U64_MAX
    requires Saturating(CheckedAdd(Sum(Values(items), current), BoundLoop(items, index, remaining, 0)))
             < Sum(Values(items), best)
    ensures Covers(items, capacity, best, current, index)
  {
    BoundLoopIsFractional(items, index, remaining, 0);
    forall ext | Within(ext, index, |items|) && Sum(Weights(items), current + ext) <= capacity
      ensures NotWorse(Priorities(items), best, current + ext)
    {
      SumAppend(Weights(items), current, ext);
      SumAppend(Values(items), current, ext);
      BoundDominates(items, index, remaining, ext);
      JoinWithin(current, index, ext, |items|);
      ValueOrders(items, big, best, current + ext);
    }
  }

  lemma {:induction false} ConsiderCovers(items: seq<Item>, capacity: nat, budget: nat, st: SearchState, remaining: nat,
                                          count: nat, priority: nat, value: nat)
    requires Honest(items, capacity, budget, st)
    requires Describes(items, capacity, st.current, |items|, remaining, count, priority, value)
    ensures var r := Consider(st, count, priority, value);
            && Honest(items, capacity, budget, r)
            && NotWorse(Priorities(items), r.bestSelection, st.bestSelection)
            && Covers(items, capacity, r.bestSelection, st.current, |items|)
  {
    var r := Consider(st, count, priority, value);
    LexTrichotomy(st.current, st.bestSelection);
    assert NotWorse(Priorities(items), r.bestSelection, st.current);
    forall ext | Within(ext, |items|, |items|) ensures st.current + ext == st.current {
      CountBounded(ext, |items|, |items|);
    }
  }

  // Every completion either uses item `index` or skips it.
  lemma {:induction false} BranchesCover(items: seq<Item>, capacity: nat, best: seq<nat>, current: seq<nat>, index: nat)
    requires index < |items|
    requires Covers(items, capacity, best, current, index + 1)
    requires Sum(Weights(items), current + [index]) <= capacity ==>
               Covers(items, capacity, best, current + [index], index + 1)
    ensures Covers(items, capacity, best, current, index)
  {
    forall ext | Within(ext, index, |items|) && Sum(Weights(items), current + ext) <= capacity
      ensures NotWorse(Priorities(items), best, current + ext)
    {
      SplitFirst(ext, index, |items|);
      if ext != [] && ext[0] == index {
        var rest := ext[1..];
        assert current + ext == (current + [index]) + rest;
        SumAppend(Weights(items), current + [index], rest);
      }
    }
  }

  lemma {:induction false} CoversBetter(items: seq<Item>, capacity: nat, best: seq<nat>, better: seq<nat>,
                                        current: seq<nat>, index: nat)
    requires Covers(items, capacity, best, current, index)
    requires NotWorse(Priorities(items), better, best)
    ensures Covers(items, capacity, better, current, index)
  {
    forall ext | Within(ext, index, |items|) && Sum(Weights(items), current + ext) <= capacity
      ensures NotWorse(Priorities(items), better, current + ext)
    {
      NotWorseTransitive(Priorities(items), better, best, current + ext);
    }
  }

  lemma {:induction false} DescribesPush(items: seq<Item>, capacity: nat, current: seq<nat>, index: nat, remaining: nat,
                                         count: nat, priority: nat, value: nat)
    requires Describes(items, capacity, current, index, remaining, count, priority, value)
    requires index < |items| && items[index].weight <= remaining && value + items[index].value <= U64_MAX
    ensures Describes(items, capacity, current + [index], index + 1, remaining - items[index].weight,
                      count + 1, priority + items[index].priority, value + items[index].value)
  {
    SumPush(Weights(items), current, index);
    SumPush(Priorities(items), current, index);
    SumPush(Values(items), current, index);
    AppendWithin(current, index, 0, |items|);
  }

  // What every call keeps, whatever the order of the items and however it ends.
  lemma {:induction false} RunStaysHonest(items: seq<Item>, capacity: nat, budget: nat, st: SearchState, index: nat,
                                          remaining: nat, count: nat, priority: nat, value: nat)
    requires Honest(items, capacity, budget, st)
    requires Describes(items, capacity, st.current, index, remaining, count, priority, value)
    ensures Honest(items, capacity, budget, Run(items, budget, st, index, remaining, count, priority, value))
    decreases |items| - index
  {
    var visited := st.(nodes := st.nodes + 1);
    if st.exhausted || st.nodes >= budget {
    } else if index == |items| {
      ConsiderCovers(items, capacity, budget, visited, remaining, count, priority, value);
    } else {
      var tried := visited.(pruned := visited.pruned + 1);
      if items[index].weight <= remaining {
        TakeStaysHonest(items, capacity, budget, visited, index, remaining, count, priority, value);
        tried := Take(items, budget, visited, index, remaining, count, priority, value);
      }
      RunStaysHonest(items, capacity, budget, tried, index + 1, remaining, count, priority, value);
    }
  }

  lemma {:induction false} TakeStaysHonest(items: seq<Item>, capacity: nat, budget: nat, st: SearchState, index: nat,
                                           remaining: nat, count: nat, priority: nat, value: nat)
    requires Honest(items, capacity, budget, st)
    requires Describes(items, capacity, st.current, index, remaining, count, priority, value)
    requires index < |items| && items[index].weight <= remaining
    ensures Honest(items, capacity, budget, Take(items, budget, st, index, remaining, count, priority, value))
    decreases |items| - index, 0
  {
    hide Run, Fits;
    var item := items[index];
    if value + item.value <= U64_MAX && priority + item.priority <= U64_MAX && count + 1 <= U64_MAX {
      DescribesPush(items, capacity, st.current, index, remaining, count, priority, value);
      RunStaysHonest(items, capacity, budget, st.(current := st.current + [index]), index + 1,
                     remaining - item.weight, count + 1, priority + item.priority, value + item.value);
    }
  }

  // The incumbent never gets worse; a call that was not cut short has settled its subtree.
  ghost predicate Settles(items: seq<Item>, capacity: nat, st: SearchState, r: SearchState, current: seq<nat>,
                          index: nat) {
    && NotWorse(Priorities(items), r.bestSelection, st.bestSelection)
    && (!r.exhausted ==> !st.exhausted && Covers(items, capacity, r.bestSelection, current, index))
  }

  lemma {:induction false} RunSettles(items: seq<Item>, big: nat, capacity: nat, budget: nat, st: SearchState,
                                      index: nat, remaining: nat, count: nat, priority: nat, value: nat)
    requires DensitySorted(items) && ValuesEncode(items, big)
    requires Honest(items, capacity, budget, st)
    requires Describes(items, capacity, st.current, index, remaining, count, priority, value)
    ensures Settles(items, capacity, st, Run(items, budget, st, index, remaining, count, priority, value), st.current,
      index)
    decreases |items| - index
  {
    hide DensitySorted, ValuesEncode, BoundLoop;
    var visited := st.(nodes := st.nodes + 1);
    if st.exhausted || st.nodes >= budget {
    } else if index == |items| {
      ConsiderCovers(items, capacity, budget, visited, remaining, count, priority, value);
    } else if count + (|items| - index) < st.bestCount {
      CountPruneIsSafe(items, capacity, st.bestSelection, st.current, index);
    } else if Saturating(CheckedAdd(value, BoundLoop(items, index, remaining, 0))) < st.bestValue {
      BoundPruneIsSafe(items, big, capacity, st.bestSelection, st.current, index, remaining);
    } else {
      SumPush(Weights(items), st.current, index);
      var tried := visited.(pruned := visited.pruned + 1);
      if items[index].weight <= remaining {
        TakeSettles(items, big, capacity, budget, visited, index, remaining, count, priority, value);
        TakeStaysHonest(items, capacity, budget, visited, index, remaining, count, priority, value);
        tried := Take(items, budget, visited, index, remaining, count, priority, value);
      }
      RunSettles(items, big, capacity, budget, tried, index + 1, remaining, count, priority, value);
      BranchesSettle(items, capacity, st, tried,
                     Run(items, budget, tried, index + 1, remaining, count, priority, value), index);
    }
  }

  lemma {:induction false} BranchesSettle(items: seq<Item>, capacity: nat, st: SearchState, tried: SearchState,
                                          r: SearchState, index: nat)
    requires index < |items| && !st.exhausted
    requires NotWorse(Priorities(items), tried.bestSelection, st.bestSelection)
    requires Sum(Weights(items), st.current + [index]) <= capacity && !tried.exhausted ==>
               Covers(items, capacity, tried.bestSelection, st.current + [index], index + 1)
    requires Settles(items, capacity, tried, r, st.current, index + 1)
    ensures Settles(items, capacity, st, r, st.current, index)
  {
    NotWorseTransitive(Priorities(items), r.bestSelection, tried.bestSelection, st.bestSelection);
    if !r.exhausted {
      if Sum(Weights(items), st.current + [index]) <= capacity {
        CoversBetter(items, capacity, tried.bestSelection, r.bestSelection, st.current + [index], index + 1);
      }
      BranchesCover(items, capacity, r.bestSelection, st.current, index);
    }
  }

  lemma {:induction false} TakeSettles(items: seq<Item>, big: nat, capacity: nat, budget: nat, st: SearchState,
                                       index: nat, remaining: nat, count: nat, priority: nat, value: nat)
    requires DensitySorted(items) && ValuesEncode(items, big)
    requires Honest(items, capacity, budget, st)
    requires Describes(items, capacity, st.current, index, remaining, count, priority, value)
    requires index < |items| && items[index].weight <= remaining
    ensures Settles(items, capacity, st, Take(items, budget, st, index, remaining, count, priority, value),
                    st.current + [index], index + 1)
    decreases |items| - index, 0
  {
    hide DensitySorted, ValuesEncode, Run;
    var item := items[index];
    if value + item.value <= U64_MAX && priority + item.priority <= U64_MAX && count + 1 <= U64_MAX {
      DescribesPush(items, capacity, st.current, index, remaining, count, priority, value);
      RunSettles(items, big, capacity, budget, st.(current := st.current + [index]), index + 1,
                 remaining - item.weight, count + 1, priority + item.priority, value + item.value);
    }
  }

  // Whatever the item order, the incumbent fits and pruned <= nodes <= budget.
  lemma {:induction false} SearchIsHonest(items: seq<Item>, capacity: nat, budget: nat)
    ensures Honest(items, capacity, budget, Search(items, capacity, budget))
  {
    RunStaysHonest(items, capacity, budget, START, 0, capacity, 0, 0, 0);
  }

  // A search that ends inside its budget returns the preferred selection among all
  // that fit the capacity.
  lemma {:induction false} SearchIsOptimal(items: seq<Item>, big: nat, capacity: nat, budget: nat)
    requires DensitySorted(items) && ValuesEncode(items, big)
    ensures var r := Search(items, capacity, budget);
            && Honest(items, capacity, budget, r)
            && (!r.exhausted ==> forall sel | Fits(items, capacity, sel) ::
                  NotWorse(Priorities(items), r.bestSelection, sel))
  {
    SearchIsHonest(items, capacity, budget);
    RunSettles(items, big, capacity, budget, START, 0, capacity, 0, 0, 0);
    var r := Search(items, capacity, budget);
    if !r.exhausted {
      forall sel | Fits(items, capacity, sel) ensures NotWorse(Priorities(items), r.bestSelection, sel) {
        assert [] + sel == sel;
      }
    }
  }

  // --------------------------------------------------------------------------
  // Work
  // --------------------------------------------------------------------------

  function Pow2(n: nat): (r: nat)
    ensures r > 0
  {
    if n == 0 then 1 else 2 * Pow2(n - 1)
  }

  // Arithmetic cannot cut the search short.
  ghost predicate RoomToAdd(items: seq<Item>, index: nat, count: nat, priority: nat, value: nat) {
    && index <= |items|
    && count + (|items| - index) <= U64_MAX
    && priority + SumFrom(Priorities(items), index) <= U64_MAX
    && value + SumFrom(Values(items), index) <= U64_MAX
  }

  // At most `size` more nodes were visited, and only the budget can end a search early.
  ghost predicate WorkedWithin(budget: nat, st: SearchState, r: SearchState, size: nat) {
    && st.nodes <= r.nodes <= st.nodes + size
    && (!st.exhausted && r.exhausted ==> r.nodes >= budget)
    && (!st.exhausted && st.nodes + size <= budget ==> !r.exhausted)
  }

  // The subtree below `index` has fewer than 2^(n - index + 1) nodes.
  lemma {:induction false} RunWork(items: seq<Item>, budget: nat, st: SearchState, index: nat, remaining: nat,
                                   count: nat, priority: nat, value: nat)
    requires RoomToAdd(items, index, count, priority, value)
    ensures WorkedWithin(budget, st, Run(items, budget, st, index, remaining, count, priority, value),
                         Pow2(|items| - index + 1) - 1)
    decreases |items| - index
  {
    if st.exhausted || st.nodes >= budget || index == |items| {
    } else {
      var visited := st.(nodes := st.nodes + 1);
      var tried := visited.(pruned := visited.pruned + 1);
      if items[index].weight <= remaining {
        TakeWork(items, budget, visited, index, remaining, count, priority, value);
        tried := Take(items, budget, visited, index, remaining, count, priority, value);
      }
      RunWork(items, budget, tried, index + 1, remaining, count, priority, value);
    }
  }

  lemma {:induction false} TakeWork(items: seq<Item>, budget: nat, st: SearchState, index: nat, remaining: nat,
                                    count: nat, priority: nat, value: nat)
    requires RoomToAdd(items, index, count, priority, value)
    requires index < |items| && items[index].weight <= remaining
    ensures WorkedWithin(budget, st, Take(items, budget, st, index, remaining, count, priority, value),
                         Pow2(|items| - index) - 1)
    decreases |items| - index, 0
  {
    RunWork(items, budget, st.(current := st.current + [index]), index + 1, remaining - items[index].weight,
            count + 1, priority + items[index].priority, value + items[index].value);
  }

  // A budget of 2^(n+1) - 1 nodes always suffices, so the optimum is then always found.
  lemma {:induction false} AmpleBudgetCompletes(items: seq<Item>, capacity: nat, budget: nat)
    requires RoomToAdd(items, 0, 0, 0, 0) && budget + 1 >= Pow2(|items| + 1)
    ensures !Search(items, capacity, budget).exhausted
  {
    SearchWork(items, capacity, budget, START, Pow2(|items| + 1) - 1);
  }

  lemma {:induction false} SearchWork(items: seq<Item>, capacity: nat, budget: nat, st: SearchState, size: nat)
    requires RoomToAdd(items, 0, 0, 0, 0) && size == Pow2(|items| + 1) - 1 && !st.exhausted
    ensures var r := Run(items, budget, st, 0, capacity, 0, 0, 0);
            r.nodes <= st.nodes + size && (st.nodes + size <= budget ==> !r.exhausted)
  {
    RunWork(items, budget, st, 0, capacity, 0, 0, 0);
  }

  // --------------------------------------------------------------------------
  // Density order
  // --------------------------------------------------------------------------

  predicate TieBreak(a: Item, b: Item) {
    if a.weight != b.weight then a.weight < b.weight
    else if a.value != b.value then a.value > b.value
    else a.id < b.id
  }

  // The comparator handed to the sort: descending density by cross multiplication,
  // falling back on the tie-break when a product does not fit 64 bits.
  predicate DensityBefore(a: Item, b: Item) {
    match (CheckedMul(a.value, b.weight), CheckedMul(b.value, a.weight))
    case (Some(lhs), Some(rhs)) => if lhs != rhs then lhs > rhs else TieBreak(a, b)
    case _ => TieBreak(a, b)
  }

  ghost predicate ProductsExact(items: multiset<Item>) {
    forall a, b | a in items && b in items :: a.value * b.weight <= U64_MAX
  }

  ghost predicate Distinguished(items: multiset<Item>) {
    && (forall a | a in items :: a.value > 0)
    && (forall a, b | a in items && b in items && a != b :: a.id != b.id)
  }

  // Ratios w/v with positive denominators compose under cross multiplication.
  lemma {:induction false} CrossTransitive(wa: nat, va: nat, wb: nat, vb: nat, wc: nat, vc: nat)
    requires va > 0 && vb > 0 && vc > 0
    requires wa * vb <= wb * va && wb * vc <= wc * vb
    ensures wa * vc <= wc * va
    ensures wa * vb < wb * va || wb * vc < wc * vb ==> wa * vc < wc * va
  {
    assert (wa * vc) * vb == (wa * vb) * vc;
    assert (wb * va) * vc == (wb * vc) * va;
    assert (wc * vb) * va == (wc * va) * vb;
    ScaleMonotone(wa * vb, wb * va, vc);
    ScaleMonotone(wb * vc, wc * vb, va);
    ScaleReflects(wa * vc, wc * va, vb);
  }

  lemma {:induction false} ScaleMonotone(a: nat, b: nat, k: nat)
    requires a <= b && k > 0
    ensures a * k <= b * k
    ensures a < b ==> a * k < b * k
  {
  }

  lemma {:induction false} ScaleReflects(a: nat, b: nat, k: nat)
    requires k > 0
    ensures a * k <= b * k ==> a <= b
    ensures a * k < b * k ==> a < b
  {
  }

  lemma {:induction false} DensityTransitive(a: Item, b: Item, c: Item)
    requires a.value > 0 && b.value > 0 && c.value > 0
    requires ProductsExact(multiset{a, b, c})
    requires DensityBefore(a, b) && DensityBefore(b, c)
    ensures DensityBefore(a, c)
  {
    assert a in multiset{a, b, c} && b in multiset{a, b, c} && c in multiset{a, b, c};
    CrossTransitive(a.weight, a.value, b.weight, b.value, c.weight, c.value);
  }

  // While every cross product fits, the comparator is a strict total order and
  // sorting by it yields descending density.
  lemma {:induction false} DensityOrderIsTotal(items: multiset<Item>)
    requires ProductsExact(items) && Distinguished(items)
    ensures Sorting.StrictTotal(DensityBefore, items)
  {
    hide DensityBefore;
    forall a, b | a in items && b in items ensures a == b || DensityBefore(a, b) || DensityBefore(b, a) {
      DensityDecides(a, b);
    }
    forall a | a in items ensures !DensityBefore(a, a) { DensityIrreflexive(a); }
    forall a, b, c | a in items && b in items && c in items && DensityBefore(a, b) && DensityBefore(b, c)
      ensures DensityBefore(a, c)
    {
      DensityTransitive(a, b, c);
    }
  }

  lemma {:induction false} DensityDecides(a: Item, b: Item)
    ensures a.id == b.id || DensityBefore(a, b) || DensityBefore(b, a)
  {
  }

  lemma {:induction false} DensityIrreflexive(a: Item)
    ensures !DensityBefore(a, a)
  {
  }

  lemma {:induction false} SortedByDensity(items: seq<Item>)
    requires ProductsExact(multiset(items)) && Distinguished(multiset(items))
    ensures DensitySorted(Sorting.SortBy(DensityBefore, items))
  {
    DensityOrderIsTotal(multiset(items));
    Sorting.SortBySorts(DensityBefore, items);
    SortedMeansDense(Sorting.SortBy(DensityBefore, items));
  }

  lemma {:induction false} SortedMeansDense(s: seq<Item>)
    requires ProductsExact(multiset(s)) && Sorting.Sorted(DensityBefore, s)
    ensures DensitySorted(s)
  {
    forall a, b | 0 <= a < b < |s|
      ensures s[a].value * s[b].weight >= s[b].value * s[a].weight
    {
      assert s[a] in multiset(s) && s[b] in multiset(s);
      assert !DensityBefore(s[b], s[a]);
    }
  }

  // --------------------------------------------------------------------------
  // The search in its own form
  // --------------------------------------------------------------------------

  class RigidSearch {
    const items: seq<Item>
    const capacity: nat
    const budget: nat
    var nodes: nat
    var pruned: nat
    var exhausted: bool
    var bestValue: nat
    var bestCount: nat
    var bestPriority: nat
    var bestSelection: seq<nat>
    var current: seq<nat>

    constructor (items: seq<Item>, capacity: nat, budget: nat)
      ensures this.items == items && this.capacity == capacity && this.budget == budget
      ensures State() == START
    {
      this.items, this.capacity, this.budget := items, capacity, budget;
      nodes, pruned, exhausted := 0, 0, false;
      bestValue, bestCount, bestPriority, bestSelection, current := 0, 0, 0, [], [];
    }

    function State(): SearchState
      reads this
    {
      SearchState(nodes, pruned, exhausted, bestValue, bestCount, bestPriority, bestSelection, current)
    }

    method ConsiderCurrent(count: nat, priority: nat, value: nat)
      modifies this
      ensures State() == Consider(old(State()), count, priority, value)
    {
      var betterCount := count > bestCount;
      var betterPriority := count == bestCount && priority > bestPriority;
      var betterTie := count == bestCount && priority == bestPriority && LexLess(current, bestSelection);
      if !betterCount && !betterPriority && !betterTie { return; }
      bestCount, bestPriority, bestValue := count, priority, value;
      bestSelection := current;
    }

    // The fractional upper bound on the value obtainable from items[index..).
    method Bound(index: nat, room: nat) returns (total: nat)
      ensures total == BoundLoop(items, index, room, 0)
      ensures total == U64_MAX || total == FractionalBound(items, index, room)
    {
      hide FractionalBound;
      BoundLoopIsFractional(items, index, room, 0);
      var remaining: nat, i: nat := room, index;
      total := 0;
      while i < |items|
        invariant total <= U64_MAX
        invariant BoundLoop(items, i, remaining, total) == BoundLoop(items, index, room, 0)
      {
        var item := items[i];
        if item.weight <= remaining {
          remaining := remaining - item.weight;
          total := Saturating(CheckedAdd(total, item.value));
        } else {
          var scaled := CheckedMul(item.value, remaining);
          if scaled.None? { return U64_MAX; }
          total := Saturating(CheckedAdd(total, scaled.value / item.weight));
          return;
        }
        i := i + 1;
      }
    }

    method RunFrom(index: nat, remaining: nat, count: nat, priority: nat, value: nat)
      requires index <= |items|
      modifies this
      ensures State() == Run(items, budget, old(State()), index, remaining, count, priority, value)
      decreases |items| - index
    {
      hide BoundLoop, FractionalBound;
      if exhausted { return; }
      if nodes >= budget {
        exhausted := true;
        return;
      }
      nodes := nodes + 1;
      if index == |items| {
        ConsiderCurrent(count, priority, value);
        return;
      }
      if count + (|items| - index) < bestCount {
        pruned := pruned + 1;
        return;
      }
      var bound := Bound(index, remaining);
      if Saturating(CheckedAdd(value, bound)) < bestValue {
        pruned := pruned + 1;
        return;
      }
      var item := items[index];
      if item.weight <= remaining {
        current := current + [index];
        var nextCount := CheckedAdd(count, 1);
        var nextPriority := CheckedAdd(priority, item.priority);
        var nextValue := CheckedAdd(value, item.value);
        if nextCount.Some? && nextPriority.Some? && nextValue.Some? {
          RunFrom(index + 1, remaining - item.weight, nextCount.value, nextPriority.value, nextValue.value);
        } else {
          exhausted := true;
        }
        current := current[..|current| - 1];
      } else {
        pruned := pruned + 1;
      }
      RunFrom(index + 1, remaining, count, priority, value);
    }
  }
}
