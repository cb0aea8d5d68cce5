// How many rigid contracts the density comparator of src/engine/allocator.cpp can order.
//
// It compares by cross multiplication and falls back on a tie-break when a product does
// not fit 64 bits. Within the contract limits that never happens up to 18,445 contracts;
// for every larger number there is a scope on which the comparator runs in a circle.
module DensityOrder {
  import opened Core
  import opened BranchAndBound
  import opened Sorting
  import opened Sums

  const MAX_BANDWIDTH: nat := 1_000_000_000
  const MAX_PRIORITY: nat := 1_000_000
  const MAX_EXACT_ITEMS: nat := 18_445

  function PriorityOfItem(item: Item): nat { item.priority }

  // The items a scope's rigid contracts give rise to, within the limits on a contract.
  ghost predicate FromScope(items: seq<Item>) {
    && (forall i | 0 <= i < |items| ::
          (&& items[i].weight <= MAX_BANDWIDTH && items[i].priority <= MAX_PRIORITY
           && items[i].value == 1 + SumBy(PriorityOfItem, items) + items[i].priority))
    && (forall i, j | 0 <= i < j < |items| :: items[i].id != items[j].id)
  }

  // --------------------------------------------------------------------------
  // Up to the limit
  // --------------------------------------------------------------------------

  lemma {:induction false} SumWithin(items: seq<Item>)
    requires forall i | 0 <= i < |items| :: items[i].priority <= MAX_PRIORITY
    ensures SumBy(PriorityOfItem, items) <= |items| * MAX_PRIORITY
  {
    if items != [] {
      assert forall i | 0 <= i < |items[1..]| :: items[1..][i] == items[i + 1];
      SumWithin(items[1..]);
    }
  }

  lemma {:induction false} ProductMonotone(a: nat, a': nat, b: nat, b': nat)
    requires a <= a' && b <= b'
    ensures a * b <= a' * b'
  {
    assert a * b <= a' * b <= a' * b';
  }

  lemma {:induction false} LimitsKeepProductsExact(items: seq<Item>)
    requires FromScope(items) && |items| <= MAX_EXACT_ITEMS
    ensures ProductsExact(multiset(items))
  {
    hide SumBy;
    SumWithin(items);
    forall a, b | a in multiset(items) && b in multiset(items) ensures a.value * b.weight <= U64_MAX {
      assert a in items && b in items;
      ProductMonotone(a.value, 1 + 18_446 * MAX_PRIORITY, b.weight, MAX_BANDWIDTH);
    }
  }

  lemma {:induction false} ScopeIsDistinguished(items: seq<Item>)
    requires FromScope(items)
    ensures Distinguished(multiset(items))
  {
    hide SumBy;
    forall a | a in multiset(items) ensures a.value > 0 { assert a in items; }
    forall a, b | a in multiset(items) && b in multiset(items) && a != b ensures a.id != b.id {
      assert a in items && b in items;
      var i :| 0 <= i < |items| && items[i] == a;
      var j :| 0 <= j < |items| && items[j] == b;
      assert i < j || j < i;
    }
  }

  // --------------------------------------------------------------------------
  // Past the limit
  // --------------------------------------------------------------------------

  const BIG: nat := 18_445_999_921

  // Two light items and a heavier, more valuable one; then full priority as far as it is
  // needed, and none after that.
  function WeightAt(k: nat): nat {
    if k == 0 then 999_986_131 else if k == 1 then 999_986_130 else if k == 2 then 999_986_132 else 1
  }

  function PriorityAt(k: nat): nat {
    if k <= 1 then 999_960 else if k <= 18_445 then 1_000_000 else 0
  }

  function ItemAt(k: nat): Item {
    Item(k, WeightAt(k), PriorityAt(k), BIG + PriorityAt(k))
  }

  function Circle(n: nat): seq<Item> {
    seq(n, k requires 0 <= k < n => ItemAt(k))
  }

  lemma {:induction false} CircleSum(n: nat)
    ensures n <= 2 ==> SumBy(PriorityOfItem, Circle(n)) == n * 999_960
    ensures 2 <= n <= 18_446 ==> SumBy(PriorityOfItem, Circle(n)) == 1_999_920 + (n - 2) * 1_000_000
    ensures n >= 18_446 ==> SumBy(PriorityOfItem, Circle(n)) == BIG - 1
    decreases n
  {
    if n > 0 {
      CircleSum(n - 1);
      var last := ItemAt(n - 1);
      assert Circle(n) == Circle(n - 1) + [last];
      SumAppend(PriorityOfItem, Circle(n - 1), [last]);
      assert [last][1..] == [];
      assert SumBy(PriorityOfItem, [last]) == last.priority;
    }
  }

  lemma {:induction false} CircleIsAScope(n: nat)
    requires n > MAX_EXACT_ITEMS
    ensures FromScope(Circle(n))
  {
    hide SumBy;
    CircleSum(n);
  }

  // Each of the three comes before the next: a before c, c before b, b before a.
  lemma {:induction false} RunsInACircle()
    ensures DensityBefore(ItemAt(0), ItemAt(2)) && DensityBefore(ItemAt(2), ItemAt(1))
    ensures DensityBefore(ItemAt(1), ItemAt(0))
  {
  }

  lemma {:induction false} CircleIsNotTotal(n: nat)
    requires n > MAX_EXACT_ITEMS
    ensures !StrictTotal(DensityBefore, multiset(Circle(n)))
  {
    hide DensityBefore;
    RunsInACircle();
    var items := Circle(n);
    assert items[0] == ItemAt(0) && items[1] == ItemAt(1) && items[2] == ItemAt(2);
    assert items[0] in multiset(items) && items[1] in multiset(items) && items[2] in multiset(items);
    NoCircle(DensityBefore, multiset(items), ItemAt(0), ItemAt(2), ItemAt(1));
  }

  lemma {:induction false} NoCircle<T(!new)>(less: (T, T) -> bool, m: multiset<T>, x: T, y: T, z: T)
    requires x in m && y in m && z in m && less(x, y) && less(y, z) && less(z, x)
    ensures !StrictTotal(less, m)
  {
  }

  // The comparator totally orders every scope of n rigid contracts if and only if n is at
  // most 18,445.
  lemma {:induction false} ComparableIff(n: nat)
    ensures (forall items | FromScope(items) && |items| == n :: StrictTotal(DensityBefore, multiset(items))) <==>
      n <= MAX_EXACT_ITEMS
  {
    hide FromScope, DensityBefore, StrictTotal, ProductsExact, Distinguished;
    if n <= MAX_EXACT_ITEMS {
      forall items | FromScope(items) && |items| == n ensures StrictTotal(DensityBefore, multiset(items)) {
        LimitsKeepProductsExact(items);
        ScopeIsDistinguished(items);
        DensityOrderIsTotal(multiset(items));
      }
    } else {
      CircleIsAScope(n);
      CircleIsNotTotal(n);
      assert |Circle(n)| == n;
    }
  }
}
