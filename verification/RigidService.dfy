// What the exact search means for the rigid contracts of a request: the contracts it
// serves are the best sub-collection that fits.
module RigidService {
  import opened Core
  import opened Assessments
  import opened Allocator
  import opened Sorting
  import opened Sums
  import opened Subsets
  import Selections
  import BB = BranchAndBound

  function PriorityOf(a: Assessment): nat {
    a.contract.priority
  }

  function WeightOf(i: BB.Item): nat {
    i.weight
  }

  function ItemPriority(i: BB.Item): nat {
    i.priority
  }

  function ItemWith(big: nat): Assessment -> BB.Item {
    (a: Assessment) => ItemOf(a, big)
  }

  ghost function WasServed(served: set<nat>): Assessment -> bool {
    (a: Assessment) => a.contract.id in served
  }

  // The rigid contracts the search chose to serve.
  ghost function ServedOf(rigid: seq<Assessment>, items: seq<BB.Item>, sel: seq<nat>): seq<Assessment> {
    Filter(WasServed(ServedIds(items, sel)), rigid)
  }

  ghost predicate DistinctIds(s: seq<Assessment>) {
    forall i, j | 0 <= i < j < |s| :: s[i].contract.id != s[j].contract.id
  }

  // --------------------------------------------------------------------------
  // Positions in the item list and contracts in the request
  // --------------------------------------------------------------------------

  lemma {:induction false} ItemsDistinct(rigid: seq<Assessment>, big: nat)
    requires DistinctIds(rigid)
    ensures Distinct(Mapped(ItemWith(big), rigid))
  {
    hide DemandOf;
  }

  lemma {:induction false} ServedMembership(rigid: seq<Assessment>, big: nat, items: seq<BB.Item>, sel: seq<nat>,
                                            x: Assessment)
    requires DistinctIds(rigid) && multiset(items) == multiset(Mapped(ItemWith(big), rigid))
    requires Selections.Within(sel, 0, |items|) && x in rigid
    ensures x.contract.id in ServedIds(items, sel) <==> ItemOf(x, big) in Chosen(items, sel)
  {
    hide DemandOf;
    if x.contract.id in ServedIds(items, sel) {
      var i :| 0 <= i < |sel| && sel[i] < |items| && items[sel[i]].id == x.contract.id;
      SameElements(items, Mapped(ItemWith(big), rigid));
      assert items[sel[i]] in Mapped(ItemWith(big), rigid);
      var j :| 0 <= j < |rigid| && Mapped(ItemWith(big), rigid)[j] == items[sel[i]];
      assert rigid[j] == x;
      assert Chosen(items, sel)[i] == ItemOf(x, big);
    }
    if ItemOf(x, big) in Chosen(items, sel) {
      var i :| 0 <= i < |sel| && Chosen(items, sel)[i] == ItemOf(x, big);
      assert items[sel[i]].id == x.contract.id;
    }
  }

  lemma {:induction false} ServedItems(rigid: seq<Assessment>, big: nat, items: seq<BB.Item>, sel: seq<nat>)
    requires DistinctIds(rigid) && multiset(items) == multiset(Mapped(ItemWith(big), rigid))
    requires Selections.Within(sel, 0, |items|)
    ensures multiset(Mapped(ItemWith(big), ServedOf(rigid, items, sel))) == multiset(Chosen(items, sel))
  {
    hide ServedIds;
    var p := WasServed(ServedIds(items, sel));
    ItemsDistinct(rigid, big);
    ChosenIsSub(items, sel);
    var m := multiset(Chosen(items, sel));
    forall x | x in rigid ensures p(x) <==> ItemWith(big)(x) in m {
      ServedMembership(rigid, big, items, sel, x);
    }
    FilterRecovers(ItemWith(big), p, rigid, m);
  }

  lemma {:induction false} WeightsMapped(items: seq<BB.Item>)
    ensures BB.Weights(items) == Mapped(WeightOf, items)
    ensures BB.Priorities(items) == Mapped(ItemPriority, items)
  {
    assert forall i | 0 <= i < |items| :: BB.Weights(items)[i] == WeightOf(items[i]) == Mapped(WeightOf, items)[i];
    assert forall i | 0 <= i < |items| ::
      BB.Priorities(items)[i] == ItemPriority(items[i]) == Mapped(ItemPriority, items)[i];
  }

  // A list of contracts totals what its items total.
  lemma {:induction false} ItemTotals(s: seq<Assessment>, big: nat)
    ensures SumBy(WeightOf, Mapped(ItemWith(big), s)) == SumBy(DemandOf, s)
    ensures SumBy(ItemPriority, Mapped(ItemWith(big), s)) == SumBy(PriorityOf, s)
  {
    hide DemandOf;
    SumOfMapped(ItemWith(big), WeightOf, DemandOf, s);
    SumOfMapped(ItemWith(big), ItemPriority, PriorityOf, s);
  }

  lemma {:induction false} SelectionTotals(items: seq<BB.Item>, sel: seq<nat>, s: seq<Assessment>, big: nat)
    requires Selections.Within(sel, 0, |items|)
    requires multiset(Mapped(ItemWith(big), s)) == multiset(Chosen(items, sel))
    ensures |s| == |sel|
    ensures SumBy(DemandOf, s) == Selections.Sum(BB.Weights(items), sel)
    ensures SumBy(PriorityOf, s) == Selections.Sum(BB.Priorities(items), sel)
  {
    hide DemandOf, Selections.Sum, SumBy;
    WeightsMapped(items);
    SumOfChosen(WeightOf, items, sel);
    SumOfChosen(ItemPriority, items, sel);
    SumPermutes(WeightOf, Mapped(ItemWith(big), s), Chosen(items, sel));
    SumPermutes(ItemPriority, Mapped(ItemWith(big), s), Chosen(items, sel));
    SameElements(Mapped(ItemWith(big), s), Chosen(items, sel));
    ItemTotals(s, big);
  }

  // --------------------------------------------------------------------------
  // The priority scale
  // --------------------------------------------------------------------------

  lemma {:induction false} PriorityUpToMeaning(rigid: seq<Assessment>, n: nat)
    requires n <= |rigid|
    ensures PriorityUpTo(rigid, n) ==
      if SumBy(PriorityOf, rigid[..n]) <= U64_MAX then Some(SumBy(PriorityOf, rigid[..n])) else None
  {
    if n > 0 {
      PriorityUpToMeaning(rigid, n - 1);
      assert rigid[..n] == rigid[..n - 1] + [rigid[n - 1]];
      SumAppend(PriorityOf, rigid[..n - 1], [rigid[n - 1]]);
      assert SumBy(PriorityOf, [rigid[n - 1]]) == PriorityOf(rigid[n - 1]);
    }
  }

  lemma {:induction false} BigMeaning(rigid: seq<Assessment>)
    ensures Big(rigid) == if SumBy(PriorityOf, rigid) < U64_MAX then Some(SumBy(PriorityOf, rigid) + 1) else None
  {
    PriorityUpToMeaning(rigid, |rigid|);
    assert rigid[..|rigid|] == rigid;
  }

  lemma {:induction false} SumFromIsSum<T>(f: T -> nat, s: seq<T>, lo: nat)
    requires lo <= |s|
    ensures Selections.SumFrom(Mapped(f, s), lo) == SumBy(f, s[lo..])
    decreases |s| - lo
  {
    if lo < |s| {
      SumFromIsSum(f, s, lo + 1);
      assert s[lo..][1..] == s[lo + 1..];
    }
  }

  lemma {:induction false} ItemsEncode(rigid: seq<Assessment>, big: nat)
    requires big == SumBy(PriorityOf, rigid) + 1
    ensures BB.ValuesEncode(RigidItems(rigid, big), big)
    ensures multiset(RigidItems(rigid, big)) == multiset(Mapped(ItemWith(big), rigid))
  {
    hide DemandOf, SortBy;
    var items := RigidItems(rigid, big);
    assert RawItems(rigid, big) == Mapped(ItemWith(big), rigid);
    ItemTotals(rigid, big);
    SumPermutes(ItemPriority, items, RawItems(rigid, big));
    WeightsMapped(items);
    SumFromIsSum(ItemPriority, items, 0);
    assert items[0..] == items;
    SameElements(items, RawItems(rigid, big));
    forall i | 0 <= i < |items| ensures items[i].value == big + items[i].priority {
      assert items[i] in items;
    }
  }

  // --------------------------------------------------------------------------
  // Optimality over sub-collections
  // --------------------------------------------------------------------------

  // `best` is served together and no other choice serves more, nor as many with a
  // larger priority sum.
  ghost predicate BestService(best: seq<Assessment>, rigid: seq<Assessment>, capacity: nat) {
    && SubOf(best, rigid)
    && SumBy(DemandOf, best) <= capacity
    && forall other | SubOf(other, rigid) && SumBy(DemandOf, other) <= capacity ::
         NoBetter(other, best)
  }

  ghost predicate NoBetter(other: seq<Assessment>, best: seq<Assessment>) {
    |other| < |best| || (|other| == |best| && SumBy(PriorityOf, other) <= SumBy(PriorityOf, best))
  }

  // All comparisons of value density are exact.
  ghost predicate ExactDensities(rigid: seq<Assessment>, big: nat) {
    BB.ProductsExact(multiset(RawItems(rigid, big)))
  }

  lemma {:induction false} ItemsDense(rigid: seq<Assessment>, big: nat)
    requires DistinctIds(rigid) && big > 0 && ExactDensities(rigid, big)
    ensures BB.DensitySorted(RigidItems(rigid, big))
  {
    hide DemandOf, SortBy, BB.DensitySorted, BB.ProductsExact;
    var raw := RawItems(rigid, big);
    assert BB.Distinguished(multiset(raw)) by {
      forall a: BB.Item | a in multiset(raw) ensures a.value > 0 {
        assert a in raw;
      }
      forall a: BB.Item, b: BB.Item | a in multiset(raw) && b in multiset(raw) && a != b ensures a.id != b.id {
        assert a in raw && b in raw;
      }
    }
    BB.SortedByDensity(raw);
  }

  // Any other choice of contracts is a selection of positions, so the search beat it.
  lemma {:induction false} OtherChoice(rigid: seq<Assessment>, big: nat, items: seq<BB.Item>, capacity: nat,
                                       other: seq<Assessment>)
    returns (sel: seq<nat>)
    requires multiset(items) == multiset(Mapped(ItemWith(big), rigid))
    requires SubOf(other, rigid) && SumBy(DemandOf, other) <= capacity
    ensures BB.Fits(items, capacity, sel)
    ensures |sel| == |other| && Selections.Sum(BB.Priorities(items), sel) == SumBy(PriorityOf, other)
  {
    hide DemandOf, Selections.Sum, SumBy;
    MappedSub(ItemWith(big), other, rigid);
    sel := Realise(items, multiset(Mapped(ItemWith(big), other)));
    SelectionTotals(items, sel, other, big);
  }

  lemma {:induction false} ServedIsSub(rigid: seq<Assessment>, items: seq<BB.Item>, sel: seq<nat>)
    ensures SubOf(ServedOf(rigid, items, sel), rigid)
  {
    FilterIsSub(WasServed(ServedIds(items, sel)), rigid);
  }

  lemma {:induction false} SearchServesBest(rigid: seq<Assessment>, big: nat, capacity: nat, budget: nat)
    requires DistinctIds(rigid) && big == SumBy(PriorityOf, rigid) + 1
    ensures var items := RigidItems(rigid, big);
      var search := BB.Search(items, capacity, budget);
      && BB.Honest(items, capacity, budget, search)
      && |ServedOf(rigid, items, search.bestSelection)| == |search.bestSelection|
      && SumBy(DemandOf, ServedOf(rigid, items, search.bestSelection))
         == Selections.Sum(BB.Weights(items), search.bestSelection) <= capacity
      && (ExactDensities(rigid, big) && !search.exhausted ==>
            BestService(ServedOf(rigid, items, search.bestSelection), rigid, capacity))
  {
    hide DemandOf, Selections.Sum, SumBy, BB.Run, BB.Search, RigidItems, ServedOf, BB.ValuesEncode, ExactDensities;
    var items := RigidItems(rigid, big);
    var search := BB.Search(items, capacity, budget);
    var best := ServedOf(rigid, items, search.bestSelection);
    ItemsEncode(rigid, big);
    BB.SearchIsHonest(items, capacity, budget);
    ServedItems(rigid, big, items, search.bestSelection);
    SelectionTotals(items, search.bestSelection, best, big);
    ServedIsSub(rigid, items, search.bestSelection);
    if ExactDensities(rigid, big) && !search.exhausted {
      ItemsDense(rigid, big);
      BB.SearchIsOptimal(items, big, capacity, budget);
      forall other | SubOf(other, rigid) && SumBy(DemandOf, other) <= capacity ensures NoBetter(other, best) {
        var sel := OtherChoice(rigid, big, items, capacity, other);
      }
    }
  }
}
