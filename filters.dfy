/** The functional filter library: `filter_items`, `compose_predicates` and the five
    predicate constructors. */
module Filters {
  import opened Foods
  import opened Seqs

  type Predicate = Food -> bool

  /** `all(predicate(item) for predicate in predicates)`. */
  predicate AllHold(preds: seq<Predicate>, f: Food) {
    forall i :: 0 <= i < |preds| ==> preds[i](f)
  }

  /** `filter_items(items, *preds)`: the items every predicate accepts, in input order. */
  function FilterItems(items: seq<Food>, preds: seq<Predicate>): (r: seq<Food>)
    ensures |r| <= |items|
    ensures forall x :: x in r ==> x in items && AllHold(preds, x)
    decreases |items|
  {
    if items == [] then []
    else
      var last := items[|items| - 1];
      FilterItems(items[..|items| - 1], preds) + (if AllHold(preds, last) then [last] else [])
  }

  /** `compose_predicates(*preds)`: the "all of" combinator. */
  function ComposePredicates(preds: seq<Predicate>): Predicate {
    (f: Food) => AllHold(preds, f)
  }

  function ByMealTime(slot: string): Predicate { (f: Food) => slot in f.mealTimes }

  function ByTag(tag: string): Predicate { (f: Food) => tag in f.tags }

  function NotTag(tag: string): Predicate { (f: Food) => tag !in f.tags }

  function MaxNutrient(nutrient: string, value: real): Predicate {
    (f: Food) => NutrientValue(f, nutrient) <= value
  }

  function MinNutrient(nutrient: string, value: real): Predicate {
    (f: Food) => NutrientValue(f, nutrient) >= value
  }

  lemma AllHoldSingle(p: Predicate, f: Food)
    ensures AllHold([p], f) == p(f)
  {
    assert [p][0] == p;
  }

  /** The filter keeps the input order: its result is a subsequence of the items. */
  lemma {:induction false} FilterIsSubsequence(items: seq<Food>, preds: seq<Predicate>)
    ensures IsSubsequence(FilterItems(items, preds), items)
    decreases |items|
  {
    if items != [] {
      var init := items[..|items| - 1];
      var last := items[|items| - 1];
      assert items == init + [last];
      FilterIsSubsequence(init, preds);
      if AllHold(preds, last) {
        SubsequenceAppendBoth(FilterItems(init, preds), init, last);
      } else {
        assert FilterItems(items, preds) == FilterItems(init, preds);
        SubsequenceExtend(FilterItems(init, preds), init, last);
        assert init + [last] == items;
      }
    }
  }

  /** The filter keeps every occurrence of an accepted item and none of a rejected one. */
  lemma {:induction false} FilterCount(items: seq<Food>, preds: seq<Predicate>, x: Food)
    ensures multiset(FilterItems(items, preds))[x] == if AllHold(preds, x) then multiset(items)[x] else 0
    decreases |items|
  {
    if items != [] {
      var init := items[..|items| - 1];
      var last := items[|items| - 1];
      assert items == init + [last];
      FilterCount(init, preds, x);
    }
  }

  /** Both directions of membership. */
  lemma FilterMembership(items: seq<Food>, preds: seq<Predicate>, x: Food)
    ensures x in FilterItems(items, preds) <==> x in items && AllHold(preds, x)
  {
    FilterCount(items, preds, x);
    assert x in items <==> multiset(items)[x] > 0;
    assert x in FilterItems(items, preds) <==> multiset(FilterItems(items, preds))[x] > 0;
  }

  /** With no predicates every item passes. */
  lemma {:induction false} FilterWithoutPredicates(items: seq<Food>)
    ensures FilterItems(items, []) == items
    decreases |items|
  {
    if items != [] {
      FilterWithoutPredicates(items[..|items| - 1]);
      assert items == items[..|items| - 1] + [items[|items| - 1]];
    }
  }

  /** Filtering by the composed predicate is filtering by all of its parts. */
  lemma {:induction false} ComposeAgreesWithFilter(items: seq<Food>, preds: seq<Predicate>)
    ensures FilterItems(items, [ComposePredicates(preds)]) == FilterItems(items, preds)
    decreases |items|
  {
    if items != [] {
      var last := items[|items| - 1];
      ComposeAgreesWithFilter(items[..|items| - 1], preds);
      AllHoldSingle(ComposePredicates(preds), last);
    }
  }

  /** A slot filter keeps exactly the items eligible for that slot. */
  lemma FilterByMealTime(items: seq<Food>, slot: string)
    ensures forall x :: x in FilterItems(items, [ByMealTime(slot)]) <==> x in items && slot in x.mealTimes
  {
    forall x ensures x in FilterItems(items, [ByMealTime(slot)]) <==> x in items && slot in x.mealTimes {
      FilterMembership(items, [ByMealTime(slot)], x);
      AllHoldSingle(ByMealTime(slot), x);
    }
  }

  /** `by_tag(t)` and `not_tag(t)` split the items between them. */
  lemma {:induction false} TagFiltersPartition(items: seq<Food>, tag: string)
    ensures |FilterItems(items, [ByTag(tag)])| + |FilterItems(items, [NotTag(tag)])| == |items|
    decreases |items|
  {
    if items != [] {
      var last := items[|items| - 1];
      TagFiltersPartition(items[..|items| - 1], tag);
      AllHoldSingle(ByTag(tag), last);
      AllHoldSingle(NotTag(tag), last);
    }
  }

  /** A minimum and a maximum on one nutrient keep exactly the items in that range. */
  lemma FilterNutrientRange(items: seq<Food>, nutrient: string, lo: real, hi: real)
    ensures forall x :: x in FilterItems(items, [MinNutrient(nutrient, lo), MaxNutrient(nutrient, hi)])
                        <==> x in items && lo <= NutrientValue(x, nutrient) <= hi
  {
    var ps := [MinNutrient(nutrient, lo), MaxNutrient(nutrient, hi)];
    forall x ensures x in FilterItems(items, ps) <==> x in items && lo <= NutrientValue(x, nutrient) <= hi {
      FilterMembership(items, ps, x);
      assert AllHold(ps, x) == (ps[0](x) && ps[1](x));
    }
  }
}
