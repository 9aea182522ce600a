/** The greedy selector `MealOptimizer.knapsack_optimize`: score every food, stable-sort by
    descending score, then accept candidates while no bounded nutrient would pass its maximum. */
module Selector {
  import opened Wrappers
  import opened Foods
  import opened Constraints
  import opened Seqs
  import opened Scoring
  import opened Ranking

  /** The per-limit test on the hypothetical totals: the nutrient must be a key of the
      totals, and its value is either below a present minimum (which skips the maximum
      check) or not above the maximum. */
  predicate LimitPasses(t: NutrientTotals, limit: (string, Bound)) {
    && t.Get(limit.0).Some?
    && var val := t.Get(limit.0).value;
       (limit.1.min.Some? && val < limit.1.min.value) || limit.1.max.None? || val <= limit.1.max.value
  }

  predicate AllLimitsPass(t: NutrientTotals, limits: seq<(string, Bound)>) {
    forall k :: 0 <= k < |limits| ==> LimitPasses(t, limits[k])
  }

  /** The limit loop for one candidate: `Ok(within_limits)`, or the KeyError raised on a
      limited name that is not one of the four nutrients. */
  function Within(t: NutrientTotals, limits: seq<(string, Bound)>): Result<bool, PlanError>
    decreases |limits|
  {
    if limits == [] then Ok(true)
    else
      var nutrient := limits[0].0;
      var bound := limits[0].1;
      match t.Get(nutrient)
      case None => Err(UnknownNutrient(nutrient))
      case Some(val) =>
        if bound.min.Some? && val < bound.min.value then Within(t, limits[1..])
        else if bound.max.Some? && val > bound.max.value then Ok(false)
        else Within(t, limits[1..])
  }

  /** The limit loop of `knapsack_optimize`. */
  method CheckLimits(temp: NutrientTotals, limits: seq<(string, Bound)>) returns (r: Result<bool, PlanError>)
    ensures r == Within(temp, limits)
  {
    var withinLimits := true;
    var k := 0;
    while k < |limits|
      invariant 0 <= k <= |limits|
      invariant Within(temp, limits) == Within(temp, limits[k..])
    {
      var nutrient := limits[k].0;
      var bound := limits[k].1;
      assert limits[k..][1..] == limits[k + 1..];
      var found := temp.Get(nutrient);
      if found.None? {
        return Err(UnknownNutrient(nutrient));
      }
      var val := found.value;
      if bound.min.Some? && val < bound.min.value {
        k := k + 1;
        continue;
      }
      if bound.max.Some? && val > bound.max.value {
        withinLimits := false;
        break;
      }
      k := k + 1;
    }
    return Ok(withinLimits);
  }

  /** A candidate passes exactly when every limit passes; it is refused only for a
      maximum that would be exceeded; the only error is an unknown limited name. */
  lemma {:induction false} WithinSpec(t: NutrientTotals, limits: seq<(string, Bound)>)
    ensures Within(t, limits) == Ok(true) <==> AllLimitsPass(t, limits)
    ensures Within(t, limits) == Ok(false) ==>
      exists k :: 0 <= k < |limits| && t.Get(limits[k].0).Some? && limits[k].1.max.Some?
                  && t.Get(limits[k].0).value > limits[k].1.max.value
    ensures Within(t, limits).Err? ==>
      exists k :: 0 <= k < |limits| && limits[k].0 !in Nutrients
                  && Within(t, limits).error == UnknownNutrient(limits[k].0)
    decreases |limits|
  {
    if limits != [] {
      WithinSpec(t, limits[1..]);
      assert forall k :: 1 <= k < |limits| ==> limits[k] == limits[1..][k - 1];
      if Within(t, limits) == Ok(true) && t.Get(limits[0].0).Some? {
        assert LimitPasses(t, limits[0]);
      }
      if AllLimitsPass(t, limits) {
        assert LimitPasses(t, limits[0]);
        assert AllLimitsPass(t, limits[1..]) by {
          forall k | 0 <= k < |limits[1..]| ensures LimitPasses(t, limits[1..][k]) {
            assert limits[1..][k] == limits[k + 1];
          }
        }
      }
    }
  }

  /** `(score, food)` for every food, in catalog order. */
  function ScoreAll(foods: seq<Food>, targets: map<string, real>, weights: map<string, real>): (s: seq<Scored>)
    ensures |s| == |foods|
    ensures forall i :: 0 <= i < |foods| ==> s[i] == Scored(Score(foods[i], targets, weights), foods[i])
  {
    seq(|foods|, i requires 0 <= i < |foods| => Scored(Score(foods[i], targets, weights), foods[i]))
  }

  /** Scoring keeps the catalog: the foods of the pairs are the input foods, in order, and
      every food carries the score the formula gives it. */
  lemma ScoreAllKeepsFoods(foods: seq<Food>, targets: map<string, real>, weights: map<string, real>)
    ensures FoodsOf(ScoreAll(foods, targets, weights)) == foods
    ensures forall x :: x in ScoreAll(foods, targets, weights) ==> x.score == Score(x.food, targets, weights)
  {
  }

  /** The candidate order: scored foods stable-sorted by descending score. */
  function Ranked(foods: seq<Food>, targets: map<string, real>, weights: map<string, real>): seq<Scored> {
    SortByScore(ScoreAll(foods, targets, weights))
  }

  /** The acceptance loop from some point on, with the running totals and the foods accepted
      so far. */
  function Select(ranked: seq<Scored>, limits: seq<(string, Bound)>, maxItems: int,
                  current: NutrientTotals, selected: seq<Food>): Result<seq<Food>, PlanError>
    decreases |ranked|
  {
    if ranked == [] || |selected| >= maxItems then Ok(selected)
    else
      var temp := current.Add(ranked[0].food);
      match Within(temp, limits)
      case Err(e) => Err(e)
      case Ok(true) => Select(ranked[1..], limits, maxItems, temp, selected + [ranked[0].food])
      case Ok(false) => Select(ranked[1..], limits, maxItems, current, selected)
  }

  /** What `knapsack_optimize(foods, targets, limits, weights, max_items)` returns or raises. */
  function Knapsack(foods: seq<Food>, targets: map<string, real>, limits: seq<(string, Bound)>,
                    weights: map<string, real>, maxItems: int): Result<seq<Food>, PlanError>
  {
    if |targets| == 0 || |foods| == 0 then Ok([])
    else Select(Ranked(foods, targets, weights), limits, maxItems, Zero, [])
  }

  method KnapsackOptimize(foods: seq<Food>, targets: map<string, real>, limits: seq<(string, Bound)>,
                          weights: map<string, real>, maxItems: int) returns (r: Result<seq<Food>, PlanError>)
    ensures r == Knapsack(foods, targets, limits, weights, maxItems)
  {
    if |targets| == 0 || |foods| == 0 {
      return Ok([]);
    }
    var itemScores: seq<Scored> := [];
    for i := 0 to |foods|
      invariant |itemScores| == i
      invariant forall j :: 0 <= j < i ==> itemScores[j] == Scored(Score(foods[j], targets, weights), foods[j])
    {
      var score := ScoreFood(foods[i], targets, weights);
      itemScores := itemScores + [Scored(score, foods[i])];
    }
    assert itemScores == ScoreAll(foods, targets, weights);
    itemScores := SortByScore(itemScores);

    var selected: seq<Food> := [];
    var currentTotals := Zero;
    var i := 0;
    while i < |itemScores|
      invariant 0 <= i <= |itemScores|
      invariant Knapsack(foods, targets, limits, weights, maxItems)
                == Select(itemScores[i..], limits, maxItems, currentTotals, selected)
    {
      if |selected| >= maxItems {
        break;
      }
      var food := itemScores[i].food;
      var tempTotals := currentTotals.Add(food);
      var withinLimits :- CheckLimits(tempTotals, limits);
      assert itemScores[i..][1..] == itemScores[i + 1..];
      if withinLimits {
        selected := selected + [food];
        currentTotals := tempTotals;
      }
      i := i + 1;
    }
    return Ok(selected);
  }

  /** Every accepted prefix of `sel` passed the limit check when its last food was accepted. */
  predicate AcceptedWithinLimits(sel: seq<Food>, limits: seq<(string, Bound)>) {
    forall k :: 1 <= k <= |sel| ==> AllLimitsPass(SumTotals(sel[..k]), limits)
  }

  lemma {:induction false} SelectSpec(ranked: seq<Scored>, limits: seq<(string, Bound)>, maxItems: int,
                                      current: NutrientTotals, selected: seq<Food>, done: seq<Food>)
    requires current == SumTotals(selected)
    requires IsSubsequence(selected, done)
    requires AcceptedWithinLimits(selected, limits)
    requires |selected| <= Max(maxItems, 0)
    ensures var r := Select(ranked, limits, maxItems, current, selected);
      r.Ok? ==> (&& IsSubsequence(r.value, done + FoodsOf(ranked))
                 && AcceptedWithinLimits(r.value, limits)
                 && |r.value| <= Max(maxItems, 0))
    decreases |ranked|
  {
    if ranked == [] || |selected| >= maxItems {
      SubsequenceExtendMany(selected, done, FoodsOf(ranked));
    } else {
      var x := ranked[0].food;
      var temp := current.Add(x);
      assert done + FoodsOf(ranked) == (done + [x]) + FoodsOf(ranked[1..]);
      WithinSpec(temp, limits);
      match Within(temp, limits)
      case Err(e) =>
      case Ok(true) =>
        SubsequenceAppendBoth(selected, done, x);
        AcceptedExtend(selected, x, limits);
        SelectSpec(ranked[1..], limits, maxItems, temp, selected + [x], done + [x]);
      case Ok(false) =>
        SubsequenceExtend(selected, done, x);
        SelectSpec(ranked[1..], limits, maxItems, current, selected, done + [x]);
    }
  }

  /** What the acceptance loop does with one more candidate after selecting `sel`: nothing
      once `sel` is full, otherwise whatever the limit check on the totals with `x` says. */
  function Consider(sel: seq<Food>, x: Food, limits: seq<(string, Bound)>, maxItems: int): Result<seq<Food>, PlanError> {
    if |sel| >= maxItems then Ok(sel)
    else match Within(SumTotals(sel).Add(x), limits)
      case Err(e) => Err(e)
      case Ok(true) => Ok(sel + [x])
      case Ok(false) => Ok(sel)
  }

  lemma SumTotalsSnoc(sel: seq<Food>, x: Food)
    ensures SumTotals(sel + [x]) == SumTotals(sel).Add(x)
  {
    assert (sel + [x])[..|sel|] == sel;
  }

  /** Running the loop over one more candidate is running it over the shorter list and then
      considering that candidate. */
  lemma {:induction false} SelectSnoc(r: seq<Scored>, x: Scored, limits: seq<(string, Bound)>, maxItems: int,
                                      current: NutrientTotals, selected: seq<Food>)
    requires current == SumTotals(selected)
    ensures Select(r + [x], limits, maxItems, current, selected) ==
      match Select(r, limits, maxItems, current, selected)
      case Err(e) => Err(e)
      case Ok(sel) => Consider(sel, x.food, limits, maxItems)
    decreases |r|
  {
    if r == [] {
      assert r + [x] == [x] && [x][1..] == [];
    } else {
      assert (r + [x])[0] == r[0] && (r + [x])[1..] == r[1..] + [x];
      if |selected| < maxItems {
        var f := r[0].food;
        var temp := current.Add(f);
        match Within(temp, limits)
        case Err(e) =>
        case Ok(true) =>
          SumTotalsSnoc(selected, f);
          SelectSnoc(r[1..], x, limits, maxItems, temp, selected + [f]);
        case Ok(false) =>
          SelectSnoc(r[1..], x, limits, maxItems, current, selected);
      }
    }
  }

  /** The acceptance rule over the whole ranking, one candidate at a time. After the first
      `k` candidates, candidate `k` is appended exactly when the selection is not yet full
      and the limit check on the totals with it added passes. A full selection and an
      earlier error stay as they are. A refused candidate leaves the selection unchanged and
      then pushes some bounded nutrient over its maximum. An unknown limited name is the
      error. The loop over the whole ranking is the loop over its full-length prefix. */
  lemma SelectPrefixStep(ranked: seq<Scored>, limits: seq<(string, Bound)>, maxItems: int, k: nat)
    requires k < |ranked|
    ensures var prev := Select(ranked[..k], limits, maxItems, Zero, []);
      var next := Select(ranked[..k + 1], limits, maxItems, Zero, []);
      var x := ranked[k].food;
      && (prev.Err? ==> next == prev)
      && (prev.Ok? && |prev.value| >= maxItems ==> next == prev)
      && (prev.Ok? && |prev.value| < maxItems ==>
            var t := SumTotals(prev.value).Add(x);
            && (next == Ok(prev.value + [x]) <==> Within(t, limits) == Ok(true))
            && (Within(t, limits) == Ok(false) ==>
                  && next == prev
                  && exists j :: 0 <= j < |limits| && t.Get(limits[j].0).Some? && limits[j].1.max.Some?
                                 && t.Get(limits[j].0).value > limits[j].1.max.value)
            && (Within(t, limits).Err? ==> next == Err(Within(t, limits).error)))
    ensures Select(ranked[..|ranked|], limits, maxItems, Zero, []) == Select(ranked, limits, maxItems, Zero, [])
  {
    var pre := ranked[..k];
    assert ranked[..k + 1] == pre + [ranked[k]];
    SelectSnoc(pre, ranked[k], limits, maxItems, Zero, []);
    var prev := Select(pre, limits, maxItems, Zero, []);
    if prev.Ok? && |prev.value| < maxItems {
      WithinSpec(SumTotals(prev.value).Add(ranked[k].food), limits);
    }
    assert ranked[..|ranked|] == ranked;
  }

  /** A food accepted on passing totals extends the accepted prefixes. */
  lemma AcceptedExtend(selected: seq<Food>, x: Food, limits: seq<(string, Bound)>)
    requires AcceptedWithinLimits(selected, limits)
    requires AllLimitsPass(SumTotals(selected).Add(x), limits)
    ensures AcceptedWithinLimits(selected + [x], limits)
  {
    var sel' := selected + [x];
    assert sel'[..|sel'|] == sel' && sel'[..|selected|] == selected;
    forall k | 1 <= k <= |sel'| ensures AllLimitsPass(SumTotals(sel'[..k]), limits) {
      if k <= |selected| {
        assert sel'[..k] == selected[..k];
      }
    }
  }

  /** `knapsack_optimize` returns [] for empty targets or foods; otherwise at most
      `max_items` foods, a subsequence of the ranking, each accepted only while every
      limit passed on the running totals. */
  lemma KnapsackSpec(foods: seq<Food>, targets: map<string, real>, limits: seq<(string, Bound)>,
                     weights: map<string, real>, maxItems: int)
    ensures (|targets| == 0 || |foods| == 0) ==> Knapsack(foods, targets, limits, weights, maxItems) == Ok([])
    ensures var r := Knapsack(foods, targets, limits, weights, maxItems);
      r.Ok? ==> (&& |r.value| <= Max(maxItems, 0)
                 && IsSubsequence(r.value, FoodsOf(Ranked(foods, targets, weights)))
                 && AcceptedWithinLimits(r.value, limits))
  {
    if |targets| == 0 || |foods| == 0 {
      SubsequenceExtendMany([], [], FoodsOf(Ranked(foods, targets, weights)));
    } else {
      var ranked := Ranked(foods, targets, weights);
      SelectSpec(ranked, limits, maxItems, Zero, [], []);
      assert [] + FoodsOf(ranked) == FoodsOf(ranked);
    }
  }

  /** For every limit with a maximum and no larger minimum, the running totals never exceed
      that maximum at any acceptance. */
  lemma KnapsackStaysUnderMaxima(foods: seq<Food>, targets: map<string, real>, limits: seq<(string, Bound)>,
                                 weights: map<string, real>, maxItems: int)
    ensures var r := Knapsack(foods, targets, limits, weights, maxItems);
      r.Ok? ==> forall k, j :: 1 <= k <= |r.value| && 0 <= j < |limits|
                  && limits[j].1.max.Some? && (limits[j].1.min.None? || limits[j].1.min.value <= limits[j].1.max.value)
                  ==> (&& SumTotals(r.value[..k]).Get(limits[j].0).Some?
                       && SumTotals(r.value[..k]).Get(limits[j].0).value <= limits[j].1.max.value)
  {
    KnapsackSpec(foods, targets, limits, weights, maxItems);
  }

  /** Every selected food comes from the input foods. */
  lemma KnapsackFromFoods(foods: seq<Food>, targets: map<string, real>, limits: seq<(string, Bound)>,
                          weights: map<string, real>, maxItems: int)
    ensures var r := Knapsack(foods, targets, limits, weights, maxItems);
      r.Ok? ==> forall x :: x in r.value ==> x in foods
  {
    KnapsackSpec(foods, targets, limits, weights, maxItems);
    var r := Knapsack(foods, targets, limits, weights, maxItems);
    if r.Ok? && |targets| > 0 && |foods| > 0 {
      var ranked := Ranked(foods, targets, weights);
      SubsequenceMultiset(r.value, FoodsOf(ranked));
      forall x | x in r.value ensures x in foods {
        assert x in multiset(r.value);
        RankedFromFoods(foods, targets, weights, x);
      }
    }
  }

  /** The ranking holds only input foods. */
  lemma RankedFromFoods(foods: seq<Food>, targets: map<string, real>, weights: map<string, real>, x: Food)
    requires x in multiset(FoodsOf(Ranked(foods, targets, weights)))
    ensures x in foods
  {
    var scored := ScoreAll(foods, targets, weights);
    var ranked := SortByScore(scored);
    SortByScoreSpec(scored);
    var i :| 0 <= i < |ranked| && FoodsOf(ranked)[i] == x;
    assert ranked[i] in multiset(scored);
    var m :| 0 <= m < |scored| && scored[m] == ranked[i];
    assert foods[m] == x;
  }

  /** `s[:n]` for a non-negative count, `[]` for a negative one. */
  function FirstN<T>(s: seq<T>, n: int): seq<T> {
    if n <= 0 then [] else if n >= |s| then s else s[..n]
  }

  /** With every limited name known and no maximum, every candidate passes. */
  lemma PassesWithoutMaxima(t: NutrientTotals, limits: seq<(string, Bound)>)
    requires forall j :: 0 <= j < |limits| ==> limits[j].0 in Nutrients && limits[j].1.max.None?
    ensures Within(t, limits) == Ok(true)
  {
    WithinSpec(t, limits);
    forall k | 0 <= k < |limits| ensures LimitPasses(t, limits[k]) {
      TotalsNames(t, limits[k].0);
    }
  }

  /** The totals have exactly the four nutrients as keys. */
  lemma TotalsNames(t: NutrientTotals, name: string)
    ensures t.Get(name).Some? <==> name in Nutrients
  {
  }

  lemma FirstNCons<T>(s: seq<T>, n: int)
    requires s != [] && n > 0
    ensures FirstN(s, n) == [s[0]] + FirstN(s[1..], n - 1)
  {
    if n < |s| {
      assert s[..n] == [s[0]] + s[1..][..n - 1];
    }
  }

  /** With no maxima the next candidate is accepted while there is room. */
  lemma AcceptWithoutMaxima(ranked: seq<Scored>, limits: seq<(string, Bound)>, maxItems: int,
                            current: NutrientTotals, selected: seq<Food>)
    requires ranked != [] && |selected| < maxItems
    requires forall j :: 0 <= j < |limits| ==> limits[j].0 in Nutrients && limits[j].1.max.None?
    ensures Select(ranked, limits, maxItems, current, selected)
            == Select(ranked[1..], limits, maxItems, current.Add(ranked[0].food), selected + [ranked[0].food])
  {
    PassesWithoutMaxima(current.Add(ranked[0].food), limits);
  }

  lemma {:induction false} SelectWithoutUpperBounds(ranked: seq<Scored>, limits: seq<(string, Bound)>, maxItems: int,
                                                    current: NutrientTotals, selected: seq<Food>)
    requires forall j :: 0 <= j < |limits| ==> limits[j].0 in Nutrients && limits[j].1.max.None?
    ensures Select(ranked, limits, maxItems, current, selected)
            == Ok(selected + FirstN(FoodsOf(ranked), maxItems - |selected|))
    decreases |ranked|
  {
    if ranked == [] || |selected| >= maxItems {
      assert selected + FirstN(FoodsOf(ranked), maxItems - |selected|) == selected;
    } else {
      var x := ranked[0].food;
      var temp := current.Add(x);
      AcceptWithoutMaxima(ranked, limits, maxItems, current, selected);
      SelectWithoutUpperBounds(ranked[1..], limits, maxItems, temp, selected + [x]);
      var n := maxItems - |selected|;
      var fs := FoodsOf(ranked);
      assert fs[0] == x && fs[1..] == FoodsOf(ranked[1..]);
      FirstNCons(fs, n);
      assert (selected + [x]) + FirstN(fs[1..], n - 1) == selected + ([x] + FirstN(fs[1..], n - 1));
    }
  }

  /** Falling short of a minimum never rejects a candidate: with no maxima the selector takes
      the first `max_items` foods of the ranking. */
  lemma KnapsackWithoutUpperBounds(foods: seq<Food>, targets: map<string, real>, limits: seq<(string, Bound)>,
                                   weights: map<string, real>, maxItems: int)
    requires |targets| > 0 && |foods| > 0
    requires forall j :: 0 <= j < |limits| ==> limits[j].0 in Nutrients && limits[j].1.max.None?
    ensures Knapsack(foods, targets, limits, weights, maxItems) == Ok(FirstN(FoodsOf(Ranked(foods, targets, weights)), maxItems))
  {
    var ranked := Ranked(foods, targets, weights);
    SelectWithoutUpperBounds(ranked, limits, maxItems, Zero, []);
    assert [] + FirstN(FoodsOf(ranked), maxItems - 0) == FirstN(FoodsOf(ranked), maxItems);
  }
}
