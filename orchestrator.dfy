/** `find_optimal_plan`: filter the catalog per slot, split the daily targets across the
    slots, run the selector per slot, pool the picks, allocate them to slots and build the
    plan; any failure becomes `None`. */
module Orchestrator {
  import opened Wrappers
  import opened Foods
  import opened Dicts
  import opened Constraints
  import opened Seqs
  import opened Filters
  import opened Builder
  import opened Selector
  import opened Allocator

  /** The share of the daily targets each slot optimises for. */
  const SlotShares: seq<(string, real)> := [(Breakfast, 0.25), (Lunch, 0.35), (Dinner, 0.30), (Snack, 0.10)]

  /** `slot_foods`: the catalog filtered by meal time, for every configured slot. */
  function SlotFoodsMap(foods: seq<Food>, caps: seq<(string, SlotCap)>): map<string, seq<Food>> {
    map s | s in KeySet(caps) :: FilterItems(foods, [ByMealTime(s)])
  }

  /** `daily_targets`: the targets that are not `None`. */
  function DailyTargets(targets: map<string, Option<real>>): map<string, real> {
    map n | n in targets && targets[n].Some? :: targets[n].value
  }

  /** `slot_targets` for one slot's share. */
  function SlotTargets(daily: map<string, real>, share: real): map<string, real> {
    map n | n in daily :: daily[n] * share
  }

  /** `prefix + rest`, when the rest was computed without error. */
  function Prepend(prefix: seq<Food>, r: Result<seq<Food>, PlanError>): Result<seq<Food>, PlanError> {
    if r.Ok? then Ok(prefix + r.value) else r
  }

  lemma PrependEmpty(r: Result<seq<Food>, PlanError>)
    ensures Prepend([], r) == r
  {
    if r.Ok? {
      assert [] + r.value == r.value;
    }
  }

  lemma PrependTwice(a: seq<Food>, b: seq<Food>, r: Result<seq<Food>, PlanError>)
    ensures Prepend(a, Prepend(b, r)) == Prepend(a + b, r)
  {
    if r.Ok? {
      assert a + (b + r.value) == (a + b) + r.value;
    }
  }

  /** The per-slot selector loop over `shares`, pooling each slot's picks cut to its maximum. */
  function PoolWithTargets(slotFoods: map<string, seq<Food>>, caps: seq<(string, SlotCap)>, daily: map<string, real>,
                           limits: seq<(string, Bound)>, weights: map<string, real>,
                           shares: seq<(string, real)>): Result<seq<Food>, PlanError>
    decreases |shares|
  {
    if shares == [] then Ok([])
    else
      var slot := shares[0].0;
      if slot !in slotFoods then Err(MissingSlot(slot))
      else if slotFoods[slot] == [] then PoolWithTargets(slotFoods, caps, daily, limits, weights, shares[1..])
      else
        var cap := CapMax(caps, slot);
        var selected :- Knapsack(slotFoods[slot], SlotTargets(daily, shares[0].1), limits, weights, cap);
        Prepend(PyTake(selected, cap), PoolWithTargets(slotFoods, caps, daily, limits, weights, shares[1..]))
  }

  /** The loop used when no target is given: each slot's eligible foods cut to its maximum. */
  function PoolWithoutTargets(slotFoods: map<string, seq<Food>>, caps: seq<(string, SlotCap)>, slots: seq<string>): Result<seq<Food>, PlanError>
    decreases |slots|
  {
    if slots == [] then Ok([])
    else if slots[0] !in slotFoods then Err(MissingSlot(slots[0]))
    else Prepend(PyTake(slotFoods[slots[0]], CapMax(caps, slots[0])), PoolWithoutTargets(slotFoods, caps, slots[1..]))
  }

  /** `all_selected`. */
  function Pooled(foods: seq<Food>, targets: map<string, Option<real>>, limits: seq<(string, Bound)>,
                  weights: map<string, real>, caps: seq<(string, SlotCap)>): Result<seq<Food>, PlanError>
  {
    var slotFoods := SlotFoodsMap(foods, caps);
    var daily := DailyTargets(targets);
    if |daily| > 0 then PoolWithTargets(slotFoods, caps, daily, limits, weights, SlotShares)
    else PoolWithoutTargets(slotFoods, caps, MealSlots)
  }

  /** Adding `items` to `slot` one by one: the first ineligible food raises. */
  function SlotEligibility(items: seq<Food>, slot: string): Outcome<PlanError>
    decreases |items|
  {
    if items == [] then Pass
    else if slot !in items[0].mealTimes then Fail(NotEligible(items[0].name, slot))
    else SlotEligibility(items[1..], slot)
  }

  /** The four add loops, breakfast first. */
  function Eligibility(lists: MealPlan): Outcome<PlanError> {
    var b := SlotEligibility(lists.breakfast, Breakfast);
    if b.Fail? then b else
    var l := SlotEligibility(lists.lunch, Lunch);
    if l.Fail? then l else
    var d := SlotEligibility(lists.dinner, Dinner);
    if d.Fail? then d else
    SlotEligibility(lists.snacks, Snack)
  }

  /** `distribution.get(slot, [])` for the four slots. */
  function ListsOf(d: Distribution): MealPlan {
    MealPlan(SlotItems(d, Breakfast), SlotItems(d, Lunch), SlotItems(d, Dinner), SlotItems(d, Snack))
  }

  /** The body of the `try` block: the plan or the exception it raises. */
  function PlanResult(foods: seq<Food>, targets: map<string, Option<real>>, limits: seq<(string, Bound)>,
                      weights: map<string, real>, caps: seq<(string, SlotCap)>): Result<MealPlan, PlanError>
  {
    match Pooled(foods, targets, limits, weights, caps)
    case Err(e) => Err(e)
    case Ok(pool) => AfterPooling(pool, caps, limits)
  }

  /** Allocation of the pooled foods, then the builder. */
  function AfterPooling(pool: seq<Food>, caps: seq<(string, SlotCap)>, limits: seq<(string, Bound)>): Result<MealPlan, PlanError> {
    match Distribute(pool, caps)
    case Err(e) => Err(e)
    case Ok(d) => Finish(ListsOf(d), caps, limits)
  }

  /** The builder stage: slot limits from `slot_caps` over the defaults, the four add loops,
      then `build`. */
  function Finish(lists: MealPlan, caps: seq<(string, SlotCap)>, limits: seq<(string, Bound)>): Result<MealPlan, PlanError> {
    var added := Eligibility(lists);
    if added.Fail? then Err(added.error)
    else Assemble(MergedCaps(caps), lists, limits)
  }

  /** What `find_optimal_plan` returns. */
  function OptimalPlan(foods: seq<Food>, targets: map<string, Option<real>>, limits: seq<(string, Bound)>,
                       weights: map<string, real>, caps: seq<(string, SlotCap)>): Option<MealPlan>
  {
    match PlanResult(foods, targets, limits, weights, caps)
    case Ok(plan) => Some(plan)
    case Err(_) => None
  }

  /** The `slot_foods` loop. */
  method CollectSlotFoods(foods: seq<Food>, caps: seq<(string, SlotCap)>) returns (slotFoods: map<string, seq<Food>>)
    ensures slotFoods == SlotFoodsMap(foods, caps)
  {
    slotFoods := map[];
    for i := 0 to |caps|
      invariant slotFoods == SlotFoodsMap(foods, caps[..i])
    {
      assert KeySet(caps[..i + 1]) == KeySet(caps[..i]) + {caps[i].0} by {
        assert forall j :: 0 <= j < i ==> caps[..i + 1][j] == caps[..i][j];
      }
      slotFoods := slotFoods[caps[i].0 := FilterItems(foods, [ByMealTime(caps[i].0)])];
    }
    assert caps[..|caps|] == caps;
  }

  /** The `slot_targets` loop. */
  method ScaleTargets(daily: map<string, real>, percentage: real) returns (slotTargets: map<string, real>)
    ensures slotTargets == SlotTargets(daily, percentage)
  {
    slotTargets := map[];
    var remaining := daily.Keys;
    while remaining != {}
      invariant remaining <= daily.Keys
      invariant slotTargets.Keys == daily.Keys - remaining
      invariant forall m :: m in slotTargets ==> slotTargets[m] == daily[m] * percentage
      decreases remaining
    {
      var n :| n in remaining;
      slotTargets := slotTargets[n := daily[n] * percentage];
      remaining := remaining - {n};
    }
    assert slotTargets.Keys == SlotTargets(daily, percentage).Keys;
    assert forall m :: m in slotTargets ==> slotTargets[m] == SlotTargets(daily, percentage)[m];
  }

  /** The per-slot selector loop, used when some target is given. */
  method PoolByTargets(slotFoods: map<string, seq<Food>>, caps: seq<(string, SlotCap)>, daily: map<string, real>,
                       limits: seq<(string, Bound)>, weights: map<string, real>) returns (r: Result<seq<Food>, PlanError>)
    ensures r == PoolWithTargets(slotFoods, caps, daily, limits, weights, SlotShares)
  {
    var allSelected: seq<Food> := [];
    assert SlotShares[0..] == SlotShares;
    PrependEmpty(PoolWithTargets(slotFoods, caps, daily, limits, weights, SlotShares));
    for i := 0 to |SlotShares|
      invariant PoolWithTargets(slotFoods, caps, daily, limits, weights, SlotShares)
                == Prepend(allSelected, PoolWithTargets(slotFoods, caps, daily, limits, weights, SlotShares[i..]))
    {
      var slot := SlotShares[i].0;
      var percentage := SlotShares[i].1;
      assert SlotShares[i..][1..] == SlotShares[i + 1..];
      if slot !in slotFoods {
        return Err(MissingSlot(slot));
      }
      var slotItems := slotFoods[slot];
      if slotItems == [] {
        continue;
      }
      var slotTargets := ScaleTargets(daily, percentage);
      var cap := CapMax(caps, slot);
      var selected :- KnapsackOptimize(slotItems, slotTargets, limits, weights, cap);
      var rest := PoolWithTargets(slotFoods, caps, daily, limits, weights, SlotShares[i + 1..]);
      PrependTwice(allSelected, PyTake(selected, cap), rest);
      allSelected := allSelected + PyTake(selected, cap);
    }
    assert allSelected + [] == allSelected;
    return Ok(allSelected);
  }

  /** The loop used when no target is given. */
  method PoolByEligibility(slotFoods: map<string, seq<Food>>, caps: seq<(string, SlotCap)>) returns (r: Result<seq<Food>, PlanError>)
    ensures r == PoolWithoutTargets(slotFoods, caps, MealSlots)
  {
    var allSelected: seq<Food> := [];
    assert MealSlots[0..] == MealSlots;
    PrependEmpty(PoolWithoutTargets(slotFoods, caps, MealSlots));
    for i := 0 to |MealSlots|
      invariant PoolWithoutTargets(slotFoods, caps, MealSlots)
                == Prepend(allSelected, PoolWithoutTargets(slotFoods, caps, MealSlots[i..]))
    {
      var slot := MealSlots[i];
      assert MealSlots[i..][1..] == MealSlots[i + 1..];
      if slot !in slotFoods {
        return Err(MissingSlot(slot));
      }
      var slotItems := slotFoods[slot];
      var rest := PoolWithoutTargets(slotFoods, caps, MealSlots[i + 1..]);
      PrependTwice(allSelected, PyTake(slotItems, CapMax(caps, slot)), rest);
      if slotItems != [] {
        allSelected := allSelected + PyTake(slotItems, CapMax(caps, slot));
      } else {
        assert allSelected + PyTake(slotItems, CapMax(caps, slot)) == allSelected;
      }
    }
    assert allSelected + [] == allSelected;
    return Ok(allSelected);
  }

  /** A fresh builder with `set_slot_limits` called for each entry of `caps`, in order. */
  method ConfiguredBuilder(caps: seq<(string, SlotCap)>) returns (builder: MealPlanBuilder)
    ensures fresh(builder) && builder.Valid()
    ensures builder.slotCaps == MergedCaps(caps)
    ensures builder.Lists() == MealPlan([], [], [], [])
  {
    builder := new MealPlanBuilder();
    for i := 0 to |caps|
      invariant builder.Valid()
      invariant builder.slotCaps == MergedCaps(caps[..i])
      invariant builder.Lists() == MealPlan([], [], [], [])
    {
      assert caps[..i + 1][..i] == caps[..i];
      builder.SetSlotLimits(caps[i].0, caps[i].1.min, caps[i].1.max);
    }
    assert caps[..|caps|] == caps;
  }

  /** `lists` with `xs` appended to the list of one of the four slots. */
  function AppendToSlot(lists: MealPlan, slot: string, xs: seq<Food>): MealPlan {
    if slot == Breakfast then lists.(breakfast := lists.breakfast + xs)
    else if slot == Lunch then lists.(lunch := lists.lunch + xs)
    else if slot == Dinner then lists.(dinner := lists.dinner + xs)
    else if slot == Snack then lists.(snacks := lists.snacks + xs)
    else lists
  }

  lemma AppendNothing(lists: MealPlan, slot: string)
    ensures AppendToSlot(lists, slot, []) == lists
  {
    assert lists.breakfast + [] == lists.breakfast && lists.lunch + [] == lists.lunch;
    assert lists.dinner + [] == lists.dinner && lists.snacks + [] == lists.snacks;
  }

  lemma AppendOneMore(lists: MealPlan, slot: string, xs: seq<Food>, x: Food)
    ensures AppendToSlot(lists, slot, xs + [x]) == AppendToSlot(AppendToSlot(lists, slot, xs), slot, [x])
  {
    MealSlotsDistinct();
  }

  /** One add loop, `for food in items: builder.add_<slot>(food)`, where `add_<slot>` is
      `add_to_slot(slot, ...)`: it stops at the first refused food, and otherwise appends
      every food to that slot's list. */
  method AddAll(builder: MealPlanBuilder, slot: string, items: seq<Food>) returns (r: Outcome<PlanError>)
    modifies builder
    ensures r == SlotEligibility(items, slot)
    ensures builder.slotCaps == old(builder.slotCaps)
    ensures r.Pass? ==> builder.Lists() == AppendToSlot(old(builder.Lists()), slot, items)
  {
    AppendNothing(builder.Lists(), slot);
    for i := 0 to |items|
      invariant builder.slotCaps == old(builder.slotCaps)
      invariant builder.Lists() == AppendToSlot(old(builder.Lists()), slot, items[..i])
      invariant SlotEligibility(items, slot) == SlotEligibility(items[i..], slot)
    {
      assert items[i..][1..] == items[i + 1..];
      assert items[..i + 1] == items[..i] + [items[i]];
      ghost var before := builder.Lists();
      var added := builder.AddToSlot(slot, items[i]);
      if added.Fail? {
        return added;
      }
      assert builder.Lists() == AppendToSlot(before, slot, [items[i]]);
      AppendOneMore(old(builder.Lists()), slot, items[..i], items[i]);
    }
    assert items[..|items|] == items;
    return Pass;
  }

  /** Drives a fresh builder: slot limits from `caps`, then the four add loops, then `build`. */
  method BuildWithBuilder(lists: MealPlan, caps: seq<(string, SlotCap)>, limits: seq<(string, Bound)>) returns (r: Result<MealPlan, PlanError>)
    ensures r == Finish(lists, caps, limits)
  {
    var builder := ConfiguredBuilder(caps);
    var added := AddAll(builder, Breakfast, lists.breakfast);
    if added.Fail? {
      return Err(added.error);
    }
    added := AddAll(builder, Lunch, lists.lunch);
    if added.Fail? {
      return Err(added.error);
    }
    added := AddAll(builder, Dinner, lists.dinner);
    if added.Fail? {
      return Err(added.error);
    }
    added := AddAll(builder, Snack, lists.snacks);
    if added.Fail? {
      return Err(added.error);
    }
    MealSlotsDistinct();
    assert builder.Lists() == lists;
    r := builder.Build(limits);
  }

  method FindOptimalPlan(foods: seq<Food>, targets: map<string, Option<real>>, limits: seq<(string, Bound)>,
                         weights: map<string, real>, caps: seq<(string, SlotCap)>) returns (r: Option<MealPlan>)
    ensures r == OptimalPlan(foods, targets, limits, weights, caps)
  {
    var slotFoods := CollectSlotFoods(foods, caps);
    var daily := DailyTargets(targets);
    var pooled: Result<seq<Food>, PlanError>;
    if |daily| > 0 {
      pooled := PoolByTargets(slotFoods, caps, daily, limits, weights);
    } else {
      pooled := PoolByEligibility(slotFoods, caps);
    }
    if pooled.Err? {
      return None;
    }
    var distribution := DistributeToSlots(pooled.value, caps);
    if distribution.Err? {
      return None;
    }
    var built := BuildWithBuilder(ListsOf(distribution.value), caps, limits);
    if built.Err? {
      return None;
    }
    return Some(built.value);
  }

  /** The add loop for one slot succeeds exactly when every food is eligible for it, and
      otherwise names the first ineligible food. */
  lemma {:induction false} SlotEligibilitySpec(items: seq<Food>, slot: string)
    ensures SlotEligibility(items, slot).Pass? <==> forall x :: x in items ==> slot in x.mealTimes
    ensures SlotEligibility(items, slot).Fail? ==>
      exists k :: 0 <= k < |items| && slot !in items[k].mealTimes
                  && SlotEligibility(items, slot).error == NotEligible(items[k].name, slot)
                  && forall j :: 0 <= j < k ==> slot in items[j].mealTimes
    decreases |items|
  {
    if items != [] && slot in items[0].mealTimes {
      var rest := items[1..];
      SlotEligibilitySpec(rest, slot);
      HeadOrRest(items);
      if SlotEligibility(rest, slot).Fail? {
        var k :| 0 <= k < |rest| && slot !in rest[k].mealTimes
                 && SlotEligibility(rest, slot).error == NotEligible(rest[k].name, slot)
                 && forall j :: 0 <= j < k ==> slot in rest[j].mealTimes;
        assert items[k + 1] == rest[k];
        assert forall j :: 1 <= j < k + 1 ==> items[j] == rest[j - 1];
      }
    }
  }

  lemma HeadOrRest<T>(s: seq<T>)
    requires s != []
    ensures forall x :: x in s <==> x == s[0] || x in s[1..]
  {
    assert s == [s[0]] + s[1..];
  }

  /** The pooled foods all come from the per-slot lists of the slots named in `shares`; the
      loop fails when one of those slots is not configured. */
  lemma {:induction false} PoolWithTargetsSpec(slotFoods: map<string, seq<Food>>, caps: seq<(string, SlotCap)>, daily: map<string, real>,
                                               limits: seq<(string, Bound)>, weights: map<string, real>, shares: seq<(string, real)>)
    ensures var r := PoolWithTargets(slotFoods, caps, daily, limits, weights, shares);
      && ((exists k :: 0 <= k < |shares| && shares[k].0 !in slotFoods) ==> r.Err?)
      && (r.Ok? ==> forall x :: x in r.value ==>
            exists k :: 0 <= k < |shares| && shares[k].0 in slotFoods && x in slotFoods[shares[k].0])
    decreases |shares|
  {
    if shares != [] {
      PoolWithTargetsSpec(slotFoods, caps, daily, limits, weights, shares[1..]);
      assert forall k :: 1 <= k < |shares| ==> shares[k] == shares[1..][k - 1];
      var slot := shares[0].0;
      if slot in slotFoods && slotFoods[slot] != [] {
        var cap := CapMax(caps, slot);
        KnapsackFromFoods(slotFoods[slot], SlotTargets(daily, shares[0].1), limits, weights, cap);
      }
    }
  }

  lemma {:induction false} PoolWithoutTargetsSpec(slotFoods: map<string, seq<Food>>, caps: seq<(string, SlotCap)>, slots: seq<string>)
    ensures var r := PoolWithoutTargets(slotFoods, caps, slots);
      && ((exists k :: 0 <= k < |slots| && slots[k] !in slotFoods) ==> r.Err?)
      && (r.Ok? ==> forall x :: x in r.value ==>
            exists k :: 0 <= k < |slots| && slots[k] in slotFoods && x in slotFoods[slots[k]])
    decreases |slots|
  {
    if slots != [] {
      PoolWithoutTargetsSpec(slotFoods, caps, slots[1..]);
      assert forall k :: 1 <= k < |slots| ==> slots[k] == slots[1..][k - 1];
    }
  }

  /** Every pooled food is a catalog food eligible for one of the four meal slots; pooling
      fails when a meal slot is missing from `slot_caps`. */
  lemma PooledSpec(foods: seq<Food>, targets: map<string, Option<real>>, limits: seq<(string, Bound)>,
                   weights: map<string, real>, caps: seq<(string, SlotCap)>)
    ensures var r := Pooled(foods, targets, limits, weights, caps);
      && ((exists s :: s in MealSlots && s !in KeySet(caps)) ==> r.Err?)
      && (r.Ok? ==> forall x :: x in r.value ==> x in foods && exists s :: s in MealSlots && s in x.mealTimes)
  {
    var slotFoods := SlotFoodsMap(foods, caps);
    var daily := DailyTargets(targets);
    assert forall k :: 0 <= k < |SlotShares| ==> SlotShares[k].0 == MealSlots[k];
    PoolWithTargetsSpec(slotFoods, caps, daily, limits, weights, SlotShares);
    PoolWithoutTargetsSpec(slotFoods, caps, MealSlots);
    var r := Pooled(foods, targets, limits, weights, caps);
    if r.Ok? {
      forall x | x in r.value ensures x in foods && exists s :: s in MealSlots && s in x.mealTimes {
        var s: string;
        if |daily| > 0 {
          assert r == PoolWithTargets(slotFoods, caps, daily, limits, weights, SlotShares);
          var k :| 0 <= k < |SlotShares| && SlotShares[k].0 in slotFoods && x in slotFoods[SlotShares[k].0];
          s := SlotShares[k].0;
          assert s == MealSlots[k];
        } else {
          assert r == PoolWithoutTargets(slotFoods, caps, MealSlots);
          var k :| 0 <= k < |MealSlots| && MealSlots[k] in slotFoods && x in slotFoods[MealSlots[k]];
          s := MealSlots[k];
        }
        AllHoldSingle(ByMealTime(s), x);
      }
    }
  }

  /** `find_optimal_plan` returns `None` whenever a meal slot is missing from `slot_caps`. */
  lemma MissingMealSlotGivesNone(foods: seq<Food>, targets: map<string, Option<real>>, limits: seq<(string, Bound)>,
                                 weights: map<string, real>, caps: seq<(string, SlotCap)>)
    requires exists s :: s in MealSlots && s !in KeySet(caps)
    ensures OptimalPlan(foods, targets, limits, weights, caps) == None
  {
    PooledSpec(foods, targets, limits, weights, caps);
  }

  /** Every food sits in a slot it is eligible for. */
  predicate AllEligible(p: MealPlan) {
    && (forall x :: x in p.breakfast ==> Breakfast in x.mealTimes)
    && (forall x :: x in p.lunch ==> Lunch in x.mealTimes)
    && (forall x :: x in p.dinner ==> Dinner in x.mealTimes)
    && (forall x :: x in p.snacks ==> Snack in x.mealTimes)
  }

  /** Every configured slot count is in range and every limit holds on the totals. */
  predicate PassesChecks(p: MealPlan, caps: seq<(string, SlotCap)>, limits: seq<(string, Bound)>) {
    && (forall k :: 0 <= k < |caps| ==> !SlotOutOfRange(p, caps[k]))
    && (forall k :: 0 <= k < |limits| ==> !LimitBroken(p.Totals(), limits[k]))
  }

  /** No meal slot holds more than the maximum `slot_caps` gives it. */
  predicate WithinCaps(p: MealPlan, caps: seq<(string, SlotCap)>) {
    forall s :: s in MealSlots ==> |ItemsInSlot(p, s)| <= Max(CapMax(caps, s), 0)
  }

  lemma EligibilitySpec(lists: MealPlan)
    ensures Eligibility(lists).Pass? <==> AllEligible(lists)
  {
    SlotEligibilitySpec(lists.breakfast, Breakfast);
    SlotEligibilitySpec(lists.lunch, Lunch);
    SlotEligibilitySpec(lists.dinner, Dinner);
    SlotEligibilitySpec(lists.snacks, Snack);
  }

  /** The builder stage succeeds exactly when every food is eligible for its slot and the
      merged capacities and the limits all hold; it then returns the lists unchanged. */
  lemma FinishSpec(lists: MealPlan, caps: seq<(string, SlotCap)>, limits: seq<(string, Bound)>)
    ensures Finish(lists, caps, limits).Ok? <==> AllEligible(lists) && PassesChecks(lists, MergedCaps(caps), limits)
    ensures Finish(lists, caps, limits).Ok? ==> Finish(lists, caps, limits).value == lists
  {
    EligibilitySpec(lists);
    AssembleSpec(MergedCaps(caps), lists, limits);
  }

  /** After allocation every meal slot stays within its maximum, and the builder stage
      returns the allocated lists. */
  lemma AfterPoolingWithinCaps(pool: seq<Food>, caps: seq<(string, SlotCap)>, limits: seq<(string, Bound)>)
    ensures var r := AfterPooling(pool, caps, limits);
      r.Ok? ==> WithinCaps(r.value, caps) && Finish(r.value, caps, limits) == r
  {
    var r := AfterPooling(pool, caps, limits);
    if r.Ok? {
      var d := Distribute(pool, caps).value;
      DistributeWithinCaps(pool, caps);
      FinishKeepsLists(ListsOf(d), caps, limits);
      assert r.value == ListsOf(d);
      forall s | s in MealSlots ensures |ItemsInSlot(r.value, s)| <= Max(CapMax(caps, s), 0) {
        assert ItemsInSlot(r.value, s) == SlotItems(d, s);
      }
    }
  }

  /** No list of the allocation passes its slot's maximum. */
  lemma DistributeWithinCaps(pool: seq<Food>, caps: seq<(string, SlotCap)>)
    ensures var r := Distribute(pool, caps);
      r.Ok? ==> forall s :: s in r.value ==> |r.value[s]| <= Max(CapMax(caps, s), 0)
  {
    DistributeSpec(pool, caps);
  }

  /** The builder stage returns the lists it was given. */
  lemma FinishKeepsLists(lists: MealPlan, caps: seq<(string, SlotCap)>, limits: seq<(string, Bound)>)
    ensures Finish(lists, caps, limits).Ok? ==> Finish(lists, caps, limits).value == lists
  {
  }

  /** No pooled food appears in the plan more often than in the pool. */
  lemma AfterPoolingFromPool(pool: seq<Food>, caps: seq<(string, SlotCap)>, limits: seq<(string, Bound)>)
    ensures var r := AfterPooling(pool, caps, limits);
      r.Ok? ==> multiset(r.value.AllItems()) <= multiset(pool)
  {
    var r := AfterPooling(pool, caps, limits);
    if r.Ok? {
      DistributeSpec(pool, caps);
      var d := Distribute(pool, caps).value;
      FinishSpec(ListsOf(d), caps, limits);
      assert multiset(r.value.AllItems()) == Placed(d);
    }
  }

  /** A plan that is returned has every meal slot configured and holds only catalog foods. */
  lemma PlanFoodsFromCatalog(foods: seq<Food>, targets: map<string, Option<real>>, limits: seq<(string, Bound)>,
                             weights: map<string, real>, caps: seq<(string, SlotCap)>)
    ensures var r := OptimalPlan(foods, targets, limits, weights, caps);
      r.Some? ==> (&& (forall s :: s in MealSlots ==> s in KeySet(caps))
                   && (forall x :: x in r.value.AllItems() ==> x in foods))
  {
    var r := OptimalPlan(foods, targets, limits, weights, caps);
    if r.Some? {
      PooledSpec(foods, targets, limits, weights, caps);
      var pool := Pooled(foods, targets, limits, weights, caps).value;
      AfterPoolingFromPool(pool, caps, limits);
      assert AfterPooling(pool, caps, limits) == Ok(r.value);
      forall x | x in r.value.AllItems() ensures x in foods {
        assert x in multiset(r.value.AllItems());
        assert x in multiset(pool);
      }
    }
  }

  /** A plan that is returned holds each food in a slot it is eligible for, keeps every meal
      slot within the maximum `slot_caps` gives it, and passes the builder's count checks
      under the merged capacities and every aggregate limit. */
  lemma PlanSound(foods: seq<Food>, targets: map<string, Option<real>>, limits: seq<(string, Bound)>,
                  weights: map<string, real>, caps: seq<(string, SlotCap)>)
    ensures var r := OptimalPlan(foods, targets, limits, weights, caps);
      r.Some? ==> (&& AllEligible(r.value)
                   && WithinCaps(r.value, caps)
                   && PassesChecks(r.value, MergedCaps(caps), limits))
  {
    var r := OptimalPlan(foods, targets, limits, weights, caps);
    if r.Some? {
      var pool := Pooled(foods, targets, limits, weights, caps).value;
      AfterPoolingWithinCaps(pool, caps, limits);
      assert AfterPooling(pool, caps, limits) == Ok(r.value);
      FinishSpec(r.value, caps, limits);
    }
  }

  /** Per-slot targets are the daily targets without the `None` entries, scaled by the slot's
      share; the four shares split each daily target exactly. */
  lemma SlotTargetsSpec(targets: map<string, Option<real>>)
    ensures forall k :: 0 <= k < |SlotShares| ==>
      forall n :: (n in SlotTargets(DailyTargets(targets), SlotShares[k].1) <==> n in targets && targets[n].Some?)
    ensures forall n :: n in targets && targets[n].Some? ==>
      SlotTargets(DailyTargets(targets), SlotShares[0].1)[n] + SlotTargets(DailyTargets(targets), SlotShares[1].1)[n]
      + SlotTargets(DailyTargets(targets), SlotShares[2].1)[n] + SlotTargets(DailyTargets(targets), SlotShares[3].1)[n]
      == targets[n].value
  {
  }

  /** Concatenation of each slot's list cut to its maximum. */
  function TakeEach(slotFoods: map<string, seq<Food>>, caps: seq<(string, SlotCap)>, slots: seq<string>): seq<Food>
    requires forall s :: s in slots ==> s in slotFoods
    decreases |slots|
  {
    if slots == [] then [] else PyTake(slotFoods[slots[0]], CapMax(caps, slots[0])) + TakeEach(slotFoods, caps, slots[1..])
  }

  lemma {:induction false} PoolWithoutTargetsConfigured(slotFoods: map<string, seq<Food>>, caps: seq<(string, SlotCap)>, slots: seq<string>)
    requires forall s :: s in slots ==> s in slotFoods
    ensures PoolWithoutTargets(slotFoods, caps, slots) == Ok(TakeEach(slotFoods, caps, slots))
    decreases |slots|
  {
    if slots != [] {
      assert forall s :: s in slots[1..] ==> s in slots;
      PoolWithoutTargetsConfigured(slotFoods, caps, slots[1..]);
    }
  }

  lemma TakeEachMealSlots(slotFoods: map<string, seq<Food>>, caps: seq<(string, SlotCap)>)
    requires forall s :: s in MealSlots ==> s in slotFoods
    ensures TakeEach(slotFoods, caps, MealSlots)
            == PyTake(slotFoods[Breakfast], CapMax(caps, Breakfast)) + PyTake(slotFoods[Lunch], CapMax(caps, Lunch))
               + PyTake(slotFoods[Dinner], CapMax(caps, Dinner)) + PyTake(slotFoods[Snack], CapMax(caps, Snack))
  {
    var tB := PyTake(slotFoods[Breakfast], CapMax(caps, Breakfast));
    var tL := PyTake(slotFoods[Lunch], CapMax(caps, Lunch));
    var tD := PyTake(slotFoods[Dinner], CapMax(caps, Dinner));
    var tS := PyTake(slotFoods[Snack], CapMax(caps, Snack));
    TakeEachCons(slotFoods, caps, [Snack]);
    TakeEachCons(slotFoods, caps, [Dinner, Snack]);
    TakeEachCons(slotFoods, caps, [Lunch, Dinner, Snack]);
    TakeEachCons(slotFoods, caps, MealSlots);
    assert [Snack][1..] == [] && [Dinner, Snack][1..] == [Snack];
    assert [Lunch, Dinner, Snack][1..] == [Dinner, Snack] && MealSlots[1..] == [Lunch, Dinner, Snack];
    JoinFour(tB, tL, tD, tS);
  }

  lemma TakeEachCons(slotFoods: map<string, seq<Food>>, caps: seq<(string, SlotCap)>, slots: seq<string>)
    requires slots != [] && forall s :: s in slots ==> s in slotFoods
    ensures TakeEach(slotFoods, caps, slots)
            == PyTake(slotFoods[slots[0]], CapMax(caps, slots[0])) + TakeEach(slotFoods, caps, slots[1..])
  {
  }

  lemma JoinFour<T>(a: seq<T>, b: seq<T>, c: seq<T>, d: seq<T>)
    ensures a + (b + (c + (d + []))) == a + b + c + d
  {
    assert d + [] == d;
  }

  /** With no target, each slot contributes its first `max` eligible foods in catalog order,
      breakfast first; limits and weights play no part in the selection. */
  lemma PooledWithoutTargets(foods: seq<Food>, targets: map<string, Option<real>>, limits: seq<(string, Bound)>,
                             weights: map<string, real>, caps: seq<(string, SlotCap)>)
    requires forall n :: n in targets ==> targets[n].None?
    requires forall s :: s in MealSlots ==> s in KeySet(caps)
    ensures Pooled(foods, targets, limits, weights, caps)
            == Ok(PyTake(FilterItems(foods, [ByMealTime(Breakfast)]), CapMax(caps, Breakfast))
                  + PyTake(FilterItems(foods, [ByMealTime(Lunch)]), CapMax(caps, Lunch))
                  + PyTake(FilterItems(foods, [ByMealTime(Dinner)]), CapMax(caps, Dinner))
                  + PyTake(FilterItems(foods, [ByMealTime(Snack)]), CapMax(caps, Snack)))
  {
    assert DailyTargets(targets).Keys == {};
    var sf := SlotFoodsMap(foods, caps);
    PoolWithoutTargetsConfigured(sf, caps, MealSlots);
    TakeEachMealSlots(sf, caps);
  }

  /** The example of `IneligibleFallbackGivesNone`: a meat dish for breakfast or lunch and a
      lunch-only soup, lunch capped at one item. */
  function ScenarioHam(): Food { Food("ham", 200, 20.0, 10.0, 0.0, {Breakfast, Lunch}, {Meat}) }
  function ScenarioSoup(): Food { Food("soup", 150, 5.0, 3.0, 20.0, {Lunch}, {}) }
  function ScenarioCaps(): seq<(string, SlotCap)> {
    [(Breakfast, SlotCap(1, 2)), (Lunch, SlotCap(1, 1)), (Dinner, SlotCap(0, 3)), (Snack, SlotCap(0, 2))]
  }

  lemma ScenarioCapsFacts()
    ensures KeySet(ScenarioCaps()) == {Breakfast, Lunch, Dinner, Snack}
    ensures Lookup(ScenarioCaps(), Breakfast) == Some(SlotCap(1, 2))
    ensures Lookup(ScenarioCaps(), Lunch) == Some(SlotCap(1, 1))
    ensures Lookup(ScenarioCaps(), Dinner) == Some(SlotCap(0, 3))
    ensures Lookup(ScenarioCaps(), Snack) == Some(SlotCap(0, 2))
  {
    var caps := ScenarioCaps();
    MealSlotsDistinct();
    assert DistinctKeys(caps);
    LookupAt(caps, 0);
    LookupAt(caps, 1);
    LookupAt(caps, 2);
    LookupAt(caps, 3);
  }

  lemma FilterPair(a: Food, b: Food, p: Predicate)
    ensures FilterItems([a, b], [p]) == (if p(a) then [a] else []) + (if p(b) then [b] else [])
  {
    assert [a, b][..1] == [a];
    assert [a][..0] == [];
    AllHoldSingle(p, a);
    AllHoldSingle(p, b);
  }

  lemma ScenarioFilters()
    ensures FilterItems([ScenarioSoup(), ScenarioHam()], [ByMealTime(Breakfast)]) == [ScenarioHam()]
    ensures FilterItems([ScenarioSoup(), ScenarioHam()], [ByMealTime(Lunch)]) == [ScenarioSoup(), ScenarioHam()]
    ensures FilterItems([ScenarioSoup(), ScenarioHam()], [ByMealTime(Dinner)]) == []
    ensures FilterItems([ScenarioSoup(), ScenarioHam()], [ByMealTime(Snack)]) == []
  {
    MealSlotsDistinct();
    FilterPair(ScenarioSoup(), ScenarioHam(), ByMealTime(Breakfast));
    FilterPair(ScenarioSoup(), ScenarioHam(), ByMealTime(Lunch));
    FilterPair(ScenarioSoup(), ScenarioHam(), ByMealTime(Dinner));
    FilterPair(ScenarioSoup(), ScenarioHam(), ByMealTime(Snack));
  }

  lemma ScenarioPooled()
    ensures Pooled([ScenarioSoup(), ScenarioHam()], map[], [], map[], ScenarioCaps()) == Ok([ScenarioHam(), ScenarioSoup()])
  {
    var ham, soup, caps := ScenarioHam(), ScenarioSoup(), ScenarioCaps();
    ScenarioCapsFacts();
    ScenarioFilters();
    assert CapMax(caps, Breakfast) == 2 && CapMax(caps, Lunch) == 1;
    assert CapMax(caps, Dinner) == 3 && CapMax(caps, Snack) == 2;
    PooledWithoutTargets([soup, ham], map[], [], map[], caps);
    var tB := PyTake([ham], 2);
    var tL := PyTake([soup, ham], 1);
    var tD := PyTake([], 3);
    var tS := PyTake([], 2);
    assert Pooled([soup, ham], map[], [], map[], caps) == Ok(tB + tL + tD + tS);
    TakeScenario(ham, soup);
  }

  lemma TakeScenario<T>(x: T, y: T)
    ensures PyTake([x], 2) + PyTake([y, x], 1) + PyTake([], 3) + PyTake([], 2) == [x, y]
  {
    assert PyTake([y, x], 1) == [y];
    assert PyTake([x], 2) == [x];
  }

  lemma ScenarioFirstItem()
    ensures ChooseSlot(ScenarioHam(), EmptyDistribution(ScenarioCaps()), ScenarioCaps()) == Ok(Some(Lunch))
  {
    var ham, caps := ScenarioHam(), ScenarioCaps();
    ScenarioCapsFacts();
    MealSlotsDistinct();
    var d0 := EmptyDistribution(caps);
    assert MealSlots[1..] == [Lunch, Dinner, Snack];
    assert FirstPass(ham, d0, caps, MealSlots) == FirstPass(ham, d0, caps, [Lunch, Dinner, Snack]);
  }

  lemma ScenarioSecondItem()
    ensures var d1 := EmptyDistribution(ScenarioCaps())[Lunch := [ScenarioHam()]];
      ChooseSlot(ScenarioSoup(), d1, ScenarioCaps()) == Ok(Some(Breakfast))
  {
    var soup, caps := ScenarioSoup(), ScenarioCaps();
    ScenarioCapsFacts();
    MealSlotsDistinct();
    var d1 := EmptyDistribution(caps)[Lunch := [ScenarioHam()]];
    assert MealSlots[1..] == [Lunch, Dinner, Snack];
    assert [Lunch, Dinner, Snack][1..] == [Dinner, Snack];
    assert [Dinner, Snack][1..] == [Snack];
    assert [Snack][1..] == [];
    assert Room(d1, caps, Lunch) == Ok(false);
    assert FirstPass(soup, d1, caps, []) == Ok(None);
    assert FirstPass(soup, d1, caps, [Snack]) == Ok(None);
    assert FirstPass(soup, d1, caps, [Dinner, Snack]) == Ok(None);
    assert FirstPass(soup, d1, caps, [Lunch, Dinner, Snack]) == Ok(None);
    assert FirstPass(soup, d1, caps, MealSlots) == Ok(None);
    assert Fallback(d1, caps, MealSlots) == Ok(Some(Breakfast));
  }

  lemma ScenarioDistributed()
    ensures Distribute([ScenarioHam(), ScenarioSoup()], ScenarioCaps()).Ok?
    ensures ListsOf(Distribute([ScenarioHam(), ScenarioSoup()], ScenarioCaps()).value)
            == MealPlan([ScenarioSoup()], [ScenarioHam()], [], [])
  {
    var ham, soup, caps := ScenarioHam(), ScenarioSoup(), ScenarioCaps();
    ScenarioCapsFacts();
    MealSlotsDistinct();
    ScenarioFirstItem();
    ScenarioSecondItem();
    var d0 := EmptyDistribution(caps);
    var d1 := d0[Lunch := [ham]];
    var d2 := d1[Breakfast := [soup]];
    assert Lunch in d0 && d0[Lunch] + [ham] == [ham];
    assert Place(d0, ham, Some(Lunch)) == d1;
    assert Breakfast in d1 && d1[Breakfast] + [soup] == [soup];
    assert Place(d1, soup, Some(Breakfast)) == d2;
    assert [ham, soup][1..] == [soup];
    assert [soup][1..] == [];
    assert DistributeFrom([soup], d1, caps) == Ok(d2);
    assert Distribute([ham, soup], caps) == Ok(d2);
  }

  /** The allocator's fallback ignores eligibility, the builder then refuses the food, and the
      whole search returns `None`: the ham fills lunch (meat skips breakfast), so the lunch-only
      soup falls back into breakfast. */
  lemma IneligibleFallbackGivesNone()
    ensures PlanResult([ScenarioSoup(), ScenarioHam()], map[], [], map[], ScenarioCaps()) == Err(NotEligible("soup", Breakfast))
    ensures OptimalPlan([ScenarioSoup(), ScenarioHam()], map[], [], map[], ScenarioCaps()) == None
  {
    ScenarioPooled();
    ScenarioDistributed();
    var lists := MealPlan([ScenarioSoup()], [ScenarioHam()], [], []);
    assert Eligibility(lists) == Fail(NotEligible("soup", Breakfast));
  }
}
