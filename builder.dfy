/** The staged builder `MealPlanBuilder`: four slot lists, a capacity map, and `build`,
    which validates slot counts and aggregate nutrient limits. */
module Builder {
  import opened Wrappers
  import opened Foods
  import opened Dicts
  import opened Constraints

  /** The capacities a fresh builder starts with, in insertion order. */
  const DefaultSlotCaps: seq<(string, SlotCap)> :=
    [(Breakfast, SlotCap(1, 2)), (Lunch, SlotCap(1, 3)), (Dinner, SlotCap(1, 3)), (Snack, SlotCap(0, 2))]

  lemma DefaultSlotCapsDistinct()
    ensures DistinctKeys(DefaultSlotCaps)
  {
    MealSlotsDistinct();
  }

  /** The capacities of a fresh builder after `set_slot_limits` for each entry of `caps`. */
  function MergedCaps(caps: seq<(string, SlotCap)>): seq<(string, SlotCap)> {
    DefaultSlotCapsDistinct();
    PutAll(DefaultSlotCaps, caps)
  }

  /** `_get_slot_items`: the four known names select a list (the slot "snack" is the
      `snacks` list); any other name has no items. */
  function ItemsInSlot(lists: MealPlan, slot: string): seq<Food> {
    if slot == Breakfast then lists.breakfast
    else if slot == Lunch then lists.lunch
    else if slot == Dinner then lists.dinner
    else if slot == Snack then lists.snacks
    else []
  }

  /** What `build` tests for one capacity entry. */
  function SlotViolation(slot: string, cap: SlotCap, count: int): Option<Violation> {
    if count < cap.min then Some(TooFewItems(slot, count, cap.min))
    else if count > cap.max then Some(TooManyItems(slot, count, cap.max))
    else None
  }

  /** The first failing capacity entry, in insertion order. */
  function FirstSlotViolation(caps: seq<(string, SlotCap)>, lists: MealPlan): Option<Violation>
    decreases |caps|
  {
    if caps == [] then None
    else match SlotViolation(caps[0].0, caps[0].1, |ItemsInSlot(lists, caps[0].0)|)
      case Some(v) => Some(v)
      case None => FirstSlotViolation(caps[1..], lists)
  }

  /** What `build` tests for one limit; a metric the totals lack counts as 0. */
  function LimitViolation(totals: NutrientTotals, metric: string, bound: Bound): Option<Violation> {
    var val := totals.Get(metric).GetOr(0.0);
    if bound.min.Some? && val < bound.min.value then Some(BelowMinimum(metric, val, bound.min.value))
    else if bound.max.Some? && val > bound.max.value then Some(AboveMaximum(metric, val, bound.max.value))
    else None
  }

  /** The first failing limit, in insertion order. */
  function FirstLimitViolation(totals: NutrientTotals, limits: seq<(string, Bound)>): Option<Violation>
    decreases |limits|
  {
    if limits == [] then None
    else match LimitViolation(totals, limits[0].0, limits[0].1)
      case Some(v) => Some(v)
      case None => FirstLimitViolation(totals, limits[1..])
  }

  /** What `build(limits=limits)` returns or raises for the builder's current state. */
  function Assemble(caps: seq<(string, SlotCap)>, lists: MealPlan, limits: seq<(string, Bound)>): Result<MealPlan, PlanError> {
    match FirstSlotViolation(caps, lists)
    case Some(v) => Err(BuildFailed(v))
    case None =>
      match FirstLimitViolation(lists.Totals(), limits)
      case Some(v) => Err(BuildFailed(v))
      case None => Ok(lists)
  }

  /** A slot's count lies outside its configured range. */
  predicate SlotOutOfRange(lists: MealPlan, entry: (string, SlotCap)) {
    var n := |ItemsInSlot(lists, entry.0)|;
    n < entry.1.min || n > entry.1.max
  }

  /** A limited nutrient's total lies outside a present bound. */
  predicate LimitBroken(totals: NutrientTotals, entry: (string, Bound)) {
    var val := totals.Get(entry.0).GetOr(0.0);
    (entry.1.min.Some? && val < entry.1.min.value) || (entry.1.max.Some? && val > entry.1.max.value)
  }

  lemma {:induction false} FirstSlotViolationSpec(caps: seq<(string, SlotCap)>, lists: MealPlan)
    ensures FirstSlotViolation(caps, lists).Some? <==> exists k :: 0 <= k < |caps| && SlotOutOfRange(lists, caps[k])
    ensures FirstSlotViolation(caps, lists).Some? ==>
      exists k :: 0 <= k < |caps| && SlotViolation(caps[k].0, caps[k].1, |ItemsInSlot(lists, caps[k].0)|) == FirstSlotViolation(caps, lists)
                && forall j :: 0 <= j < k ==> !SlotOutOfRange(lists, caps[j])
    decreases |caps|
  {
    if caps != [] {
      FirstSlotViolationSpec(caps[1..], lists);
      if !SlotOutOfRange(lists, caps[0]) {
        assert forall k :: 1 <= k < |caps| ==> caps[k] == caps[1..][k - 1];
        if FirstSlotViolation(caps, lists).Some? {
          var k :| 0 <= k < |caps[1..]| && SlotViolation(caps[1..][k].0, caps[1..][k].1, |ItemsInSlot(lists, caps[1..][k].0)|) == FirstSlotViolation(caps[1..], lists)
                && forall j :: 0 <= j < k ==> !SlotOutOfRange(lists, caps[1..][j]);
          assert forall j :: 0 <= j < k + 1 ==> !SlotOutOfRange(lists, caps[j]) by {
            forall j | 0 <= j < k + 1 ensures !SlotOutOfRange(lists, caps[j]) {
              if j > 0 { assert caps[j] == caps[1..][j - 1]; }
            }
          }
        }
      }
    }
  }

  lemma {:induction false} FirstLimitViolationSpec(totals: NutrientTotals, limits: seq<(string, Bound)>)
    ensures FirstLimitViolation(totals, limits).Some? <==> exists k :: 0 <= k < |limits| && LimitBroken(totals, limits[k])
    ensures FirstLimitViolation(totals, limits).Some? ==>
      exists k :: 0 <= k < |limits| && LimitBroken(totals, limits[k])
                && LimitViolation(totals, limits[k].0, limits[k].1) == FirstLimitViolation(totals, limits)
                && forall j :: 0 <= j < k ==> !LimitBroken(totals, limits[j])
    decreases |limits|
  {
    if limits != [] {
      FirstLimitViolationSpec(totals, limits[1..]);
      assert forall k :: 1 <= k < |limits| ==> limits[k] == limits[1..][k - 1];
      if exists k :: 0 <= k < |limits| && LimitBroken(totals, limits[k]) {
        var k :| 0 <= k < |limits| && LimitBroken(totals, limits[k]);
        if k > 0 { assert LimitBroken(totals, limits[1..][k - 1]); }
      }
      if !LimitBroken(totals, limits[0]) && FirstLimitViolation(totals, limits).Some? {
        var k :| 0 <= k < |limits[1..]| && LimitBroken(totals, limits[1..][k])
              && LimitViolation(totals, limits[1..][k].0, limits[1..][k].1) == FirstLimitViolation(totals, limits[1..])
              && forall j :: 0 <= j < k ==> !LimitBroken(totals, limits[1..][j]);
        assert limits[k + 1] == limits[1..][k];
        forall j | 0 <= j < k + 1 ensures !LimitBroken(totals, limits[j]) {
          if j > 0 { assert limits[j] == limits[1..][j - 1]; }
        }
      }
    }
  }

  /** `build` fails exactly when some configured slot's count is outside its range or some
      limited nutrient's total is outside a present bound; on success the plan holds the
      builder's four lists unchanged. */
  lemma AssembleSpec(caps: seq<(string, SlotCap)>, lists: MealPlan, limits: seq<(string, Bound)>)
    ensures Assemble(caps, lists, limits).Err? <==>
              (exists k :: 0 <= k < |caps| && SlotOutOfRange(lists, caps[k])) ||
              (exists k :: 0 <= k < |limits| && LimitBroken(lists.Totals(), limits[k]))
    ensures Assemble(caps, lists, limits).Ok? ==> Assemble(caps, lists, limits).value == lists
    ensures Assemble(caps, lists, limits).Err? ==> Assemble(caps, lists, limits).error.BuildFailed?
  {
    FirstSlotViolationSpec(caps, lists);
    FirstLimitViolationSpec(lists.Totals(), limits);
  }

  /** Slot counts are checked before limits, in insertion order: a failure on counts names
      the first out-of-range slot. */
  lemma AssembleReportsFirstSlot(caps: seq<(string, SlotCap)>, lists: MealPlan, limits: seq<(string, Bound)>)
    requires exists k :: 0 <= k < |caps| && SlotOutOfRange(lists, caps[k])
    ensures exists k :: 0 <= k < |caps| && SlotOutOfRange(lists, caps[k])
                        && (forall j :: 0 <= j < k ==> !SlotOutOfRange(lists, caps[j]))
                        && Assemble(caps, lists, limits) == Err(BuildFailed(SlotViolation(caps[k].0, caps[k].1, |ItemsInSlot(lists, caps[k].0)|).value))
  {
    FirstSlotViolationSpec(caps, lists);
  }

  /** With the default capacities a single breakfast item is not a valid plan: lunch is
      checked next and has too few items. */
  lemma DefaultCapsRejectLoneBreakfast(f: Food, limits: seq<(string, Bound)>)
    ensures Assemble(DefaultSlotCaps, MealPlan([f], [], [], []), limits) == Err(BuildFailed(TooFewItems(Lunch, 0, 1)))
  {
    var lists := MealPlan([f], [], [], []);
    assert ItemsInSlot(lists, Breakfast) == [f];
    assert FirstSlotViolation(DefaultSlotCaps, lists) == FirstSlotViolation(DefaultSlotCaps[1..], lists);
  }

  /** With the default capacities an empty breakfast fails on breakfast's minimum. */
  lemma DefaultCapsRejectEmptyBreakfast(lists: MealPlan, limits: seq<(string, Bound)>)
    requires lists.breakfast == []
    ensures Assemble(DefaultSlotCaps, lists, limits) == Err(BuildFailed(TooFewItems(Breakfast, 0, 1)))
  {
  }

  class MealPlanBuilder {
    var breakfast: seq<Food>
    var lunch: seq<Food>
    var dinner: seq<Food>
    var snacks: seq<Food>
    var slotCaps: seq<(string, SlotCap)>

    ghost predicate Valid()
      reads this
    {
      DistinctKeys(slotCaps)
    }

    /** The four lists as a value. */
    function Lists(): MealPlan
      reads this
    {
      MealPlan(breakfast, lunch, dinner, snacks)
    }

    constructor ()
      ensures Valid()
      ensures breakfast == [] && lunch == [] && dinner == [] && snacks == []
      ensures slotCaps == DefaultSlotCaps
    {
      breakfast, lunch, dinner, snacks := [], [], [], [];
      slotCaps := DefaultSlotCaps;
    }

    /** `set_slot_limits`: `self._slot_caps[slot] = (min_items, max_items)`. */
    method SetSlotLimits(slot: string, minItems: int, maxItems: int)
      requires Valid()
      modifies this
      ensures Valid()
      ensures slotCaps == Put(old(slotCaps), slot, SlotCap(minItems, maxItems))
      ensures Lists() == old(Lists())
    {
      slotCaps := Put(slotCaps, slot, SlotCap(minItems, maxItems));
    }

    /** `add_to_slot`: an ineligible food is refused and nothing changes; otherwise the food
        is appended to that slot's list, and an unknown slot name changes nothing. */
    method AddToSlot(slot: string, item: Food) returns (r: Outcome<PlanError>)
      modifies this
      ensures r == if slot in item.mealTimes then Pass else Fail(NotEligible(item.name, slot))
      ensures breakfast == if r.Pass? && slot == Breakfast then old(breakfast) + [item] else old(breakfast)
      ensures lunch == if r.Pass? && slot == Lunch then old(lunch) + [item] else old(lunch)
      ensures dinner == if r.Pass? && slot == Dinner then old(dinner) + [item] else old(dinner)
      ensures snacks == if r.Pass? && slot == Snack then old(snacks) + [item] else old(snacks)
      ensures slotCaps == old(slotCaps)
    {
      if slot !in item.mealTimes {
        return Fail(NotEligible(item.name, slot));
      }
      if slot == Breakfast {
        breakfast := breakfast + [item];
      } else if slot == Lunch {
        lunch := lunch + [item];
      } else if slot == Dinner {
        dinner := dinner + [item];
      } else if slot == Snack {
        snacks := snacks + [item];
      }
      return Pass;
    }

    method AddBreakfast(item: Food) returns (r: Outcome<PlanError>)
      modifies this
      ensures r == if Breakfast in item.mealTimes then Pass else Fail(NotEligible(item.name, Breakfast))
      ensures breakfast == if r.Pass? then old(breakfast) + [item] else old(breakfast)
      ensures lunch == old(lunch) && dinner == old(dinner) && snacks == old(snacks)
      ensures slotCaps == old(slotCaps)
    {
      r := AddToSlot(Breakfast, item);
    }

    method AddLunch(item: Food) returns (r: Outcome<PlanError>)
      modifies this
      ensures r == if Lunch in item.mealTimes then Pass else Fail(NotEligible(item.name, Lunch))
      ensures lunch == if r.Pass? then old(lunch) + [item] else old(lunch)
      ensures breakfast == old(breakfast) && dinner == old(dinner) && snacks == old(snacks)
      ensures slotCaps == old(slotCaps)
    {
      r := AddToSlot(Lunch, item);
    }

    method AddDinner(item: Food) returns (r: Outcome<PlanError>)
      modifies this
      ensures r == if Dinner in item.mealTimes then Pass else Fail(NotEligible(item.name, Dinner))
      ensures dinner == if r.Pass? then old(dinner) + [item] else old(dinner)
      ensures breakfast == old(breakfast) && lunch == old(lunch) && snacks == old(snacks)
      ensures slotCaps == old(slotCaps)
    {
      r := AddToSlot(Dinner, item);
    }

    method AddSnack(item: Food) returns (r: Outcome<PlanError>)
      modifies this
      ensures r == if Snack in item.mealTimes then Pass else Fail(NotEligible(item.name, Snack))
      ensures snacks == if r.Pass? then old(snacks) + [item] else old(snacks)
      ensures breakfast == old(breakfast) && lunch == old(lunch) && dinner == old(dinner)
      ensures slotCaps == old(slotCaps)
    {
      r := AddToSlot(Snack, item);
    }

    /** `build(limits=limits)`: slot counts in capacity-map order, then limits in their
        order; every failure is wrapped as `BuildFailed`. */
    method Build(limits: seq<(string, Bound)>) returns (r: Result<MealPlan, PlanError>)
      ensures r == Assemble(slotCaps, Lists(), limits)
    {
      var i := 0;
      while i < |slotCaps|
        invariant 0 <= i <= |slotCaps|
        invariant FirstSlotViolation(slotCaps, Lists()) == FirstSlotViolation(slotCaps[i..], Lists())
      {
        var slot := slotCaps[i].0;
        var cap := slotCaps[i].1;
        var items := ItemsInSlot(Lists(), slot);
        if |items| < cap.min {
          return Err(BuildFailed(TooFewItems(slot, |items|, cap.min)));
        }
        if |items| > cap.max {
          return Err(BuildFailed(TooManyItems(slot, |items|, cap.max)));
        }
        assert slotCaps[i..][1..] == slotCaps[i + 1..];
        i := i + 1;
      }
      var plan := MealPlan(breakfast, lunch, dinner, snacks);
      if |limits| > 0 {
        var totals := plan.Totals();
        var j := 0;
        while j < |limits|
          invariant 0 <= j <= |limits|
          invariant FirstLimitViolation(totals, limits) == FirstLimitViolation(totals, limits[j..])
        {
          var metric := limits[j].0;
          var bound := limits[j].1;
          var val := totals.Get(metric).GetOr(0.0);
          if bound.min.Some? && val < bound.min.value {
            return Err(BuildFailed(BelowMinimum(metric, val, bound.min.value)));
          }
          if bound.max.Some? && val > bound.max.value {
            return Err(BuildFailed(AboveMaximum(metric, val, bound.max.value)));
          }
          assert limits[j..][1..] == limits[j + 1..];
          j := j + 1;
        }
      }
      return Ok(plan);
    }
  }

  /** The four known slot names select the four lists, so together they hold every item of
      the plan; the slot "snack" reads the `snacks` list. */
  lemma ItemsInSlotCoversPlan(lists: MealPlan, other: string)
    requires other !in MealSlots
    ensures lists.AllItems() == ItemsInSlot(lists, Breakfast) + ItemsInSlot(lists, Lunch)
                              + ItemsInSlot(lists, Dinner) + ItemsInSlot(lists, Snack)
    ensures ItemsInSlot(lists, Snack) == lists.snacks
    ensures ItemsInSlot(lists, other) == []
  {
  }
}
