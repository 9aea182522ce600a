/** `MealOptimizer.distribute_to_slots`: each chosen food goes to the first of its own meal
    times with room (never meat at breakfast), otherwise to the first slot with room, and is
    dropped when every slot is full. */
module Allocator {
  import opened Wrappers
  import opened Foods
  import opened Dicts
  import opened Constraints
  import opened Seqs

  /** The distribution dict: one list per configured slot. */
  type Distribution = map<string, seq<Food>>

  const Meat: string := "meat"

  /** `{slot: [] for slot in slot_caps.keys()}`. */
  function EmptyDistribution(caps: seq<(string, SlotCap)>): (d: Distribution)
    ensures d.Keys == KeySet(caps)
    ensures forall s :: s in d ==> d[s] == []
  {
    map s | s in KeySet(caps) :: []
  }

  /** Both `distribution[slot]` and `slot_caps[slot]` succeed. */
  predicate Configured(d: Distribution, caps: seq<(string, SlotCap)>, s: string) {
    s in d && Lookup(caps, s).Some?
  }

  predicate HasRoom(d: Distribution, caps: seq<(string, SlotCap)>, s: string) {
    Configured(d, caps, s) && |d[s]| < Lookup(caps, s).value.max
  }

  /** A slot the first pass accepts: one of the food's meal times, not breakfast for meat,
      with room. */
  predicate Natural(f: Food, d: Distribution, caps: seq<(string, SlotCap)>, s: string) {
    s in f.mealTimes && !(s == Breakfast && Meat in f.tags) && HasRoom(d, caps, s)
  }

  /** `current_count < max_count`, or the KeyError of an unconfigured slot. */
  function Room(d: Distribution, caps: seq<(string, SlotCap)>, s: string): Result<bool, PlanError> {
    if Configured(d, caps, s) then Ok(|d[s]| < Lookup(caps, s).value.max) else Err(MissingSlot(s))
  }

  /** The first pass over `slots`: the counts are looked up before the meat rule is applied. */
  function FirstPass(f: Food, d: Distribution, caps: seq<(string, SlotCap)>, slots: seq<string>): Result<Option<string>, PlanError>
    decreases |slots|
  {
    if slots == [] then Ok(None)
    else if slots[0] !in f.mealTimes then FirstPass(f, d, caps, slots[1..])
    else
      var room :- Room(d, caps, slots[0]);
      if slots[0] == Breakfast && Meat in f.tags then FirstPass(f, d, caps, slots[1..])
      else if room then Ok(Some(slots[0]))
      else FirstPass(f, d, caps, slots[1..])
  }

  /** The fallback pass: the first slot with room, ignoring meal times. */
  function Fallback(d: Distribution, caps: seq<(string, SlotCap)>, slots: seq<string>): Result<Option<string>, PlanError>
    decreases |slots|
  {
    if slots == [] then Ok(None)
    else
      var room :- Room(d, caps, slots[0]);
      if room then Ok(Some(slots[0])) else Fallback(d, caps, slots[1..])
  }

  /** The slot one food goes to (`None`: dropped). */
  function ChooseSlot(f: Food, d: Distribution, caps: seq<(string, SlotCap)>): Result<Option<string>, PlanError> {
    var first :- FirstPass(f, d, caps, MealSlots);
    if first.Some? then Ok(first) else Fallback(d, caps, MealSlots)
  }

  function Place(d: Distribution, f: Food, slot: Option<string>): Distribution {
    if slot.Some? && slot.value in d then d[slot.value := d[slot.value] + [f]] else d
  }

  /** The food loop from some distribution on. */
  function DistributeFrom(foods: seq<Food>, d: Distribution, caps: seq<(string, SlotCap)>): Result<Distribution, PlanError>
    decreases |foods|
  {
    if foods == [] then Ok(d)
    else
      var slot :- ChooseSlot(foods[0], d, caps);
      DistributeFrom(foods[1..], Place(d, foods[0], slot), caps)
  }

  /** What `distribute_to_slots(foods, slot_caps)` returns or raises. */
  function Distribute(foods: seq<Food>, caps: seq<(string, SlotCap)>): Result<Distribution, PlanError> {
    DistributeFrom(foods, EmptyDistribution(caps), caps)
  }

  method DistributeToSlots(foods: seq<Food>, caps: seq<(string, SlotCap)>) returns (r: Result<Distribution, PlanError>)
    ensures r == Distribute(foods, caps)
  {
    var distribution := EmptyDistribution(caps);
    for i := 0 to |foods|
      invariant Distribute(foods, caps) == DistributeFrom(foods[i..], distribution, caps)
    {
      var food := foods[i];
      assert foods[i..][1..] == foods[i + 1..];
      ghost var d0 := distribution;
      var placed := false;
      ghost var chosen: Option<string> := None;

      var j := 0;
      while j < |MealSlots|
        invariant 0 <= j <= |MealSlots|
        invariant !placed ==> distribution == d0
                                && FirstPass(food, d0, caps, MealSlots) == FirstPass(food, d0, caps, MealSlots[j..])
        invariant placed ==> FirstPass(food, d0, caps, MealSlots) == Ok(chosen)
                             && chosen.Some? && distribution == Place(d0, food, chosen)
      {
        var slot := MealSlots[j];
        assert MealSlots[j..][1..] == MealSlots[j + 1..];
        if slot in food.mealTimes {
          if slot !in distribution {
            return Err(MissingSlot(slot));
          }
          var currentCount := |distribution[slot]|;
          var cap := Lookup(caps, slot);
          if cap.None? {
            return Err(MissingSlot(slot));
          }
          var maxCount := cap.value.max;
          if slot == Breakfast && Meat in food.tags {
            j := j + 1;
            continue;
          }
          if currentCount < maxCount {
            distribution := distribution[slot := distribution[slot] + [food]];
            placed := true;
            chosen := Some(slot);
            break;
          }
        }
        j := j + 1;
      }

      if !placed {
        j := 0;
        while j < |MealSlots|
          invariant 0 <= j <= |MealSlots|
          invariant !placed ==> distribution == d0
                                  && ChooseSlot(food, d0, caps) == Fallback(d0, caps, MealSlots[j..])
          invariant placed ==> ChooseSlot(food, d0, caps) == Ok(chosen)
                               && distribution == Place(d0, food, chosen)
        {
          var slot := MealSlots[j];
          assert MealSlots[j..][1..] == MealSlots[j + 1..];
          if slot !in distribution {
            return Err(MissingSlot(slot));
          }
          var currentCount := |distribution[slot]|;
          var cap := Lookup(caps, slot);
          if cap.None? {
            return Err(MissingSlot(slot));
          }
          var maxCount := cap.value.max;
          if currentCount < maxCount {
            distribution := distribution[slot := distribution[slot] + [food]];
            placed := true;
            chosen := Some(slot);
            break;
          }
          j := j + 1;
        }
        if !placed {
          chosen := None;
        }
      }
      assert ChooseSlot(food, d0, caps) == Ok(chosen);
      assert distribution == Place(d0, food, chosen);
    }
    return Ok(distribution);
  }

  /** The first pass picks the first natural slot in `slots`; it fails only on an eligible
      slot that is not configured, and cannot fail when every eligible slot is. */
  lemma {:induction false} FirstPassSpec(f: Food, d: Distribution, caps: seq<(string, SlotCap)>, slots: seq<string>)
    ensures var r := FirstPass(f, d, caps, slots);
      && (r == Ok(None) ==> forall k :: 0 <= k < |slots| ==> !Natural(f, d, caps, slots[k]))
      && (r.Ok? && r.value.Some? ==>
            exists k :: 0 <= k < |slots| && slots[k] == r.value.value && Natural(f, d, caps, slots[k])
                        && forall j :: 0 <= j < k ==> !Natural(f, d, caps, slots[j]))
      && (r.Err? ==>
            exists k :: 0 <= k < |slots| && slots[k] in f.mealTimes && !Configured(d, caps, slots[k])
                        && r.error == MissingSlot(slots[k]))
      && ((forall k :: 0 <= k < |slots| && slots[k] in f.mealTimes ==> Configured(d, caps, slots[k])) ==> r.Ok?)
    decreases |slots|
  {
    if slots != [] {
      FirstPassSpec(f, d, caps, slots[1..]);
      assert forall k :: 1 <= k < |slots| ==> slots[1..][k - 1] == slots[k];
      var r := FirstPass(f, d, caps, slots);
      if r.Ok? && r.value.Some? && r != FirstPass(f, d, caps, slots[1..]) {
        assert Natural(f, d, caps, slots[0]);
      }
      if r.Ok? && r.value.Some? && r == FirstPass(f, d, caps, slots[1..]) && r.value.value != slots[0] {
        var k :| 0 <= k < |slots[1..]| && slots[1..][k] == r.value.value && Natural(f, d, caps, slots[1..][k])
                 && forall j :: 0 <= j < k ==> !Natural(f, d, caps, slots[1..][j]);
        assert slots[k + 1] == r.value.value;
        assert forall j :: 0 <= j < k + 1 ==> !Natural(f, d, caps, slots[j]) by {
          forall j | 0 <= j < k + 1 ensures !Natural(f, d, caps, slots[j]) {
            if j > 0 { assert slots[j] == slots[1..][j - 1]; }
          }
        }
      }
      if r.Err? && r != FirstPass(f, d, caps, slots[1..]) {
        assert !Configured(d, caps, slots[0]);
      }
    }
  }

  /** The fallback picks the first slot with room; it fails only on an unconfigured slot. */
  lemma {:induction false} FallbackSpec(d: Distribution, caps: seq<(string, SlotCap)>, slots: seq<string>)
    ensures var r := Fallback(d, caps, slots);
      && (r == Ok(None) ==> forall k :: 0 <= k < |slots| ==> !HasRoom(d, caps, slots[k]))
      && (r.Ok? && r.value.Some? ==>
            exists k :: 0 <= k < |slots| && slots[k] == r.value.value && HasRoom(d, caps, slots[k])
                        && forall j :: 0 <= j < k ==> !HasRoom(d, caps, slots[j]))
      && (r.Err? ==>
            exists k :: 0 <= k < |slots| && !Configured(d, caps, slots[k]) && r.error == MissingSlot(slots[k]))
      && ((forall k :: 0 <= k < |slots| ==> Configured(d, caps, slots[k])) ==> r.Ok?)
    decreases |slots|
  {
    if slots != [] {
      FallbackSpec(d, caps, slots[1..]);
      assert forall k :: 1 <= k < |slots| ==> slots[1..][k - 1] == slots[k];
      var r := Fallback(d, caps, slots);
      if r.Ok? && r.value.Some? && r.value.value != slots[0] {
        var k :| 0 <= k < |slots[1..]| && slots[1..][k] == r.value.value && HasRoom(d, caps, slots[1..][k])
                 && forall j :: 0 <= j < k ==> !HasRoom(d, caps, slots[1..][j]);
        assert slots[k + 1] == r.value.value;
        assert forall j :: 0 <= j < k + 1 ==> !HasRoom(d, caps, slots[j]) by {
          forall j | 0 <= j < k + 1 ensures !HasRoom(d, caps, slots[j]) {
            if j > 0 { assert slots[j] == slots[1..][j - 1]; }
          }
        }
      }
    }
  }

  /** One food's slot: a slot with room; a natural slot whenever one exists, so meat lands at
      breakfast only when no slot is natural; dropped only when every slot is full; an error
      only for an unconfigured slot, never when all four are configured. */
  lemma ChooseSlotSpec(f: Food, d: Distribution, caps: seq<(string, SlotCap)>)
    ensures var r := ChooseSlot(f, d, caps);
      && (r.Ok? && r.value.Some? ==> r.value.value in MealSlots && HasRoom(d, caps, r.value.value))
      && (r.Ok? && (exists s :: s in MealSlots && Natural(f, d, caps, s)) ==>
            r.value.Some? && Natural(f, d, caps, r.value.value))
      && (r == Ok(Some(Breakfast)) && Meat in f.tags ==> forall s :: s in MealSlots ==> !Natural(f, d, caps, s))
      && (r == Ok(None) ==> forall s :: s in MealSlots ==> !HasRoom(d, caps, s))
      && (r.Err? ==> exists s :: s in MealSlots && !Configured(d, caps, s) && r.error == MissingSlot(s))
      && ((forall s :: s in MealSlots ==> Configured(d, caps, s)) ==> r.Ok?)
  {
    FirstPassSpec(f, d, caps, MealSlots);
    FallbackSpec(d, caps, MealSlots);
  }

  function SlotItems(d: Distribution, s: string): seq<Food> {
    if s in d then d[s] else []
  }

  /** Every food sitting in one of the four meal slots. */
  function Placed(d: Distribution): multiset<Food> {
    multiset(SlotItems(d, Breakfast)) + multiset(SlotItems(d, Lunch)) + multiset(SlotItems(d, Dinner))
    + multiset(SlotItems(d, Snack))
  }

  /** Total room of the four meal slots. */
  function Capacity(caps: seq<(string, SlotCap)>): int {
    Max(CapMax(caps, Breakfast), 0) + Max(CapMax(caps, Lunch), 0) + Max(CapMax(caps, Dinner), 0)
    + Max(CapMax(caps, Snack), 0)
  }

  /** The shape `distribute_to_slots` keeps: one list per configured slot, none over its
      maximum, and nothing in a slot other than the four meals. */
  predicate WellFormed(d: Distribution, caps: seq<(string, SlotCap)>) {
    && d.Keys == KeySet(caps)
    && (forall s :: s in d ==> |d[s]| <= Max(CapMax(caps, s), 0))
    && (forall s :: s in d && s !in MealSlots ==> d[s] == [])
  }

  /** The distribution the food loop starts from is well formed and holds no food. */
  lemma EmptyDistributionSpec(caps: seq<(string, SlotCap)>)
    ensures WellFormed(EmptyDistribution(caps), caps)
    ensures Placed(EmptyDistribution(caps)) == multiset{}
    ensures forall s :: SlotItems(EmptyDistribution(caps), s) == []
  {
  }

  lemma PlaceSpec(d: Distribution, caps: seq<(string, SlotCap)>, f: Food, s: string)
    requires WellFormed(d, caps)
    requires s in MealSlots && HasRoom(d, caps, s)
    ensures WellFormed(Place(d, f, Some(s)), caps)
    ensures Placed(Place(d, f, Some(s))) == Placed(d) + multiset{f}
    ensures Place(d, f, Some(s))[s] == d[s] + [f]
    ensures forall t :: t in d && t != s ==> Place(d, f, Some(s))[t] == d[t]
  {
    var d' := Place(d, f, Some(s));
    assert d' == d[s := d[s] + [f]];
    assert d'.Keys == d.Keys;
    assert |d'[s]| <= Max(CapMax(caps, s), 0);
    PlacedAfterAppend(d, f, s);
  }

  /** Appending to one meal slot adds that food to what is placed. */
  lemma PlacedAfterAppend(d: Distribution, f: Food, s: string)
    requires s in MealSlots && s in d
    ensures Placed(d[s := d[s] + [f]]) == Placed(d) + multiset{f}
  {
    MealSlotsDistinct();
    var d' := d[s := d[s] + [f]];
    assert multiset(SlotItems(d', s)) == multiset(SlotItems(d, s)) + multiset{f} by {
      assert SlotItems(d', s) == SlotItems(d, s) + [f];
    }
    assert forall t :: t != s ==> SlotItems(d', t) == SlotItems(d, t);
    SumWithOneGrown(multiset(SlotItems(d, Breakfast)), multiset(SlotItems(d, Lunch)),
                    multiset(SlotItems(d, Dinner)), multiset(SlotItems(d, Snack)),
                    multiset(SlotItems(d', Breakfast)), multiset(SlotItems(d', Lunch)),
                    multiset(SlotItems(d', Dinner)), multiset(SlotItems(d', Snack)), f);
  }

  /** Four multisets, one of which grows by `f`: their sum grows by `f`. */
  lemma SumWithOneGrown(b: multiset<Food>, l: multiset<Food>, n: multiset<Food>, k: multiset<Food>,
                        b': multiset<Food>, l': multiset<Food>, n': multiset<Food>, k': multiset<Food>, f: Food)
    requires || (b' == b + multiset{f} && l' == l && n' == n && k' == k)
             || (b' == b && l' == l + multiset{f} && n' == n && k' == k)
             || (b' == b && l' == l && n' == n + multiset{f} && k' == k)
             || (b' == b && l' == l && n' == n && k' == k + multiset{f})
    ensures b' + l' + n' + k' == b + l + n + k + multiset{f}
  {
  }

  lemma {:induction false} DistributeFromSpec(foods: seq<Food>, d: Distribution, caps: seq<(string, SlotCap)>, done: seq<Food>)
    requires WellFormed(d, caps)
    requires forall s :: s in d ==> IsSubsequence(d[s], done)
    ensures var r := DistributeFrom(foods, d, caps);
      r.Ok? ==> (&& WellFormed(r.value, caps)
                 && (forall s :: s in r.value ==> IsSubsequence(r.value[s], done + foods))
                 && Placed(r.value) <= Placed(d) + multiset(foods))
    decreases |foods|
  {
    if foods == [] {
      assert done + foods == done;
    } else {
      var f := foods[0];
      ChooseSlotSpec(f, d, caps);
      var slot := ChooseSlot(f, d, caps);
      assert done + foods == (done + [f]) + foods[1..];
      assert multiset(foods) == multiset{f} + multiset(foods[1..]) by {
        assert foods == [f] + foods[1..];
      }
      if slot.Ok? {
        var d' := Place(d, f, slot.value);
        if slot.value.Some? {
          var s := slot.value.value;
          PlaceSpec(d, caps, f, s);
          forall t | t in d' ensures IsSubsequence(d'[t], done + [f]) {
            if t == s {
              SubsequenceAppendBoth(d[t], done, f);
            } else {
              SubsequenceExtend(d[t], done, f);
            }
          }
        } else {
          forall t | t in d' ensures IsSubsequence(d'[t], done + [f]) {
            SubsequenceExtend(d[t], done, f);
          }
        }
        DistributeFromSpec(foods[1..], d', caps, done + [f]);
      }
    }
  }

  /** Every configured slot gets a list, no list passes its maximum, only the four meal slots
      receive food, each slot keeps the input order, and no food is placed twice. */
  lemma DistributeSpec(foods: seq<Food>, caps: seq<(string, SlotCap)>)
    ensures var r := Distribute(foods, caps);
      r.Ok? ==> (&& r.value.Keys == KeySet(caps)
                 && (forall s :: s in r.value ==> |r.value[s]| <= Max(CapMax(caps, s), 0))
                 && (forall s :: s in r.value && s !in MealSlots ==> r.value[s] == [])
                 && (forall s :: s in r.value ==> IsSubsequence(r.value[s], foods))
                 && Placed(r.value) <= multiset(foods))
  {
    var d := EmptyDistribution(caps);
    forall s | s in d ensures IsSubsequence(d[s], []) {
      SubsequenceRefl<Food>([]);
    }
    DistributeFromSpec(foods, d, caps, []);
    assert [] + foods == foods;
  }

  /** `distribute_to_slots` raises only for one of the four slots missing from `slot_caps`,
      and never when all four are configured. */
  lemma {:induction false} DistributeFromErrors(foods: seq<Food>, d: Distribution, caps: seq<(string, SlotCap)>)
    requires d.Keys == KeySet(caps)
    ensures var r := DistributeFrom(foods, d, caps);
      && (r.Err? ==> exists s :: s in MealSlots && s !in KeySet(caps) && r.error == MissingSlot(s))
      && ((forall s :: s in MealSlots ==> s in KeySet(caps)) ==> r.Ok?)
    decreases |foods|
  {
    if foods != [] {
      ChooseSlotSpec(foods[0], d, caps);
      var slot := ChooseSlot(foods[0], d, caps);
      if slot.Ok? {
        DistributeFromErrors(foods[1..], Place(d, foods[0], slot.value), caps);
      }
    }
  }

  lemma DistributeErrors(foods: seq<Food>, caps: seq<(string, SlotCap)>)
    ensures var r := Distribute(foods, caps);
      && (r.Err? ==> exists s :: s in MealSlots && s !in KeySet(caps) && r.error == MissingSlot(s))
      && ((forall s :: s in MealSlots ==> s in KeySet(caps)) ==> r.Ok?)
  {
    DistributeFromErrors(foods, EmptyDistribution(caps), caps);
  }

  lemma RoomLeft(d: Distribution, caps: seq<(string, SlotCap)>)
    requires WellFormed(d, caps)
    requires forall s :: s in MealSlots ==> s in KeySet(caps)
    requires |Placed(d)| < Capacity(caps)
    ensures exists s :: s in MealSlots && HasRoom(d, caps, s)
  {
    if forall s :: s in MealSlots ==> !HasRoom(d, caps, s) {
      assert false;
    }
  }

  lemma {:induction false} DistributeFromKeepsAll(foods: seq<Food>, d: Distribution, caps: seq<(string, SlotCap)>)
    requires WellFormed(d, caps)
    requires forall s :: s in MealSlots ==> s in KeySet(caps)
    requires |Placed(d)| + |foods| <= Capacity(caps)
    ensures DistributeFrom(foods, d, caps).Ok?
    ensures Placed(DistributeFrom(foods, d, caps).value) == Placed(d) + multiset(foods)
    decreases |foods|
  {
    if foods != [] {
      var f := foods[0];
      RoomLeft(d, caps);
      var s := ChooseSlotWithRoom(f, d, caps);
      DistributeFromStep(foods, d, caps, s);
      var d' := Place(d, f, Some(s));
      PlaceSpec(d, caps, f, s);
      DistributeFromKeepsAll(foods[1..], d', caps);
      HeadAndRest(foods);
    }
  }

  /** With all four slots configured and one of them with room, the food gets a slot. */
  lemma ChooseSlotWithRoom(f: Food, d: Distribution, caps: seq<(string, SlotCap)>) returns (s: string)
    requires WellFormed(d, caps)
    requires forall s :: s in MealSlots ==> s in KeySet(caps)
    requires exists s :: s in MealSlots && HasRoom(d, caps, s)
    ensures ChooseSlot(f, d, caps) == Ok(Some(s))
    ensures s in MealSlots && HasRoom(d, caps, s)
  {
    ChooseSlotSpec(f, d, caps);
    s := ChooseSlot(f, d, caps).value.value;
  }

  /** One turn of the food loop once the slot is known. */
  lemma DistributeFromStep(foods: seq<Food>, d: Distribution, caps: seq<(string, SlotCap)>, s: string)
    requires foods != [] && ChooseSlot(foods[0], d, caps) == Ok(Some(s))
    ensures DistributeFrom(foods, d, caps) == DistributeFrom(foods[1..], Place(d, foods[0], Some(s)), caps)
  {
  }

  lemma HeadAndRest(foods: seq<Food>)
    requires foods != []
    ensures multiset(foods) == multiset{foods[0]} + multiset(foods[1..])
  {
    assert foods == [foods[0]] + foods[1..];
  }

  /** With all four slots configured and room for every food, no food is dropped. */
  lemma DistributeKeepsAll(foods: seq<Food>, caps: seq<(string, SlotCap)>)
    requires forall s :: s in MealSlots ==> s in KeySet(caps)
    requires |foods| <= Capacity(caps)
    ensures Distribute(foods, caps).Ok?
    ensures Placed(Distribute(foods, caps).value) == multiset(foods)
  {
    var d := EmptyDistribution(caps);
    assert Placed(d) == multiset{};
    DistributeFromKeepsAll(foods, d, caps);
  }
}
