/** Slot capacities, nutrient bounds and the planner's failures. */
module Constraints {
  import opened Wrappers
  import opened Foods
  import opened Dicts

  /** `(min_items, max_items)` for one slot. */
  datatype SlotCap = SlotCap(min: int, max: int)

  /** `(min, max)` for one nutrient; either side may be `None`. */
  datatype Bound = Bound(min: Option<real>, max: Option<real>)

  /** What `build` reports before it wraps the failure. */
  datatype Violation =
    | TooFewItems(slot: string, count: int, required: int)
    | TooManyItems(slot: string, count: int, allowed: int)
    | BelowMinimum(metric: string, value: real, limit: real)
    | AboveMaximum(metric: string, value: real, limit: real)

  /** Every exception the planning pipeline can raise. */
  datatype PlanError =
    | UnknownNutrient(nutrient: string)      // KeyError on the selector's running totals
    | MissingSlot(slot: string)              // KeyError on a slot absent from the capacity map
    | NotEligible(food: string, slot: string) // `add_to_slot` with an ineligible food
    | BuildFailed(violation: Violation)      // `build`'s single wrapping ValueError

  /** `slot_caps[slot][1]`, or 0 for a slot that has no entry. */
  function CapMax(caps: seq<(string, SlotCap)>, slot: string): int {
    match Lookup(caps, slot)
    case Some(c) => c.max
    case None => 0
  }
}
