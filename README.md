# Meal planner: selection and allocation, modelled in Dafny

This project models the planning engine of a small daily meal planner
(`planner_jidelnicku_final.py`) and the older exhaustive planner of `meal_planner.py`.

- **Foods and plans** (`foods.dfy`): a food is an immutable record with calories (integer),
  protein, fat and carbs (exact `real`), the meal times it is eligible for, and tags.
  A meal plan has four slot lists. The plan's totals sum each nutrient over
  breakfast, lunch, dinner and snacks.
- **Filters** (`filters.dfy`): `filter_items`, the "all of" combinator `compose_predicates`,
  and the five predicate constructors. A predicate is a Dafny function `Food -> bool`.
- **Builder** (`builder.dfy`): `MealPlanBuilder` is a class.
  - It has four list fields and an insertion-ordered slot-capacity map. Its methods update these
    in place.
  - `add_to_slot` refuses an ineligible food.
  - `build` checks slot counts in capacity-map order, then the aggregate nutrient limits.
    Every failure is wrapped as one error.
- **Selector** (`scoring.dfy`, `ranking.dfy`, `selector.dfy`): `knapsack_optimize` works in three steps.
  - It scores every food against its targets.
  - It sorts the scored foods stably by descending score.
  - It accepts candidates greedily. A candidate is refused only when it would push a bounded
    nutrient over its maximum.
- **Allocator** (`allocator.dfy`): `distribute_to_slots` places each selected food.
  - First it tries the food's own meal times, in the order breakfast, lunch, dinner, snack.
    It skips breakfast for meat and respects each slot's maximum.
  - Otherwise it uses the first slot with room, whatever the food's eligibility.
  - If every slot is full, the food is dropped.
- **Orchestrator** (`orchestrator.dfy`): `find_optimal_plan` runs the whole pipeline.
  - It filters the catalog per slot.
  - It splits the daily targets 25/35/30/10 % across the slots.
  - It runs the selector per slot against the full daily limits.
  - It pools the picks, allocates them and drives a fresh builder.
  - Any failure becomes `None`.
- **Older planner** (`legacy_planner.dfy`): `generate_plan` works over the foods it is given.
  - It enumerates every combination of 2..`max_items` foods in `itertools.combinations` order.
  - It keeps the first combination whose calorie sum is closest to the target.

Python exceptions are values of `PlanError`:

- `UnknownNutrient`: a `KeyError` on the selector's running totals.
- `MissingSlot`: a `KeyError` for a slot missing from `slot_caps`.
- `NotEligible`: the builder's refusal of an ineligible food.
- `BuildFailed`: `build`'s wrapped `ValueError`.

Python dicts whose iteration order matters (slot capacities, limits) are association
sequences (`dicts.dfy`). Each loop of the source is a Dafny method. That method is proved
equal to a specification function, and the properties are lemmas about that function.

## Model

| member | source | states |
|---|---|---|
| Foods.SumTotalsAppend | planner_jidelnicku_final.py:62-70 | the per-nutrient totals of a concatenation are the sums of the parts' totals |
| Foods.PlanTotalsAdditive | planner_jidelnicku_final.py:58-70 | a plan's totals are the sum of the totals of breakfast, lunch, dinner and snacks |
| Foods.TotalsGetIsNutrientSum | planner_jidelnicku_final.py:39-47 | reading a nutrient from the totals gives the sum of `get_nutrient_value` over the items; any other name is missing from the totals |
| Foods.TotalsScenario | test_planner.py:143-159 | foods (300, 20, 10, 30) at breakfast and (200, 15, 5, 25) at lunch total 500 kcal, 35 g protein, 15 g fat, 55 g carbs |
| Filters.FilterItems | planner_jidelnicku_final.py:220-227 | the result is no longer than the input, and each element is an input item that every predicate accepts |
| Filters.FilterIsSubsequence | planner_jidelnicku_final.py:220-227 | the filtered list keeps the input order (it is a subsequence) |
| Filters.FilterCount | planner_jidelnicku_final.py:220-227 | an accepted item keeps all its occurrences; a rejected item keeps none |
| Filters.FilterMembership | planner_jidelnicku_final.py:220-227 | an item is in the result if and only if it is in the input and every predicate holds for it |
| Filters.FilterWithoutPredicates | planner_jidelnicku_final.py:220-227 | with no predicates every item is kept |
| Filters.ComposeAgreesWithFilter | planner_jidelnicku_final.py:229-233 | filtering by the composed predicate equals filtering by all of its parts |
| Filters.FilterByMealTime | planner_jidelnicku_final.py:236-238 | a meal-time filter keeps exactly the items eligible for that slot |
| Filters.TagFiltersPartition | planner_jidelnicku_final.py:240-246 | `by_tag(t)` and `not_tag(t)` split the items between them |
| Filters.FilterNutrientRange | planner_jidelnicku_final.py:248-254 | a min and a max filter on one nutrient keep exactly the items whose value lies in that range |
| Builder.FirstSlotViolationSpec | planner_jidelnicku_final.py:172-177 | a slot-count failure is reported if and only if some configured slot is out of range, and it is the first such slot in insertion order |
| Builder.FirstLimitViolationSpec | planner_jidelnicku_final.py:192-198 | a limit failure is reported if and only if some limit has a present bound that the total (0 for an unknown metric) breaks, and the one reported is the first broken limit in insertion order |
| Builder.AssembleSpec | planner_jidelnicku_final.py:170-203 | `build` fails exactly when a slot count or a limit is violated; the failure is always the wrapped build error; on success the plan holds the builder's four lists |
| Builder.AssembleReportsFirstSlot | planner_jidelnicku_final.py:172-177 | slot counts are checked before limits: a count failure names the first out-of-range slot |
| Builder.DefaultCapsRejectLoneBreakfast | planner_jidelnicku_final.py:108-113 | with the default capacities a plan with a single breakfast item fails, with lunch having 0 items where 1 is required |
| Builder.DefaultCapsRejectEmptyBreakfast | planner_jidelnicku_final.py:108-113 | with the default capacities an empty breakfast fails on breakfast's minimum of 1 |
| Builder.ItemsInSlotCoversPlan | planner_jidelnicku_final.py:205-215 | the four known slot names select the four lists, whose concatenation is the whole plan; "snack" reads `snacks`; any other name has no items |
| Builder.MealPlanBuilder.constructor | planner_jidelnicku_final.py:101-113 | a new builder has four empty lists and the default capacities breakfast (1,2), lunch (1,3), dinner (1,3), snack (0,2) |
| Builder.MealPlanBuilder.SetSlotLimits | planner_jidelnicku_final.py:115-118 | the slot's capacity is replaced (kept in place, or appended when new); the lists are unchanged |
| Builder.MealPlanBuilder.AddToSlot | planner_jidelnicku_final.py:120-136 | an ineligible food is refused and nothing changes; otherwise exactly the named slot's list gets the food appended; an unknown name changes nothing; the capacities are unchanged |
| Builder.MealPlanBuilder.AddBreakfast | planner_jidelnicku_final.py:138-140 | `add_to_slot("breakfast", item)` |
| Builder.MealPlanBuilder.AddLunch | planner_jidelnicku_final.py:142-144 | `add_to_slot("lunch", item)` |
| Builder.MealPlanBuilder.AddDinner | planner_jidelnicku_final.py:146-148 | `add_to_slot("dinner", item)` |
| Builder.MealPlanBuilder.AddSnack | planner_jidelnicku_final.py:150-152 | `add_to_slot("snack", item)`, appending to `snacks` |
| Builder.MealPlanBuilder.Build | planner_jidelnicku_final.py:154-203 | the result is the build outcome for the builder's current capacities and lists (characterised by AssembleSpec) |
| Scoring.ScoreFood | planner_jidelnicku_final.py:359-381 | the scoring loop computes the sum over active nutrients of the contribution at ratio value / max(target, 1) with weight `weights.get(n, 1.0)`, divided by 4 |
| Scoring.PartialScoreInactive | planner_jidelnicku_final.py:363-364 | a prefix of nutrients whose targets are all missing or not positive scores exactly 0 |
| Scoring.ScoreWithoutActiveTargets | planner_jidelnicku_final.py:359-381 | a food scores 0 when no target is present and positive |
| Scoring.ContributionPeaksAtTarget | planner_jidelnicku_final.py:369-376 | for a positive weight a contribution is at most the weight, and equals it if and only if the ratio is 1 |
| Scoring.ContributionRisesToTarget | planner_jidelnicku_final.py:372-376 | below the target a larger ratio scores strictly more |
| Scoring.ContributionFallsPastTarget | planner_jidelnicku_final.py:372-376 | past the target a larger ratio scores strictly less, and past 1.5 the contribution is negative |
| Ranking.SortByScoreSpec | planner_jidelnicku_final.py:385 | the ranking is sorted by descending score, is a permutation of its input, and keeps input order among equal scores |
| Selector.ScoreAllKeepsFoods | planner_jidelnicku_final.py:359-382 | the scored pairs carry exactly the input foods in catalog order, each with the score the formula gives it |
| Selector.CheckLimits | planner_jidelnicku_final.py:400-408 | the limit loop computes the limit verdict (characterised by WithinSpec) |
| Selector.WithinSpec | planner_jidelnicku_final.py:400-408 | a candidate passes if and only if every limit passes; it is refused only when some maximum would be exceeded; the only error is an unknown limited name |
| Selector.KnapsackOptimize | planner_jidelnicku_final.py:327-414 | the scoring, sorting and acceptance loops compute the selector's result, error included |
| Selector.SelectSpec | planner_jidelnicku_final.py:391-412 | the acceptance loop keeps the accepted foods a subsequence of what it has seen, each accepted prefix passing every limit on its own sum, and at most `max_items` of them |
| Selector.KnapsackSpec | planner_jidelnicku_final.py:353-414 | empty targets or foods give []; otherwise the result has at most `max_items` foods, is a subsequence of the ranking, and every accepted prefix passed all limits; which candidates are accepted is stated by SelectPrefixStep |
| Selector.SelectSnoc | planner_jidelnicku_final.py:390-412 | the acceptance loop over one more candidate is the loop over the shorter list followed by one more step: nothing once `max_items` foods are selected, otherwise the limit check's verdict on the totals with the candidate added |
| Selector.SelectPrefixStep | planner_jidelnicku_final.py:390-412 | after the first `k` ranked candidates, candidate `k` is appended if and only if the selection is not full and the limit check with it added passes; a full selection or an earlier error is kept; a refused candidate leaves the selection unchanged and pushes some bounded nutrient over its maximum; an unknown limited name is the error |
| Selector.KnapsackStaysUnderMaxima | planner_jidelnicku_final.py:396-412 | for each limit with a maximum and no larger minimum, the running total after every acceptance stays at or below that maximum |
| Selector.KnapsackFromFoods | planner_jidelnicku_final.py:327-414 | every selected food is one of the input foods |
| Selector.SelectWithoutUpperBounds | planner_jidelnicku_final.py:391-412 | with no maxima every candidate is accepted until `max_items` is reached |
| Selector.KnapsackWithoutUpperBounds | planner_jidelnicku_final.py:401-408 | falling short of a minimum never refuses a candidate: with no maxima the result is the first `max_items` foods of the ranking |
| Allocator.EmptyDistributionSpec | planner_jidelnicku_final.py:432 | the starting distribution is well formed (one list per configured slot, within every maximum) and holds no food in any slot |
| Allocator.DistributeToSlots | planner_jidelnicku_final.py:416-461 | the nested loops compute the allocation, including the error of an unconfigured slot |
| Allocator.FirstPassSpec | planner_jidelnicku_final.py:437-450 | the first pass picks the first eligible slot with room that is not breakfast for meat; it fails only on an eligible unconfigured slot |
| Allocator.FallbackSpec | planner_jidelnicku_final.py:452-459 | the fallback picks the first slot with room; it fails only on an unconfigured slot |
| Allocator.ChooseSlotSpec | planner_jidelnicku_final.py:434-459 | a chosen slot has room; an eligible slot is chosen whenever one qualifies, so meat goes to breakfast only when none does; a food is dropped only when all four slots are full; never an error when all four are configured |
| Allocator.PlaceSpec | planner_jidelnicku_final.py:447-449 | appending to a slot with room keeps the allocation within its maxima, adds exactly that food, and leaves the other slots unchanged |
| Allocator.DistributeFromSpec | planner_jidelnicku_final.py:434-461 | the food loop keeps every list within its maximum and in processing order, and places each food at most once |
| Allocator.DistributeSpec | planner_jidelnicku_final.py:416-461 | every configured slot gets a list; no list exceeds its maximum; only the four meal slots receive food; each list keeps the input order; no food is placed more often than it occurs |
| Allocator.DistributeFromErrors | planner_jidelnicku_final.py:438-457 | the loop fails only for one of the four meal slots missing from the capacities, and never when all four are present |
| Allocator.DistributeErrors | planner_jidelnicku_final.py:438-457 | `distribute_to_slots` raises only for a missing meal slot, and never when all four are configured |
| Allocator.RoomLeft | planner_jidelnicku_final.py:452-459 | while fewer foods are placed than the total room, some meal slot has room |
| Allocator.DistributeFromKeepsAll | planner_jidelnicku_final.py:452-459 | when the remaining foods fit, every one of them is placed |
| Allocator.DistributeKeepsAll | planner_jidelnicku_final.py:434-461 | with all four slots configured and room for every food, nothing is dropped: the placed foods are exactly the input |
| Orchestrator.CollectSlotFoods | planner_jidelnicku_final.py:492-494 | each configured slot is mapped to the catalog filtered by that meal time |
| Orchestrator.ScaleTargets | planner_jidelnicku_final.py:516-518 | every daily target is scaled by the slot's share |
| Orchestrator.PoolByTargets | planner_jidelnicku_final.py:510-529 | the per-slot selector loop computes the pool, with the errors of a missing slot or an unknown limit |
| Orchestrator.PoolByEligibility | planner_jidelnicku_final.py:532-535 | the no-target loop computes the pool, with the error of a missing slot |
| Orchestrator.ConfiguredBuilder | planner_jidelnicku_final.py:541-545 | a fresh builder after `set_slot_limits` for every `slot_caps` entry in order holds the defaults overridden by `slot_caps`, and empty lists |
| Orchestrator.AddAll | planner_jidelnicku_final.py:548-555 | one add loop returns the first refusal, exactly as the eligibility check of that slot's list predicts; when nothing is refused the slot's list has all the foods appended in order, and the capacities are unchanged |
| Orchestrator.BuildWithBuilder | planner_jidelnicku_final.py:541-557 | driving a fresh builder gives the builder stage's result (characterised by FinishSpec) |
| Orchestrator.FindOptimalPlan | planner_jidelnicku_final.py:464-561 | the whole pipeline returns the plan, or `None` on any failure |
| Orchestrator.SlotEligibilitySpec | planner_jidelnicku_final.py:548-555 | an add loop succeeds if and only if every food is eligible for the slot, and otherwise names the first ineligible food |
| Orchestrator.EligibilitySpec | planner_jidelnicku_final.py:548-555 | the four add loops succeed if and only if every food sits in a slot it is eligible for |
| Orchestrator.PoolWithTargetsSpec | planner_jidelnicku_final.py:510-529 | a slot missing from the capacities makes the loop fail; every pooled food comes from one of the slots' filtered lists |
| Orchestrator.PoolWithoutTargetsSpec | planner_jidelnicku_final.py:532-535 | the same for the no-target loop |
| Orchestrator.PooledSpec | planner_jidelnicku_final.py:490-535 | a missing meal slot makes pooling fail; every pooled food is a catalog food eligible for one of the four meal slots |
| Orchestrator.MissingMealSlotGivesNone | planner_jidelnicku_final.py:490-561 | a meal slot missing from `slot_caps` makes the search return `None` |
| Orchestrator.FinishSpec | planner_jidelnicku_final.py:541-557 | the builder stage succeeds if and only if every food is eligible and the merged capacities and all limits hold, and then returns the lists unchanged |
| Orchestrator.AfterPoolingWithinCaps | planner_jidelnicku_final.py:538-557 | after allocation and building, every meal slot is within the maximum `slot_caps` gives it |
| Orchestrator.AfterPoolingFromPool | planner_jidelnicku_final.py:538-557 | no food appears in the plan more often than in the pool |
| Orchestrator.PlanFoodsFromCatalog | planner_jidelnicku_final.py:464-561 | a returned plan implies all four meal slots are configured, and the plan holds only catalog foods |
| Orchestrator.PlanSound | planner_jidelnicku_final.py:464-561 | a returned plan has every food in an eligible slot, every meal slot within `slot_caps`, every merged capacity in range and every limit met |
| Orchestrator.SlotTargetsSpec | planner_jidelnicku_final.py:497-518 | per-slot targets are exactly the daily targets without `None` entries, and the four shares add back to the daily target |
| Orchestrator.PoolWithoutTargetsConfigured | planner_jidelnicku_final.py:532-535 | with every slot configured the no-target loop concatenates each slot's list cut to its maximum |
| Orchestrator.PooledWithoutTargets | planner_jidelnicku_final.py:530-535 | with no targets each meal slot contributes its first max-cap eligible foods in catalog order, breakfast first; limits and weights play no part |
| Orchestrator.ScenarioPooled | planner_jidelnicku_final.py:530-535 | a worked example: soup and ham with lunch capped at 1 pool as [ham, soup] |
| Orchestrator.ScenarioFirstItem | planner_jidelnicku_final.py:437-450 | the meat dish skips breakfast and goes to lunch |
| Orchestrator.ScenarioSecondItem | planner_jidelnicku_final.py:452-459 | the lunch-only soup finds lunch full and falls back into breakfast |
| Orchestrator.ScenarioDistributed | planner_jidelnicku_final.py:432-461 | the allocation is soup at breakfast, ham at lunch |
| Orchestrator.IneligibleFallbackGivesNone | planner_jidelnicku_final.py:538-561 | the fallback's ineligible placement makes the builder refuse the soup for breakfast, and the search returns `None` |
| LegacyPlanner.TotalsAppend | meal_planner.py:20-27 | calorie and macro totals are additive over concatenation |
| LegacyPlanner.CombosSound | meal_planner.py:53 | every enumerated combination has `r` strictly increasing positions within range |
| LegacyPlanner.CombosComplete | meal_planner.py:53 | every such position sequence is enumerated |
| LegacyPlanner.CombosOrdered | meal_planner.py:53 | combinations of one size come in strictly increasing lexicographic order |
| LegacyPlanner.CombosTooLarge | meal_planner.py:53 | a size larger than the number of foods yields no combination |
| LegacyPlanner.NoLargerCombos | meal_planner.py:52-53 | sizes beyond the number of foods add no candidates |
| LegacyPlanner.EnumFromSpec | meal_planner.py:52-53 | the candidates of sizes r..`max_items` are exactly the increasing position sequences of those sizes, ordered by size then lexicographically |
| LegacyPlanner.EnumerationSpec | meal_planner.py:52-53 | the same for sizes 2..`max_items` |
| LegacyPlanner.PickSpec | meal_planner.py:53-54 | a combination picks the foods at its positions |
| LegacyPlanner.SearchSpec | meal_planner.py:54-58 | the search keeps the first candidate of least difference: none before it is as close, and none is closer |
| LegacyPlanner.GeneratePlan | meal_planner.py:49-59 | the nested loops return the plan of the best combination, or `None` |
| LegacyPlanner.NoPlanIff | meal_planner.py:49-59 | the result is `None` if and only if there are fewer than two foods or `max_items < 2` |
| LegacyPlanner.PlanIsClosest | meal_planner.py:52-58 | the plan is 2..`max_items` foods from increasing positions; its difference from the target is at most that of every such combination; among equally close ones it comes first by size, then lexicographically |
| LegacyPlanner.PickSameCalories | meal_planner.py:54 | a combination's calorie sum depends only on the foods' calories |
| LegacyPlanner.SearchSameCalories | meal_planner.py:54-58 | the search's choice depends only on calories |
| LegacyPlanner.OnlyCaloriesMatter | meal_planner.py:54-55 | food lists with the same calories position by position give the plan from the same positions |

## Left out

- CSV loading (`load_foods` and `MealPlanner.load_data`), the console menus, the `__repr__`
  formatting and the printed messages: these are I/O. The catalog is an input sequence, and
  `MealPlanner` is reduced to that sequence.
- Floating point: protein, fat, carbs, ratios and scores are exact `real`; calories are
  integers. The selector's running calorie total, a float in the source, is the same sum
  as an integer.
- `build`'s `targets` argument is not modelled. It never changes the outcome: only `limits` is checked.
- `list.sort`, `itertools.combinations` and `sum` are library calls. They are modelled as pure
  functions: a stable insertion sort, lexicographic index enumeration, and a recursive sum.
  The ranking is a new value rather than the list sorted in place.
- Exceptions other than the four `PlanError` kinds are not modelled. These include a
  `TypeError` from malformed tuples or `None` where a number is expected. The Dafny types rule
  such inputs out.
- LegacyPlanner.GeneratePlan: `target_calories` is an integer, as its only caller passes
  `int(input(...))`. `max_items` is an explicit parameter rather than defaulting to 5.
- `slot_caps` and `limits` are Python dicts, so their keys are distinct. The association
  sequences that stand for them do not require it. On a repeated key, a lookup reads the
  first entry (the allocator's capacities) while `Put` keeps the last (the builder's merged
  capacities). No dict can produce such an input.
- `test_planner.py:48-53` expects `build()` to accept a single breakfast item. The code rejects
  it, because lunch and dinner have a minimum of 1 by default. The model follows the code:
  Builder.DefaultCapsRejectLoneBreakfast.
