/** Food records, meal plans and their nutrient totals
    (`FoodItem` and `MealPlan` in planner_jidelnicku_final.py). */
module Foods {
  import opened Wrappers

  const Breakfast: string := "breakfast"
  const Lunch: string := "lunch"
  const Dinner: string := "dinner"
  const Snack: string := "snack"

  /** The fixed slot order of the allocator and of the builder's default capacities. */
  const MealSlots: seq<string> := [Breakfast, Lunch, Dinner, Snack]

  const Calories: string := "calories"
  const Protein: string := "protein"
  const Fat: string := "fat"
  const Carbs: string := "carbs"

  /** The four tracked nutrients, in the order the selector scores them. */
  const Nutrients: seq<string> := [Calories, Protein, Fat, Carbs]

  /** An immutable food record. `mealTimes` are the slots it is eligible for. */
  datatype Food = Food(
    name: string,
    calories: int,
    protein: real,
    fat: real,
    carbs: real,
    mealTimes: set<string>,
    tags: set<string>)

  /** A record with the dataclass defaults: eligible for every slot, no tags. */
  function PlainFood(name: string, calories: int, protein: real, fat: real, carbs: real): Food {
    Food(name, calories, protein, fat, carbs, {Breakfast, Lunch, Dinner, Snack}, {})
  }

  /** `get_nutrient_value`: any name other than the four nutrients reads as 0. */
  function NutrientValue(f: Food, nutrient: string): real {
    if nutrient == Calories then f.calories as real
    else if nutrient == Protein then f.protein
    else if nutrient == Fat then f.fat
    else if nutrient == Carbs then f.carbs
    else 0.0
  }

  /** The dict `{"calories": ..., "protein": ..., "fat": ..., "carbs": ...}`. */
  datatype NutrientTotals = NutrientTotals(calories: int, protein: real, fat: real, carbs: real) {
    function Add(f: Food): NutrientTotals {
      NutrientTotals(calories + f.calories, protein + f.protein, fat + f.fat, carbs + f.carbs)
    }

    function Plus(o: NutrientTotals): NutrientTotals {
      NutrientTotals(calories + o.calories, protein + o.protein, fat + o.fat, carbs + o.carbs)
    }

    /** `totals[name]`: `None` plays the part of a missing key. */
    function Get(nutrient: string): Option<real> {
      if nutrient == Calories then Some(calories as real)
      else if nutrient == Protein then Some(protein)
      else if nutrient == Fat then Some(fat)
      else if nutrient == Carbs then Some(carbs)
      else None
    }
  }

  const Zero: NutrientTotals := NutrientTotals(0, 0.0, 0.0, 0.0)

  /** Per-nutrient sums over `items`, accumulated front to back. */
  function SumTotals(items: seq<Food>): NutrientTotals
    decreases |items|
  {
    if items == [] then Zero
    else SumTotals(items[..|items| - 1]).Add(items[|items| - 1])
  }

  /** The sum of one nutrient's values over `items`. */
  function NutrientSum(items: seq<Food>, nutrient: string): real
    decreases |items|
  {
    if items == [] then 0.0
    else NutrientSum(items[..|items| - 1], nutrient) + NutrientValue(items[|items| - 1], nutrient)
  }

  datatype MealPlan = MealPlan(breakfast: seq<Food>, lunch: seq<Food>, dinner: seq<Food>, snacks: seq<Food>) {
    function AllItems(): seq<Food> {
      breakfast + lunch + dinner + snacks
    }

    function Totals(): NutrientTotals {
      SumTotals(AllItems())
    }
  }

  /** Totals of a concatenation are the sums of the parts' totals. */
  lemma {:induction false} SumTotalsAppend(a: seq<Food>, b: seq<Food>)
    ensures SumTotals(a + b) == SumTotals(a).Plus(SumTotals(b))
    decreases |b|
  {
    if b == [] {
      assert a + b == a;
    } else {
      var b' := b[..|b| - 1];
      assert (a + b)[..|a + b| - 1] == a + b';
      SumTotalsAppend(a, b');
    }
  }

  /** A plan's totals add up the totals of its four slot lists. */
  lemma PlanTotalsAdditive(p: MealPlan)
    ensures p.Totals() == SumTotals(p.breakfast).Plus(SumTotals(p.lunch))
                                                .Plus(SumTotals(p.dinner))
                                                .Plus(SumTotals(p.snacks))
  {
    SumTotalsAppend(p.breakfast + p.lunch + p.dinner, p.snacks);
    SumTotalsAppend(p.breakfast + p.lunch, p.dinner);
    SumTotalsAppend(p.breakfast, p.lunch);
  }

  /** Looking up a nutrient in the totals gives the sum of `NutrientValue` over the items;
      any other name is a missing key. */
  lemma {:induction false} TotalsGetIsNutrientSum(items: seq<Food>, nutrient: string)
    ensures nutrient in Nutrients ==> SumTotals(items).Get(nutrient) == Some(NutrientSum(items, nutrient))
    ensures nutrient !in Nutrients ==> SumTotals(items).Get(nutrient).None?
    decreases |items|
  {
    if items != [] {
      TotalsGetIsNutrientSum(items[..|items| - 1], nutrient);
    }
  }

  /** The four slot names differ from one another. */
  lemma MealSlotsDistinct()
    ensures Breakfast != Lunch && Breakfast != Dinner && Breakfast != Snack
    ensures Lunch != Dinner && Lunch != Snack && Dinner != Snack
  {
    assert Breakfast[0] == 'b' && Lunch[0] == 'l' && Dinner[0] == 'd' && Snack[0] == 's';
  }

  /** Two records, one at breakfast and one at lunch, give 500 kcal, 35 g protein,
      15 g fat and 55 g carbs. */
  lemma TotalsScenario()
    ensures
      var p := MealPlan([PlainFood("food 1", 300, 20.0, 10.0, 30.0)],
                        [PlainFood("food 2", 200, 15.0, 5.0, 25.0)], [], []);
      p.Totals() == NutrientTotals(500, 35.0, 15.0, 55.0)
  {
    var a := PlainFood("food 1", 300, 20.0, 10.0, 30.0);
    var b := PlainFood("food 2", 200, 15.0, 5.0, 25.0);
    assert [a] + [b] + [] + [] == [a, b];
    assert [a, b][..1] == [a];
    assert [a][..0] == [];
  }
}
