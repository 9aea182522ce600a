/** The per-food fitness score of `knapsack_optimize`. Arithmetic is exact (`real`). */
module Scoring {
  import opened Foods

  function MaxReal(a: real, b: real): real { if a >= b then a else b }

  function Abs(x: real): real { if x < 0.0 then -x else x }

  /** One nutrient's share at `ratio = value / max(target, 1)`: a reward peaking at ratio 1,
      or a proportional penalty once the ratio passes 1.5. */
  function Contribution(ratio: real, weight: real): real {
    if ratio > 1.5 then -weight * (ratio - 1.0) else weight * (1.0 - Abs(1.0 - ratio))
  }

  /** A nutrient is scored when its target is present and strictly positive. */
  predicate Active(targets: map<string, real>, nutrient: string) {
    nutrient in targets && targets[nutrient] > 0.0
  }

  /** `weights.get(nutrient, 1.0)`. */
  function WeightOf(weights: map<string, real>, nutrient: string): real {
    if nutrient in weights then weights[nutrient] else 1.0
  }

  function NutrientContribution(f: Food, targets: map<string, real>, weights: map<string, real>, nutrient: string): real {
    if Active(targets, nutrient) then
      Contribution(NutrientValue(f, nutrient) / MaxReal(targets[nutrient], 1.0), WeightOf(weights, nutrient))
    else 0.0
  }

  /** The running score after the first `k` nutrients. */
  function PartialScore(f: Food, targets: map<string, real>, weights: map<string, real>, k: nat): real
    requires k <= |Nutrients|
  {
    if k == 0 then 0.0
    else PartialScore(f, targets, weights, k - 1) + NutrientContribution(f, targets, weights, Nutrients[k - 1])
  }

  /** The summed contributions divided by the fixed count of tracked nutrients (4). */
  function Score(f: Food, targets: map<string, real>, weights: map<string, real>): real {
    PartialScore(f, targets, weights, |Nutrients|) / (|Nutrients| as real)
  }

  /** The scoring loop of `knapsack_optimize` for one food. */
  method ScoreFood(food: Food, targets: map<string, real>, weights: map<string, real>) returns (score: real)
    ensures score == Score(food, targets, weights)
  {
    score := 0.0;
    for k := 0 to |Nutrients|
      invariant score == PartialScore(food, targets, weights, k)
    {
      var nutrient := Nutrients[k];
      if nutrient in targets && targets[nutrient] > 0.0 {
        var nutrientVal := NutrientValue(food, nutrient);
        var targetVal := targets[nutrient];
        var weight := if nutrient in weights then weights[nutrient] else 1.0;
        var ratio := nutrientVal / MaxReal(targetVal, 1.0);
        var contribution;
        if ratio > 1.5 {
          contribution := -weight * (ratio - 1.0);
        } else {
          contribution := weight * (1.0 - Abs(1.0 - ratio));
        }
        score := score + contribution;
      }
    }
    score := score / (|Nutrients| as real);
  }

  lemma {:induction false} PartialScoreInactive(f: Food, targets: map<string, real>, weights: map<string, real>, k: nat)
    requires k <= |Nutrients|
    requires forall i :: 0 <= i < k ==> !Active(targets, Nutrients[i])
    ensures PartialScore(f, targets, weights, k) == 0.0
  {
    if k > 0 {
      PartialScoreInactive(f, targets, weights, k - 1);
    }
  }

  /** A food scores 0 when no target is active. */
  lemma ScoreWithoutActiveTargets(f: Food, targets: map<string, real>, weights: map<string, real>)
    requires forall i :: 0 <= i < |Nutrients| ==> !Active(targets, Nutrients[i])
    ensures Score(f, targets, weights) == 0.0
  {
    PartialScoreInactive(f, targets, weights, |Nutrients|);
  }

  /** For a positive weight a nutrient contributes at most its weight, and exactly its
      weight only when it hits its target (ratio 1). */
  lemma ContributionPeaksAtTarget(ratio: real, weight: real)
    requires weight > 0.0
    ensures Contribution(ratio, weight) <= weight
    ensures Contribution(ratio, weight) == weight <==> ratio == 1.0
  {
    if ratio > 1.5 {
      assert weight * (ratio - 1.0) > 0.0;
    } else if ratio <= 1.0 {
      assert Contribution(ratio, weight) == weight * ratio;
      assert weight - weight * ratio == weight * (1.0 - ratio);
      if ratio < 1.0 { assert weight * (1.0 - ratio) > 0.0; }
    } else {
      assert Contribution(ratio, weight) == weight * (2.0 - ratio);
      assert weight - weight * (2.0 - ratio) == weight * (ratio - 1.0);
      assert weight * (ratio - 1.0) > 0.0;
    }
  }

  /** Below the target, a larger ratio scores strictly better. */
  lemma ContributionRisesToTarget(r1: real, r2: real, weight: real)
    requires weight > 0.0 && r1 < r2 <= 1.0
    ensures Contribution(r1, weight) < Contribution(r2, weight)
  {
    assert Contribution(r1, weight) == weight * r1;
    assert Contribution(r2, weight) == weight * r2;
    assert weight * r2 - weight * r1 == weight * (r2 - r1);
    assert weight * (r2 - r1) > 0.0;
  }

  /** Past the target, a larger ratio scores strictly worse; past 1.5 the contribution
      turns negative. */
  lemma ContributionFallsPastTarget(r1: real, r2: real, weight: real)
    requires weight > 0.0 && 1.0 <= r1 < r2
    ensures Contribution(r2, weight) < Contribution(r1, weight)
    ensures r2 > 1.5 ==> Contribution(r2, weight) < 0.0
  {
    assert weight * (r2 - r1) > 0.0;
    if r2 > 1.5 {
      assert weight * (r2 - 1.0) > weight * 0.5;
      if r1 <= 1.5 {
        assert Contribution(r1, weight) == weight * (2.0 - r1);
        assert weight * (2.0 - r1) >= weight * 0.5;
      } else {
        assert weight * (r2 - 1.0) - weight * (r1 - 1.0) == weight * (r2 - r1);
      }
    } else {
      assert Contribution(r1, weight) == weight * (2.0 - r1);
      assert Contribution(r2, weight) == weight * (2.0 - r2);
      assert weight * (2.0 - r1) - weight * (2.0 - r2) == weight * (r2 - r1);
    }
  }
}
