/** The older planner of `meal_planner.py`: among all combinations of 2..`max_items` foods,
    the one whose calorie sum is closest to the target, ties going to the first combination
    `itertools.combinations` enumerates. */
module LegacyPlanner {
  import opened Wrappers

  datatype FoodItem = FoodItem(name: string, calories: int, protein: real, fat: real, carbs: real)

  function SumCalories(items: seq<FoodItem>): int {
    if items == [] then 0 else SumCalories(items[..|items| - 1]) + items[|items| - 1].calories
  }

  function SumProtein(items: seq<FoodItem>): real {
    if items == [] then 0.0 else SumProtein(items[..|items| - 1]) + items[|items| - 1].protein
  }

  function SumFat(items: seq<FoodItem>): real {
    if items == [] then 0.0 else SumFat(items[..|items| - 1]) + items[|items| - 1].fat
  }

  function SumCarbs(items: seq<FoodItem>): real {
    if items == [] then 0.0 else SumCarbs(items[..|items| - 1]) + items[|items| - 1].carbs
  }

  datatype MealPlan = MealPlan(items: seq<FoodItem>) {
    function TotalCalories(): int { SumCalories(items) }
    function TotalMacros(): (real, real, real) { (SumProtein(items), SumFat(items), SumCarbs(items)) }
  }

  /** The totals of a plan are additive over concatenation. */
  lemma {:induction false} TotalsAppend(a: seq<FoodItem>, b: seq<FoodItem>)
    ensures MealPlan(a + b).TotalCalories() == MealPlan(a).TotalCalories() + MealPlan(b).TotalCalories()
    ensures MealPlan(a + b).TotalMacros().0 == MealPlan(a).TotalMacros().0 + MealPlan(b).TotalMacros().0
    ensures MealPlan(a + b).TotalMacros().1 == MealPlan(a).TotalMacros().1 + MealPlan(b).TotalMacros().1
    ensures MealPlan(a + b).TotalMacros().2 == MealPlan(a).TotalMacros().2 + MealPlan(b).TotalMacros().2
    decreases |b|
  {
    if b == [] {
      assert a + b == a;
    } else {
      TotalsAppend(a, b[..|b| - 1]);
      assert (a + b)[..|a + b| - 1] == a + b[..|b| - 1];
    }
  }

  /** Index combinations: strictly increasing positions. */
  predicate StrictlyIncreasing(c: seq<nat>) {
    forall i, j :: 0 <= i < j < |c| ==> c[i] < c[j]
  }

  predicate InRange(c: seq<nat>, lo: nat, n: nat) {
    forall k :: 0 <= k < |c| ==> lo <= c[k] < n
  }

  /** Lexicographic order on index sequences. */
  predicate LexLess(a: seq<nat>, b: seq<nat>)
    decreases |a|
  {
    a != [] && b != [] && (a[0] < b[0] || (a[0] == b[0] && LexLess(a[1..], b[1..])))
  }

  function Prefix(x: nat, ss: seq<seq<nat>>): (r: seq<seq<nat>>)
    ensures |r| == |ss| && forall i :: 0 <= i < |ss| ==> r[i] == [x] + ss[i]
  {
    seq(|ss|, i requires 0 <= i < |ss| => [x] + ss[i])
  }

  /** `combinations(range(lo, n), r)` in the order itertools yields them. */
  function Combos(lo: nat, n: nat, r: nat): seq<seq<nat>>
    decreases n - lo
  {
    if r == 0 then [[]]
    else if lo >= n then []
    else Prefix(lo, Combos(lo + 1, n, r - 1)) + Combos(lo + 1, n, r)
  }

  /** Sizes `r..max_items`, each in itertools order. */
  function EnumFrom(n: nat, r: nat, maxItems: int): seq<seq<nat>>
    decreases maxItems - r
  {
    if r > maxItems then [] else Combos(0, n, r) + EnumFrom(n, r + 1, maxItems)
  }

  /** Every candidate `generate_plan` looks at, in order. */
  function Enumeration(n: nat, maxItems: int): seq<seq<nat>> {
    EnumFrom(n, 2, maxItems)
  }

  /** The foods at the positions of `c` (the tuple `combinations` yields). */
  function Pick(items: seq<FoodItem>, c: seq<nat>): seq<FoodItem>
    decreases |c|
  {
    if c == [] then [] else (if c[0] < |items| then [items[c[0]]] else []) + Pick(items, c[1..])
  }

  /** `abs(target_calories - total)`. */
  function Diff(items: seq<FoodItem>, target: int, c: seq<nat>): nat {
    var d := target - SumCalories(Pick(items, c));
    if d < 0 then -d else d
  }

  datatype Best = Best(combo: seq<nat>, diff: nat)

  /** One iteration of the inner loop: replace on a strictly smaller difference (`None` is
      `float('inf')`). */
  function Step(items: seq<FoodItem>, target: int, best: Option<Best>, c: seq<nat>): Option<Best> {
    var d := Diff(items, target, c);
    if best.None? || d < best.value.diff then Some(Best(c, d)) else best
  }

  function SearchFrom(items: seq<FoodItem>, target: int, best: Option<Best>, cands: seq<seq<nat>>): Option<Best>
    decreases |cands|
  {
    if cands == [] then best else SearchFrom(items, target, Step(items, target, best, cands[0]), cands[1..])
  }

  /** The best combination `generate_plan` keeps. */
  function BestCombo(items: seq<FoodItem>, target: int, maxItems: int): Option<Best> {
    SearchFrom(items, target, None, Enumeration(|items|, maxItems))
  }

  /** What `generate_plan(target_calories, max_items)` returns. */
  function GeneratedPlan(items: seq<FoodItem>, target: int, maxItems: int): Option<MealPlan> {
    match BestCombo(items, target, maxItems)
    case None => None
    case Some(b) => Some(MealPlan(Pick(items, b.combo)))
  }

  method GeneratePlan(foodItems: seq<FoodItem>, targetCalories: int, maxItems: int) returns (plan: Option<MealPlan>)
    ensures plan == GeneratedPlan(foodItems, targetCalories, maxItems)
  {
    var bestPlan: Option<seq<nat>> := None;
    var bestDiff: Option<nat> := None;
    ghost var all := Enumeration(|foodItems|, maxItems);
    var r := 2;
    while r <= maxItems
      invariant 2 <= r
      invariant r <= maxItems + 1 || r == 2
      invariant (bestPlan.None? <==> bestDiff.None?)
      invariant SearchFrom(foodItems, targetCalories, None, all)
                == SearchFrom(foodItems, targetCalories, Current(bestPlan, bestDiff), EnumFrom(|foodItems|, r, maxItems))
      decreases maxItems - r
    {
      var combos := Combos(0, |foodItems|, r);
      ghost var start := Current(bestPlan, bestDiff);
      for j := 0 to |combos|
        invariant (bestPlan.None? <==> bestDiff.None?)
        invariant SearchFrom(foodItems, targetCalories, start, combos)
                  == SearchFrom(foodItems, targetCalories, Current(bestPlan, bestDiff), combos[j..])
      {
        ghost var before := Current(bestPlan, bestDiff);
        var total := SumCalories(Pick(foodItems, combos[j]));
        var diff: nat := if targetCalories - total < 0 then total - targetCalories else targetCalories - total;
        assert diff == Diff(foodItems, targetCalories, combos[j]);
        if bestDiff.None? || diff < bestDiff.value {
          bestDiff := Some(diff);
          bestPlan := Some(combos[j]);
          assert Current(bestPlan, bestDiff) == Some(Best(combos[j], diff));
        } else {
          assert Current(bestPlan, bestDiff) == before;
        }
        assert Current(bestPlan, bestDiff) == Step(foodItems, targetCalories, before, combos[j]);
        SearchStep(foodItems, targetCalories, before, combos[j..]);
        assert combos[j..][1..] == combos[j + 1..];
      }
      SearchAppend(foodItems, targetCalories, start, combos, EnumFrom(|foodItems|, r + 1, maxItems));
      r := r + 1;
    }
    if bestPlan.Some? {
      plan := Some(MealPlan(Pick(foodItems, bestPlan.value)));
    } else {
      plan := None;
    }
  }

  /** The pair of loop variables as one value. */
  function Current(bestPlan: Option<seq<nat>>, bestDiff: Option<nat>): Option<Best> {
    if bestPlan.Some? && bestDiff.Some? then Some(Best(bestPlan.value, bestDiff.value)) else None
  }

  /** One combination more: the search goes on from the updated best. */
  lemma SearchStep(items: seq<FoodItem>, target: int, best: Option<Best>, cands: seq<seq<nat>>)
    requires cands != []
    ensures SearchFrom(items, target, best, cands) == SearchFrom(items, target, Step(items, target, best, cands[0]), cands[1..])
  {
  }

  lemma {:induction false} SearchAppend(items: seq<FoodItem>, target: int, best: Option<Best>, a: seq<seq<nat>>, b: seq<seq<nat>>)
    ensures SearchFrom(items, target, best, a + b) == SearchFrom(items, target, SearchFrom(items, target, best, a), b)
    decreases |a|
  {
    if a == [] {
      assert a + b == b;
    } else {
      assert (a + b)[1..] == a[1..] + b;
      SearchAppend(items, target, Step(items, target, best, a[0]), a[1..], b);
    }
  }

  /** Every combination `Combos` lists has `r` strictly increasing positions in `lo..n`. */
  lemma {:induction false} CombosSound(lo: nat, n: nat, r: nat, c: seq<nat>)
    requires c in Combos(lo, n, r)
    ensures |c| == r && StrictlyIncreasing(c) && InRange(c, lo, n)
    decreases n - lo
  {
    if r != 0 {
      var A := Combos(lo + 1, n, r - 1);
      var B := Combos(lo + 1, n, r);
      assert Combos(lo, n, r) == Prefix(lo, A) + B;
      if c in B {
        CombosSound(lo + 1, n, r, c);
      } else {
        var i :| 0 <= i < |A| && Prefix(lo, A)[i] == c;
        CombosSound(lo + 1, n, r - 1, A[i]);
        ConsIncreasing(lo, A[i], n);
      }
    }
  }

  /** Putting a position in front of an increasing combination above it keeps it increasing. */
  lemma ConsIncreasing(x: nat, t: seq<nat>, n: nat)
    requires x < n && StrictlyIncreasing(t) && InRange(t, x + 1, n)
    ensures StrictlyIncreasing([x] + t) && InRange([x] + t, x, n)
  {
    var c := [x] + t;
    assert forall k :: 1 <= k < |c| ==> c[k] == t[k - 1];
  }

  /** ... and every such combination is listed. */
  lemma {:induction false} CombosComplete(lo: nat, n: nat, r: nat, c: seq<nat>)
    requires |c| == r && StrictlyIncreasing(c) && InRange(c, lo, n)
    ensures c in Combos(lo, n, r)
    decreases n - lo
  {
    if r == 0 {
      assert c == [];
    } else {
      assert lo <= c[0] < n;
      TailOfIncreasing(c, lo, n);
      if c[0] == lo {
        CombosComplete(lo + 1, n, r - 1, c[1..]);
        ListedWithHead(lo, n, r, c);
      } else {
        CombosComplete(lo + 1, n, r, c);
        ListedWithoutHead(lo, n, r, c);
      }
    }
  }

  /** A combination starting at `lo` is listed through its tail. */
  lemma ListedWithHead(lo: nat, n: nat, r: nat, c: seq<nat>)
    requires 0 < r && lo < n && |c| > 0 && c[0] == lo && c[1..] in Combos(lo + 1, n, r - 1)
    ensures c in Combos(lo, n, r)
  {
    var A := Combos(lo + 1, n, r - 1);
    var P := Prefix(lo, A);
    var i :| 0 <= i < |A| && A[i] == c[1..];
    assert P[i] == [c[0]] + c[1..] == c;
    InEitherPart(c, P, Combos(lo + 1, n, r));
  }

  /** A combination above `lo` is listed among those that skip `lo`. */
  lemma ListedWithoutHead(lo: nat, n: nat, r: nat, c: seq<nat>)
    requires 0 < r && lo < n && c in Combos(lo + 1, n, r)
    ensures c in Combos(lo, n, r)
  {
    InEitherPart(c, Prefix(lo, Combos(lo + 1, n, r - 1)), Combos(lo + 1, n, r));
  }

  lemma InEitherPart<T>(x: T, a: seq<T>, b: seq<T>)
    requires x in a || x in b
    ensures x in a + b
  {
  }

  /** The tail of an increasing combination in `lo..n` is increasing and lies above its head;
      when the head is above `lo`, the whole combination lies in `lo + 1..n`. */
  lemma TailOfIncreasing(c: seq<nat>, lo: nat, n: nat)
    requires |c| > 0 && StrictlyIncreasing(c) && InRange(c, lo, n)
    ensures StrictlyIncreasing(c[1..]) && InRange(c[1..], c[0] + 1, n)
    ensures c[0] > lo ==> InRange(c, lo + 1, n)
  {
    assert forall k :: 0 < k < |c| ==> c[0] < c[k];
  }

  /** `Combos` lists its combinations in strictly increasing lexicographic order. */
  lemma {:induction false} CombosOrdered(lo: nat, n: nat, r: nat)
    ensures forall i, j :: 0 <= i < j < |Combos(lo, n, r)| ==> LexLess(Combos(lo, n, r)[i], Combos(lo, n, r)[j])
    decreases n - lo
  {
    if r != 0 && lo < n {
      var A := Combos(lo + 1, n, r - 1);
      var B := Combos(lo + 1, n, r);
      var P := Prefix(lo, A);
      var C := Combos(lo, n, r);
      assert C == P + B;
      CombosOrdered(lo + 1, n, r - 1);
      CombosOrdered(lo + 1, n, r);
      forall i, j | 0 <= i < j < |C|
        ensures LexLess(C[i], C[j])
      {
        if j < |P| {
          assert C[i] == [lo] + A[i] && C[j] == [lo] + A[j];
          assert C[i][1..] == A[i] && C[j][1..] == A[j];
        } else if i < |P| {
          assert C[i] == [lo] + A[i];
          assert C[j] == B[j - |P|];
          CombosSound(lo + 1, n, r, B[j - |P|]);
        } else {
          assert C[i] == B[i - |P|] && C[j] == B[j - |P|];
        }
      }
    }
  }

  /** The enumeration order of `generate_plan`: by size, then lexicographically. */
  predicate EnumOrdered(e: seq<seq<nat>>) {
    forall i, j :: 0 <= i < j < |e| ==>
      |e[i]| < |e[j]| || (|e[i]| == |e[j]| && LexLess(e[i], e[j]))
  }

  /** The candidates are exactly the increasing position sequences of size `r..max_items`,
      in size-then-lexicographic order. */
  lemma {:induction false} EnumFromSpec(n: nat, r: nat, maxItems: int)
    ensures forall c :: c in EnumFrom(n, r, maxItems) <==>
      (r <= |c| <= maxItems && StrictlyIncreasing(c) && InRange(c, 0, n))
    ensures EnumOrdered(EnumFrom(n, r, maxItems))
    decreases maxItems - r
  {
    if r <= maxItems {
      var C := Combos(0, n, r);
      var E := EnumFrom(n, r + 1, maxItems);
      EnumFromSpec(n, r + 1, maxItems);
      CombosOrdered(0, n, r);
      forall c | c in C
        ensures |c| == r && StrictlyIncreasing(c) && InRange(c, 0, n)
      {
        CombosSound(0, n, r, c);
      }
      forall c | r <= |c| <= maxItems && StrictlyIncreasing(c) && InRange(c, 0, n)
        ensures c in C + E
      {
        if |c| == r { CombosComplete(0, n, r, c); }
      }
      var S := C + E;
      forall i, j | 0 <= i < j < |S|
        ensures |S[i]| < |S[j]| || (|S[i]| == |S[j]| && LexLess(S[i], S[j]))
      {
        if j < |C| {
          assert S[i] == C[i] && S[j] == C[j];
        } else if i < |C| {
          assert S[i] == C[i] && S[j] == E[j - |C|];
          assert C[i] in C && E[j - |C|] in E;
        } else {
          assert S[i] == E[i - |C|] && S[j] == E[j - |C|];
        }
      }
    }
  }

  /** The fold keeps the first candidate of least difference among those it has seen. */
  lemma {:induction false} SearchSpec(items: seq<FoodItem>, target: int, cands: seq<seq<nat>>)
    ensures var r := SearchFrom(items, target, None, cands);
      && (r.Some? <==> cands != [])
      && (r.Some? ==> exists i :: (0 <= i < |cands| && cands[i] == r.value.combo
            && r.value.diff == Diff(items, target, cands[i])
            && (forall k :: 0 <= k < i ==> r.value.diff < Diff(items, target, cands[k]))))
      && (r.Some? ==> forall k :: 0 <= k < |cands| ==> r.value.diff <= Diff(items, target, cands[k]))
    decreases |cands|
  {
    if cands != [] {
      var init := cands[..|cands| - 1];
      var last := cands[|cands| - 1];
      assert cands == init + [last];
      assert forall k :: 0 <= k < |init| ==> cands[k] == init[k];
      SearchAppend(items, target, None, init, [last]);
      SearchSpec(items, target, init);
      var prev := SearchFrom(items, target, None, init);
      var r := SearchFrom(items, target, None, cands);
      assert r == Step(items, target, prev, last);
      var d := Diff(items, target, last);
      if prev.None? || d < prev.value.diff {
        assert cands[|cands| - 1] == r.value.combo;
      } else {
        var i :| 0 <= i < |init| && init[i] == prev.value.combo
          && prev.value.diff == Diff(items, target, init[i])
          && (forall k :: 0 <= k < i ==> prev.value.diff < Diff(items, target, init[k]));
        assert cands[i] == r.value.combo;
      }
    }
  }

  /** `combinations(items, r)` yields nothing when `r` exceeds the number of items. */
  lemma {:induction false} CombosTooLarge(lo: nat, n: nat, r: nat)
    requires 0 < r && lo + r > n
    ensures Combos(lo, n, r) == []
    decreases n - lo
  {
    if lo < n {
      CombosTooLarge(lo + 1, n, r - 1);
      CombosTooLarge(lo + 1, n, r);
    }
  }

  lemma {:induction false} NoLargerCombos(n: nat, r: nat, maxItems: int)
    requires r > n
    ensures EnumFrom(n, r, maxItems) == []
    decreases maxItems - r
  {
    if r <= maxItems {
      CombosTooLarge(0, n, r);
      NoLargerCombos(n, r + 1, maxItems);
    }
  }

  /** A combination `generate_plan` may return: 2..`max_items` distinct foods, taken in
      their order in the list. */
  predicate Candidate(c: seq<nat>, n: nat, maxItems: int) {
    2 <= |c| <= maxItems && StrictlyIncreasing(c) && InRange(c, 0, n)
  }

  lemma EnumerationSpec(n: nat, maxItems: int)
    ensures forall c :: c in Enumeration(n, maxItems) <==> Candidate(c, n, maxItems)
    ensures EnumOrdered(Enumeration(n, maxItems))
  {
    EnumFromSpec(n, 2, maxItems);
  }

  /** The positions of a combination pick those foods. */
  lemma {:induction false} PickSpec(items: seq<FoodItem>, c: seq<nat>)
    requires InRange(c, 0, |items|)
    ensures |Pick(items, c)| == |c|
    ensures forall k :: 0 <= k < |c| ==> Pick(items, c)[k] == items[c[k]]
    decreases |c|
  {
    if c != [] {
      PickSpec(items, c[1..]);
    }
  }

  /** `generate_plan` returns `None` exactly when there is no combination to try: fewer than
      two foods, or `max_items` below 2. */
  lemma NoPlanIff(items: seq<FoodItem>, target: int, maxItems: int)
    ensures GeneratedPlan(items, target, maxItems).None? <==> (|items| < 2 || maxItems < 2)
  {
    var n := |items|;
    var e := Enumeration(n, maxItems);
    SearchSpec(items, target, e);
    EnumerationSpec(n, maxItems);
    if n >= 2 && maxItems >= 2 {
      assert Candidate([0, 1], n, maxItems);
    } else if n < 2 {
      NoLargerCombos(n, 2, maxItems);
    }
  }

  /** The kept combination is a candidate, and `diff` is its own difference. */
  lemma BestIsCandidate(items: seq<FoodItem>, target: int, maxItems: int)
    requires BestCombo(items, target, maxItems).Some?
    ensures Candidate(BestCombo(items, target, maxItems).value.combo, |items|, maxItems)
    ensures BestCombo(items, target, maxItems).value.diff
            == Diff(items, target, BestCombo(items, target, maxItems).value.combo)
  {
    var e := Enumeration(|items|, maxItems);
    SearchSpec(items, target, e);
    EnumerationSpec(|items|, maxItems);
    var b := BestCombo(items, target, maxItems).value;
    var i :| 0 <= i < |e| && e[i] == b.combo && b.diff == Diff(items, target, e[i]);
    assert b.combo in e;
  }

  /** The kept combination is at least as close as any candidate, and an equally close
      candidate comes no earlier in the enumeration order. */
  lemma BestBeats(items: seq<FoodItem>, target: int, maxItems: int, c': seq<nat>)
    requires BestCombo(items, target, maxItems).Some?
    requires Candidate(c', |items|, maxItems)
    ensures var b := BestCombo(items, target, maxItems).value;
      && b.diff <= Diff(items, target, c')
      && (b.diff == Diff(items, target, c') ==>
            b.combo == c' || |b.combo| < |c'| || (|b.combo| == |c'| && LexLess(b.combo, c')))
  {
    var e := Enumeration(|items|, maxItems);
    SearchSpec(items, target, e);
    EnumerationSpec(|items|, maxItems);
    var b := BestCombo(items, target, maxItems).value;
    var i :| 0 <= i < |e| && e[i] == b.combo && b.diff == Diff(items, target, e[i])
      && (forall k :: 0 <= k < i ==> b.diff < Diff(items, target, e[k]));
    assert c' in e;
    var j :| 0 <= j < |e| && e[j] == c';
    if b.diff == Diff(items, target, c') && i < j {
      assert |e[i]| < |e[j]| || (|e[i]| == |e[j]| && LexLess(e[i], e[j]));
    }
  }

  /** The plan is a combination of 2..`max_items` foods from distinct positions, whose
      calorie sum is at least as close to the target as that of every such combination; among
      the equally close ones it is the first in itertools' order (fewer foods first, then
      lexicographically by position). */
  lemma PlanIsClosest(items: seq<FoodItem>, target: int, maxItems: int)
    ensures match GeneratedPlan(items, target, maxItems)
      case None => true
      case Some(p) => exists c :: (Candidate(c, |items|, maxItems) && p.items == Pick(items, c)
        && |p.items| == |c|
        && (forall k :: 0 <= k < |c| ==> p.items[k] == items[c[k]])
        && (forall c' :: Candidate(c', |items|, maxItems) ==>
              && Diff(items, target, c) <= Diff(items, target, c')
              && (Diff(items, target, c) == Diff(items, target, c') ==>
                    c == c' || |c| < |c'| || (|c| == |c'| && LexLess(c, c')))))
  {
    var r := BestCombo(items, target, maxItems);
    if r.Some? {
      var c := r.value.combo;
      BestIsCandidate(items, target, maxItems);
      PickSpec(items, c);
      forall c' | Candidate(c', |items|, maxItems)
        ensures Diff(items, target, c) <= Diff(items, target, c')
        ensures Diff(items, target, c) == Diff(items, target, c') ==>
                  c == c' || |c| < |c'| || (|c| == |c'| && LexLess(c, c'))
      {
        BestBeats(items, target, maxItems, c');
      }
    }
  }

  /** Only calories take part in the choice: two food lists with the same calories position by
      position get plans from the same positions. */
  predicate SameCalories(a: seq<FoodItem>, b: seq<FoodItem>) {
    |a| == |b| && forall i :: 0 <= i < |a| ==> a[i].calories == b[i].calories
  }

  lemma {:induction false} PickSameCalories(a: seq<FoodItem>, b: seq<FoodItem>, c: seq<nat>)
    requires SameCalories(a, b)
    ensures SumCalories(Pick(a, c)) == SumCalories(Pick(b, c))
    decreases |c|
  {
    if c != [] {
      PickSameCalories(a, b, c[1..]);
      var ha := if c[0] < |a| then [a[c[0]]] else [];
      var hb := if c[0] < |b| then [b[c[0]]] else [];
      TotalsAppend(ha, Pick(a, c[1..]));
      TotalsAppend(hb, Pick(b, c[1..]));
      if c[0] < |a| {
        assert SumCalories(ha) == SumCalories([]) + a[c[0]].calories by { assert ha[..0] == []; }
        assert SumCalories(hb) == SumCalories([]) + b[c[0]].calories by { assert hb[..0] == []; }
      }
    }
  }

  lemma {:induction false} SearchSameCalories(a: seq<FoodItem>, b: seq<FoodItem>, target: int,
                                              best: Option<Best>, cands: seq<seq<nat>>)
    requires SameCalories(a, b)
    ensures SearchFrom(a, target, best, cands) == SearchFrom(b, target, best, cands)
    decreases |cands|
  {
    if cands != [] {
      PickSameCalories(a, b, cands[0]);
      SearchSameCalories(a, b, target, Step(a, target, best, cands[0]), cands[1..]);
    }
  }

  lemma OnlyCaloriesMatter(a: seq<FoodItem>, b: seq<FoodItem>, target: int, maxItems: int)
    requires SameCalories(a, b)
    ensures BestCombo(a, target, maxItems) == BestCombo(b, target, maxItems)
    ensures GeneratedPlan(a, target, maxItems).Some? <==> GeneratedPlan(b, target, maxItems).Some?
  {
    SearchSameCalories(a, b, target, None, Enumeration(|a|, maxItems));
  }
}
