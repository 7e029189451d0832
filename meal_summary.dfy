/**
 * The daily summary of the list operation: the four nutrient totals over every
 * item of every meal of the day, starting from zero, with no rounding.
 */
module MealAggregation {
  import opened MealTypes

  /** The totals of a day with no meals. */
  const NoIntake: DailySummary := DailySummary(0.0, 0.0, 0.0, 0.0)

  /** Field-wise sum of two totals. */
  function Plus(a: DailySummary, b: DailySummary): DailySummary
  {
    DailySummary(a.calories + b.calories, a.protein + b.protein,
                 a.carbohydrates + b.carbohydrates, a.fats + b.fats)
  }

  /** What one item contributes to the totals. */
  function ItemIntake(item: MealItem): DailySummary
  {
    DailySummary(item.calories, item.protein, item.carbohydrates, item.fats)
  }

  /** Totals over a list of items, adding them in order. */
  function SumItems(items: seq<MealItem>): DailySummary
    decreases |items|
  {
    if items == [] then NoIntake
    else Plus(SumItems(items[..|items| - 1]), ItemIntake(items[|items| - 1]))
  }

  /** Totals over a list of meals, meal after meal and item after item. */
  function SumMeals(meals: seq<MealRecord>): DailySummary
    decreases |meals|
  {
    if meals == [] then NoIntake
    else Plus(SumMeals(meals[..|meals| - 1]), SumItems(meals[|meals| - 1].items))
  }

  /** Every item of every meal, in one list. */
  function AllItems(meals: seq<MealRecord>): seq<MealItem>
    decreases |meals|
  {
    if meals == [] then [] else AllItems(meals[..|meals| - 1]) + meals[|meals| - 1].items
  }

  /**
   * The accumulation of the list operation: an accumulator starting at zero, to
   * which each item of each meal adds its four nutrient values.
   */
  method Summarize(meals: seq<MealRecord>) returns (summary: DailySummary)
    ensures summary == SumMeals(meals)
  {
    var calories, protein, carbohydrates, fats := 0.0, 0.0, 0.0, 0.0;
    for m := 0 to |meals|
      invariant DailySummary(calories, protein, carbohydrates, fats) == SumMeals(meals[..m])
    {
      var items := meals[m].items;
      for k := 0 to |items|
        invariant DailySummary(calories, protein, carbohydrates, fats)
                  == Plus(SumMeals(meals[..m]), SumItems(items[..k]))
      {
        assert items[..k + 1][..k] == items[..k];
        calories := calories + items[k].calories;
        protein := protein + items[k].protein;
        carbohydrates := carbohydrates + items[k].carbohydrates;
        fats := fats + items[k].fats;
      }
      assert items[..|items|] == items;
      assert meals[..m + 1][..m] == meals[..m];
    }
    assert meals[..|meals|] == meals;
    summary := DailySummary(calories, protein, carbohydrates, fats);
  }

  lemma {:induction false} SumItemsAppend(a: seq<MealItem>, b: seq<MealItem>)
    ensures SumItems(a + b) == Plus(SumItems(a), SumItems(b))
    decreases |b|
  {
    if b == [] {
      assert a + b == a;
    } else {
      var init := b[..|b| - 1];
      assert (a + b)[..|a + b| - 1] == a + init;
      assert (a + b)[|a + b| - 1] == b[|b| - 1];
      SumItemsAppend(a, init);
    }
  }

  /** The summary is the total over the one list of all the day's items. */
  lemma {:induction false} SumMealsIsSumOfAllItems(meals: seq<MealRecord>)
    ensures SumMeals(meals) == SumItems(AllItems(meals))
    decreases |meals|
  {
    if meals != [] {
      var init := meals[..|meals| - 1];
      SumMealsIsSumOfAllItems(init);
      SumItemsAppend(AllItems(init), meals[|meals| - 1].items);
    }
  }

  lemma {:induction false} SumMealsAppend(a: seq<MealRecord>, b: seq<MealRecord>)
    ensures SumMeals(a + b) == Plus(SumMeals(a), SumMeals(b))
    decreases |b|
  {
    if b == [] {
      assert a + b == a;
    } else {
      var init := b[..|b| - 1];
      var last := b[|b| - 1];
      var ab := a + b;
      assert ab[..|ab| - 1] == a + init;
      assert ab[|ab| - 1] == last;
      assert SumMeals(ab) == Plus(SumMeals(a + init), SumItems(last.items));
      SumMealsAppend(a, init);
      assert SumMeals(b) == Plus(SumMeals(init), SumItems(last.items));
      PlusAssociative(SumMeals(a), SumMeals(init), SumItems(last.items));
    }
  }

  lemma PlusAssociative(x: DailySummary, y: DailySummary, z: DailySummary)
    ensures Plus(Plus(x, y), z) == Plus(x, Plus(y, z))
  {
  }

  /** The summary does not depend on the order of the meals. */
  lemma {:induction false} SumMealsPermutation(a: seq<MealRecord>, b: seq<MealRecord>)
    requires multiset(a) == multiset(b)
    ensures SumMeals(a) == SumMeals(b)
    decreases |a|
  {
    if a == [] {
      assert |b| == |multiset(b)| == 0;
    } else {
      var x := a[|a| - 1];
      var init := a[..|a| - 1];
      var k := RemovedIndex(a, b);
      var rest := b[..k] + b[k + 1..];
      SumMealsPermutation(init, rest);
      SumMealsSplit(b, k);
    }
  }

  /** Where the last meal of `a` sits in its permutation `b`, and what is left of both without it. */
  lemma RemovedIndex(a: seq<MealRecord>, b: seq<MealRecord>) returns (k: nat)
    requires multiset(a) == multiset(b) && a != []
    ensures k < |b| && b[k] == a[|a| - 1]
    ensures multiset(a[..|a| - 1]) == multiset(b[..k] + b[k + 1..])
  {
    var x := a[|a| - 1];
    assert a == a[..|a| - 1] + [x];
    assert x in multiset(b);
    k :| 0 <= k < |b| && b[k] == x;
    SplitAround(b, k);
    assert multiset(b) == multiset(b[..k]) + multiset{x} + multiset(b[k + 1..]);
    assert multiset(b[..k] + b[k + 1..]) == multiset(b[..k]) + multiset(b[k + 1..]);
    assert multiset(a) == multiset(a[..|a| - 1]) + multiset{x};
    calc {
      multiset(a[..|a| - 1]);
      multiset(a) - multiset{x};
      multiset(b) - multiset{x};
      multiset(b[..k]) + multiset(b[k + 1..]);
    }
  }

  /** Taking one meal out of a list takes exactly its items out of the totals. */
  lemma SumMealsSplit(b: seq<MealRecord>, k: nat)
    requires k < |b|
    ensures SumMeals(b) == Plus(SumMeals(b[..k] + b[k + 1..]), SumItems(b[k].items))
  {
    var x := b[k];
    var left, right := b[..k], b[k + 1..];
    var front := left + [x];
    SplitAround(b, k);
    SumMealsAppend(front, right);
    SumMealsSnoc(left, x);
    SumMealsAppend(left, right);
    PlusSwap(SumMeals(left), SumItems(x.items), SumMeals(right));
  }

  lemma SplitAround(b: seq<MealRecord>, k: nat)
    requires k < |b|
    ensures b == (b[..k] + [b[k]]) + b[k + 1..]
  {
  }

  lemma SumMealsSnoc(s: seq<MealRecord>, x: MealRecord)
    ensures SumMeals(s + [x]) == Plus(SumMeals(s), SumItems(x.items))
  {
    assert (s + [x])[..|s|] == s;
  }

  lemma PlusSwap(l: DailySummary, m: DailySummary, r: DailySummary)
    ensures Plus(Plus(l, m), r) == Plus(Plus(l, r), m)
  {
  }

  /** With no negative nutrient value stored, no total is negative. */
  lemma {:induction false} SumMealsNonNegative(meals: seq<MealRecord>)
    requires forall m, i :: 0 <= m < |meals| && 0 <= i < |meals[m].items| ==>
      var it := meals[m].items[i];
      it.calories >= 0.0 && it.protein >= 0.0 && it.carbohydrates >= 0.0 && it.fats >= 0.0
    ensures var s := SumMeals(meals);
      s.calories >= 0.0 && s.protein >= 0.0 && s.carbohydrates >= 0.0 && s.fats >= 0.0
    decreases |meals|
  {
    if meals != [] {
      var init := meals[..|meals| - 1];
      SumMealsNonNegative(init);
      SumItemsNonNegative(meals[|meals| - 1].items);
    }
  }

  lemma {:induction false} SumItemsNonNegative(items: seq<MealItem>)
    requires forall i :: 0 <= i < |items| ==>
      items[i].calories >= 0.0 && items[i].protein >= 0.0 && items[i].carbohydrates >= 0.0 && items[i].fats >= 0.0
    ensures var s := SumItems(items);
      s.calories >= 0.0 && s.protein >= 0.0 && s.carbohydrates >= 0.0 && s.fats >= 0.0
    decreases |items|
  {
    if items != [] {
      SumItemsNonNegative(items[..|items| - 1]);
    }
  }
}
