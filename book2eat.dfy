/** The meal list of the canteen page (src/components/book2eat.rs): the
    meals of today, taken from the menu in the order its map is iterated,
    and `sort_meals`, which orders them by the first character of their
    type name, largest first. Today's date, which the source reads from
    the local clock, is a parameter. */
module Book2Eat {
  import opened Wrappers
  import opened Sorting
  import opened Calendar

  /** `Meal` of the menu response. */
  datatype Meal = Meal(name: string, date: string, typName: string, price: string)

  // ----------------------------------------------------------------------
  // The sort key

  /** `typ_name.chars().next()`. */
  function FirstChar(s: string): Option<char> {
    if s == [] then None else Some(s[0])
  }

  /** `Ord` on `Option<char>`: `None` below every `Some`, then by character. */
  predicate KeyLe(a: Option<char>, b: Option<char>) {
    match (a, b)
    case (None, _) => true
    case (Some(_), None) => false
    case (Some(x), Some(y)) => x <= y
  }

  function ByFirstChar(): (Meal, Meal) -> bool {
    (a: Meal, b: Meal) => KeyLe(FirstChar(a.typName), FirstChar(b.typName))
  }

  lemma ByFirstCharIsPreorder()
    ensures TotalPreorder(ByFirstChar())
  {
  }

  // ----------------------------------------------------------------------
  // Reversal

  /** `Vec::reverse`, on values. */
  function Reversed<T>(s: seq<T>): (r: seq<T>)
    ensures |r| == |s|
  {
    if s == [] then [] else Reversed(s[1..]) + [s[0]]
  }

  lemma {:induction false} ReversedAt<T>(s: seq<T>, i: int)
    requires 0 <= i < |s|
    ensures Reversed(s)[i] == s[|s| - 1 - i]
    decreases |s|
  {
    if i < |s| - 1 {
      ReversedAt(s[1..], i);
    }
  }

  lemma {:induction false} ReversedMultiset<T>(s: seq<T>)
    ensures multiset(Reversed(s)) == multiset(s)
  {
    if s != [] {
      ReversedMultiset(s[1..]);
      assert s == [s[0]] + s[1..];
    }
  }

  lemma {:induction false} ReversedAppend<T>(a: seq<T>, b: seq<T>)
    ensures Reversed(a + b) == Reversed(b) + Reversed(a)
    decreases |a|
  {
    if a == [] {
      assert a + b == b;
    } else {
      assert (a + b)[1..] == a[1..] + b;
      ReversedAppend(a[1..], b);
    }
  }

  lemma {:induction false} EquivalentToAppend<T>(a: seq<T>, b: seq<T>, le: (T, T) -> bool, x: T)
    ensures EquivalentTo(a + b, le, x) == EquivalentTo(a, le, x) + EquivalentTo(b, le, x)
    decreases |a|
  {
    if a == [] {
      assert a + b == b;
    } else {
      assert (a + b)[1..] == a[1..] + b;
      EquivalentToAppend(a[1..], b, le, x);
    }
  }

  /** Reversing a sequence reverses each run of equivalent elements. */
  lemma {:induction false} EquivalentToReversed<T>(s: seq<T>, le: (T, T) -> bool, x: T)
    ensures EquivalentTo(Reversed(s), le, x) == Reversed(EquivalentTo(s, le, x))
  {
    if s != [] {
      var h := s[0];
      var e := if le(h, x) && le(x, h) then [h] else [];
      EquivalentToReversed(s[1..], le, x);
      EquivalentToAppend(Reversed(s[1..]), [h], le, x);
      assert EquivalentTo([h], le, x) == e;
      ReversedAppend(e, EquivalentTo(s[1..], le, x));
      assert Reversed(e) == e;
    }
  }

  // ----------------------------------------------------------------------
  // sort_meals

  /** `sort_meals`: a copy sorted stably by the first character of the
      type name, then reversed. The result is a permutation of the input,
      ordered from the largest key down, so meals without a type name come
      last, and meals with equal keys appear in the reverse of their input
      order. */
  method SortMeals(meals: seq<Meal>) returns (r: seq<Meal>)
    ensures multiset(r) == multiset(meals)
    ensures forall i, j :: 0 <= i < j < |r| ==> KeyLe(FirstChar(r[j].typName), FirstChar(r[i].typName))
    ensures forall i, j :: 0 <= i < j < |r| && r[i].typName == [] ==> r[j].typName == []
    ensures forall m :: EquivalentTo(r, ByFirstChar(), m) == Reversed(EquivalentTo(meals, ByFirstChar(), m))
  {
    var todays := meals;
    ByFirstCharIsPreorder();
    todays := SortBy(todays, ByFirstChar());
    ghost var sorted := todays;
    SortBySorted(meals, ByFirstChar());
    todays := Reversed(todays);
    ReversedMultiset(sorted);
    forall i, j | 0 <= i < j < |todays|
      ensures KeyLe(FirstChar(todays[j].typName), FirstChar(todays[i].typName))
    {
      ReversedAt(sorted, i);
      ReversedAt(sorted, j);
      assert ByFirstChar()(sorted[|sorted| - 1 - j], sorted[|sorted| - 1 - i]);
    }
    forall m
      ensures EquivalentTo(todays, ByFirstChar(), m) == Reversed(EquivalentTo(meals, ByFirstChar(), m))
    {
      EquivalentToReversed(sorted, ByFirstChar(), m);
      SortByStable(meals, ByFirstChar(), m);
    }
    r := todays;
  }

  // ----------------------------------------------------------------------
  // Today's meals

  /** The meals whose `date` is `day`, in menu order. */
  function MealsOn(meals: seq<Meal>, day: string): (r: seq<Meal>)
    ensures |r| <= |meals|
  {
    if meals == [] then []
    else (if meals[0].date == day then [meals[0]] else []) + MealsOn(meals[1..], day)
  }

  /** `filter(|meal| meal.date == today)`, today written as `%Y-%m-%d`. */
  function TodaysMeals(meals: seq<Meal>, today: int): seq<Meal> {
    MealsOn(meals, Format(today))
  }

  /** Every meal of that day is kept, as often as it occurs, and no other. */
  lemma {:induction false} MealsOnCounts(meals: seq<Meal>, day: string, m: Meal)
    ensures multiset(MealsOn(meals, day))[m] == if m.date == day then multiset(meals)[m] else 0
  {
    if meals != [] {
      var h, t := meals[0], meals[1..];
      var kept := if h.date == day then [h] else [];
      MealsOnCounts(t, day, m);
      assert meals == [h] + t;
      assert MealsOn(meals, day) == kept + MealsOn(t, day);
      assert multiset(MealsOn(meals, day)) == multiset(kept) + multiset(MealsOn(t, day));
      assert multiset(meals) == multiset{h} + multiset(t);
    }
  }

  /** Every kept meal is of that day, and nothing is kept exactly when the
      menu has no meal of that day. */
  lemma {:induction false} MealsOnOnlyThatDay(meals: seq<Meal>, day: string)
    ensures forall k :: 0 <= k < |MealsOn(meals, day)| ==> MealsOn(meals, day)[k].date == day
    ensures MealsOn(meals, day) == [] <==> forall i :: 0 <= i < |meals| ==> meals[i].date != day
  {
    if meals != [] {
      MealsOnOnlyThatDay(meals[1..], day);
      assert forall i :: 1 <= i < |meals| ==> meals[i] == meals[1..][i - 1];
    }
  }

  lemma TodaysMealsAreToday(meals: seq<Meal>, today: int, m: Meal)
    ensures m in TodaysMeals(meals, today) <==> m in meals && m.date == Format(today)
  {
    MealsOnCounts(meals, Format(today), m);
  }
}
