/**
 * The editable intake summary of one nutrients tool result
 * (src/components/macro-summary/index.tsx): the food record of the tool's
 * schema, serving-quantity edits that rescale four nutrient fields from the
 * originally fetched food, deletion of one food, and the four totals.
 * Quantities are reals; a parsed input is an Option, None standing for NaN.
 */
module MacroSummary {
  import opened Wrappers
  import CalendarDates

  /** One food of a nutrients tool result (the tool's food schema). */
  datatype Food = Food(
    foodName: string,
    servingQty: real,
    servingUnit: string,
    calories: real,
    totalFat: real,
    carbohydrates: real,
    protein: real,
    sugars: real,
    dietaryFiber: real,
    potassium: real,
    cholesterol: real,
    saturatedFat: real,
    sodium: real,
    phosphorus: real,
    img: Option<string>,
    // carried along from the lookup although the schema does not name it
    servingWeight: Option<real>)

  /** The four nutrients that scale with the serving and are totalled. */
  datatype Nutrient = Calories | Fat | Carbs | Protein

  function Amount(f: Food, n: Nutrient): real {
    match n
    case Calories => f.calories
    case Fat => f.totalFat
    case Carbs => f.carbohydrates
    case Protein => f.protein
  }

  /** `a` and `b` agree on every field that a serving edit never touches. */
  predicate SameFixedFields(a: Food, b: Food) {
    a.foodName == b.foodName && a.servingUnit == b.servingUnit
    && a.sugars == b.sugars && a.dietaryFiber == b.dietaryFiber
    && a.potassium == b.potassium && a.cholesterol == b.cholesterol
    && a.saturatedFat == b.saturatedFat && a.sodium == b.sodium
    && a.phosphorus == b.phosphorus && a.img == b.img
    && a.servingWeight == b.servingWeight
  }

  /** The entry for an input that does not parse as a number. */
  function Zeroed(original: Food): (f: Food)
    ensures SameFixedFields(f, original)
    ensures f.servingQty == 0.0
    ensures forall n :: Amount(f, n) == 0.0
  {
    original.(servingQty := 0.0, calories := 0.0, totalFat := 0.0, carbohydrates := 0.0, protein := 0.0)
  }

  /**
   * The original food resized to `qty` servings: the four scaled nutrients
   * keep their amount per serving unit, the other fields are the original's.
   */
  function Scaled(original: Food, qty: real): (f: Food)
    requires original.servingQty != 0.0
    ensures SameFixedFields(f, original)
    ensures f.servingQty == qty
  {
    var ratio := qty / original.servingQty;
    original.(
      servingQty := qty,
      calories := original.calories * ratio,
      totalFat := original.totalFat * ratio,
      carbohydrates := original.carbohydrates * ratio,
      protein := original.protein * ratio)
  }

  /** Each scaled nutrient keeps the original's amount per serving unit. */
  lemma ScaledIsProportional(original: Food, qty: real, n: Nutrient)
    requires original.servingQty != 0.0
    ensures Amount(Scaled(original, qty), n) * original.servingQty == Amount(original, n) * qty
  {
    var ratio := qty / original.servingQty;
    assert ratio * original.servingQty == qty;
    assert Amount(Scaled(original, qty), n) == Amount(original, n) * ratio;
  }

  /** Asking for the original serving gives back the original food. */
  lemma ScaledToOriginalServing(original: Food)
    requires original.servingQty != 0.0
    ensures Scaled(original, original.servingQty) == original
  {
  }

  /** A quantity of zero zeroes the same fields as a non-numeric input. */
  lemma ScaledToZeroIsZeroed(original: Food)
    requires original.servingQty != 0.0
    ensures Scaled(original, 0.0) == Zeroed(original)
  {
  }

  /**
   * The food list after a serving-quantity edit of position `index` with the
   * parsed input `qty`; the edit always starts from `initialFoods[index]`.
   */
  function ServingUpdate(initialFoods: seq<Food>, foods: seq<Food>, isToday: bool,
                         index: nat, qty: Option<real>): (r: seq<Food>)
    requires index < |foods| <= |initialFoods|
    requires isToday && qty.Some? && qty.value >= 0.0 ==> initialFoods[index].servingQty != 0.0
    ensures |r| == |foods|
    ensures forall j :: 0 <= j < |foods| && j != index ==> r[j] == foods[j]
    ensures !isToday ==> r == foods
    ensures isToday && qty.None? ==> r[index] == Zeroed(initialFoods[index])
    ensures isToday && qty.Some? && qty.value < 0.0 ==> r == foods
    ensures isToday && qty.Some? && qty.value >= 0.0 ==> r[index] == Scaled(initialFoods[index], qty.value)
  {
    if !isToday then foods
    else match qty
      case None => foods[index := Zeroed(initialFoods[index])]
      case Some(q) =>
        if q < 0.0 then foods
        else foods[index := Scaled(initialFoods[index], q)]
  }

  /** Entering the same input twice has the effect of entering it once. */
  lemma ServingUpdateIdempotent(initialFoods: seq<Food>, foods: seq<Food>, isToday: bool,
                                index: nat, qty: Option<real>)
    requires index < |foods| <= |initialFoods|
    requires isToday && qty.Some? && qty.value >= 0.0 ==> initialFoods[index].servingQty != 0.0
    ensures var once := ServingUpdate(initialFoods, foods, isToday, index, qty);
      ServingUpdate(initialFoods, once, isToday, index, qty) == once
  {
  }

  /** Because edits start from the original, the latest edit of a position is all that matters. */
  lemma ServingUpdateForgetsEarlierEdit(initialFoods: seq<Food>, foods: seq<Food>, index: nat,
                                        first: Option<real>, second: Option<real>)
    requires index < |foods| <= |initialFoods|
    requires initialFoods[index].servingQty != 0.0
    requires second.None? || second.value >= 0.0
    ensures var once := ServingUpdate(initialFoods, foods, true, index, first);
      ServingUpdate(initialFoods, once, true, index, second)
      == ServingUpdate(initialFoods, foods, true, index, second)
  {
  }

  /** `s` without its element at `index`; an index outside `s` removes nothing. */
  function WithoutIndex<T>(s: seq<T>, index: int): (r: seq<T>)
    ensures 0 <= index < |s| ==> |r| == |s| - 1
    ensures 0 <= index < |s| ==> forall j :: 0 <= j < |r| ==> r[j] == (if j < index then s[j] else s[j + 1])
    ensures 0 <= index < |s| ==> multiset(r) + multiset{s[index]} == multiset(s)
    ensures !(0 <= index < |s|) ==> r == s
  {
    if 0 <= index < |s| then
      assert s == s[..index] + [s[index]] + s[index + 1..];
      s[..index] + s[index + 1..]
    else s
  }

  /** The list after deleting position `index`; only today's summaries can be edited. */
  function Deletion(foods: seq<Food>, isToday: bool, index: int): (r: seq<Food>)
    ensures !isToday ==> r == foods
    ensures isToday ==> r == WithoutIndex(foods, index)
  {
    if isToday then WithoutIndex(foods, index) else foods
  }

  /** The sum of one nutrient over the list, added up from the first food on. */
  function Total(foods: seq<Food>, n: Nutrient): real
  {
    if foods == [] then 0.0 else Total(foods[..|foods| - 1], n) + Amount(foods[|foods| - 1], n)
  }

  lemma {:induction false} TotalAppend(a: seq<Food>, b: seq<Food>, n: Nutrient)
    ensures Total(a + b, n) == Total(a, n) + Total(b, n)
  {
    if b == [] {
      assert a + b == a;
    } else {
      assert (a + b)[..|a + b| - 1] == a + b[..|b| - 1];
      TotalAppend(a, b[..|b| - 1], n);
    }
  }

  lemma TotalSingleton(f: Food, n: Nutrient)
    ensures Total([f], n) == Amount(f, n)
  {
    assert [f][..0] == [];
  }

  /** Replacing one food changes each total by the difference of the two foods' amounts. */
  lemma TotalAfterReplace(foods: seq<Food>, index: nat, f: Food, n: Nutrient)
    requires index < |foods|
    ensures Total(foods[index := f], n) == Total(foods, n) - Amount(foods[index], n) + Amount(f, n)
  {
    var pre, post := foods[..index], foods[index + 1..];
    assert foods == pre + [foods[index]] + post;
    assert foods[index := f] == pre + [f] + post;
    TotalAppend(pre + [foods[index]], post, n);
    TotalAppend(pre, [foods[index]], n);
    TotalAppend(pre + [f], post, n);
    TotalAppend(pre, [f], n);
    TotalSingleton(f, n);
    TotalSingleton(foods[index], n);
  }

  /** Deleting one food takes exactly its amount off each total. */
  lemma TotalAfterDelete(foods: seq<Food>, index: nat, n: Nutrient)
    requires index < |foods|
    ensures Total(WithoutIndex(foods, index), n) == Total(foods, n) - Amount(foods[index], n)
  {
    var pre, post := foods[..index], foods[index + 1..];
    assert foods == pre + [foods[index]] + post;
    assert WithoutIndex(foods, index) == pre + post;
    TotalAppend(pre + [foods[index]], post, n);
    TotalAppend(pre, [foods[index]], n);
    TotalAppend(pre, post, n);
    TotalSingleton(foods[index], n);
  }

  /**
   * After position `index` is resized from its original `o`, that position
   * contributes the original amount times the ratio of quantities
   * (ServingUpdateReplacesOne says this is what a positive edit does).
   */
  lemma TotalAfterScaling(foods: seq<Food>, index: nat, o: Food, qty: real, n: Nutrient)
    requires index < |foods| && o.servingQty != 0.0
    ensures Total(foods[index := Scaled(o, qty)], n)
         == Total(foods, n) - Amount(foods[index], n) + Amount(o, n) * qty / o.servingQty
  {
    var s := Scaled(o, qty);
    TotalAfterReplace(foods, index, s, n);
    ScaledAmount(o, qty, n);
    ReplaceSummand(Total(foods[index := s], n), Total(foods, n) - Amount(foods[index], n),
                   Amount(s, n), Amount(o, n) * qty / o.servingQty);
  }

  // Kept apart so that the solver meets the quotient only as an opaque term.
  lemma ReplaceSummand(t: real, base: real, x: real, y: real)
    requires t == base + x && x == y
    ensures t == base + y
  {
  }

  lemma ServingUpdateReplacesOne(initialFoods: seq<Food>, foods: seq<Food>, index: nat, qty: real)
    requires index < |foods| <= |initialFoods|
    requires initialFoods[index].servingQty != 0.0 && qty >= 0.0
    ensures ServingUpdate(initialFoods, foods, true, index, Some(qty))
         == foods[index := Scaled(initialFoods[index], qty)]
  {
    var r := ServingUpdate(initialFoods, foods, true, index, Some(qty));
    var t := foods[index := Scaled(initialFoods[index], qty)];
    forall j | 0 <= j < |r| ensures r[j] == t[j] {
    }
  }

  /** The scaled amount of one nutrient, written as the source computes it. */
  lemma ScaledAmount(o: Food, qty: real, n: Nutrient)
    requires o.servingQty != 0.0
    ensures Amount(Scaled(o, qty), n) == Amount(o, n) * qty / o.servingQty
  {
    var x := Amount(Scaled(o, qty), n);
    ScaledIsProportional(o, qty, n);
    QuotientOfProduct(x, o.servingQty, Amount(o, n) * qty);
  }

  lemma QuotientOfProduct(x: real, d: real, p: real)
    requires d != 0.0 && x * d == p
    ensures x == p / d
  {
  }

  /**
   * `f` is what serving edits can make of the original `o`: `o` itself, `o`
   * zeroed by a non-numeric input, or `o` resized to `f`'s own quantity.
   */
  predicate IsEditOf(o: Food, f: Food) {
    f == o || f == Zeroed(o) || (o.servingQty != 0.0 && f == Scaled(o, f.servingQty))
  }

  /**
   * Row `i` of `foods` is an edit of `originals[i]`: the list a summary shows
   * is aligned row by row with the originals its edits start from.
   */
  predicate RowsAligned(originals: seq<Food>, foods: seq<Food>) {
    |originals| == |foods| && forall i :: 0 <= i < |foods| ==> IsEditOf(originals[i], foods[i])
  }

  /** An edited row keeps its original's name, unit and every unscaled field. */
  lemma EditKeepsFixedFields(o: Food, f: Food)
    requires IsEditOf(o, f)
    ensures SameFixedFields(f, o)
  {
  }

  /** An edit that starts from the row's own original keeps every row aligned. */
  lemma ServingUpdateKeepsRowsAligned(originals: seq<Food>, foods: seq<Food>, isToday: bool,
                                      index: nat, qty: Option<real>)
    requires RowsAligned(originals, foods) && index < |foods|
    requires isToday && qty.Some? && qty.value >= 0.0 ==> originals[index].servingQty != 0.0
    ensures RowsAligned(originals, ServingUpdate(originals, foods, isToday, index, qty))
  {
    var r := ServingUpdate(originals, foods, isToday, index, qty);
    forall i | 0 <= i < |r| ensures IsEditOf(originals[i], r[i]) {
      if i != index {
        assert r[i] == foods[i];
      }
    }
  }

  /** Deleting the same position from the rows and their originals keeps them aligned. */
  lemma DeletionKeepsRowsAligned(originals: seq<Food>, foods: seq<Food>, isToday: bool, index: int)
    requires RowsAligned(originals, foods)
    ensures RowsAligned(Deletion(originals, isToday, index), Deletion(foods, isToday, index))
  {
    var o, r := Deletion(originals, isToday, index), Deletion(foods, isToday, index);
    if isToday && 0 <= index < |foods| {
      forall i | 0 <= i < |r| ensures IsEditOf(o[i], r[i]) {
        if i < index {
          assert r[i] == foods[i] && o[i] == originals[i];
        } else {
          assert r[i] == foods[i + 1] && o[i] == originals[i + 1];
        }
      }
    }
  }

  /**
   * The component as written: after deleting the first of two foods, an
   * edit of the remaining row (the bread) rescales `initialFoods[0]` (the
   * deleted apple) into it, because edits index the original list while
   * deletions shift the displayed one.
   */
  lemma EditAfterDeleteRevivesDeletedFood()
    ensures var apple := Food("apple", 1.0, "medium", 95.0, 0.3, 25.0, 0.5, 19.0, 4.4, 195.0, 0.0, 0.1, 2.0, 20.0, None, None);
      var bread := Food("bread", 1.0, "slice", 80.0, 1.0, 15.0, 3.0, 1.5, 0.8, 35.0, 0.0, 0.2, 150.0, 30.0, None, None);
      var initialFoods := [apple, bread];
      var afterDelete := Deletion(initialFoods, true, 0);
      var afterEdit := ServingUpdate(initialFoods, afterDelete, true, 0, Some(2.0));
      && afterDelete == [bread]
      && afterEdit[0].foodName == "apple"
      && !RowsAligned(Deletion(initialFoods, true, 0), afterEdit)
  {
    var apple := Food("apple", 1.0, "medium", 95.0, 0.3, 25.0, 0.5, 19.0, 4.4, 195.0, 0.0, 0.1, 2.0, 20.0, None, None);
    var bread := Food("bread", 1.0, "slice", 80.0, 1.0, 15.0, 3.0, 1.5, 0.8, 35.0, 0.0, 0.2, 150.0, 30.0, None, None);
    var initialFoods := [apple, bread];
    assert Deletion(initialFoods, true, 0) == [bread];
  }

  /**
   * One food-summary card. Besides the foods it shows, it keeps the
   * originals of the rows still shown (`originals`), so that an edit
   * rescales a row from its own original even after earlier rows were
   * deleted; the component as written rescales from `initialFoods[index]`
   * instead (see EditAfterDeleteRevivesDeletedFood).
   */
  class Summary {
    const initialFoods: seq<Food>
    const messageId: string
    const isToday: bool
    var originals: seq<Food>
    var foods: seq<Food>

    /** Every shown row is an edit of its own original. */
    ghost predicate Valid()
      reads this
    {
      RowsAligned(originals, foods)
    }

    constructor (initial: seq<Food>, id: string,
                 messageCreatedAt: CalendarDates.CalendarDate, today: CalendarDates.CalendarDate)
      ensures Valid()
      ensures initialFoods == initial && originals == initial && foods == initial && messageId == id
      ensures isToday <==> messageCreatedAt == today
    {
      initialFoods := initial;
      messageId := id;
      isToday := messageCreatedAt == today;
      originals := initial;
      foods := initial;
    }

    /** updateServingQuantity, with the edit taken from the row's own original. */
    method UpdateServingQuantity(index: nat, qty: Option<real>)
      requires Valid() && index < |foods|
      requires isToday && qty.Some? && qty.value >= 0.0 ==> originals[index].servingQty != 0.0
      modifies this
      ensures Valid()
      ensures originals == old(originals)
      ensures foods == ServingUpdate(originals, old(foods), isToday, index, qty)
    {
      ServingUpdateKeepsRowsAligned(originals, foods, isToday, index, qty);
      if !isToday {
        return;
      }
      if qty.None? {
        var newFoods := foods;
        newFoods := newFoods[index := Zeroed(originals[index])];
        foods := newFoods;
        return;
      }
      if qty.value < 0.0 {
        return;
      }
      var newFoods := foods;
      var originalFood := originals[index];
      newFoods := newFoods[index := Scaled(originalFood, qty.value)];
      foods := newFoods;
    }

    /** deleteFood: the row and its original go together. */
    method DeleteFood(index: int)
      requires Valid()
      modifies this
      ensures Valid()
      ensures foods == Deletion(old(foods), isToday, index)
      ensures originals == Deletion(old(originals), isToday, index)
    {
      DeletionKeepsRowsAligned(originals, foods, isToday, index);
      if !isToday {
        return;
      }
      foods := WithoutIndex(foods, index);
      originals := WithoutIndex(originals, index);
    }

    /** One of the four totals shown under the list. */
    function TotalOf(n: Nutrient): real
      reads this
    {
      Total(foods, n)
    }
  }
}
