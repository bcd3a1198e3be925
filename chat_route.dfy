/**
 * The chat API route (src/app/api/chat/route.ts): the authentication guard
 * of GET and POST, the order in which POST reads and stores history, and
 * the nutrients tool: the query text sent to Nutritionix and the mapping of
 * its answer onto the app's Food record. Authentication, the HTTP calls,
 * JSON parsing and the language model are inputs: the caller passes the
 * user id (if any), the parsed answer (if any) and the response messages.
 */
module ChatRoute {
  import opened Wrappers
  import opened ChatMessages
  import opened MacroSummary
  import RedisStore

  /** How many stored messages POST gives the model as context. */
  const ContextSize: nat := 10

  /** Query parameters of GET, once parsed; an absent or empty parameter is None. */
  datatype HistoryQuery = HistoryQuery(limit: Option<nat>, lastTimestamp: Option<int>)

  datatype Response =
    | Unauthorized                      // status 401
    | History(messages: seq<Message>)   // GET: the JSON page
    | Streamed(context: seq<Message>)   // POST: the stream, started from this context

  /**
   * GET: 401 without a signed-in user; otherwise one page of the user's
   * remote history as the query asks for. The store is only read.
   */
  method Get(userId: Option<string>, query: HistoryQuery, redis: RedisStore.Redis) returns (resp: Response)
    requires redis.Valid()
    ensures userId.None? <==> resp.Unauthorized?
    ensures userId.Some? ==>
      && resp.History?
      && redis.HistoryPage(userId.value, query.limit.GetOr(RedisStore.DefaultLimit), query.lastTimestamp, resp.messages)
  {
    if userId.None? {
      return Unauthorized;
    }
    var messages := redis.GetMessages(userId.value, query.limit, query.lastTimestamp);
    resp := History(messages);
  }

  /**
   * POST: 401 without a signed-in user, and then the store is untouched.
   * Otherwise the model sees the ten newest stored messages followed by the
   * new one, and when the stream finishes the new message is stored first,
   * then the response messages in their order.
   */
  method Post(userId: Option<string>, message: Message, responseMessages: seq<Message>, redis: RedisStore.Redis)
    returns (resp: Response)
    requires redis.Valid()
    modifies redis
    ensures redis.Valid()
    ensures userId.None? ==>
      && resp.Unauthorized?
      && redis.sortedSets == old(redis.sortedSets)
      && redis.hashes == old(redis.hashes)
    ensures userId.Some? ==>
      && resp.Streamed?
      && |resp.context| > 0
      && resp.context[|resp.context| - 1] == message
      && old(redis.HistoryPage(userId.value, ContextSize, None, resp.context[..|resp.context| - 1]))
    ensures userId.Some? ==>
      var u := userId.value;
      && redis.sortedSets == old(redis.sortedSets)[RedisStore.ChatKey(u) :=
           RedisStore.ZAddAll(old(redis.Chat(u)), [message] + responseMessages)]
      && redis.hashes == old(redis.hashes)[RedisStore.HashKey(u) :=
           RedisStore.HSetAll(old(redis.ById(u)), [message] + responseMessages)]
  {
    if userId.None? {
      return Unauthorized;
    }
    var dbMessages := redis.GetMessages(userId.value, Some(ContextSize), None);
    var context := dbMessages + [message];
    assert context[..|context| - 1] == dbMessages;
    // onFinish, once the model's answer is complete
    redis.StoreMessages(userId.value, [message] + responseMessages);
    resp := Streamed(context);
  }

  // ----- the nutrients tool -----

  /** One food the model asks about. */
  datatype FoodRequest = FoodRequest(food: string, unit: string, amount: real)

  /**
   * "<amount> <unit> of <food>"; `showAmount` stands for JavaScript's
   * number-to-text conversion, which is not modelled.
   */
  function Describe(r: FoodRequest, showAmount: real -> string): string {
    showAmount(r.amount) + " " + r.unit + " of " + r.food
  }

  /** The description of each requested food, in request order. */
  function Descriptions(foods: seq<FoodRequest>, showAmount: real -> string): (d: seq<string>)
    ensures |d| == |foods|
    ensures forall i :: 0 <= i < |foods| ==> d[i] == Describe(foods[i], showAmount)
  {
    if foods == [] then []
    else Descriptions(foods[..|foods| - 1], showAmount) + [Describe(foods[|foods| - 1], showAmount)]
  }

  /** Array.prototype.join: the parts with `sep` between neighbours; no parts give "". */
  function Join(parts: seq<string>, sep: string): string {
    if parts == [] then ""
    else if |parts| == 1 then parts[0]
    else Join(parts[..|parts| - 1], sep) + sep + parts[|parts| - 1]
  }

  /** Joining two non-empty runs of parts puts one separator between their joins. */
  lemma {:induction false} JoinAppend(a: seq<string>, b: seq<string>, sep: string)
    requires a != [] && b != []
    ensures Join(a + b, sep) == Join(a, sep) + sep + Join(b, sep)
  {
    var ab := a + b;
    var n := |b| - 1;
    assert ab[|ab| - 1] == b[n];
    if n == 0 {
      assert ab[..|ab| - 1] == a;
    } else {
      assert ab[..|ab| - 1] == a + b[..n];
      JoinAppend(a, b[..n], sep);
      var x, y := Join(a, sep), Join(b[..n], sep);
      assert Join(ab, sep) == x + sep + y + sep + b[n];
      assert Join(b, sep) == y + sep + b[n];
      Regroup(x, sep, y, b[n]);
    }
  }

  lemma Regroup(x: string, sep: string, y: string, z: string)
    ensures x + sep + y + sep + z == x + sep + (y + sep + z)
  {
  }

  /** The text sent as the Nutritionix `query`. */
  function NutrientQuery(foods: seq<FoodRequest>, showAmount: real -> string): string {
    Join(Descriptions(foods, showAmount), ", ")
  }

  /**
   * The query is built in request order: the query for `a + b` is the query
   * for `a`, a comma and a space, then the query for `b`; a single food is
   * just its description.
   */
  lemma NutrientQueryAppend(a: seq<FoodRequest>, b: seq<FoodRequest>, showAmount: real -> string)
    requires a != [] && b != []
    ensures NutrientQuery(a + b, showAmount) == NutrientQuery(a, showAmount) + ", " + NutrientQuery(b, showAmount)
    ensures NutrientQuery([a[0]], showAmount) == Describe(a[0], showAmount)
  {
    var da, db := Descriptions(a, showAmount), Descriptions(b, showAmount);
    assert Descriptions(a + b, showAmount) == da + db;
    JoinAppend(da, db, ", ");
  }

  datatype Photo = Photo(thumb: string)

  /** One item of the Nutritionix answer, with the fields the route reads. */
  datatype NutritionixFood = NutritionixFood(
    food_name: string,
    serving_qty: real,
    serving_unit: string,
    nf_calories: real,
    nf_total_fat: real,
    nf_total_carbohydrate: real,
    nf_protein: real,
    nf_sugars: real,
    nf_dietary_fiber: real,
    nf_potassium: real,
    nf_cholesterol: real,
    nf_saturated_fat: real,
    nf_sodium: real,
    nf_p: real,
    photo: Option<Photo>,
    serving_weight_grams: Option<real>)

  /** The parsed answer; `foods` is None when the body has no such array. */
  datatype NutritionixResponse = NutritionixResponse(foods: Option<seq<NutritionixFood>>)

  /**
   * The fixed renaming of one item onto Food. Reading `photo.thumb` throws
   * when the item has no photo, which is None here.
   */
  function ToFood(n: NutritionixFood): (r: Option<Food>)
    ensures r.Some? <==> n.photo.Some?
    ensures r.Some? ==> r.value.img == Some(n.photo.value.thumb)
  {
    match n.photo
    case None => None
    case Some(p) =>
      Some(Food(
        foodName := n.food_name,
        servingQty := n.serving_qty,
        servingUnit := n.serving_unit,
        calories := n.nf_calories,
        totalFat := n.nf_total_fat,
        carbohydrates := n.nf_total_carbohydrate,
        protein := n.nf_protein,
        sugars := n.nf_sugars,
        dietaryFiber := n.nf_dietary_fiber,
        potassium := n.nf_potassium,
        cholesterol := n.nf_cholesterol,
        saturatedFat := n.nf_saturated_fat,
        sodium := n.nf_sodium,
        phosphorus := n.nf_p,
        img := Some(p.thumb),
        servingWeight := n.serving_weight_grams))
  }

  /** The reverse renaming, from a Food back to the Nutritionix field names. */
  function FromFood(f: Food): NutritionixFood {
    NutritionixFood(
      food_name := f.foodName,
      serving_qty := f.servingQty,
      serving_unit := f.servingUnit,
      nf_calories := f.calories,
      nf_total_fat := f.totalFat,
      nf_total_carbohydrate := f.carbohydrates,
      nf_protein := f.protein,
      nf_sugars := f.sugars,
      nf_dietary_fiber := f.dietaryFiber,
      nf_potassium := f.potassium,
      nf_cholesterol := f.cholesterol,
      nf_saturated_fat := f.saturatedFat,
      nf_sodium := f.sodium,
      nf_p := f.phosphorus,
      photo := if f.img.Some? then Some(Photo(f.img.value)) else None,
      serving_weight_grams := f.servingWeight)
  }

  /** The renaming loses nothing: an item with a photo comes back unchanged. */
  lemma FromToFood(n: NutritionixFood)
    requires n.photo.Some?
    ensures ToFood(n).Some? && FromFood(ToFood(n).value) == n
  {
  }

  /** Every Food with an image is the renaming of exactly one item. */
  lemma ToFromFood(f: Food)
    requires f.img.Some?
    ensures ToFood(FromFood(f)) == Some(f)
  {
  }

  /** The nutrients moved by the renaming are the ones the summary totals. */
  lemma ToFoodAmounts(n: NutritionixFood)
    requires n.photo.Some?
    ensures ToFood(n).Some?
    ensures Amount(ToFood(n).value, Calories) == n.nf_calories
    ensures Amount(ToFood(n).value, Fat) == n.nf_total_fat
    ensures Amount(ToFood(n).value, Carbs) == n.nf_total_carbohydrate
    ensures Amount(ToFood(n).value, Protein) == n.nf_protein
  {
  }

  /** `foods.map(...)`: one Food per item in order, or None when any item throws. */
  function MapFoods(items: seq<NutritionixFood>): (r: Option<seq<Food>>)
    ensures r.Some? <==> forall i :: 0 <= i < |items| ==> items[i].photo.Some?
    ensures r.Some? ==> |r.value| == |items|
    ensures r.Some? ==> forall i :: 0 <= i < |items| ==> ToFood(items[i]) == Some(r.value[i])
  {
    if items == [] then Some([])
    else
      var n := |items| - 1;
      var init := MapFoods(items[..n]);
      var last := ToFood(items[n]);
      if init.Some? && last.Some? then Some(init.value + [last.value])
      else
        assert init.None? ==> exists i :: 0 <= i < n && items[..n][i].photo.None?;
        None
  }

  /**
   * The tool's result. `response` is None when the request or the JSON
   * parse failed; that, a body without `foods`, or an item without a photo
   * all end in the catch, which answers [].
   */
  function ExecuteNutrients(response: Option<NutritionixResponse>): (r: seq<Food>)
    ensures response.None? || response.value.foods.None? ==> r == []
    ensures response.Some? && response.value.foods.Some? ==>
      var items := response.value.foods.value;
      if forall i :: 0 <= i < |items| ==> items[i].photo.Some? then
        |r| == |items| && forall i :: 0 <= i < |items| ==> ToFood(items[i]) == Some(r[i])
      else r == []
  {
    if response.None? || response.value.foods.None? then []
    else MapFoods(response.value.foods.value).GetOr([])
  }
}
