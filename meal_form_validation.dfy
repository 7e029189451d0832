/**
 * The browser-side form schemas for a meal and its food items. They mirror the
 * server's rules with a few differences: snake_case keys, a quantity of at
 * least 0.01 instead of any positive amount, notes that may be missing but not
 * null, a photo URL that may also be the empty text, text food references, and
 * an optional numeric meal id. Enumerated values stay the label texts.
 */
module MealFormValidation {
  import opened Wrappers
  import opened Json
  import opened MealDefaults
  import opened MealTypes
  import opened MealValidation

  /** The meal type labels the form offers. */
  const FormMealTypes: seq<string> := ["Café da Manhã", "Almoço", "Jantar", "Lanche"]

  /** The unit labels the form offers. */
  const FormUnits: seq<string> := ["g", "ml", "unidade", "fatia", "xícara", "colher de sopa", "colher de chá"]

  /** The smallest quantity the form accepts. */
  const MinQuantity: real := 0.01

  /** A food item as the form holds it. */
  datatype FormItem = FormItem(
    mealFoodId: Option<string>,
    foodId: Nullable<string>,
    name: string,
    quantity: real,
    unit: string,
    calories: real,
    protein: real,
    carbohydrates: real,
    fats: real)

  /** A meal as the form holds it. */
  datatype FormMeal = FormMeal(
    id: Option<real>,
    date: string,
    time: string,
    mealType: string,
    notes: Option<string>,
    photoUrl: Option<string>,
    items: seq<FormItem>)

  // ---------------------------------------------------------------------------
  // What a validated form satisfies

  predicate FormItemWithinLimits(item: FormItem)
  {
    && 1 <= |item.name| <= FoodNameMaxLength
    && item.quantity >= MinQuantity
    && item.unit in FormUnits
    && item.calories >= 0.0
    && item.protein >= 0.0
    && item.carbohydrates >= 0.0
    && item.fats >= 0.0
  }

  predicate FormMealWellFormed(m: FormMeal, isUrl: string -> bool)
  {
    && IsDateText(m.date)
    && IsTimeText(m.time)
    && m.mealType in FormMealTypes
    && (m.notes.Some? ==> |m.notes.value| <= NotesMaxLength)
    && (m.photoUrl.Some? ==> m.photoUrl.value == "" || isUrl(m.photoUrl.value))
    && |m.items| >= 1
    && forall i :: 0 <= i < |m.items| ==> FormItemWithinLimits(m.items[i])
  }

  // ---------------------------------------------------------------------------
  // Field rules; None marks a field that fails its rule

  /** How an optional text property appears in a payload: missing or a text. */
  function OptionalJson(t: Option<string>): Option<Json>
  {
    match t
    case None => None
    case Some(s) => Some(JStr(s))
  }

  function OptionalText(f: Option<Json>): Option<Option<string>>
  {
    match f
    case None => Some(None)
    case Some(JStr(s)) => Some(Some(s))
    case _ => None
  }

  function NullableText(f: Option<Json>): Option<Nullable<string>>
  {
    match f
    case None => Some(Absent)
    case Some(JNull) => Some(Null)
    case Some(JStr(s)) => Some(Present(s))
    case _ => None
  }

  function OptionalNumber(f: Option<Json>): Option<Option<real>>
  {
    match f
    case None => Some(None)
    case Some(JNum(n)) => Some(Some(n))
    case _ => None
  }

  function Label(f: Option<Json>, labels: seq<string>): Option<string>
  {
    match f
    case Some(JStr(s)) => if s in labels then Some(s) else None
    case _ => None
  }

  function FormQuantityField(f: Option<Json>): Option<real>
  {
    match f
    case Some(JNum(n)) => if n >= MinQuantity then Some(n) else None
    case _ => None
  }

  /** Optional, at most 500 characters; null is refused. */
  function FormNotesField(f: Option<Json>): Option<Option<string>>
  {
    match f
    case None => Some(None)
    case Some(JStr(s)) => if |s| <= NotesMaxLength then Some(Some(s)) else None
    case _ => None
  }

  /** Optional URL, or else the literal empty text. */
  function FormPhotoUrlField(f: Option<Json>, isUrl: string -> bool): Option<Option<string>>
  {
    match f
    case None => Some(None)
    case Some(JStr(s)) => if isUrl(s) || s == "" then Some(Some(s)) else None
    case _ => None
  }

  // ---------------------------------------------------------------------------
  // Schemas

  function ValidateFormItem(v: Json): (r: Result<FormItem, Issues>)
    ensures r.Ok? ==> FormItemWithinLimits(r.value)
    ensures r.Ok? ==> v.JObj? && Get(v.fields, "meal_food_id") == OptionalJson(r.value.mealFoodId)
    ensures r.Ok? ==> Get(v.fields, "food_id") == NullableJson(r.value.foodId)
    ensures r.Ok? ==> Get(v.fields, "name") == Some(JStr(r.value.name))
    ensures r.Ok? ==> Get(v.fields, "quantity") == Some(JNum(r.value.quantity))
    ensures r.Ok? ==> Get(v.fields, "unit") == Some(JStr(r.value.unit))
    ensures r.Ok? ==> && Get(v.fields, "calories") == Some(JNum(r.value.calories))
                      && Get(v.fields, "protein") == Some(JNum(r.value.protein))
                      && Get(v.fields, "carbohydrates") == Some(JNum(r.value.carbohydrates))
                      && Get(v.fields, "fats") == Some(JNum(r.value.fats))
    ensures r.Err? ==> |r.error| > 0
  {
    match v
    case JObj(o) =>
      var mealFoodId := OptionalText(Get(o, "meal_food_id"));
      var foodId := NullableText(Get(o, "food_id"));
      var name := NameField(Get(o, "name"));
      var quantity := FormQuantityField(Get(o, "quantity"));
      var unit := Label(Get(o, "unit"), FormUnits);
      var calories := NutrientField(Get(o, "calories"));
      var protein := NutrientField(Get(o, "protein"));
      var carbohydrates := NutrientField(Get(o, "carbohydrates"));
      var fats := NutrientField(Get(o, "fats"));
      if && mealFoodId.Some? && foodId.Some? && name.Some? && quantity.Some? && unit.Some?
         && calories.Some? && protein.Some? && carbohydrates.Some? && fats.Some?
      then
        Ok(FormItem(mealFoodId.value, foodId.value, name.value, quantity.value, unit.value,
                    calories.value, protein.value, carbohydrates.value, fats.value))
      else
        Err(Flag(mealFoodId, "meal_food_id") + Flag(foodId, "food_id") + Flag(name, "name")
            + Flag(quantity, "quantity") + Flag(unit, "unit") + Flag(calories, "calories")
            + Flag(protein, "protein") + Flag(carbohydrates, "carbohydrates") + Flag(fats, "fats"))
    case _ => Err([[]])
  }

  function FormItemsField(f: Option<Json>): (r: Result<seq<FormItem>, Issues>)
    ensures r.Ok? ==> |r.value| >= 1
    ensures r.Ok? ==> forall i :: 0 <= i < |r.value| ==> FormItemWithinLimits(r.value[i])
    ensures r.Ok? ==> f.Some? && f.value.JArr? && |r.value| == |f.value.elems|
    ensures r.Ok? ==> forall i :: 0 <= i < |r.value| ==> ValidateFormItem(f.value.elems[i]) == Ok(r.value[i])
    ensures r.Err? ==> |r.error| > 0
  {
    match f
    case Some(JArr(vs)) =>
      var tooShort: Issues := if |vs| == 0 then [[Key("items")]] else [];
      var parsed := ValidateEach(vs, ValidateFormItem);
      if tooShort == [] && parsed.Ok? then
        assert forall i :: 0 <= i < |vs| ==> ValidateFormItem(vs[i]) == Ok(parsed.value[i]);
        parsed
      else
        Err(tooShort + (if parsed.Err? then parsed.error else []))
    case _ => Err([[Key("items")]])
  }

  function ValidateFormMeal(v: Json, isUrl: string -> bool): (r: Result<FormMeal, Issues>)
    ensures r.Ok? ==> FormMealWellFormed(r.value, isUrl)
    ensures r.Ok? ==> v.JObj? && Get(v.fields, "id") == (if r.value.id.Some? then Some(JNum(r.value.id.value)) else None)
    ensures r.Ok? ==> Get(v.fields, "date") == Some(JStr(r.value.date))
    ensures r.Ok? ==> Get(v.fields, "time") == Some(JStr(r.value.time))
    ensures r.Ok? ==> Get(v.fields, "type") == Some(JStr(r.value.mealType))
    ensures r.Ok? ==> Get(v.fields, "notes") == OptionalJson(r.value.notes)
    ensures r.Ok? ==> Get(v.fields, "photo_url") == OptionalJson(r.value.photoUrl)
    ensures r.Ok? ==> FormItemsField(Get(v.fields, "items")) == Ok(r.value.items)
    ensures r.Err? ==> |r.error| > 0
  {
    match v
    case JObj(o) =>
      var id := OptionalNumber(Get(o, "id"));
      var date := DateField(Get(o, "date"));
      var time := TimeField(Get(o, "time"));
      var mealType := Label(Get(o, "type"), FormMealTypes);
      var notes := FormNotesField(Get(o, "notes"));
      var photoUrl := FormPhotoUrlField(Get(o, "photo_url"), isUrl);
      var items := FormItemsField(Get(o, "items"));
      if id.Some? && date.Some? && time.Some? && mealType.Some? && notes.Some? && photoUrl.Some? && items.Ok? then
        Ok(FormMeal(id.value, date.value, time.value, mealType.value, notes.value, photoUrl.value, items.value))
      else
        Err(Flag(id, "id") + Flag(date, "date") + Flag(time, "time") + Flag(mealType, "type")
            + Flag(notes, "notes") + Flag(photoUrl, "photo_url") + (if items.Err? then items.error else []))
    case _ => Err([[]])
  }

  // ---------------------------------------------------------------------------
  // Round trips

  function EncodeFormItem(item: FormItem): Json
  {
    var fields := map[
      "name" := JStr(item.name),
      "quantity" := JNum(item.quantity),
      "unit" := JStr(item.unit),
      "calories" := JNum(item.calories),
      "protein" := JNum(item.protein),
      "carbohydrates" := JNum(item.carbohydrates),
      "fats" := JNum(item.fats)];
    var withFood := match item.foodId
      case Absent => fields
      case Null => fields["food_id" := JNull]
      case Present(s) => fields["food_id" := JStr(s)];
    match item.mealFoodId
    case None => JObj(withFood)
    case Some(s) => JObj(withFood["meal_food_id" := JStr(s)])
  }

  function EncodeFormMeal(m: FormMeal): Json
  {
    var fields := map[
      "date" := JStr(m.date),
      "time" := JStr(m.time),
      "type" := JStr(m.mealType),
      "items" := JArr(seq(|m.items|, i requires 0 <= i < |m.items| => EncodeFormItem(m.items[i])))];
    var withId := if m.id.Some? then fields["id" := JNum(m.id.value)] else fields;
    var withNotes := if m.notes.Some? then withId["notes" := JStr(m.notes.value)] else withId;
    if m.photoUrl.Some? then JObj(withNotes["photo_url" := JStr(m.photoUrl.value)]) else JObj(withNotes)
  }

  /** Every form item within the limits is accepted exactly as written. */
  lemma ValidateEncodedFormItem(item: FormItem)
    requires FormItemWithinLimits(item)
    ensures ValidateFormItem(EncodeFormItem(item)) == Ok(item)
  {
    EncodedFormItemFields(item);
  }

  lemma EncodedFormItemFields(item: FormItem)
    ensures var o := EncodeFormItem(item).fields;
      && Get(o, "name") == Some(JStr(item.name))
      && Get(o, "quantity") == Some(JNum(item.quantity))
      && Get(o, "unit") == Some(JStr(item.unit))
      && Get(o, "calories") == Some(JNum(item.calories))
      && Get(o, "protein") == Some(JNum(item.protein))
      && Get(o, "carbohydrates") == Some(JNum(item.carbohydrates))
      && Get(o, "fats") == Some(JNum(item.fats))
      && NullableText(Get(o, "food_id")) == Some(item.foodId)
      && OptionalText(Get(o, "meal_food_id")) == Some(item.mealFoodId)
  {
    assert "name"[0] != "unit"[0] && "unit"[0] != "fats"[0] && "fats"[0] != "name"[0];
    assert "quantity"[0] != "calories"[0];
    assert "food_id"[0] != "meal_food_id"[0];
  }

  /** Every well-formed form is accepted exactly as written. */
  lemma ValidateEncodedFormMeal(m: FormMeal, isUrl: string -> bool)
    requires FormMealWellFormed(m, isUrl)
    ensures ValidateFormMeal(EncodeFormMeal(m), isUrl) == Ok(m)
  {
    var o := EncodeFormMeal(m).fields;
    EncodedFormFields(m, isUrl);
    EncodedFormItemsAccepted(m, isUrl);
    assert DateField(Get(o, "date")) == Some(m.date);
    assert TimeField(Get(o, "time")) == Some(m.time);
    assert Label(Get(o, "type"), FormMealTypes) == Some(m.mealType);
  }

  lemma EncodedFormItemsAccepted(m: FormMeal, isUrl: string -> bool)
    requires FormMealWellFormed(m, isUrl)
    ensures FormItemsField(Get(EncodeFormMeal(m).fields, "items")) == Ok(m.items)
  {
    var vs := seq(|m.items|, i requires 0 <= i < |m.items| => EncodeFormItem(m.items[i]));
    forall i | 0 <= i < |vs|
      ensures ValidateFormItem(vs[i]) == Ok(m.items[i])
    {
      ValidateEncodedFormItem(m.items[i]);
    }
    var parsed := ValidateEach(vs, ValidateFormItem);
    assert parsed.value == m.items;
    EncodedFormFields(m, isUrl);
  }

  lemma EncodedFormFields(m: FormMeal, isUrl: string -> bool)
    requires FormMealWellFormed(m, isUrl)
    ensures var o := EncodeFormMeal(m).fields;
      && Get(o, "date") == Some(JStr(m.date))
      && Get(o, "time") == Some(JStr(m.time))
      && Get(o, "type") == Some(JStr(m.mealType))
      && Get(o, "items") == Some(JArr(seq(|m.items|, i requires 0 <= i < |m.items| => EncodeFormItem(m.items[i]))))
      && OptionalNumber(Get(o, "id")) == Some(m.id)
      && FormNotesField(Get(o, "notes")) == Some(m.notes)
      && FormPhotoUrlField(Get(o, "photo_url"), isUrl) == Some(m.photoUrl)
  {
    assert "date"[0] != "time"[0] && "date"[0] != "type"[0] && "time"[1] != "type"[1];
    assert "notes"[0] != "items"[0] && "id"[1] != "items"[1];
  }

  // ---------------------------------------------------------------------------
  // The form against the server

  /** The form offers exactly the server's meal type and unit labels, in the same order. */
  lemma FormLabelsAreServerLabels()
    ensures FormMealTypes == MealTypeLabels
    ensures FormUnits == UnitLabels
    ensures forall s :: s in FormMealTypes <==> ParseMealType(s).Some?
    ensures forall s :: s in FormUnits <==> ParseUnit(s).Some?
  {
  }

  /** Every quantity the form accepts the server accepts too, but not the other way round. */
  lemma FormQuantityStricter(f: Option<Json>)
    ensures FormQuantityField(f).Some? ==> QuantityField(f) == FormQuantityField(f)
    ensures QuantityField(Some(JNum(0.005))) == Some(0.005)
    ensures FormQuantityField(Some(JNum(0.005))) == None
  {
  }

  /** Null notes pass the server but not the form; the empty photo URL passes the form whatever
      counts as a URL, and passes the server only when the empty text counts as one. */
  lemma FormNullAndEmptyDiffer(isUrl: string -> bool)
    ensures NotesField(Some(JNull)) == Some(Null) && FormNotesField(Some(JNull)) == None
    ensures FormPhotoUrlField(Some(JStr("")), isUrl) == Some(Some(""))
    ensures PhotoUrlField(Some(JStr("")), isUrl).Some? <==> isUrl("")
  {
  }
}
