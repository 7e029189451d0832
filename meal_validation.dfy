/**
 * The server-side schemas: a food item, a create (and update) body, the id
 * path parameter and the list query. Each validator takes the untyped payload
 * and yields either the typed, normalised value or the paths of every field
 * that broke a rule (all of them, in schema order, not just the first).
 */
module MealValidation {
  import opened Wrappers
  import opened Json
  import opened MealDefaults
  import opened MealTypes

  /** One step of a path into a payload: an object key or an array position. */
  datatype PathElem = Key(name: string) | Index(i: nat)

  type Path = seq<PathElem>

  /** The failed fields of a payload, one path per field. */
  type Issues = seq<Path>

  // ---------------------------------------------------------------------------
  // Text patterns

  /** `\d` without the unicode flag: an ASCII digit. */
  predicate IsDigit(c: char)
  {
    '0' <= c <= '9'
  }

  predicate AllDigits(s: string)
  {
    forall i :: 0 <= i < |s| ==> IsDigit(s[i])
  }

  function DigitValue(c: char): nat
    requires IsDigit(c)
  {
    c as int - '0' as int
  }

  /** `^\d{4}-\d{2}-\d{2}$`: the shape of a date; no calendar check. */
  predicate IsDateText(s: string)
  {
    && |s| == 10
    && s[4] == '-' && s[7] == '-'
    && forall i :: 0 <= i < 10 && i != 4 && i != 7 ==> IsDigit(s[i])
  }

  /** `^\d{2}:\d{2}$`: the shape of a clock time; no range check. */
  predicate IsTimeText(s: string)
  {
    && |s| == 5
    && s[2] == ':'
    && forall i :: 0 <= i < 5 && i != 2 ==> IsDigit(s[i])
  }

  /** Number.isInteger on a finite value. */
  predicate IsInteger(v: real)
  {
    v.Floor as real == v
  }

  // ---------------------------------------------------------------------------
  // What a validated value satisfies

  /** The item rules: a positive integer food reference if any, a name of 1..100 characters,
      a strictly positive quantity and four non-negative nutrient values. */
  predicate ItemWithinLimits(item: MealItem)
  {
    && (item.foodId.Present? ==> item.foodId.value > 0)
    && 1 <= |item.name| <= FoodNameMaxLength
    && item.quantity > 0.0
    && item.calories >= 0.0
    && item.protein >= 0.0
    && item.carbohydrates >= 0.0
    && item.fats >= 0.0
  }

  /** The body rules of create and update. */
  predicate RequestWellFormed(req: MealCreateRequest, isUrl: string -> bool)
  {
    && IsDateText(req.date)
    && IsTimeText(req.time)
    && (req.notes.Present? ==> |req.notes.value| <= NotesMaxLength)
    && (req.photoUrl.Present? ==> isUrl(req.photoUrl.value))
    && |req.items| >= 1
    && forall i :: 0 <= i < |req.items| ==> req.items[i].id == None && ItemWithinLimits(req.items[i])
  }

  // ---------------------------------------------------------------------------
  // Field rules; None marks a field that fails its rule

  /** How a nullable text property appears in a payload: missing, null or a text. */
  function NullableJson(n: Nullable<string>): Option<Json>
  {
    match n
    case Absent => None
    case Null => Some(JNull)
    case Present(s) => Some(JStr(s))
  }

  /** How an optional, nullable food reference appears in a payload. */
  function FoodIdJson(n: Nullable<int>): Option<Json>
  {
    match n
    case Absent => None
    case Null => Some(JNull)
    case Present(k) => Some(JNum(k as real))
  }

  function Flag<T>(field: Option<T>, key: string): Issues
  {
    if field.Some? then [] else [[Key(key)]]
  }

  /** Puts the path of an enclosing value in front of each issue. */
  function PrefixIssues(at: Path, issues: Issues): Issues
  {
    seq(|issues|, i requires 0 <= i < |issues| => at + issues[i])
  }

  function DateField(f: Option<Json>): Option<string>
  {
    match f
    case Some(JStr(s)) => if IsDateText(s) then Some(s) else None
    case _ => None
  }

  function TimeField(f: Option<Json>): Option<string>
  {
    match f
    case Some(JStr(s)) => if IsTimeText(s) then Some(s) else None
    case _ => None
  }

  function MealTypeField(f: Option<Json>): Option<MealType>
  {
    match f
    case Some(JStr(s)) => ParseMealType(s)
    case _ => None
  }

  /** Optional, nullable, at most 500 characters. */
  function NotesField(f: Option<Json>): Option<Nullable<string>>
  {
    match f
    case None => Some(Absent)
    case Some(JNull) => Some(Null)
    case Some(JStr(s)) => if |s| <= NotesMaxLength then Some(Present(s)) else None
    case _ => None
  }

  /** Optional, nullable, a well-formed URL when given. */
  function PhotoUrlField(f: Option<Json>, isUrl: string -> bool): Option<Nullable<string>>
  {
    match f
    case None => Some(Absent)
    case Some(JNull) => Some(Null)
    case Some(JStr(s)) => if isUrl(s) then Some(Present(s)) else None
    case _ => None
  }

  /** Optional, nullable, a positive integer when given. */
  function FoodIdField(f: Option<Json>): Option<Nullable<int>>
  {
    match f
    case None => Some(Absent)
    case Some(JNull) => Some(Null)
    case Some(JNum(n)) => if IsInteger(n) && n > 0.0 then Some(Present(n.Floor)) else None
    case _ => None
  }

  function NameField(f: Option<Json>): Option<string>
  {
    match f
    case Some(JStr(s)) => if 1 <= |s| <= FoodNameMaxLength then Some(s) else None
    case _ => None
  }

  function QuantityField(f: Option<Json>): Option<real>
  {
    match f
    case Some(JNum(n)) => if n > 0.0 then Some(n) else None
    case _ => None
  }

  function UnitField(f: Option<Json>): Option<MealUnit>
  {
    match f
    case Some(JStr(s)) => ParseUnit(s)
    case _ => None
  }

  function NutrientField(f: Option<Json>): Option<real>
  {
    match f
    case Some(JNum(n)) => if n >= 0.0 then Some(n) else None
    case _ => None
  }

  // ---------------------------------------------------------------------------
  // Schemas

  /** The item schema. Keys it does not name (a client's `id` among them) are dropped. */
  function ValidateItem(v: Json): (r: Result<MealItem, Issues>)
    ensures r.Ok? ==> r.value.id == None && ItemWithinLimits(r.value)
    ensures r.Ok? ==> v.JObj? && Get(v.fields, "foodId") == FoodIdJson(r.value.foodId)
    ensures r.Ok? ==> Get(v.fields, "name") == Some(JStr(r.value.name))
    ensures r.Ok? ==> Get(v.fields, "quantity") == Some(JNum(r.value.quantity))
    ensures r.Ok? ==> Get(v.fields, "unit") == Some(JStr(UnitLabel(r.value.unit)))
    ensures r.Ok? ==> && Get(v.fields, "calories") == Some(JNum(r.value.calories))
                      && Get(v.fields, "protein") == Some(JNum(r.value.protein))
                      && Get(v.fields, "carbohydrates") == Some(JNum(r.value.carbohydrates))
                      && Get(v.fields, "fats") == Some(JNum(r.value.fats))
    ensures r.Err? ==> |r.error| > 0
  {
    match v
    case JObj(o) =>
      var foodId := FoodIdField(Get(o, "foodId"));
      var name := NameField(Get(o, "name"));
      var quantity := QuantityField(Get(o, "quantity"));
      var unit := UnitField(Get(o, "unit"));
      var calories := NutrientField(Get(o, "calories"));
      var protein := NutrientField(Get(o, "protein"));
      var carbohydrates := NutrientField(Get(o, "carbohydrates"));
      var fats := NutrientField(Get(o, "fats"));
      if && foodId.Some? && name.Some? && quantity.Some? && unit.Some?
         && calories.Some? && protein.Some? && carbohydrates.Some? && fats.Some?
      then
        Ok(MealItem(None, foodId.value, name.value, quantity.value, unit.value,
                    calories.value, protein.value, carbohydrates.value, fats.value))
      else
        Err(Flag(foodId, "foodId") + Flag(name, "name") + Flag(quantity, "quantity")
            + Flag(unit, "unit") + Flag(calories, "calories") + Flag(protein, "protein")
            + Flag(carbohydrates, "carbohydrates") + Flag(fats, "fats"))
    case _ => Err([[]])
  }

  /** Every element of an item array, each checked by `check` on its own; the issues of
      every failing element are collected, each under `items` and the element's position. */
  function ValidateEach<T>(vs: seq<Json>, check: Json -> Result<T, Issues>): (r: Result<seq<T>, Issues>)
    requires forall v :: check(v).Err? ==> |check(v).error| > 0
    ensures r.Ok? <==> forall i :: 0 <= i < |vs| ==> check(vs[i]).Ok?
    ensures r.Ok? ==> |r.value| == |vs|
    ensures r.Ok? ==> forall i :: 0 <= i < |vs| ==> check(vs[i]) == Ok(r.value[i])
    ensures r.Err? ==> |r.error| > 0
    decreases |vs|
  {
    if vs == [] then Ok([])
    else
      var n := |vs| - 1;
      var init := ValidateEach(vs[..n], check);
      var last := check(vs[n]);
      var lastIssues := if last.Err? then PrefixIssues([Key("items"), Index(n)], last.error) else [];
      match init
      case Ok(xs) => if last.Ok? then Ok(xs + [last.value]) else Err(lastIssues)
      case Err(e) => Err(e + lastIssues)
  }

  /** `z.array(mealItemSchema).min(1)`: an array of valid items with at least one element. */
  function ItemsField(f: Option<Json>): (r: Result<seq<MealItem>, Issues>)
    ensures r.Ok? ==> |r.value| >= 1
    ensures r.Ok? ==> f.Some? && f.value.JArr? && |r.value| == |f.value.elems|
    ensures r.Ok? ==> forall i :: 0 <= i < |r.value| ==> ValidateItem(f.value.elems[i]) == Ok(r.value[i])
    ensures r.Ok? ==> forall i :: 0 <= i < |r.value| ==> r.value[i].id == None && ItemWithinLimits(r.value[i])
    ensures r.Err? ==> |r.error| > 0
  {
    match f
    case Some(JArr(vs)) =>
      var tooShort: Issues := if |vs| == 0 then [[Key("items")]] else [];
      var parsed := ValidateEach(vs, ValidateItem);
      if tooShort == [] && parsed.Ok? then
        assert forall i :: 0 <= i < |vs| ==> ValidateItem(vs[i]) == Ok(parsed.value[i]);
        parsed
      else
        Err(tooShort + (if parsed.Err? then parsed.error else []))
    case _ => Err([[Key("items")]])
  }

  /** The create schema; the update schema is the very same schema. */
  function ValidateMealBody(body: Json, isUrl: string -> bool): (r: Result<MealCreateRequest, Issues>)
    ensures r.Ok? ==> RequestWellFormed(r.value, isUrl)
    ensures r.Ok? ==> body.JObj? && Get(body.fields, "date") == Some(JStr(r.value.date))
    ensures r.Ok? ==> Get(body.fields, "time") == Some(JStr(r.value.time))
    ensures r.Ok? ==> Get(body.fields, "type") == Some(JStr(MealTypeLabel(r.value.mealType)))
    ensures r.Ok? ==> Get(body.fields, "notes") == NullableJson(r.value.notes)
    ensures r.Ok? ==> Get(body.fields, "photoUrl") == NullableJson(r.value.photoUrl)
    ensures r.Ok? ==> ItemsField(Get(body.fields, "items")) == Ok(r.value.items)
    ensures r.Err? ==> |r.error| > 0
  {
    match body
    case JObj(o) =>
      var date := DateField(Get(o, "date"));
      var time := TimeField(Get(o, "time"));
      var mealType := MealTypeField(Get(o, "type"));
      var notes := NotesField(Get(o, "notes"));
      var photoUrl := PhotoUrlField(Get(o, "photoUrl"), isUrl);
      var items := ItemsField(Get(o, "items"));
      if date.Some? && time.Some? && mealType.Some? && notes.Some? && photoUrl.Some? && items.Ok? then
        Ok(MealCreateRequest(date.value, time.value, mealType.value, notes.value, photoUrl.value, items.value))
      else
        Err(Flag(date, "date") + Flag(time, "time") + Flag(mealType, "type") + Flag(notes, "notes")
            + Flag(photoUrl, "photoUrl") + (if items.Err? then items.error else []))
    case _ => Err([[]])
  }

  /** The list query schema: a required date of shape YYYY-MM-DD. */
  function ValidateListQuery(query: Json): (r: Result<string, Issues>)
    ensures r.Ok? <==> query.JObj? && "date" in query.fields && query.fields["date"].JStr? && IsDateText(query.fields["date"].s)
    ensures r.Ok? ==> r.value == query.fields["date"].s
  {
    match query
    case JObj(o) =>
      var date := DateField(Get(o, "date"));
      if date.Some? then Ok(date.value) else Err(Flag(date, "date"))
    case _ => Err([[]])
  }

  // ---------------------------------------------------------------------------
  // The id parameter: `z.coerce.number().int().positive()`

  /** The value of a run of decimal digits, most significant first. */
  function DigitsValue(s: string): nat
    requires AllDigits(s)
    decreases |s|
  {
    if s == [] then 0 else 10 * DigitsValue(s[..|s| - 1]) + DigitValue(s[|s| - 1])
  }

  /** The value of the digits after a decimal point; always in [0, 1). */
  function FractionValue(s: string): (v: real)
    requires AllDigits(s)
    ensures 0.0 <= v < 1.0
    decreases |s|
  {
    if s == [] then 0.0 else (DigitValue(s[0]) as real + FractionValue(s[1..])) / 10.0
  }

  /** The position of the first decimal point, or the length when there is none. */
  function FirstDot(s: string): (k: nat)
    ensures k <= |s|
    ensures k < |s| ==> s[k] == '.'
    ensures forall i :: 0 <= i < k ==> s[i] != '.'
    decreases |s|
  {
    if s == [] || s[0] == '.' then 0 else 1 + FirstDot(s[1..])
  }

  /** Unsigned decimal text: one or more digits, then optionally a point and digits. */
  function UnsignedDecimal(s: string): (r: Option<real>)
    ensures r.Some? ==> r.value >= 0.0
  {
    var k := FirstDot(s);
    var whole := s[..k];
    var fraction := if k < |s| then s[k + 1..] else "";
    if |whole| > 0 && AllDigits(whole) && AllDigits(fraction) then
      Some(DigitsValue(whole) as real + FractionValue(fraction))
    else
      None
  }

  /** `Number(text)`: the empty text is 0, a sign may precede an unsigned decimal, and
      every other text is NaN (None). */
  function NumberFromText(s: string): Option<real>
  {
    if s == [] then Some(0.0)
    else if s[0] == '-' then
      match UnsignedDecimal(s[1..])
      case Some(v) => Some(-v)
      case None => None
    else if s[0] == '+' then UnsignedDecimal(s[1..])
    else UnsignedDecimal(s)
  }

  /** `Number(value)` as the coercion applies it; None stands for NaN. */
  function CoerceNumber(f: Option<Json>): Option<real>
  {
    match f
    case None => None
    case Some(JNull) => Some(0.0)
    case Some(JBool(b)) => Some(if b then 1.0 else 0.0)
    case Some(JNum(n)) => Some(n)
    case Some(JStr(s)) => NumberFromText(s)
    case Some(_) => None
  }

  /** The id parameter schema: the coerced `id` must be an integer greater than zero. */
  function ValidateParams(params: Json): (r: Result<int, Issues>)
    ensures r.Ok? ==> r.value > 0
    ensures r.Ok? ==> params.JObj? && CoerceNumber(Get(params.fields, "id")) == Some(r.value as real)
    ensures r.Err? ==> |r.error| > 0
  {
    match params
    case JObj(o) =>
      var v := CoerceNumber(Get(o, "id"));
      if v.Some? && IsInteger(v.value) && v.value > 0.0 then Ok(v.value.Floor) else Err([[Key("id")]])
    case _ => Err([[]])
  }

  /** The decimal text of a natural number, as a client puts it in a path. */
  function DecimalText(n: nat): string
    decreases n
  {
    var d := ['0' + ((n % 10) as char)];
    if n < 10 then d else DecimalText(n / 10) + d
  }

  lemma {:induction false} DecimalTextValue(n: nat)
    ensures |DecimalText(n)| > 0 && AllDigits(DecimalText(n))
    ensures FirstDot(DecimalText(n)) == |DecimalText(n)|
    ensures DigitsValue(DecimalText(n)) == n
    decreases n
  {
    var s := DecimalText(n);
    if n >= 10 {
      DecimalTextValue(n / 10);
      var p := DecimalText(n / 10);
      assert s == p + ['0' + ((n % 10) as char)];
      assert s[..|s| - 1] == p;
      FirstDotAppend(p, '0' + ((n % 10) as char));
    }
  }

  lemma {:induction false} FirstDotAppend(s: string, c: char)
    requires FirstDot(s) == |s| && c != '.'
    ensures FirstDot(s + [c]) == |s| + 1
    decreases |s|
  {
    if s != [] {
      assert (s + [c])[1..] == s[1..] + [c];
      FirstDotAppend(s[1..], c);
    }
  }

  /** A positive id written in decimal passes the id schema with its own value. */
  lemma ParamsRoundTrip(n: nat)
    requires n > 0
    ensures ValidateParams(JObj(map["id" := JStr(DecimalText(n))])) == Ok(n)
  {
    var s := DecimalText(n);
    DecimalTextValue(n);
    assert s[..|s|] == s;
    assert NumberFromText(s) == UnsignedDecimal(s) == Some(n as real);
  }

  /** A plain run of digits (leading zeros allowed) passes exactly when its value is not zero. */
  lemma ParamsDigits(s: string)
    requires |s| > 0 && AllDigits(s)
    ensures ValidateParams(JObj(map["id" := JStr(s)])).Ok? <==> DigitsValue(s) > 0
    ensures ValidateParams(JObj(map["id" := JStr(s)])).Ok? ==>
              ValidateParams(JObj(map["id" := JStr(s)])).value == DigitsValue(s)
  {
    NoDotInDigits(s);
    assert s[..|s|] == s;
    assert NumberFromText(s) == UnsignedDecimal(s) == Some(DigitsValue(s) as real);
  }

  lemma {:induction false} NoDotInDigits(s: string)
    requires AllDigits(s)
    ensures FirstDot(s) == |s|
    decreases |s|
  {
    if s != [] {
      NoDotInDigits(s[1..]);
    }
  }

  /** A decimal with a non-zero digit after the point is not an integer and is refused. */
  lemma ParamsFractionRejected(whole: string, fraction: string)
    requires |whole| > 0 && AllDigits(whole) && AllDigits(fraction)
    requires exists i :: 0 <= i < |fraction| && fraction[i] != '0'
    ensures ValidateParams(JObj(map["id" := JStr(whole + "." + fraction)])).Err?
  {
    var s := whole + "." + fraction;
    NoDotInDigits(whole);
    FirstDotSplit(whole, fraction);
    assert s[..|whole|] == whole;
    assert s[|whole| + 1..] == fraction;
    FractionPositive(fraction);
    var v := DigitsValue(whole) as real + FractionValue(fraction);
    assert UnsignedDecimal(s) == Some(v);
    assert v.Floor == DigitsValue(whole);
  }

  lemma {:induction false} FirstDotSplit(whole: string, fraction: string)
    requires FirstDot(whole) == |whole|
    ensures FirstDot(whole + "." + fraction) == |whole|
    decreases |whole|
  {
    if whole != [] {
      assert (whole + "." + fraction)[1..] == whole[1..] + "." + fraction;
      FirstDotSplit(whole[1..], fraction);
    }
  }

  lemma {:induction false} FractionPositive(s: string)
    requires AllDigits(s)
    requires exists i :: 0 <= i < |s| && s[i] != '0'
    ensures FractionValue(s) > 0.0
    decreases |s|
  {
    if s[0] == '0' {
      var i :| 0 <= i < |s| && s[i] != '0';
      assert s[1..][i - 1] == s[i];
      FractionPositive(s[1..]);
    }
  }

  /** Text with a minus sign never names a positive number, so it is refused. */
  lemma ParamsNegativeRejected(s: string)
    requires |s| > 0 && s[0] == '-'
    ensures ValidateParams(JObj(map["id" := JStr(s)])).Err?
  {
  }

  // ---------------------------------------------------------------------------
  // Payloads as a client writes them, and the round trips through the schemas

  function EncodeItem(item: MealItem): Json
  {
    var fields := map[
      "name" := JStr(item.name),
      "quantity" := JNum(item.quantity),
      "unit" := JStr(UnitLabel(item.unit)),
      "calories" := JNum(item.calories),
      "protein" := JNum(item.protein),
      "carbohydrates" := JNum(item.carbohydrates),
      "fats" := JNum(item.fats)];
    match item.foodId
    case Absent => JObj(fields)
    case Null => JObj(fields["foodId" := JNull])
    case Present(n) => JObj(fields["foodId" := JNum(n as real)])
  }

  function EncodeRequest(req: MealCreateRequest): Json
  {
    var fields := map[
      "date" := JStr(req.date),
      "time" := JStr(req.time),
      "type" := JStr(MealTypeLabel(req.mealType)),
      "items" := JArr(seq(|req.items|, i requires 0 <= i < |req.items| => EncodeItem(req.items[i])))];
    var withNotes := match req.notes
      case Absent => fields
      case Null => fields["notes" := JNull]
      case Present(s) => fields["notes" := JStr(s)];
    match req.photoUrl
    case Absent => JObj(withNotes)
    case Null => JObj(withNotes["photoUrl" := JNull])
    case Present(s) => JObj(withNotes["photoUrl" := JStr(s)])
  }

  /** Every item that satisfies the item rules is accepted exactly as written. */
  lemma ValidateEncodedItem(item: MealItem)
    requires item.id == None && ItemWithinLimits(item)
    ensures ValidateItem(EncodeItem(item)) == Ok(item)
  {
    EncodedItemFields(item);
    UnitRoundTrip(item.unit);
  }

  lemma EncodedItemFields(item: MealItem)
    requires ItemWithinLimits(item)
    ensures var o := EncodeItem(item).fields;
      && Get(o, "name") == Some(JStr(item.name))
      && Get(o, "quantity") == Some(JNum(item.quantity))
      && Get(o, "unit") == Some(JStr(UnitLabel(item.unit)))
      && Get(o, "calories") == Some(JNum(item.calories))
      && Get(o, "protein") == Some(JNum(item.protein))
      && Get(o, "carbohydrates") == Some(JNum(item.carbohydrates))
      && Get(o, "fats") == Some(JNum(item.fats))
      && FoodIdField(Get(o, "foodId")) == Some(item.foodId)
  {
    assert "name"[0] != "unit"[0] && "unit"[0] != "fats"[0] && "fats"[0] != "name"[0];
    assert "quantity"[0] != "calories"[0];
    match item.foodId
    case Absent =>
      assert Get(EncodeItem(item).fields, "foodId") == None;
    case Null =>
    case Present(n) =>
      assert (n as real).Floor == n;
  }

  /** Every request that satisfies the body rules is accepted exactly as written. */
  lemma ValidateEncodedRequest(req: MealCreateRequest, isUrl: string -> bool)
    requires RequestWellFormed(req, isUrl)
    ensures ValidateMealBody(EncodeRequest(req), isUrl) == Ok(req)
  {
    var o := EncodeRequest(req).fields;
    EncodedRequestFields(req, isUrl);
    EncodedItemsAccepted(req, isUrl);
    MealTypeRoundTrip(req.mealType);
    assert DateField(Get(o, "date")) == Some(req.date);
    assert TimeField(Get(o, "time")) == Some(req.time);
    assert MealTypeField(Get(o, "type")) == Some(req.mealType);
  }

  lemma EncodedItemsAccepted(req: MealCreateRequest, isUrl: string -> bool)
    requires RequestWellFormed(req, isUrl)
    ensures ItemsField(Get(EncodeRequest(req).fields, "items")) == Ok(req.items)
  {
    var vs := seq(|req.items|, i requires 0 <= i < |req.items| => EncodeItem(req.items[i]));
    forall i | 0 <= i < |vs|
      ensures ValidateItem(vs[i]) == Ok(req.items[i])
    {
      ValidateEncodedItem(req.items[i]);
    }
    var parsed := ValidateEach(vs, ValidateItem);
    assert parsed.value == req.items;
    EncodedRequestFields(req, isUrl);
  }

  lemma EncodedRequestFields(req: MealCreateRequest, isUrl: string -> bool)
    requires RequestWellFormed(req, isUrl)
    ensures var o := EncodeRequest(req).fields;
      && Get(o, "date") == Some(JStr(req.date))
      && Get(o, "time") == Some(JStr(req.time))
      && Get(o, "type") == Some(JStr(MealTypeLabel(req.mealType)))
      && Get(o, "items") == Some(JArr(seq(|req.items|, i requires 0 <= i < |req.items| => EncodeItem(req.items[i]))))
      && NotesField(Get(o, "notes")) == Some(req.notes)
      && PhotoUrlField(Get(o, "photoUrl"), isUrl) == Some(req.photoUrl)
  {
    assert "date"[0] != "time"[0] && "date"[0] != "type"[0] && "time"[1] != "type"[1];
    assert "notes"[0] != "items"[0];
  }

  /** A key the item schema does not name, such as a client-chosen `id`, changes nothing. */
  lemma ItemIgnoresClientId(fields: map<string, Json>, v: Json)
    ensures ValidateItem(JObj(fields["id" := v])) == ValidateItem(JObj(fields))
  {
  }

  /** A body whose item list is empty is refused, with an issue on `items`. */
  lemma EmptyItemsRejected(fields: map<string, Json>, isUrl: string -> bool)
    requires Get(fields, "items") == Some(JArr([]))
    ensures ValidateMealBody(JObj(fields), isUrl).Err?
    ensures [Key("items")] in ValidateMealBody(JObj(fields), isUrl).error
  {
  }

  /** The patterns check shape only: an impossible calendar date and clock time both pass. */
  lemma PatternsCheckShapeOnly()
    ensures IsDateText("2023-02-30")
    ensures IsTimeText("25:99")
    ensures !IsDateText("2023-2-30") && !IsTimeText("8:00")
  {
  }
}
