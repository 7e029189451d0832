/**
 * The shapes the service works with: food items, meal records, the create and
 * update requests after validation, and the daily list response.
 */
module MealTypes {
  import opened Wrappers
  import opened MealDefaults

  /**
   * A property that may be left out (`undefined`), set to `null`, or carry a
   * value; `?:` together with `| null` in the service's declarations.
   */
  datatype Nullable<+T> = Absent | Null | Present(value: T)

  /**
   * One food item of a meal. `id` is optional on input (validation drops any
   * id a client sends) and is the item's 1-based position once stored.
   */
  datatype MealItem = MealItem(
    id: Option<int>,
    foodId: Nullable<int>,
    name: string,
    quantity: real,
    unit: MealUnit,
    calories: real,
    protein: real,
    carbohydrates: real,
    fats: real)

  /**
   * A stored meal. Every property is always there; `notes` and `photoUrl` are
   * text or null, never absent. The two timestamps are opaque ISO 8601 texts.
   */
  datatype MealRecord = MealRecord(
    id: int,
    userId: int,
    date: string,
    time: string,
    mealType: MealType,
    notes: Option<string>,
    photoUrl: Option<string>,
    items: seq<MealItem>,
    dateCreated: string,
    dateModified: string)

  /** A create request as validation hands it to the service. */
  datatype MealCreateRequest = MealCreateRequest(
    date: string,
    time: string,
    mealType: MealType,
    notes: Nullable<string>,
    photoUrl: Nullable<string>,
    items: seq<MealItem>)

  /** An update request has exactly the shape of a create request. */
  type MealUpdateRequest = MealCreateRequest

  /** The four nutrient totals of a day. */
  datatype DailySummary = DailySummary(calories: real, protein: real, carbohydrates: real, fats: real)

  /** The answer to a daily list: the date asked for, its totals and its meals. */
  datatype MealListResponse = MealListResponse(date: string, summary: DailySummary, meals: seq<MealRecord>)
}
