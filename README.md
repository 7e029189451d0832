# Meal records: a verified model of the meal diary service

This project models the core of a meal diary backend and the browser-side form
rules that go with it. A user records meals by date and time, each with one or
more food items and their nutrient values. The model covers:

- the in-memory record store (`MealInstances.MealStore`), a class whose fields
  are the id-to-record table, the insertion order of its keys and the id counter;
- the validation schemas for request bodies, the id path parameter and the list
  query (`MealValidation`), over an untyped JSON value (`Json.Json`);
- the meal-type and unit label constants and the length limits (`MealDefaults`);
- the record and request shapes (`MealTypes`);
- the daily nutrient summary (`MealAggregation`), a loop with four accumulators;
- the sort of a day's meals by time (`MealOrdering`), a stable insertion sort in
  place on an array;
- the five service operations: list, create, get, update and delete
  (`MealService`). Each is a method over the store that returns a `Result`. The
  error is a `ServiceError` with the code, message and HTTP status the service
  raises;
- the frontend form schema (`MealFormValidation`), with its differences from the
  server's rules stated as lemmas.

The main guarantees proved:

- Every validator accepts only values that meet the rules (`RequestWellFormed`,
  `ItemWithinLimits`, `FormMealWellFormed`). Each accepted field is the one the
  payload holds, so a payload that breaks a rule is refused. Every value meeting
  the rules, written out as a payload, is accepted unchanged.
- The id parameter accepts exactly the positive whole numbers written in decimal.
  It refuses zero, negatives and fractions.
- The store keeps its key order consistent with its table. `Filter` returns
  exactly the matching records, in insertion order, each once.
- `MealList` returns the caller's meals of that day, sorted by time. The sort is
  stable and a permutation. The summary is the field-wise sum over all their
  items, whatever their order.
- `MealCreate`, `MealUpdate` and `MealDelete` each keep an invariant
  (`MealService.Consistent`). Under it:
  - every record sits under its own id, at most the counter;
  - items are numbered 1..n;
  - every body rule except the photo URL rule holds. The URL check is the
    `isUrl` parameter of each call, so the invariant does not carry it.
- A newly created id is above every id already stored.
- A record owned by someone else gets the same answer as a missing one.

With the counter an exact integer, ids are never reused, even after deletes, for
three reasons:

- `GetNextId` returns the counter plus one;
- nothing else changes the counter;
- under `Consistent` every stored id is at most the counter.

The service's counter is a double, so this holds for its first 2^53 allocations
(see "## Left out").

Times are compared character by character on their code points (`TextBefore`).
The service compares times with `localeCompare`. Times that pass the time
check are two digits, a colon and two digits. On such texts a locale comparison
and a code-point comparison agree. `MealOrdering.TimeTextOrder` proves that this
order is the numeric order of the four digits.

## Model

| member | source | states |
|---|---|---|
| MealDefaults.ParseMealType | backend/src/constants/meal/mealDefaults.ts:13-18 | a text is accepted as a meal type exactly when it is one of the four labels, and the result carries that label |
| MealDefaults.ParseUnit | backend/src/constants/meal/mealDefaults.ts:30-38 | a text is accepted as a unit exactly when it is one of the seven labels, and the result carries that label |
| MealDefaults.MealTypeLabelsDistinct | backend/src/constants/meal/mealDefaults.ts:13-18 | there are exactly four meal-type labels, one per meal type, pairwise distinct |
| MealDefaults.UnitLabelsDistinct | backend/src/constants/meal/mealDefaults.ts:30-38 | there are exactly seven unit labels, one per unit, pairwise distinct |
| MealDefaults.MealTypeRoundTrip | backend/src/constants/meal/mealDefaults.ts:13-18 | reading a meal type's label gives that meal type back |
| MealDefaults.UnitRoundTrip | backend/src/constants/meal/mealDefaults.ts:30-38 | reading a unit's label gives that unit back |
| MealValidation.ValidateItem | backend/src/services/meal/mealValidation.ts:16-33 | an accepted item has no id, a positive food reference if any, a 1..100 character name, a positive quantity and non-negative nutrients, and each of its fields is the value the payload holds under that key, so a payload breaking any rule is refused; a refusal names at least one field |
| MealValidation.ValidateEach | backend/src/services/meal/mealValidation.ts:44 | an array is accepted exactly when every element passes the element schema; each result is that element's validated value, in order; a refusal names at least one issue (the server item arrays and the form item arrays both use it) |
| MealValidation.ItemsField | backend/src/services/meal/mealValidation.ts:44 | an accepted item list comes from a payload array of the same length, each element being what the item schema accepts for the array element at that position, so an array with one invalid element is refused; it has at least one element |
| MealValidation.ValidateMealBody | backend/src/services/meal/mealValidation.ts:38-50 | an accepted body meets every create rule (date and time shapes, notes at most 500, URL photo, at least one valid item), and its date, time, type, notes, photo URL and items are exactly what the payload holds, so a body breaking any rule is refused; the update schema is the same function |
| MealValidation.ValidateListQuery | backend/src/services/meal/mealValidation.ts:62-64 | a query is accepted exactly when it holds a date text of shape YYYY-MM-DD, and the result is that date |
| MealValidation.ValidateParams | backend/src/services/meal/mealValidation.ts:55-57 | an accepted id is positive and is the number the `id` property coerces to |
| MealValidation.ParamsRoundTrip | backend/src/services/meal/mealValidation.ts:55-57 | every positive whole number written in decimal is accepted as that id |
| MealValidation.ParamsDigits | backend/src/services/meal/mealValidation.ts:55-57 | a digit string is accepted exactly when its value is positive, and the id is that value |
| MealValidation.ParamsFractionRejected | backend/src/services/meal/mealValidation.ts:55-57 | a decimal with a non-zero fractional digit is refused |
| MealValidation.ParamsNegativeRejected | backend/src/services/meal/mealValidation.ts:55-57 | a text starting with a minus sign is refused |
| MealValidation.ValidateEncodedItem | backend/src/services/meal/mealValidation.ts:16-33 | every item meeting the item rules, written as a payload, is accepted unchanged |
| MealValidation.ValidateEncodedRequest | backend/src/services/meal/mealValidation.ts:38-45 | every request meeting the create rules, written as a payload, is accepted unchanged |
| MealValidation.ItemIgnoresClientId | backend/src/services/meal/mealValidation.ts:16-33 | an `id` key on an item payload makes no difference to its validation |
| MealValidation.EmptyItemsRejected | backend/src/services/meal/mealValidation.ts:44 | a body with an empty item list is refused, with an issue on `items` |
| MealValidation.PatternsCheckShapeOnly | backend/src/services/meal/mealValidation.ts:39-40 | the date and time patterns accept impossible dates and times of the right shape and refuse unpadded ones |
| MealInstances.MergeNothing | backend/src/instances/meal/mealStore.ts:56 | merging a patch that names nothing gives the record back |
| MealInstances.MergeSequential | backend/src/instances/meal/mealStore.ts:56 | merging two patches in turn equals merging their overlay |
| MealInstances.MergeIdempotent | backend/src/instances/meal/mealStore.ts:56 | merging the same patch twice equals merging it once |
| MealInstances.MergeFullPatch | backend/src/instances/meal/mealStore.ts:56 | a patch naming every property replaces the record entirely |
| MealInstances.WithoutKeeps | backend/src/instances/meal/mealStore.ts:64-66 | removing a key from the order keeps every other key, keeps keys distinct and changes nothing when the key is absent |
| MealInstances.MatchingMembers | backend/src/instances/meal/mealStore.ts:78-82 | a record is in the filtered list exactly when it is in the input with that owner and date |
| MealInstances.MatchingDistinctIds | backend/src/instances/meal/mealStore.ts:78-82 | filtering a list without repeated ids yields a list without repeated ids |
| MealInstances.InOrderDistinctIds | backend/src/instances/meal/mealStore.ts:29-31 | listing a table whose keys are its records' ids repeats no id |
| MealInstances.InOrderMembers | backend/src/instances/meal/mealStore.ts:29-31 | the listed records are exactly the stored ones, as many as there are keys |
| MealInstances.MealStore.constructor | backend/src/instances/meal/mealStore.ts:15-16 | a new store is empty with counter 0 |
| MealInstances.MealStore.GetNextId | backend/src/instances/meal/mealStore.ts:16-24 | the id returned is the previous counter plus one, and it becomes the counter |
| MealInstances.MealStore.GetAll | backend/src/instances/meal/mealStore.ts:29-31 | returns every stored record once, in insertion order |
| MealInstances.MealStore.GetById | backend/src/instances/meal/mealStore.ts:36-38 | returns a record exactly when the id is stored, and then the stored record |
| MealInstances.MealStore.Add | backend/src/instances/meal/mealStore.ts:43-46 | stores the record under its id, leaving every other entry unchanged; a new key goes last in the order, an existing one keeps its place |
| MealInstances.MealStore.Update | backend/src/instances/meal/mealStore.ts:51-59 | an absent id gives nothing and changes nothing; a present id stores and returns the merge of the patch over the old record; the key set is unchanged |
| MealInstances.MealStore.Delete | backend/src/instances/meal/mealStore.ts:64-66 | answers whether the id was stored; removes exactly that entry and its place in the order |
| MealInstances.MealStore.Exists | backend/src/instances/meal/mealStore.ts:71-73 | true exactly when the id is stored |
| MealInstances.MealStore.Filter | backend/src/instances/meal/mealStore.ts:78-82 | returns the stored records with that owner and date, in insertion order |
| MealAggregation.Summarize | backend/src/services/meal/mealService.ts:46-57 | the four accumulated totals equal the field-wise sum over every item of every meal |
| MealAggregation.SumItemsAppend | backend/src/services/meal/mealService.ts:48-53 | the total of two item lists joined is the sum of their totals |
| MealAggregation.SumMealsIsSumOfAllItems | backend/src/services/meal/mealService.ts:46-57 | the total of the meals is the total of all their items taken as one list |
| MealAggregation.SumMealsAppend | backend/src/services/meal/mealService.ts:46-57 | the total of two meal lists joined is the sum of their totals |
| MealAggregation.SumMealsPermutation | backend/src/services/meal/mealService.ts:46-60 | reordering the meals does not change the total, so summing before the sort gives the total of the sorted list |
| MealAggregation.SumMealsNonNegative | backend/src/services/meal/mealService.ts:46-57 | meals whose items have non-negative nutrients have non-negative totals |
| MealAggregation.SumItemsNonNegative | backend/src/services/meal/mealService.ts:48-53 | items with non-negative nutrients have non-negative totals |
| MealOrdering.TextBeforeIrreflexive | backend/src/services/meal/mealService.ts:60 | no time text sorts before itself |
| MealOrdering.TextBeforeTransitive | backend/src/services/meal/mealService.ts:60 | the time comparison is transitive |
| MealOrdering.TextBeforeTotal | backend/src/services/meal/mealService.ts:60 | of two different texts, one sorts before the other |
| MealOrdering.TextBeforeAsymmetric | backend/src/services/meal/mealService.ts:60 | two texts never each sort before the other |
| MealOrdering.TimeTextOrder | backend/src/services/meal/mealService.ts:60 | on HH:MM texts, the text order is the order of the four-digit clock value |
| MealOrdering.TimeTextOrderIsClockOrder | backend/src/services/meal/mealService.ts:60 | on HH:MM texts with minutes below 60, the text order is the order of minutes since midnight |
| MealOrdering.InsertPermutes | backend/src/services/meal/mealService.ts:60 | inserting a meal adds exactly that meal |
| MealOrdering.SortByTimePermutes | backend/src/services/meal/mealService.ts:60 | the sorted list is a permutation of the input |
| MealOrdering.InsertSorted | backend/src/services/meal/mealService.ts:60 | inserting into a time-sorted list keeps it sorted |
| MealOrdering.SortedSnoc | backend/src/services/meal/mealService.ts:60 | appending a meal whose time is no earlier than any listed one keeps a time-sorted list sorted |
| MealOrdering.SortByTimeSorted | backend/src/services/meal/mealService.ts:60 | the sorted list is in ascending time order |
| MealOrdering.InsertStable | backend/src/services/meal/mealService.ts:60 | inserting a meal goes after every meal with the same time |
| MealOrdering.SortByTimeStable | backend/src/services/meal/mealService.ts:60 | meals with equal times keep their input order |
| MealOrdering.InsertAtPoint | backend/src/services/meal/mealService.ts:60 | a meal goes in right behind the last meal not later than it, after every later meal has been passed |
| MealOrdering.ShiftInto | backend/src/services/meal/mealService.ts:60 | the scan moves the element left past exactly the later meals, shifting them one place right, and stops behind the first meal that is not later |
| MealOrdering.InsertAt | backend/src/services/meal/mealService.ts:60 | one step of the in-place sort inserts the element into the sorted prefix and leaves the rest of the array alone |
| MealOrdering.SortInPlace | backend/src/services/meal/mealService.ts:60 | the array ends up as the stable time sort of its old contents |
| MealService.OrNull | backend/src/services/meal/mealService.ts:97-98 | a missing or null value becomes null; a given text, even empty, is kept |
| MealService.Renumber | backend/src/services/meal/mealService.ts:99 | the items keep their number and order, the i-th gets id i+1 and every other field is copied |
| MealService.RenumberIgnoresIds | backend/src/services/meal/mealService.ts:99 | item ids sent by the client have no effect on the stored items |
| MealService.RenumberIdempotent | backend/src/services/meal/mealService.ts:99 | renumbering already numbered items changes nothing |
| MealService.NewRecordOk | backend/src/services/meal/mealService.ts:91-102 | a created record has the new id and the caller as owner, equal creation and modification times, and items renumbered from the request |
| MealService.UpdatedRecordOk | backend/src/services/meal/mealService.ts:177-186 | an update keeps id, owner and creation time, takes every other property from the request, and keeps the record's rules |
| MealService.SortedCopy | backend/src/services/meal/mealService.ts:60 | sorting the filtered list in an array gives the stable time sort of that list |
| MealService.DayListingOnce | backend/src/instances/meal/mealStore.ts:78-82 | under the service invariant the filtered meals of a day name each record once |
| MealService.DayListing | backend/src/services/meal/mealService.ts:43-66 | the listed meals are sorted by time, stably, are exactly the caller's meals of that day, and have the same totals as the unsorted list |
| MealService.MealList | backend/src/services/meal/mealService.ts:30-67 | a bad query gives a 400 validation error; otherwise the day's meals of the caller, sorted by time, stably, with their field-wise totals; reads the store only |
| MealService.MealCreate | backend/src/services/meal/mealService.ts:80-106 | a bad body gives a 400 validation error and changes nothing, the counter included; otherwise stores and returns the new record under the next id, appending that id to the iteration order unless already present, and under the invariant the id is fresh; keeps the store consistent |
| MealService.MealGet | backend/src/services/meal/mealService.ts:119-134 | a bad id gives a 400 error; a missing or foreign record gives the same 404 error; otherwise the stored record |
| MealService.MealUpdate | backend/src/services/meal/mealService.ts:148-189 | checks the id, then the body, then the owner; only a success changes the store, replacing that one record by the merge of the update; keeps the store consistent |
| MealService.MealDelete | backend/src/services/meal/mealService.ts:202-218 | a bad id gives a 400 error; a missing or foreign record gives a 404 error and changes nothing; otherwise removes exactly that record and answers "Deleted successfully" |
| MealFormValidation.ValidateFormItem | frontend/src/domain/meal/validations/meal.ts:14-27 | an accepted form item has a 1..100 character name, quantity at least 0.01, a listed unit and non-negative nutrients, and each of its fields is what the payload holds under its snake_case key, so a payload breaking any rule is refused |
| MealFormValidation.FormItemsField | frontend/src/domain/meal/validations/meal.ts:38 | an accepted form item list comes from a payload array of the same length, element by element what the form item schema accepts, so one invalid element refuses the list; it has at least one element |
| MealFormValidation.ValidateFormMeal | frontend/src/domain/meal/validations/meal.ts:29-39 | an accepted form meets every form rule, including a photo URL that is a URL or empty and notes of at most 500 characters, and its id, date, time, type, notes, photo URL and items are exactly what the payload holds, so a form breaking any rule (null notes among them) is refused |
| MealFormValidation.ValidateEncodedFormItem | frontend/src/domain/meal/validations/meal.ts:14-27 | every form item within the limits, written as a payload, is accepted unchanged |
| MealFormValidation.ValidateEncodedFormMeal | frontend/src/domain/meal/validations/meal.ts:29-39 | every well-formed form, written as a payload, is accepted unchanged |
| MealFormValidation.FormLabelsAreServerLabels | frontend/src/domain/meal/validations/meal.ts:3-12 | the form's meal-type and unit lists equal the server's, element for element |
| MealFormValidation.FormQuantityStricter | frontend/src/domain/meal/validations/meal.ts:21 | every quantity the form accepts the server accepts with the same value; 0.005 passes the server but not the form |
| MealFormValidation.FormNullAndEmptyDiffer | frontend/src/domain/meal/validations/meal.ts:36-37 | null notes pass the server but not the form; an empty photo URL always passes the form and passes the server only if the empty text counts as a URL |

The shapes of `backend/src/services/meal/mealTypes.ts` are the datatypes of
`MealTypes`. A stored record's notes and photo URL are `Option<string>`: null or
a text, never absent. A request's notes and photo URL are `Nullable`: absent,
null or a text. The update request is the create request type. The limits 500
and 100 of `backend/src/constants/meal/mealDefaults.ts:51-52` are
`MealDefaults.NotesMaxLength` and `MealDefaults.FoodNameMaxLength`.

## Left out

- The HTTP controller, the user-id header and the response envelope are transport only.
- The React components, pages, hooks and the frontend network client are rendering and network code.
- The clock: the service reads the current time. Here the time is the `now` parameter.
- URL well-formedness depends on the host URL parser. Here it is the `isUrl` parameter of the validators.
- Zod's issue format: each refusal is a list of issue paths, one per failing field. A missing field and a wrongly typed field give the same path. Messages and issue codes are not modelled.
- Unknown keys are dropped by not reading them. Zod's own stripping is not modelled further.
- `MealValidation.ValidateParams` models the coercion of the id for:
  - numbers;
  - null and booleans;
  - the empty text;
  - decimal texts with an optional sign and fraction.

  Every other text counts as not a number. Exponents, whitespace, hexadecimal and `Infinity` are not modelled.
  Every array counts as not a number, although `Number([])` is 0 and `Number(["7"])` is 7. Path parameters are always texts, so no array reaches the schema through the service.
- `MealValidation.ValidateParams`, `MealValidation.ParamsRoundTrip`, `MealValidation.ParamsFractionRejected`: a decimal text is read as its exact value. The source rounds it to the nearest double, so it accepts "9007199254740993" as 9007199254740992 and "1.0000000000000001" as 1. The round trip and the refusal of fractions hold only for texts that a double represents exactly.
- The food reference helper and the error class come from a utilities module. That module is not part of this model. The food reference is taken to be an optional, nullable positive integer, as its name says.
- Numbers are exact reals. Floating-point rounding in the sums, in the parsing of the id text and in display is not modelled.
- `MealInstances.MealStore.GetNextId`: the counter here is an exact integer. The service's counter is a double, so once it reaches 2^53, adding one leaves it there. Every later allocation would then return 9007199254740992, and `add` would overwrite the record stored under it. That takes 2^53 creations, so it is out of reach in practice, but "ids are never reused" holds only below that bound.
- JSON numbers too large for a double, such as `1e400`, parse to Infinity, which the unrestricted number schema accepts. Here every `JNum` holds a finite real, so such payloads are not modelled.
- Text lengths count characters, not UTF-16 code units. The labels with accents have no surrogate pairs, so the two agree there.
- `MealOrdering.TextBefore` is code-point order, not the full locale collation of `localeCompare`. The two agree on the HH:MM texts that pass validation.
- The functions are asynchronous but await nothing, so each runs as one sequential method.
- A patch property that is named but explicitly undefined is not modelled. The service never sends one.
- `MealList` sorts a fresh array copied from the filtered list. The source sorts the filtered array itself, which is also a fresh array. Either way the store is not touched.
- `MealService.UpdatedRecordOk`: it does not say that the modification time follows the creation time. Times are opaque texts here.
