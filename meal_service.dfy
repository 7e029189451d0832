/**
 * The five operations of the meal service. Each validates its input, looks the
 * record up and checks its owner where it names one, calls the store and
 * returns a result. Failures are values: a validation error (400) before any
 * store access, or "not found" (404), which also covers a record owned by
 * someone else. The current time is a parameter.
 */
module MealService {
  import opened Wrappers
  import opened Json
  import opened MealDefaults
  import opened MealTypes
  import opened MealValidation
  import opened MealInstances
  import opened MealAggregation
  import opened MealOrdering

  datatype ErrorCode = ValidationError | NotFound

  /** A failure as the transport layer receives it. */
  datatype ServiceError = ServiceError(code: ErrorCode, message: string, statusCode: int, details: Issues)

  /** What a successful delete answers. */
  datatype DeleteResponse = DeleteResponse(message: string)

  /** The single answer for a missing record and for someone else's record. */
  const MealNotFound: ServiceError := ServiceError(NotFound, "Meal not found", 404, [])

  function InvalidInput(message: string, details: Issues): ServiceError
  {
    ServiceError(ValidationError, message, 400, details)
  }

  /** A record is there under `id` and belongs to `userId`. */
  predicate Owns(records: map<int, MealRecord>, id: int, userId: int)
  {
    id in records && records[id].userId == userId
  }

  // ---------------------------------------------------------------------------
  // Building records

  /** `value ?? null`: an absent or null property becomes null; any text, even empty, is kept. */
  function OrNull<T>(v: Nullable<T>): (r: Option<T>)
    ensures r.None? <==> v.Absent? || v.Null?
    ensures r.Some? ==> v == Present(r.value)
  {
    match v
    case Present(x) => Some(x)
    case _ => None
  }

  /** `items.map((item, index) => ({ ...item, id: index + 1 }))`. */
  function Renumber(items: seq<MealItem>): (r: seq<MealItem>)
    ensures |r| == |items|
    ensures forall i :: 0 <= i < |r| ==> r[i].id == Some(i + 1)
    ensures forall i :: 0 <= i < |r| ==> r[i].(id := items[i].id) == items[i]
  {
    seq(|items|, i requires 0 <= i < |items| => items[i].(id := Some(i + 1)))
  }

  /** The ids a client puts on items make no difference: only positions count. */
  lemma RenumberIgnoresIds(a: seq<MealItem>, b: seq<MealItem>)
    requires |a| == |b|
    requires forall i :: 0 <= i < |a| ==> a[i].(id := None) == b[i].(id := None)
    ensures Renumber(a) == Renumber(b)
  {
    forall i | 0 <= i < |a|
      ensures Renumber(a)[i] == Renumber(b)[i]
    {
      assert a[i].(id := None).(id := Some(i + 1)) == a[i].(id := Some(i + 1));
      assert b[i].(id := None).(id := Some(i + 1)) == b[i].(id := Some(i + 1));
    }
  }

  /** Renumbering numbered items changes nothing. */
  lemma RenumberIdempotent(items: seq<MealItem>)
    ensures Renumber(Renumber(items)) == Renumber(items)
  {
  }

  /** The record a create stores. */
  function NewRecord(id: int, userId: int, req: MealCreateRequest, now: string): MealRecord
  {
    MealRecord(id, userId, req.date, req.time, req.mealType, OrNull(req.notes), OrNull(req.photoUrl),
               Renumber(req.items), now, now)
  }

  /** The properties an update writes; id, owner and creation time are not among them. */
  function UpdatePatch(req: MealUpdateRequest, now: string): MealPatch
  {
    MealPatch(None, None, Some(req.date), Some(req.time), Some(req.mealType), Some(OrNull(req.notes)),
              Some(OrNull(req.photoUrl)), Some(Renumber(req.items)), None, Some(now))
  }

  // ---------------------------------------------------------------------------
  // What every stored record satisfies

  /** A stored record: at least one item, items numbered 1..n, and every body rule met. */
  predicate StoredRecordOk(r: MealRecord)
  {
    && |r.items| >= 1
    && (forall i :: 0 <= i < |r.items| ==> r.items[i].id == Some(i + 1) && ItemWithinLimits(r.items[i]))
    && IsDateText(r.date)
    && IsTimeText(r.time)
    && (r.notes.Some? ==> |r.notes.value| <= NotesMaxLength)
  }

  /** The store as the service leaves it: each record under its own id, no id above the counter. */
  ghost predicate Consistent(store: MealStore)
    reads store
  {
    && store.Valid()
    && TableOk(store.records, store.currentId)
  }

  /** Each record under its own id, no id above the counter, every record well formed. */
  predicate TableOk(records: map<int, MealRecord>, currentId: int)
  {
    forall k :: k in records ==>
      && 1 <= k <= currentId
      && records[k].id == k
      && StoredRecordOk(records[k])
  }

  /** Replacing a stored record by a well-formed one under the same id keeps the table well formed. */
  lemma TableReplace(records: map<int, MealRecord>, currentId: int, id: int, u: MealRecord)
    requires TableOk(records, currentId) && id in records
    requires u.id == id && StoredRecordOk(u)
    ensures TableOk(records[id := u], currentId)
  {
  }

  /** A created record: the new id, the caller as owner, one timestamp for both, the items renumbered. */
  lemma NewRecordOk(id: int, userId: int, req: MealCreateRequest, now: string, isUrl: string -> bool)
    requires RequestWellFormed(req, isUrl)
    ensures var r := NewRecord(id, userId, req, now);
      && StoredRecordOk(r)
      && r.id == id && r.userId == userId
      && r.dateCreated == r.dateModified == now
      && |r.items| == |req.items|
      && (forall i :: 0 <= i < |r.items| ==> r.items[i] == req.items[i].(id := Some(i + 1)))
  {
    var r := NewRecord(id, userId, req, now);
    forall i | 0 <= i < |r.items|
      ensures r.items[i] == req.items[i].(id := Some(i + 1))
    {
    }
  }

  /** An updated record keeps its id, owner and creation time and takes everything else from the request. */
  lemma UpdatedRecordOk(r: MealRecord, req: MealUpdateRequest, now: string, isUrl: string -> bool)
    requires StoredRecordOk(r) && RequestWellFormed(req, isUrl)
    ensures var u := Merge(r, UpdatePatch(req, now));
      && StoredRecordOk(u)
      && u.id == r.id && u.userId == r.userId && u.dateCreated == r.dateCreated
      && u == NewRecord(r.id, r.userId, req, now).(dateCreated := r.dateCreated)
  {
  }

  /** The listing of one day: sorted by time, stably, holding exactly the caller's meals of that day,
      with the same totals as the unsorted list. */
  lemma DayListing(entries: seq<MealRecord>, userId: int, date: string)
    ensures var day := Matching(entries, userId, date);
      var listed := SortByTime(day);
      && SortedByTime(listed)
      && SumMeals(listed) == SumMeals(day)
      && (forall m :: m in listed <==> m in entries && m.userId == userId && m.date == date)
      && (forall t :: WithTime(listed, t) == WithTime(day, t))
  {
    var day := Matching(entries, userId, date);
    var listed := SortByTime(day);
    SortByTimeSorted(day);
    SortByTimePermutes(day);
    SumMealsPermutation(day, listed);
    MatchingMembers(entries, userId, date);
    forall m
      ensures m in listed <==> m in day
    {
      assert m in listed <==> m in multiset(listed);
      assert m in day <==> m in multiset(day);
    }
    forall t
      ensures WithTime(listed, t) == WithTime(day, t)
    {
      SortByTimeStable(day, t);
    }
  }

  // ---------------------------------------------------------------------------
  // The operations

  /** Sorts a list of meals by time in an array of its own, as the service sorts the filtered list. */
  method SortedCopy(meals: seq<MealRecord>) returns (sorted: seq<MealRecord>)
    ensures sorted == SortByTime(meals)
  {
    var a := new MealRecord[|meals|](i requires 0 <= i < |meals| => meals[i]);
    assert a[..] == meals;
    SortInPlace(a);
    sorted := a[..];
  }

  /** Under the service's invariant the meals of a day name every record once. */
  lemma DayListingOnce(store: MealStore, userId: int, date: string)
    requires Consistent(store)
    ensures DistinctIds(Matching(store.Entries(), userId, date))
  {
    InOrderDistinctIds(store.order, store.records);
    MatchingDistinctIds(store.Entries(), userId, date);
  }

  /** The caller's meals of one day, their totals, and the meals ordered by time. */
  method MealList(store: MealStore, userId: int, query: Json) returns (r: Result<MealListResponse, ServiceError>)
    requires store.Valid()
    ensures ValidateListQuery(query).Err? ==>
      r == Err(InvalidInput("Invalid query parameters", ValidateListQuery(query).error))
    ensures ValidateListQuery(query).Ok? ==>
      var date := ValidateListQuery(query).value;
      var day := Matching(store.Entries(), userId, date);
      r == Ok(MealListResponse(date, SumMeals(day), SortByTime(day)))
    ensures r.Ok? ==> SortedByTime(r.value.meals)
    ensures r.Ok? ==> r.value.summary == SumMeals(r.value.meals)
    ensures r.Ok? && r.value.meals == [] ==> r.value.summary == NoIntake
    ensures r.Ok? ==> forall t :: WithTime(r.value.meals, t) == WithTime(Matching(store.Entries(), userId, r.value.date), t)
    ensures r.Ok? ==> forall m :: m in r.value.meals <==>
      m in store.Entries() && m.userId == userId && m.date == r.value.date
  {
    var validation := ValidateListQuery(query);
    if validation.Err? {
      return Err(InvalidInput("Invalid query parameters", validation.error));
    }
    var date := validation.value;
    var meals := store.Filter(userId, date);
    var summary := Summarize(meals);
    var sorted := SortedCopy(meals);
    DayListing(store.Entries(), userId, date);
    r := Ok(MealListResponse(date, summary, sorted));
  }

  /** Validates a body, takes the next id and stores the new record. */
  method MealCreate(store: MealStore, userId: int, body: Json, now: string, isUrl: string -> bool)
    returns (r: Result<MealRecord, ServiceError>)
    requires store.Valid()
    modifies store
    ensures store.Valid()
    ensures ValidateMealBody(body, isUrl).Err? ==>
      && r == Err(InvalidInput("Validation failed", ValidateMealBody(body, isUrl).error))
      && store.records == old(store.records) && store.order == old(store.order)
      && store.currentId == old(store.currentId)
    ensures ValidateMealBody(body, isUrl).Ok? ==>
      && store.currentId == old(store.currentId) + 1
      && r == Ok(NewRecord(store.currentId, userId, ValidateMealBody(body, isUrl).value, now))
      && store.records == old(store.records)[store.currentId := r.value]
    ensures r.Ok? ==>
      store.order == if r.value.id in old(store.records) then old(store.order) else old(store.order) + [r.value.id]
    ensures old(Consistent(store)) ==> Consistent(store)
    ensures old(Consistent(store)) && r.Ok? ==>
      && (forall k :: k in old(store.records) ==> k < r.value.id)
      && store.order == old(store.order) + [r.value.id]
  {
    var validation := ValidateMealBody(body, isUrl);
    if validation.Err? {
      return Err(InvalidInput("Validation failed", validation.error));
    }
    var params := validation.value;
    var id := store.GetNextId();
    var newMeal := NewRecord(id, userId, params, now);
    NewRecordOk(id, userId, params, now, isUrl);
    var added := store.Add(newMeal);
    r := Ok(newMeal);
  }

  /** The caller's record with the given id. */
  method MealGet(store: MealStore, userId: int, params: Json) returns (r: Result<MealRecord, ServiceError>)
    ensures ValidateParams(params).Err? ==> r == Err(InvalidInput("Invalid ID", ValidateParams(params).error))
    ensures ValidateParams(params).Ok? ==>
      var id := ValidateParams(params).value;
      r == if Owns(store.records, id, userId) then Ok(store.records[id]) else Err(MealNotFound)
  {
    var validation := ValidateParams(params);
    if validation.Err? {
      return Err(InvalidInput("Invalid ID", validation.error));
    }
    var id := validation.value;
    var record := store.GetById(id);
    if record.None? || record.value.userId != userId {
      return Err(MealNotFound);
    }
    r := Ok(record.value);
  }

  /** Replaces the mutable properties of the caller's record; checks the id, then the body, then the owner. */
  method MealUpdate(store: MealStore, userId: int, params: Json, body: Json, now: string, isUrl: string -> bool)
    returns (r: Result<MealRecord, ServiceError>)
    requires store.Valid()
    modifies store
    ensures store.Valid()
    ensures store.order == old(store.order) && store.currentId == old(store.currentId)
    ensures ValidateParams(params).Err? ==>
      r == Err(InvalidInput("Invalid ID", ValidateParams(params).error)) && store.records == old(store.records)
    ensures ValidateParams(params).Ok? && ValidateMealBody(body, isUrl).Err? ==>
      r == Err(InvalidInput("Validation failed", ValidateMealBody(body, isUrl).error))
      && store.records == old(store.records)
    ensures ValidateParams(params).Ok? && ValidateMealBody(body, isUrl).Ok? ==>
      var id := ValidateParams(params).value;
      var req := ValidateMealBody(body, isUrl).value;
      if Owns(old(store.records), id, userId) then
        && r == Ok(Merge(old(store.records)[id], UpdatePatch(req, now)))
        && store.records == old(store.records)[id := r.value]
      else
        r == Err(MealNotFound) && store.records == old(store.records)
    ensures old(Consistent(store)) ==> Consistent(store)
  {
    var paramsValidation := ValidateParams(params);
    if paramsValidation.Err? {
      return Err(InvalidInput("Invalid ID", paramsValidation.error));
    }
    var bodyValidation := ValidateMealBody(body, isUrl);
    if bodyValidation.Err? {
      return Err(InvalidInput("Validation failed", bodyValidation.error));
    }
    var id := paramsValidation.value;
    var existing := store.GetById(id);
    if existing.None? || existing.value.userId != userId {
      return Err(MealNotFound);
    }
    var updateData := bodyValidation.value;
    if TableOk(store.records, store.currentId) {
      UpdatedRecordOk(existing.value, updateData, now, isUrl);
      TableReplace(store.records, store.currentId, id, Merge(existing.value, UpdatePatch(updateData, now)));
    }
    var updated := store.Update(id, UpdatePatch(updateData, now));
    r := Ok(updated.value);
  }

  /** Removes the caller's record with the given id. */
  method MealDelete(store: MealStore, userId: int, params: Json) returns (r: Result<DeleteResponse, ServiceError>)
    requires store.Valid()
    modifies store
    ensures store.Valid()
    ensures store.currentId == old(store.currentId)
    ensures ValidateParams(params).Err? ==>
      && r == Err(InvalidInput("Invalid ID", ValidateParams(params).error))
      && store.records == old(store.records) && store.order == old(store.order)
    ensures ValidateParams(params).Ok? ==>
      var id := ValidateParams(params).value;
      if Owns(old(store.records), id, userId) then
        && r == Ok(DeleteResponse("Deleted successfully"))
        && store.records == old(store.records) - {id}
        && store.order == Without(old(store.order), id)
      else
        r == Err(MealNotFound) && store.records == old(store.records) && store.order == old(store.order)
    ensures old(Consistent(store)) ==> Consistent(store)
  {
    var validation := ValidateParams(params);
    if validation.Err? {
      return Err(InvalidInput("Invalid ID", validation.error));
    }
    var id := validation.value;
    var existing := store.GetById(id);
    if existing.None? || existing.value.userId != userId {
      return Err(MealNotFound);
    }
    var deleted := store.Delete(id);
    r := Ok(DeleteResponse("Deleted successfully"));
  }
}
