/**
 * The in-memory store of meal records: an insertion-ordered table from id to
 * record (a JavaScript `Map`) and the counter that hands out ids.
 */
module MealInstances {
  import opened Wrappers
  import opened MealDefaults
  import opened MealTypes

  // ---------------------------------------------------------------------------
  // Partial records and the spread merge

  /** `Partial<MealRecord>`: each property is either named (Some) or left out (None). */
  datatype MealPatch = MealPatch(
    id: Option<int>,
    userId: Option<int>,
    date: Option<string>,
    time: Option<string>,
    mealType: Option<MealType>,
    notes: Option<Option<string>>,
    photoUrl: Option<Option<string>>,
    items: Option<seq<MealItem>>,
    dateCreated: Option<string>,
    dateModified: Option<string>)

  /** The patch that names no property. */
  const NoChanges: MealPatch := MealPatch(None, None, None, None, None, None, None, None, None, None)

  function Pick<T>(named: Option<T>, kept: T): T
  {
    if named.Some? then named.value else kept
  }

  function Later<T>(first: Option<T>, second: Option<T>): Option<T>
  {
    if second.Some? then second else first
  }

  /** `{ ...existing, ...data }`: a property named in the patch takes its value, every other is kept. */
  function Merge(r: MealRecord, p: MealPatch): MealRecord
  {
    MealRecord(
      Pick(p.id, r.id), Pick(p.userId, r.userId), Pick(p.date, r.date), Pick(p.time, r.time),
      Pick(p.mealType, r.mealType), Pick(p.notes, r.notes), Pick(p.photoUrl, r.photoUrl),
      Pick(p.items, r.items), Pick(p.dateCreated, r.dateCreated), Pick(p.dateModified, r.dateModified))
  }

  /** `{ ...p, ...q }`: two patches applied one after the other, as one patch. */
  function Overlay(p: MealPatch, q: MealPatch): MealPatch
  {
    MealPatch(
      Later(p.id, q.id), Later(p.userId, q.userId), Later(p.date, q.date), Later(p.time, q.time),
      Later(p.mealType, q.mealType), Later(p.notes, q.notes), Later(p.photoUrl, q.photoUrl),
      Later(p.items, q.items), Later(p.dateCreated, q.dateCreated), Later(p.dateModified, q.dateModified))
  }

  /** The patch that names every property, with a record's values. */
  function AsPatch(r: MealRecord): MealPatch
  {
    MealPatch(
      Some(r.id), Some(r.userId), Some(r.date), Some(r.time), Some(r.mealType), Some(r.notes),
      Some(r.photoUrl), Some(r.items), Some(r.dateCreated), Some(r.dateModified))
  }

  /** Merging a patch that names nothing gives the record back. */
  lemma MergeNothing(r: MealRecord)
    ensures Merge(r, NoChanges) == r
  {
  }

  /** Merging two patches in turn is merging their overlay. */
  lemma MergeSequential(r: MealRecord, p: MealPatch, q: MealPatch)
    ensures Merge(Merge(r, p), q) == Merge(r, Overlay(p, q))
  {
  }

  /** Merging the same patch twice changes nothing the second time. */
  lemma MergeIdempotent(r: MealRecord, p: MealPatch)
    ensures Merge(Merge(r, p), p) == Merge(r, p)
  {
  }

  /** A patch naming every property replaces the whole record. */
  lemma MergeFullPatch(r: MealRecord, s: MealRecord)
    ensures Merge(r, AsPatch(s)) == s
  {
  }

  // ---------------------------------------------------------------------------
  // Insertion order

  predicate Distinct(s: seq<int>)
  {
    forall i, j :: 0 <= i < j < |s| ==> s[i] != s[j]
  }

  /** `order` lists exactly the keys of `records`. */
  predicate KeysInOrder(order: seq<int>, records: map<int, MealRecord>)
  {
    && (forall i :: 0 <= i < |order| ==> order[i] in records)
    && (forall k :: k in records ==> k in order)
  }

  /** The records of a table, in the order of its keys. */
  function InOrder(order: seq<int>, records: map<int, MealRecord>): (rs: seq<MealRecord>)
    requires forall i :: 0 <= i < |order| ==> order[i] in records
    ensures |rs| == |order|
    ensures forall i :: 0 <= i < |order| ==> rs[i] == records[order[i]]
  {
    seq(|order|, i requires 0 <= i < |order| => records[order[i]])
  }

  /** A key order with one key taken out, the others keeping their places. */
  function Without(s: seq<int>, x: int): seq<int>
    decreases |s|
  {
    if s == [] then []
    else Without(s[..|s| - 1], x) + (if s[|s| - 1] == x then [] else [s[|s| - 1]])
  }

  lemma {:induction false} WithoutKeeps(s: seq<int>, x: int)
    ensures forall y :: y in Without(s, x) <==> y in s && y != x
    ensures Distinct(s) ==> Distinct(Without(s, x))
    ensures x !in s ==> Without(s, x) == s
    decreases |s|
  {
    if s != [] {
      var init := s[..|s| - 1];
      WithoutKeeps(init, x);
      assert s == init + [s[|s| - 1]];
      assert forall y :: y in s <==> y in init || y == s[|s| - 1];
      if Distinct(s) {
        assert Distinct(init);
        assert s[|s| - 1] !in init;
      }
    }
  }

  /** The records with the given owner and date, in their order in `s`. */
  function Matching(s: seq<MealRecord>, userId: int, date: string): seq<MealRecord>
    decreases |s|
  {
    if s == [] then []
    else
      var last := s[|s| - 1];
      Matching(s[..|s| - 1], userId, date) + (if last.userId == userId && last.date == date then [last] else [])
  }

  /** A record is in the filtered list exactly when it is in `s` with that owner and date. */
  lemma {:induction false} MatchingMembers(s: seq<MealRecord>, userId: int, date: string)
    ensures forall r :: r in Matching(s, userId, date) <==> r in s && r.userId == userId && r.date == date
    decreases |s|
  {
    if s != [] {
      MatchingMembers(s[..|s| - 1], userId, date);
      assert s == s[..|s| - 1] + [s[|s| - 1]];
    }
  }

  /** No two records of the list carry the same id. */
  predicate DistinctIds(s: seq<MealRecord>)
  {
    forall i, j :: 0 <= i < j < |s| ==> s[i].id != s[j].id
  }

  /** Filtering keeps records apart: in a list without repeated ids, the filtered list repeats none. */
  lemma {:induction false} MatchingDistinctIds(s: seq<MealRecord>, userId: int, date: string)
    requires DistinctIds(s)
    ensures DistinctIds(Matching(s, userId, date))
    decreases |s|
  {
    if s != [] {
      var init := s[..|s| - 1];
      MatchingDistinctIds(init, userId, date);
      MatchingMembers(init, userId, date);
      var m := Matching(s, userId, date);
      var mi := Matching(init, userId, date);
      var last := s[|s| - 1];
      assert m == mi + (if last.userId == userId && last.date == date then [last] else []);
      forall i, j | 0 <= i < j < |m|
        ensures m[i].id != m[j].id
      {
        if j == |mi| {
          assert m[i] == mi[i] && mi[i] in mi;
          assert m[i] in init;
          var k :| 0 <= k < |init| && init[k] == m[i];
          assert s[k] == init[k];
          assert s[k].id != s[|s| - 1].id;
          assert m[j] == last;
          assert m[i].id != m[j].id;
        } else {
          assert m[i] == mi[i] && m[j] == mi[j];
          assert mi[i].id != mi[j].id;
        }
      }
    }
  }

  /** A table whose keys are its records' ids lists every record once: ids do not repeat. */
  lemma InOrderDistinctIds(order: seq<int>, records: map<int, MealRecord>)
    requires Distinct(order) && KeysInOrder(order, records)
    requires forall k :: k in records ==> records[k].id == k
    ensures DistinctIds(InOrder(order, records))
  {
  }

  /** The listed records are exactly the stored ones, as many as there are keys. */
  lemma {:induction false} InOrderMembers(order: seq<int>, records: map<int, MealRecord>)
    requires Distinct(order) && KeysInOrder(order, records)
    ensures |InOrder(order, records)| == |records|
    ensures forall r :: r in InOrder(order, records) <==> exists k :: k in records && records[k] == r
  {
    var rs := InOrder(order, records);
    forall r | r in rs
      ensures exists k :: k in records && records[k] == r
    {
      var i :| 0 <= i < |rs| && rs[i] == r;
      assert records[order[i]] == r;
    }
    forall r | exists k :: k in records && records[k] == r
      ensures r in rs
    {
      var k :| k in records && records[k] == r;
      var i :| 0 <= i < |order| && order[i] == k;
      assert rs[i] == r;
    }
    DistinctCardinality(order);
    assert forall k :: k in records.Keys <==> k in (set k | k in order);
    assert records.Keys == set k | k in order;
  }

  lemma {:induction false} DistinctCardinality(s: seq<int>)
    requires Distinct(s)
    ensures |set k | k in s| == |s|
    decreases |s|
  {
    if s != [] {
      var init := s[..|s| - 1];
      DistinctCardinality(init);
      assert (set k | k in s) == (set k | k in init) + {s[|s| - 1]};
      assert s[|s| - 1] !in init;
    }
  }

  // ---------------------------------------------------------------------------
  // The store

  class MealStore {
    var records: map<int, MealRecord>
    var order: seq<int>
    var currentId: int

    /** `order` lists every key once, in insertion order; the counter never goes below zero. */
    ghost predicate Valid()
      reads this
    {
      && 0 <= currentId
      && Distinct(order)
      && KeysInOrder(order, records)
    }

    /** The stored records in the order the table iterates them. */
    function Entries(): seq<MealRecord>
      reads this
      requires Valid()
    {
      InOrder(order, records)
    }

    constructor ()
      ensures Valid()
      ensures records == map[] && order == [] && currentId == 0
    {
      records := map[];
      order := [];
      currentId := 0;
    }

    /** Hands out the next id: one more than the last one handed out, starting from 1. */
    method GetNextId() returns (id: int)
      requires Valid()
      modifies this`currentId
      ensures Valid()
      ensures id == old(currentId) + 1 && currentId == id
    {
      currentId := currentId + 1;
      id := currentId;
    }

    /** Every stored record, in insertion order. */
    method GetAll() returns (rs: seq<MealRecord>)
      requires Valid()
      ensures rs == Entries()
      ensures |rs| == |records|
      ensures forall r :: r in rs <==> exists k :: k in records && records[k] == r
    {
      InOrderMembers(order, records);
      rs := InOrder(order, records);
    }

    /** The record stored under `id`, if any; no ownership check at this layer. */
    method GetById(id: int) returns (r: Option<MealRecord>)
      ensures r.Some? <==> id in records
      ensures r.Some? ==> r.value == records[id]
    {
      r := if id in records then Some(records[id]) else None;
    }

    /** Stores a record under its own id; a key already present keeps its place in the order. */
    method Add(record: MealRecord) returns (added: MealRecord)
      requires Valid()
      modifies this`records, this`order
      ensures Valid()
      ensures added == record
      ensures records == old(records)[record.id := record]
      ensures order == if record.id in old(records) then old(order) else old(order) + [record.id]
    {
      if record.id !in records {
        order := order + [record.id];
      }
      records := records[record.id := record];
      added := record;
    }

    /** Merges a partial record over the one stored under `id`; nothing happens when there is none. */
    method Update(id: int, data: MealPatch) returns (r: Option<MealRecord>)
      requires Valid()
      modifies this`records
      ensures Valid()
      ensures id !in old(records) ==> r == None && records == old(records)
      ensures id in old(records) ==> r == Some(Merge(old(records)[id], data))
      ensures id in old(records) ==> records == old(records)[id := r.value]
      ensures records.Keys == old(records).Keys
    {
      if id !in records {
        return None;
      }
      var updated := Merge(records[id], data);
      records := records[id := updated];
      r := Some(updated);
    }

    /** Removes the record under `id`, telling whether there was one. */
    method Delete(id: int) returns (existed: bool)
      requires Valid()
      modifies this`records, this`order
      ensures Valid()
      ensures existed == (id in old(records))
      ensures records == old(records) - {id}
      ensures order == Without(old(order), id)
    {
      WithoutKeeps(order, id);
      existed := id in records;
      records := records - {id};
      order := Without(order, id);
      forall i | 0 <= i < |order|
        ensures order[i] in records
      {
        assert order[i] in order;
      }
    }

    /** Whether a record is stored under `id`. */
    method Exists(id: int) returns (b: bool)
      ensures b <==> id in records
    {
      b := id in records;
    }

    /** The records of one owner on one date, in insertion order. */
    method Filter(userId: int, date: string) returns (rs: seq<MealRecord>)
      requires Valid()
      ensures rs == Matching(Entries(), userId, date)
    {
      rs := [];
      for i := 0 to |order|
        invariant rs == Matching(InOrder(order[..i], records), userId, date)
      {
        var r := records[order[i]];
        assert InOrder(order[..i + 1], records)[..i] == InOrder(order[..i], records);
        if r.userId == userId && r.date == date {
          rs := rs + [r];
        }
      }
      assert order[..|order|] == order;
    }
  }
}
