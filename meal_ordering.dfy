/**
 * The order of a day's meals in the list operation: an in-place, stable sort
 * ascending by the `time` text. Texts are compared code point by code point;
 * on the zero-padded HH:MM texts that validation admits this agrees with the
 * locale comparison and with the clock.
 */
module MealOrdering {
  import opened MealTypes
  import opened MealValidation

  // ---------------------------------------------------------------------------
  // Comparing texts

  /** `a` sorts strictly before `b`: code-point lexicographic order. */
  predicate TextBefore(a: string, b: string)
    decreases |a|
  {
    if a == [] then b != []
    else if b == [] then false
    else if a[0] != b[0] then a[0] < b[0]
    else TextBefore(a[1..], b[1..])
  }

  lemma {:induction false} TextBeforeIrreflexive(a: string)
    ensures !TextBefore(a, a)
    decreases |a|
  {
    if a != [] {
      TextBeforeIrreflexive(a[1..]);
    }
  }

  lemma {:induction false} TextBeforeTransitive(a: string, b: string, c: string)
    requires TextBefore(a, b) && TextBefore(b, c)
    ensures TextBefore(a, c)
    decreases |a|
  {
    if a != [] && a[0] == b[0] && b[0] == c[0] {
      TextBeforeTransitive(a[1..], b[1..], c[1..]);
    }
  }

  lemma {:induction false} TextBeforeTotal(a: string, b: string)
    ensures a == b || TextBefore(a, b) || TextBefore(b, a)
    decreases |a|
  {
    if a != [] && b != [] && a[0] == b[0] {
      TextBeforeTotal(a[1..], b[1..]);
      if a[1..] == b[1..] {
        assert a == [a[0]] + a[1..] && b == [b[0]] + b[1..];
      }
    }
  }

  lemma {:induction false} TextBeforeAsymmetric(a: string, b: string)
    requires TextBefore(a, b)
    ensures !TextBefore(b, a)
    decreases |a|
  {
    if a != [] && b != [] && a[0] == b[0] {
      TextBeforeAsymmetric(a[1..], b[1..]);
    }
  }

  /** HHMM read as one four-digit number. */
  function ClockValue(t: string): nat
    requires IsTimeText(t)
  {
    1000 * DigitValue(t[0]) + 100 * DigitValue(t[1]) + 10 * DigitValue(t[3]) + DigitValue(t[4])
  }

  /** Minutes since midnight, meaningful for a real clock reading. */
  function MinutesOfDay(t: string): nat
    requires IsTimeText(t)
  {
    60 * (10 * DigitValue(t[0]) + DigitValue(t[1])) + 10 * DigitValue(t[3]) + DigitValue(t[4])
  }

  /** On HH:MM texts, comparing the texts is comparing the digits as a number. */
  lemma TimeTextOrder(a: string, b: string)
    requires IsTimeText(a) && IsTimeText(b)
    ensures TextBefore(a, b) <==> ClockValue(a) < ClockValue(b)
  {
    var a1, b1 := a[1..], b[1..];
    var a2, b2 := a1[1..], b1[1..];
    var a3, b3 := a2[1..], b2[1..];
    var a4, b4 := a3[1..], b3[1..];
    assert a4[1..] == [] && b4[1..] == [];
    assert TextBefore(a4, b4) <==> a[4] < b[4];
    assert TextBefore(a3, b3) <==> a[3] < b[3] || (a[3] == b[3] && a[4] < b[4]);
    assert TextBefore(a2, b2) <==> TextBefore(a3, b3);
    assert TextBefore(a1, b1) <==> a[1] < b[1] || (a[1] == b[1] && TextBefore(a2, b2));
    assert TextBefore(a, b) <==> a[0] < b[0] || (a[0] == b[0] && TextBefore(a1, b1));
  }

  /** For real clock readings (minutes below 60) the text order is the order of the day. */
  lemma TimeTextOrderIsClockOrder(a: string, b: string)
    requires IsTimeText(a) && IsTimeText(b)
    requires 10 * DigitValue(a[3]) + DigitValue(a[4]) < 60
    requires 10 * DigitValue(b[3]) + DigitValue(b[4]) < 60
    ensures TextBefore(a, b) <==> MinutesOfDay(a) < MinutesOfDay(b)
  {
    TimeTextOrder(a, b);
  }

  // ---------------------------------------------------------------------------
  // The sort

  /** The sorted-by-time property: no meal comes before one with an earlier time. */
  predicate SortedByTime(s: seq<MealRecord>)
  {
    forall i, j :: 0 <= i < j < |s| ==> !TextBefore(s[j].time, s[i].time)
  }

  /**
   * Insertion of `x` into `s` from the right: `x` moves left past every meal
   * whose time is later than its own and stops behind the first that is not.
   */
  function Insert(x: MealRecord, s: seq<MealRecord>): seq<MealRecord>
    decreases |s|
  {
    if s == [] then [x]
    else if TextBefore(x.time, s[|s| - 1].time) then Insert(x, s[..|s| - 1]) + [s[|s| - 1]]
    else s + [x]
  }

  /** The stable sort by time, one insertion per meal, left to right. */
  function SortByTime(s: seq<MealRecord>): seq<MealRecord>
    decreases |s|
  {
    if s == [] then [] else Insert(s[|s| - 1], SortByTime(s[..|s| - 1]))
  }

  /** The meals of `s` whose time is `t`, in their order in `s`. */
  function WithTime(s: seq<MealRecord>, t: string): seq<MealRecord>
    decreases |s|
  {
    if s == [] then []
    else WithTime(s[..|s| - 1], t) + (if s[|s| - 1].time == t then [s[|s| - 1]] else [])
  }

  lemma {:induction false} InsertPermutes(x: MealRecord, s: seq<MealRecord>)
    ensures multiset(Insert(x, s)) == multiset(s) + multiset{x}
    decreases |s|
  {
    if s != [] {
      var init := s[..|s| - 1];
      assert s == init + [s[|s| - 1]];
      InsertPermutes(x, init);
    }
  }

  /** The sort only reorders: the result is a permutation of its input. */
  lemma {:induction false} SortByTimePermutes(s: seq<MealRecord>)
    ensures multiset(SortByTime(s)) == multiset(s)
    decreases |s|
  {
    if s != [] {
      var init := s[..|s| - 1];
      assert s == init + [s[|s| - 1]];
      SortByTimePermutes(init);
      InsertPermutes(s[|s| - 1], SortByTime(init));
    }
  }

  lemma {:induction false} InsertSorted(x: MealRecord, s: seq<MealRecord>)
    requires SortedByTime(s)
    ensures SortedByTime(Insert(x, s))
    decreases |s|
  {
    if s != [] {
      var init := s[..|s| - 1];
      var last := s[|s| - 1];
      if TextBefore(x.time, last.time) {
        InsertSorted(x, init);
        InsertPermutes(x, init);
        var r := Insert(x, init);
        forall i | 0 <= i < |r|
          ensures !TextBefore(last.time, r[i].time)
        {
          assert r[i] in multiset(r);
          if r[i] == x {
            TextBeforeAsymmetric(x.time, last.time);
          } else {
            assert r[i] in multiset(init);
            var k :| 0 <= k < |init| && init[k] == r[i];
            assert s[k] == r[i];
          }
        }
        assert Insert(x, s) == r + [last];
        SortedSnoc(r, last);
      } else {
        forall i | 0 <= i < |s|
          ensures !TextBefore(x.time, s[i].time)
        {
          if TextBefore(x.time, s[i].time) {
            TextBeforeTotal(x.time, last.time);
            if x.time != last.time {
              TextBeforeTransitive(last.time, x.time, s[i].time);
            }
          }
        }
        assert Insert(x, s) == s + [x];
        SortedSnoc(s, x);
      }
    }
  }

  /** Appending a meal no earlier than any listed one keeps the list ordered. */
  lemma SortedSnoc(r: seq<MealRecord>, y: MealRecord)
    requires SortedByTime(r)
    requires forall i :: 0 <= i < |r| ==> !TextBefore(y.time, r[i].time)
    ensures SortedByTime(r + [y])
  {
    forall i, j | 0 <= i < j < |r| + 1
      ensures !TextBefore((r + [y])[j].time, (r + [y])[i].time)
    {
      if j == |r| {
        assert (r + [y])[j] == y && (r + [y])[i] == r[i];
      } else {
        assert (r + [y])[j] == r[j] && (r + [y])[i] == r[i];
      }
    }
  }

  /** The sort's result is ordered by time. */
  lemma {:induction false} SortByTimeSorted(s: seq<MealRecord>)
    ensures SortedByTime(SortByTime(s))
    decreases |s|
  {
    if s != [] {
      SortByTimeSorted(s[..|s| - 1]);
      InsertSorted(s[|s| - 1], SortByTime(s[..|s| - 1]));
    }
  }

  lemma {:induction false} InsertStable(x: MealRecord, s: seq<MealRecord>, t: string)
    ensures WithTime(Insert(x, s), t) == WithTime(s, t) + (if x.time == t then [x] else [])
    decreases |s|
  {
    if s == [] {
      assert WithTime([x], t) == WithTime([], t) + (if x.time == t then [x] else []) by {
        assert [x][..0] == [];
      }
    } else {
      var init := s[..|s| - 1];
      var last := s[|s| - 1];
      if TextBefore(x.time, last.time) {
        InsertStable(x, init, t);
        TextBeforeIrreflexive(x.time);
        var r := Insert(x, init) + [last];
        assert r[..|r| - 1] == Insert(x, init);
      } else {
        var r := s + [x];
        assert r[..|r| - 1] == s;
      }
    }
  }

  /** The sort is stable: the meals sharing a time keep their relative order. */
  lemma {:induction false} SortByTimeStable(s: seq<MealRecord>, t: string)
    ensures WithTime(SortByTime(s), t) == WithTime(s, t)
    decreases |s|
  {
    if s != [] {
      SortByTimeStable(s[..|s| - 1], t);
      InsertStable(s[|s| - 1], SortByTime(s[..|s| - 1]), t);
    }
  }

  /** Where the right-to-left scan stops, past meals that are all later than `x`, `x` goes in. */
  lemma {:induction false} InsertAtPoint(x: MealRecord, s: seq<MealRecord>, j: nat)
    requires j <= |s|
    requires forall k :: j <= k < |s| ==> TextBefore(x.time, s[k].time)
    requires j > 0 ==> !TextBefore(x.time, s[j - 1].time)
    ensures Insert(x, s) == s[..j] + [x] + s[j..]
    decreases |s|
  {
    if |s| == j {
      assert s[..j] == s && s[j..] == [];
    } else {
      var init, last := s[..|s| - 1], s[|s| - 1];
      assert TextBefore(x.time, last.time);
      assert Insert(x, s) == Insert(x, init) + [last];
      assert forall k :: 0 <= k < |init| ==> init[k] == s[k];
      InsertAtPoint(x, init, j);
      assert init[..j] == s[..j];
      assert init[j..] + [last] == s[j..];
    }
  }

  /** Moves `a[i]` left into the sorted prefix `a[..i]`, shifting the later meals one place right. */
  method InsertAt(a: array<MealRecord>, i: nat)
    requires i < a.Length
    modifies a
    ensures a[..i + 1] == Insert(old(a[i]), old(a[..i]))
    ensures a[i + 1..] == old(a[i + 1..])
  {
    ghost var sorted := a[..i];
    ghost var x := a[i];
    var j := ShiftInto(a, i);
    InsertAtPoint(x, sorted, j);
    assert sorted[..j] == old(a[..j]) && sorted[j..] == old(a[j..i]);
  }

  /**
   * The right-to-left scan: `a[i]` moves left past every meal of `a[..i]` with a later
   * time and stops at `j`, behind the first that is not later.
   */
  method ShiftInto(a: array<MealRecord>, i: nat) returns (j: nat)
    requires i < a.Length
    modifies a
    ensures j <= i
    ensures forall k :: j <= k < i ==> TextBefore(old(a[i]).time, old(a[k]).time)
    ensures j > 0 ==> !TextBefore(old(a[i]).time, old(a[j - 1]).time)
    ensures a[..i + 1] == old(a[..j]) + [old(a[i])] + old(a[j..i])
    ensures a[i + 1..] == old(a[i + 1..])
  {
    var x := a[i];
    ghost var before := a[..];
    j := i;
    while j > 0 && TextBefore(x.time, a[j - 1].time)
      invariant 0 <= j <= i
      invariant forall k :: 0 <= k < j ==> a[k] == before[k]
      invariant forall k :: j < k <= i ==> a[k] == before[k - 1]
      invariant forall k :: i < k < a.Length ==> a[k] == before[k]
      invariant forall k :: j <= k < i ==> TextBefore(x.time, before[k].time)
      decreases j
    {
      a[j] := a[j - 1];
      j := j - 1;
    }
    a[j] := x;
    Spliced(before, a[..], x, j, i);
  }

  /** The array after the shift and the store of `x` at `j` holds the prefix with `x` spliced in. */
  lemma Spliced(before: seq<MealRecord>, after: seq<MealRecord>, x: MealRecord, j: nat, i: nat)
    requires j <= i < |before| == |after| && after[j] == x
    requires forall k :: 0 <= k < j ==> after[k] == before[k]
    requires forall k :: j < k <= i ==> after[k] == before[k - 1]
    requires forall k :: i < k < |after| ==> after[k] == before[k]
    ensures after[..i + 1] == before[..j] + [x] + before[j..i]
    ensures after[i + 1..] == before[i + 1..]
  {
    var spliced := before[..j] + [x] + before[j..i];
    assert |spliced| == i + 1;
    forall k | 0 <= k <= i
      ensures after[k] == spliced[k]
    {
      if k < j {
        assert spliced[k] == before[k];
      } else if k == j {
        assert spliced[k] == x;
      } else {
        assert spliced[k] == before[j..i][k - j - 1] == before[k - 1];
      }
    }
    assert after[..i + 1] == spliced;
  }

  /** `meals.sort((a, b) => a.time.localeCompare(b.time))`: insertion sort in place. */
  method SortInPlace(a: array<MealRecord>)
    modifies a
    ensures a[..] == SortByTime(old(a[..]))
  {
    ghost var input := a[..];
    for i := 0 to a.Length
      invariant a[..i] == SortByTime(input[..i])
      invariant a[i..] == input[i..]
    {
      assert input[..i + 1][..i] == input[..i];
      assert a[i] == input[i];
      assert a[i + 1..] == input[i + 1..];
      InsertAt(a, i);
    }
    assert input[..a.Length] == input;
  }
}
