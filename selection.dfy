/**
 * The day-selection toggle shared by the weekday checkboxes and the
 * specific-dates list: a day that is in the list is removed, one that is not
 * is appended.
 */
module Selection {

  /** Days are identified by their label ("Monday", or a date's text). */
  type DayName = string

  /** `s` with every occurrence of `x` dropped and the rest kept in order (`s.filter(d => d !== x)`). */
  function RemoveAll(s: seq<DayName>, x: DayName): (r: seq<DayName>)
    ensures forall y :: y in r <==> y in s && y != x
    ensures multiset(r) == multiset(s)[x := 0]
    ensures x !in s ==> r == s
  {
    if s == [] then []
    else
      assert s == [s[0]] + s[1..];
      if s[0] == x then RemoveAll(s[1..], x) else [s[0]] + RemoveAll(s[1..], x)
  }

  /** `a` can be obtained from `b` by deleting elements: the order of what remains is `b`'s. */
  predicate IsSubsequence(a: seq<DayName>, b: seq<DayName>)
    decreases |b|
  {
    if a == [] then true
    else if b == [] then false
    else if a[0] == b[0] then IsSubsequence(a[1..], b[1..])
    else IsSubsequence(a, b[1..])
  }

  predicate NoDuplicates(s: seq<DayName>) {
    forall i, j :: 0 <= i < j < |s| ==> s[i] != s[j]
  }

  /** What `handleCheckboxChange` / `handleSelectedDaysChange` make of the previous list. */
  function Toggle(prev: seq<DayName>, day: DayName): (r: seq<DayName>)
    ensures day in r <==> day !in prev
    ensures day !in prev ==> r == prev + [day]
    ensures day in prev ==> multiset(r) == multiset(prev)[day := 0] && IsSubsequence(r, prev)
  {
    if day in prev then
      RemoveAllIsSubsequence(prev, day);
      RemoveAll(prev, day)
    else
      prev + [day]
  }

  lemma {:induction false} RemoveAllIsSubsequence(s: seq<DayName>, x: DayName)
    ensures IsSubsequence(RemoveAll(s, x), s)
    decreases |s|
  {
    if s != [] {
      RemoveAllIsSubsequence(s[1..], x);
      if s[0] != x {
        assert ([s[0]] + RemoveAll(s[1..], x))[1..] == RemoveAll(s[1..], x);
      } else {
        SubsequenceOfTail(RemoveAll(s[1..], x), s);
      }
    }
  }

  lemma {:induction false} SubsequenceOfTail(a: seq<DayName>, b: seq<DayName>)
    requires b != [] && IsSubsequence(a, b[1..])
    ensures IsSubsequence(a, b)
    decreases |b|, 0
  {
    if a != [] && a[0] == b[0] {
      SubsequenceDropFirst(a, b[1..]);
    }
  }

  lemma {:induction false} SubsequenceDropFirst(a: seq<DayName>, b: seq<DayName>)
    requires a != [] && IsSubsequence(a, b)
    ensures IsSubsequence(a[1..], b)
    decreases |b|, 1
  {
    assert b != [];
    if a[0] == b[0] {
      SubsequenceOfTail(a[1..], b);
    } else {
      SubsequenceDropFirst(a, b[1..]);
      SubsequenceOfTail(a[1..], b);
    }
  }

  /** A subsequence of a repeat-free list is repeat-free. */
  lemma {:induction false} SubsequenceKeepsNoDuplicates(a: seq<DayName>, b: seq<DayName>)
    requires IsSubsequence(a, b) && NoDuplicates(b)
    ensures NoDuplicates(a)
    decreases |b|
  {
    if a != [] {
      assert b != [];
      assert NoDuplicates(b[1..]) by {
        forall i, j | 0 <= i < j < |b[1..]| ensures b[1..][i] != b[1..][j] {
          assert b[1..][i] == b[i + 1] && b[1..][j] == b[j + 1];
        }
      }
      if a[0] == b[0] {
        SubsequenceKeepsNoDuplicates(a[1..], b[1..]);
        SubsequenceElements(a[1..], b[1..]);
        forall j | 0 < j < |a| ensures a[0] != a[j] {
          assert a[j] == a[1..][j - 1];
          assert a[j] in b[1..];
        }
      } else {
        SubsequenceKeepsNoDuplicates(a, b[1..]);
      }
    }
  }

  lemma {:induction false} SubsequenceElements(a: seq<DayName>, b: seq<DayName>)
    requires IsSubsequence(a, b)
    ensures forall y :: y in a ==> y in b
    decreases |b|
  {
    if a != [] {
      if a[0] == b[0] {
        SubsequenceElements(a[1..], b[1..]);
        assert forall y :: y in a ==> y == a[0] || y in a[1..];
      } else {
        SubsequenceElements(a, b[1..]);
      }
    }
  }

  /** A list without repeats keeps that property under toggling (the lists key rendered components by day). */
  lemma ToggleKeepsNoDuplicates(prev: seq<DayName>, day: DayName)
    requires NoDuplicates(prev)
    ensures NoDuplicates(Toggle(prev, day))
  {
    if day in prev {
      SubsequenceKeepsNoDuplicates(Toggle(prev, day), prev);
    } else {
      var r := Toggle(prev, day);
      forall i, j | 0 <= i < j < |r| ensures r[i] != r[j] {
        if j == |prev| {
          assert r[i] == prev[i];
        }
      }
    }
  }

  /** Toggling an absent day on and off again gives back the original list. */
  lemma {:induction false} ToggleTwiceAbsent(prev: seq<DayName>, day: DayName)
    requires day !in prev
    ensures Toggle(Toggle(prev, day), day) == prev
  {
    RemoveAllAppended(prev, day);
  }

  lemma {:induction false} RemoveAllAppended(s: seq<DayName>, x: DayName)
    requires x !in s
    ensures RemoveAll(s + [x], x) == s
    decreases |s|
  {
    if s == [] {
      assert [x][1..] == [];
    } else {
      assert (s + [x])[1..] == s[1..] + [x];
      RemoveAllAppended(s[1..], x);
      assert s == [s[0]] + s[1..];
    }
  }

  /**
   * Toggling a present day off and on again keeps the same set of days in a
   * repeat-free list, but moves that day to the end.
   */
  lemma TogglePresentTwiceMovesToEnd(prev: seq<DayName>, day: DayName)
    requires day in prev
    ensures Toggle(Toggle(prev, day), day) == RemoveAll(prev, day) + [day]
    ensures forall y :: y in Toggle(Toggle(prev, day), day) <==> y in prev
  {
  }
}
