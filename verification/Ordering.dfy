/** Stable sorting by a comparison, and when the result is determined by the elements alone. */
module Ordering {

  /** Go's string order: code point by code point, a proper prefix first. */
  predicate StringLess(a: string, b: string) {
    if b == "" then false
    else if a == "" then true
    else if a[0] == b[0] then StringLess(a[1..], b[1..])
    else a[0] < b[0]
  }

  /** Behind everything that `x` does not come before. */
  function Insert<T>(s: seq<T>, x: T, before: (T, T) -> bool): seq<T> {
    if s == [] || !before(x, s[|s| - 1]) then s + [x]
    else Insert(s[..|s| - 1], x, before) + [s[|s| - 1]]
  }

  function Sort<T>(s: seq<T>, before: (T, T) -> bool): seq<T> {
    if s == [] then [] else Insert(Sort(s[..|s| - 1], before), s[|s| - 1], before)
  }

  ghost predicate Sorted<T>(s: seq<T>, before: (T, T) -> bool) {
    forall i, j :: 0 <= i < j < |s| ==> !before(s[j], s[i])
  }

  /** A strict weak order, as Go's sort functions ask for. */
  ghost predicate WeakOrder<T(!new)>(before: (T, T) -> bool) {
    && (forall x, y :: before(x, y) ==> !before(y, x))
    && (forall x, y, z :: before(x, y) && !before(z, y) ==> before(x, z))
  }

  /** The comparison tells all elements of `s` apart. */
  ghost predicate Separates<T>(s: seq<T>, before: (T, T) -> bool) {
    forall i, j :: 0 <= i < |s| && 0 <= j < |s| && s[i] != s[j] ==> before(s[i], s[j]) || before(s[j], s[i])
  }

  lemma {:induction false} StringLessOrders(a: string, b: string, c: string)
    ensures StringLess(a, b) ==> !StringLess(b, a)
    ensures a != b ==> StringLess(a, b) || StringLess(b, a)
    ensures StringLess(a, b) && !StringLess(c, b) ==> StringLess(a, c)
  {
    if a == "" && b == "" {
    } else if a == "" || b == "" {
    } else if a[0] != b[0] {
    } else {
      var c' := if c == "" then "" else c[1..];
      StringLessOrders(a[1..], b[1..], c');
      assert a == [a[0]] + a[1..] && b == [b[0]] + b[1..];
    }
  }

  /** At the first place where they differ the smaller character comes first, or the text that ends there. */
  ghost predicate DifferAt(a: string, b: string, k: nat) {
    k <= |a| && k < |b| && a[..k] == b[..k] && (k == |a| || a[k] < b[k])
  }

  lemma {:induction false} StringLessExactly(a: string, b: string)
    ensures StringLess(a, b) <==> exists k: nat :: DifferAt(a, b, k)
  {
    if b == "" || a == "" {
      assert b != "" ==> DifferAt(a, b, 0);
    } else if a[0] == b[0] {
      StringLessExactly(a[1..], b[1..]);
      if k: nat :| DifferAt(a[1..], b[1..], k) {
        assert a[..k + 1] == [a[0]] + a[1..][..k] && b[..k + 1] == [b[0]] + b[1..][..k];
        assert DifferAt(a, b, k + 1);
      }
      if k: nat :| DifferAt(a, b, k) {
        assert k > 0;
        assert a[1..][..k - 1] == a[..k][1..] && b[1..][..k - 1] == b[..k][1..];
        assert DifferAt(a[1..], b[1..], k - 1);
      }
    } else {
      assert a[0] < b[0] ==> DifferAt(a, b, 0);
      if k: nat :| DifferAt(a, b, k) {
        assert k > 0 ==> a[..k][0] == b[..k][0];
      }
    }
  }

  lemma StringLessIsWeakOrder()
    ensures WeakOrder(StringLess)
  {
    forall a, b
      ensures StringLess(a, b) ==> !StringLess(b, a)
    {
      StringLessOrders(a, b, a);
    }
    forall a, b, c
      ensures StringLess(a, b) && !StringLess(c, b) ==> StringLess(a, c)
    {
      StringLessOrders(a, b, c);
    }
  }

  lemma {:induction false} InsertPermutes<T>(s: seq<T>, x: T, before: (T, T) -> bool)
    ensures multiset(Insert(s, x, before)) == multiset(s) + multiset{x}
    ensures forall y :: y in Insert(s, x, before) <==> y in s || y == x
  {
    if s != [] {
      assert s == s[..|s| - 1] + [s[|s| - 1]];
      InsertPermutes(s[..|s| - 1], x, before);
    }
  }

  lemma {:induction false} SortPermutes<T>(s: seq<T>, before: (T, T) -> bool)
    ensures multiset(Sort(s, before)) == multiset(s)
    ensures forall y :: y in Sort(s, before) <==> y in s
  {
    if s != [] {
      assert s == s[..|s| - 1] + [s[|s| - 1]];
      SortPermutes(s[..|s| - 1], before);
      InsertPermutes(Sort(s[..|s| - 1], before), s[|s| - 1], before);
    }
  }

  lemma {:induction false} InsertSorts<T(!new)>(s: seq<T>, x: T, before: (T, T) -> bool)
    requires WeakOrder(before) && Sorted(s, before)
    ensures Sorted(Insert(s, x, before), before)
  {
    if s == [] {
    } else if before(x, s[|s| - 1]) {
      var front, last := s[..|s| - 1], s[|s| - 1];
      InsertSorts(front, x, before);
      InsertPermutes(front, x, before);
      var inserted := Insert(front, x, before);
      forall i | 0 <= i < |inserted|
        ensures !before(last, inserted[i])
      {
        assert inserted[i] in inserted;
      }
    } else {
      assert forall i :: 0 <= i < |s| ==> !before(x, s[i]);
    }
  }

  lemma {:induction false} SortSorts<T(!new)>(s: seq<T>, before: (T, T) -> bool)
    requires WeakOrder(before)
    ensures Sorted(Sort(s, before), before)
  {
    if s != [] {
      SortSorts(s[..|s| - 1], before);
      InsertSorts(Sort(s[..|s| - 1], before), s[|s| - 1], before);
    }
  }

  lemma SortedSameFirst<T>(s: seq<T>, t: seq<T>, before: (T, T) -> bool)
    requires s != [] && t != [] && s[0] in t && t[0] in s
    requires Sorted(s, before) && Sorted(t, before) && Separates(s, before)
    ensures s[0] == t[0]
  {
    var i :| 0 <= i < |s| && s[i] == t[0];
    var j :| 0 <= j < |t| && t[j] == s[0];
    assert i == 0 || !before(s[i], s[0]);
    assert j == 0 || !before(t[j], t[0]);
  }

  lemma WithoutFirst<T>(s: seq<T>)
    requires s != []
    ensures multiset(s[1..]) == multiset(s) - multiset{s[0]}
  {
    assert s == [s[0]] + s[1..];
  }

  /** Two sorted sequences with the same elements are equal if the comparison separates them. */
  lemma {:induction false} SortedUnique<T>(s: seq<T>, t: seq<T>, before: (T, T) -> bool)
    requires multiset(s) == multiset(t)
    requires Sorted(s, before) && Sorted(t, before) && Separates(s, before)
    ensures s == t
  {
    assert |s| == |multiset(s)| == |multiset(t)| == |t|;
    if s != [] {
      assert s[0] in multiset(t) && t[0] in multiset(s);
      SortedSameFirst(s, t, before);
      WithoutFirst(s);
      WithoutFirst(t);
      SortedUnique(s[1..], t[1..], before);
    }
  }

  lemma SortSeparates<T(!new)>(s: seq<T>, before: (T, T) -> bool)
    requires Separates(s, before)
    ensures Separates(Sort(s, before), before)
  {
    SortPermutes(s, before);
    var sorted := Sort(s, before);
    forall i, j | 0 <= i < |sorted| && 0 <= j < |sorted| && sorted[i] != sorted[j]
      ensures before(sorted[i], sorted[j]) || before(sorted[j], sorted[i])
    {
      assert sorted[i] in s && sorted[j] in s;
      var k :| 0 <= k < |s| && s[k] == sorted[i];
      var l :| 0 <= l < |s| && s[l] == sorted[j];
    }
  }

  /** Sorting forgets the order the elements came in. */
  lemma SortIgnoresOrder<T(!new)>(s: seq<T>, t: seq<T>, before: (T, T) -> bool)
    requires multiset(s) == multiset(t)
    requires WeakOrder(before) && Separates(s, before)
    ensures Sort(s, before) == Sort(t, before)
  {
    SortPermutes(s, before);
    SortPermutes(t, before);
    SortSorts(s, before);
    SortSorts(t, before);
    SortSeparates(s, before);
    SortedUnique(Sort(s, before), Sort(t, before), before);
  }

  lemma SortOfPair<T>(x: T, y: T, before: (T, T) -> bool)
    requires !before(y, x)
    ensures Sort([x, y], before) == [x, y]
  {
    assert [x, y][..1] == [x] && [x][..0] == [];
    assert Sort([x], before) == [x];
    assert Insert([x], y, before) == [x] + [y];
  }

  // ---- selecting from a sorted sequence ---------------------------------------------------------------

  function Select<T>(s: seq<T>, keep: T -> bool): seq<T> {
    if s == [] then []
    else if keep(s[|s| - 1]) then Select(s[..|s| - 1], keep) + [s[|s| - 1]]
    else Select(s[..|s| - 1], keep)
  }

  lemma {:induction false} SelectElements<T>(s: seq<T>, keep: T -> bool)
    ensures forall x :: x in Select(s, keep) <==> x in s && keep(x)
  {
    if s != [] {
      SelectElements(s[..|s| - 1], keep);
      assert s == s[..|s| - 1] + [s[|s| - 1]];
    }
  }

  lemma SortedFront<T>(s: seq<T>, before: (T, T) -> bool)
    requires Sorted(s, before) && s != []
    ensures Sorted(s[..|s| - 1], before)
    ensures forall i :: 0 <= i < |s| - 1 ==> !before(s[|s| - 1], s[i])
  {
  }

  lemma {:induction false} SelectAll<T>(s: seq<T>, keep: T -> bool)
    requires forall x :: x in s ==> keep(x)
    ensures Select(s, keep) == s
  {
    if s != [] {
      SelectAll(s[..|s| - 1], keep);
      assert s == s[..|s| - 1] + [s[|s| - 1]];
    }
  }

  lemma {:induction false} InsertSelected<T(!new)>(s: seq<T>, x: T, before: (T, T) -> bool, keep: T -> bool)
    requires WeakOrder(before) && Sorted(s, before)
    ensures Select(Insert(s, x, before), keep)
          == if keep(x) then Insert(Select(s, keep), x, before) else Select(s, keep)
  {
    if s == [] {
      assert [x][..0] == [];
    } else {
      var front, last := s[..|s| - 1], s[|s| - 1];
      SortedFront(s, before);
      SelectElements(s, keep);
      if before(x, last) {
        InsertSelected(front, x, before, keep);
        assert (Insert(front, x, before) + [last])[..|Insert(front, x, before)|] == Insert(front, x, before);
        InsertPastGreater(Select(front, keep), x, last, before);
      } else {
        assert (s + [x])[..|s|] == s;
        var kept := Select(s, keep);
        if kept != [] {
          assert kept[|kept| - 1] in kept;
        }
      }
    }
  }

  lemma InsertPastGreater<T(!new)>(s: seq<T>, x: T, last: T, before: (T, T) -> bool)
    requires before(x, last)
    ensures Insert(s + [last], x, before) == Insert(s, x, before) + [last]
  {
    assert (s + [last])[..|s|] == s;
  }

  /** Sorting and then selecting is selecting and then sorting. */
  lemma {:induction false} SortSelected<T(!new)>(s: seq<T>, before: (T, T) -> bool, keep: T -> bool)
    requires WeakOrder(before)
    ensures Select(Sort(s, before), keep) == Sort(Select(s, keep), before)
  {
    if s != [] {
      var front, last := s[..|s| - 1], s[|s| - 1];
      SortSelected(front, before, keep);
      SortSorts(front, before);
      InsertSelected(Sort(front, before), last, before, keep);
      if keep(last) {
        assert (Select(front, keep) + [last])[..|Select(front, keep)|] == Select(front, keep);
      }
    }
  }
}
