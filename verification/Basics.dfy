/** Small vocabulary shared by the models: options and duplicate-free sequences. */
module Basics {

  datatype Option<+T> = None | Some(value: T)

  ghost predicate NoDup<T>(s: seq<T>) {
    forall i, j :: 0 <= i < j < |s| ==> s[i] != s[j]
  }

  function Elements<T(==)>(s: seq<T>): set<T> {
    set x | x in s
  }

  lemma {:induction false} NoDupSize<T>(s: seq<T>)
    requires NoDup(s)
    ensures |Elements(s)| == |s|
  {
    if s != [] {
      var front, last := s[..|s| - 1], s[|s| - 1];
      NoDupSize(front);
      assert Elements(s) == Elements(front) + {last};
    }
  }

  /** The items of `s` that are in `keep`, in order. */
  function Filter<T(==)>(s: seq<T>, keep: set<T>): seq<T> {
    if s == [] then []
    else if s[|s| - 1] in keep then Filter(s[..|s| - 1], keep) + [s[|s| - 1]]
    else Filter(s[..|s| - 1], keep)
  }

  lemma {:induction false} FilterElements<T>(s: seq<T>, keep: set<T>)
    ensures forall x :: x in Filter(s, keep) <==> x in s && x in keep
    ensures |Filter(s, keep)| <= |s|
  {
    if s != [] {
      FilterElements(s[..|s| - 1], keep);
      assert s == s[..|s| - 1] + [s[|s| - 1]];
    }
  }

  lemma {:induction false} FilterNoDup<T>(s: seq<T>, keep: set<T>)
    requires NoDup(s)
    ensures NoDup(Filter(s, keep))
  {
    if s != [] {
      FilterNoDup(s[..|s| - 1], keep);
      FilterElements(s[..|s| - 1], keep);
    }
  }

  /** Only the part of `keep` that occurs in `s` matters. */
  lemma {:induction false} FilterAgree<T>(s: seq<T>, keep: set<T>, other: set<T>)
    requires forall x :: x in s ==> (x in keep <==> x in other)
    ensures Filter(s, keep) == Filter(s, other)
  {
    if s != [] {
      FilterAgree(s[..|s| - 1], keep, other);
    }
  }

  lemma {:induction false} FilterAll<T>(s: seq<T>, keep: set<T>)
    requires forall x :: x in s ==> x in keep
    ensures Filter(s, keep) == s
  {
    if s != [] {
      FilterAll(s[..|s| - 1], keep);
      assert s == s[..|s| - 1] + [s[|s| - 1]];
    }
  }

  lemma {:induction false} FilterTwice<T>(s: seq<T>, keep: set<T>, smaller: set<T>)
    requires smaller <= keep
    ensures Filter(Filter(s, keep), smaller) == Filter(s, smaller)
  {
    if s != [] {
      var front, last := s[..|s| - 1], s[|s| - 1];
      FilterTwice(front, keep, smaller);
      if last in keep {
        assert (Filter(front, keep) + [last])[..|Filter(front, keep)|] == Filter(front, keep);
      }
    }
  }

  /** Filtering one prefix of a duplicate-free sequence by another gives the shorter one. */
  lemma {:induction false} FilterPrefix<T>(s: seq<T>, m: nat, k: nat)
    requires NoDup(s) && m <= |s| && k <= |s|
    ensures Filter(s[..m], Elements(s[..k])) == s[..if m < k then m else k]
  {
    if m <= k {
      FilterAll(s[..m], Elements(s[..k]));
    } else {
      FilterPrefix(s, m - 1, k);
      assert s[..m][..m - 1] == s[..m - 1];
      assert s[m - 1] !in s[..k];
    }
  }
}
