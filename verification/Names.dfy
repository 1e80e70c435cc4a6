/** Lists of names as the handlers clean them: trimmed, without blanks, each name once. */
module Names {
  import opened Basics
  import opened Text

  /** The strings without blanks at their ends, each once, where it comes first. */
  function UniqueTrimmed(values: seq<string>): seq<string> {
    if values == [] then []
    else
      var front, last := UniqueTrimmed(values[..|values| - 1]), Trim(values[|values| - 1]);
      if last == "" || last in front then front else front + [last]
  }

  method UniqueTrimmedStrings(values: seq<string>) returns (items: seq<string>)
    ensures items == UniqueTrimmed(values)
  {
    var unique := {};
    items := [];
    for i := 0 to |values|
      invariant items == UniqueTrimmed(values[..i]) && forall s :: s in unique <==> s in items
    {
      assert values[..i + 1][..i] == values[..i];
      var trimmed := Trim(values[i]);
      if trimmed != "" && trimmed !in unique {
        unique := unique + {trimmed};
        items := items + [trimmed];
      }
    }
    assert values[..|values|] == values;
  }

  /** Each name trimmed, not blank, once. */
  ghost predicate CleanNames(names: seq<string>) {
    NoDup(names) && forall s :: s in names ==> s != "" && Tight(s)
  }

  /** The list has every non-blank string, trimmed, once. */
  lemma {:induction false} UniqueTrimmedElements(values: seq<string>)
    ensures NoDup(UniqueTrimmed(values))
    ensures forall s :: s in UniqueTrimmed(values) <==> s != "" && exists v :: v in values && Trim(v) == s
  {
    if values != [] {
      UniqueTrimmedElements(values[..|values| - 1]);
      assert values == values[..|values| - 1] + [values[|values| - 1]];
    }
  }

  /** More strings only add names behind those there are, so each name stands where it comes first. */
  lemma {:induction false} UniqueTrimmedOrder(values: seq<string>, more: seq<string>)
    ensures UniqueTrimmed(values) <= UniqueTrimmed(values + more)
  {
    if more == [] {
      assert values + more == values;
    } else {
      UniqueTrimmedOrder(values, more[..|more| - 1]);
      assert (values + more)[..|values + more| - 1] == values + more[..|more| - 1];
    }
  }

  lemma {:induction false} UniqueTrimmedFixed(values: seq<string>)
    requires CleanNames(values)
    ensures UniqueTrimmed(values) == values
  {
    if values != [] {
      var front, last := values[..|values| - 1], values[|values| - 1];
      assert values == front + [last];
      assert forall s :: s in front ==> s in values;
      UniqueTrimmedFixed(front);
      TightIsTrimmed(last);
    }
  }

  /** Cleaning a list of names twice is cleaning it once. */
  lemma UniqueTrimmedTwice(values: seq<string>)
    ensures UniqueTrimmed(UniqueTrimmed(values)) == UniqueTrimmed(values)
  {
    UniqueTrimmedElements(values);
    forall s | s in UniqueTrimmed(values)
      ensures Tight(s)
    {
      var v :| v in values && Trim(v) == s;
      TrimIsTight(v);
    }
    UniqueTrimmedFixed(UniqueTrimmed(values));
  }
}
