/** What a sequence of diff items says about each path, told without merging anything. */
module DiffSummary {
  import opened Basics
  import opened Text
  import opened Diffs

  /** The paths of the items, each where it is seen first. */
  function FirstSeen(items: seq<DiffItem>): seq<string> {
    if items == [] then []
    else
      var front := FirstSeen(items[..|items| - 1]);
      if items[|items| - 1].path in front then front else front + [items[|items| - 1].path]
  }

  function FirstOf(items: seq<DiffItem>, p: string): Option<DiffItem> {
    if items == [] then None
    else
      var front := FirstOf(items[..|items| - 1], p);
      if front.None? && items[|items| - 1].path == p then Some(items[|items| - 1]) else front
  }

  function LastOf(items: seq<DiffItem>, p: string): Option<DiffItem> {
    if items == [] then None
    else if items[|items| - 1].path == p then Some(items[|items| - 1])
    else LastOf(items[..|items| - 1], p)
  }

  /** The first blob carried for `p` of what was there before. */
  function FirstBefore(items: seq<DiffItem>, p: string): string {
    if items == [] then ""
    else
      var front := FirstBefore(items[..|items| - 1], p);
      if front == "" && items[|items| - 1].path == p then items[|items| - 1].before else front
  }

  function LastBefore(items: seq<DiffItem>, p: string): string {
    if items == [] then ""
    else if items[|items| - 1].path == p && items[|items| - 1].before != "" then items[|items| - 1].before
    else LastBefore(items[..|items| - 1], p)
  }

  function LastAfter(items: seq<DiffItem>, p: string): string {
    if items == [] then ""
    else if items[|items| - 1].path == p && items[|items| - 1].after != "" then items[|items| - 1].after
    else LastAfter(items[..|items| - 1], p)
  }

  lemma {:induction false} FirstSeenElements(items: seq<DiffItem>)
    ensures NoDup(FirstSeen(items))
    ensures forall p :: p in FirstSeen(items) <==> exists i :: 0 <= i < |items| && items[i].path == p
    ensures forall p :: p in FirstSeen(items) <==> FirstOf(items, p).Some?
    ensures forall p :: p in FirstSeen(items) <==> LastOf(items, p).Some?
  {
    if items != [] {
      FirstSeenElements(items[..|items| - 1]);
      assert forall i :: 0 <= i < |items| - 1 ==> items[..|items| - 1][i] == items[i];
    }
  }

  /** The merged item of a path, from the items of that path. */
  ghost predicate Summarises(e: DiffItem, items: seq<DiffItem>) {
    var first, last := FirstOf(items, e.path), LastOf(items, e.path);
    && first.Some? && last.Some?
    && e == last.value.(id := first.value.id, drawnId := first.value.drawnId, path := e.path,
                        before := LastBefore(items, e.path), after := LastAfter(items, e.path))
  }

  lemma SummaryStep(e: DiffItem, front: seq<DiffItem>, x: DiffItem)
    requires Summarises(e, front)
    ensures Summarises(if e.path == x.path then Combine(e, x) else e, front + [x])
  {
    assert (front + [x])[..|front|] == front;
  }

  lemma SummaryStart(front: seq<DiffItem>, x: DiffItem)
    requires FirstOf(front, x.path).None?
    ensures Summarises(x, front + [x])
  {
    NothingBefore(front, x.path);
    assert (front + [x])[..|front|] == front;
  }

  /** Merging keeps one item a path, in first-seen order: the first id, the last change type,
      summary and line counts, and the last blobs that were not empty. */
  lemma {:induction false} MergeSummarises(items: seq<DiffItem>)
    ensures var m := PutAll([], items);
      && |m| == |FirstSeen(items)|
      && forall k :: 0 <= k < |m| ==> m[k].path == FirstSeen(items)[k] && Summarises(m[k], items)
  {
    if items != [] {
      var front, x := items[..|items| - 1], items[|items| - 1];
      assert items == front + [x];
      MergeSummarises(front);
      FirstSeenElements(front);
      var m, m', seen := PutAll([], front), PutAll([], items), FirstSeen(front);
      PositionFinds(m, x.path);
      forall k | 0 <= k < |m|
        ensures m'[k].path == seen[k] && Summarises(m'[k], items)
      {
        SummaryStep(m[k], front, x);
        assert m[k].path == x.path <==> Position(m, x.path) == Some(k) by {
          if Position(m, x.path).Some? {
            assert seen[k] == seen[Position(m, x.path).value] <==> k == Position(m, x.path).value;
          }
        }
      }
      if Position(m, x.path).None? {
        assert x.path !in seen;
        SummaryStart(front, x);
      } else {
        assert seen[Position(m, x.path).value] == x.path;
      }
    }
  }

  lemma {:induction false} NothingBefore(items: seq<DiffItem>, p: string)
    requires FirstOf(items, p).None?
    ensures FirstBefore(items, p) == "" && LastBefore(items, p) == "" && LastAfter(items, p) == ""
  {
    if items != [] {
      NothingBefore(items[..|items| - 1], p);
    }
  }

  /** The merge of two lists, in terms of all their normalised items. */
  lemma {:induction false} MergeContents(existing: seq<DiffItem>, incoming: seq<DiffItem>)
    ensures var items := NormalizeAll(existing) + NormalizeAll(incoming);
      var m := Merge(existing, incoming);
      && |m| == |FirstSeen(items)|
      && forall k :: 0 <= k < |m| ==> m[k].path == FirstSeen(items)[k] && Summarises(m[k], items)
  {
    PutAllConcat([], NormalizeAll(existing), NormalizeAll(incoming));
    MergeSummarises(NormalizeAll(existing) + NormalizeAll(incoming));
  }

  // ---- concatenation ---------------------------------------------------------------------------

  lemma {:induction false} SummaryConcat(a: seq<DiffItem>, b: seq<DiffItem>, p: string)
    ensures LastOf(a + b, p) == if LastOf(b, p).Some? then LastOf(b, p) else LastOf(a, p)
    ensures FirstBefore(a + b, p) == FirstNonEmpty(FirstBefore(a, p), FirstBefore(b, p))
    ensures LastBefore(a + b, p) == FirstNonEmpty(LastBefore(b, p), LastBefore(a, p))
    ensures LastAfter(a + b, p) == FirstNonEmpty(LastAfter(b, p), LastAfter(a, p))
  {
    if b == [] {
      assert a + b == a;
    } else {
      SummaryConcat(a, b[..|b| - 1], p);
      assert (a + b)[..|a + b| - 1] == a + b[..|b| - 1];
    }
  }

  /** The paths of `more` that are new, behind those already seen. */
  function AddNew(seen: seq<string>, more: seq<string>): seq<string> {
    if more == [] then seen
    else
      var front := AddNew(seen, more[..|more| - 1]);
      if more[|more| - 1] in front then front else front + [more[|more| - 1]]
  }

  lemma {:induction false} AddNewHas(seen: seq<string>, more: seq<string>, p: string)
    ensures p in AddNew(seen, more) <==> p in seen || p in more
  {
    if more != [] {
      AddNewHas(seen, more[..|more| - 1], p);
      assert more == more[..|more| - 1] + [more[|more| - 1]];
    }
  }

  lemma AddNewStep(seen: seq<string>, front: seq<string>, p: string)
    requires p !in front
    ensures AddNew(seen, front + [p])
          == if p in AddNew(seen, front) then AddNew(seen, front) else AddNew(seen, front) + [p]
  {
    assert (front + [p])[..|front|] == front;
  }

  lemma {:induction false} FirstSeenAppend(a: seq<DiffItem>, b: seq<DiffItem>)
    ensures FirstSeen(a + b) == AddNew(FirstSeen(a), FirstSeen(b))
  {
    if b == [] {
      assert a + b == a;
    } else {
      var front, p := b[..|b| - 1], b[|b| - 1].path;
      FirstSeenAppend(a, front);
      assert (a + b)[..|a + b| - 1] == a + front;
      AddNewHas(FirstSeen(a), FirstSeen(front), p);
      if p !in FirstSeen(front) {
        AddNewStep(FirstSeen(a), FirstSeen(front), p);
      }
    }
  }

  // ---- the words of a summary, told by positions ------------------------------------------------------

  ghost predicate OnlyIn(items: seq<DiffItem>, p: string, from: int, to: int, blob: DiffItem -> string) {
    forall j :: from <= j < to && 0 <= j < |items| && items[j].path == p ==> blob(items[j]) == ""
  }

  /** The blob of the item at `k` counts: it is of the path, and not empty. */
  ghost predicate Carries(items: seq<DiffItem>, p: string, k: int, blob: DiffItem -> string, value: string) {
    0 <= k < |items| && items[k].path == p && blob(items[k]) == value && value != ""
  }

  lemma {:induction false} BlobsExactly(items: seq<DiffItem>, p: string)
    ensures var before, after := (x: DiffItem) => x.before, (x: DiffItem) => x.after;
      && (FirstBefore(items, p) == "" <==> OnlyIn(items, p, 0, |items|, before))
      && (FirstBefore(items, p) != "" ==>
            exists k :: Carries(items, p, k, before, FirstBefore(items, p)) && OnlyIn(items, p, 0, k, before))
      && (LastBefore(items, p) == "" <==> OnlyIn(items, p, 0, |items|, before))
      && (LastBefore(items, p) != "" ==>
            exists k :: Carries(items, p, k, before, LastBefore(items, p)) && OnlyIn(items, p, k + 1, |items|, before))
      && (LastAfter(items, p) == "" <==> OnlyIn(items, p, 0, |items|, after))
      && (LastAfter(items, p) != "" ==>
            exists k :: Carries(items, p, k, after, LastAfter(items, p)) && OnlyIn(items, p, k + 1, |items|, after))
  {
    hide FirstBefore, LastBefore, LastAfter, Carries, OnlyIn;
    FirstBlob(items, p);
    LastBlobBefore(items, p);
    LastBlobAfter(items, p);
  }

  lemma {:induction false} FirstBlob(items: seq<DiffItem>, p: string)
    ensures var before := (x: DiffItem) => x.before;
      && (FirstBefore(items, p) == "" <==> OnlyIn(items, p, 0, |items|, before))
      && (FirstBefore(items, p) != "" ==>
            exists k :: Carries(items, p, k, before, FirstBefore(items, p)) && OnlyIn(items, p, 0, k, before))
  {
    var before := (x: DiffItem) => x.before;
    if items != [] {
      var front, last := items[..|items| - 1], |items| - 1;
      FirstBlob(front, p);
      if FirstBefore(front, p) != "" {
        var k :| Carries(front, p, k, before, FirstBefore(front, p)) && OnlyIn(front, p, 0, k, before);
        assert Carries(items, p, k, before, FirstBefore(items, p)) && OnlyIn(items, p, 0, k, before);
      } else if FirstBefore(items, p) != "" {
        assert Carries(items, p, last, before, FirstBefore(items, p)) && OnlyIn(items, p, 0, last, before);
      }
    }
  }

  lemma {:induction false} LastBlobBefore(items: seq<DiffItem>, p: string)
    ensures var before := (x: DiffItem) => x.before;
      && (LastBefore(items, p) == "" <==> OnlyIn(items, p, 0, |items|, before))
      && (LastBefore(items, p) != "" ==>
            exists k :: Carries(items, p, k, before, LastBefore(items, p)) && OnlyIn(items, p, k + 1, |items|, before))
  {
    var before := (x: DiffItem) => x.before;
    if items != [] {
      var front, n := items[..|items| - 1], |items|;
      LastBlobBefore(front, p);
      if items[n - 1].path == p && items[n - 1].before != "" {
        assert Carries(items, p, n - 1, before, LastBefore(items, p)) && OnlyIn(items, p, n, n, before);
      } else if LastBefore(front, p) != "" {
        var k :| Carries(front, p, k, before, LastBefore(front, p)) && OnlyIn(front, p, k + 1, n - 1, before);
        assert Carries(items, p, k, before, LastBefore(items, p)) && OnlyIn(items, p, k + 1, n, before);
      }
    }
  }

  lemma {:induction false} LastBlobAfter(items: seq<DiffItem>, p: string)
    ensures var after := (x: DiffItem) => x.after;
      && (LastAfter(items, p) == "" <==> OnlyIn(items, p, 0, |items|, after))
      && (LastAfter(items, p) != "" ==>
            exists k :: Carries(items, p, k, after, LastAfter(items, p)) && OnlyIn(items, p, k + 1, |items|, after))
  {
    var after := (x: DiffItem) => x.after;
    if items != [] {
      var front, n := items[..|items| - 1], |items|;
      LastBlobAfter(front, p);
      if items[n - 1].path == p && items[n - 1].after != "" {
        assert Carries(items, p, n - 1, after, LastAfter(items, p)) && OnlyIn(items, p, n, n, after);
      } else if LastAfter(front, p) != "" {
        var k :| Carries(front, p, k, after, LastAfter(front, p)) && OnlyIn(front, p, k + 1, n - 1, after);
        assert Carries(items, p, k, after, LastAfter(items, p)) && OnlyIn(items, p, k + 1, n, after);
      }
    }
  }
}
