/** Diff items of a run and how later ones are merged into earlier ones, path by path. */
module Diffs {
  import opened Basics
  import opened Text

  /** `drawnId` is the random id that normalisation gives an item without one. */
  datatype DiffItem = DiffItem(
    id: string,
    drawnId: string,
    path: string,
    changeType: string,
    summary: string,
    added: Option<int>,
    deleted: Option<int>,
    before: string,
    after: string)

  function NormalChangeType(raw: string): string {
    var folded := Lower(Trim(raw));
    if folded == "added" then "added" else if folded == "deleted" then "deleted" else "modified"
  }

  function NormalCount(count: Option<int>): Option<int> {
    match count
    case None => None
    case Some(n) => Some(if n < 0 then 0 else n)
  }

  /** Nothing for an item without a path. */
  function Normalize(x: DiffItem): Option<DiffItem> {
    if Trim(x.path) == "" then None
    else Some(DiffItem(
      FirstNonEmpty(Trim(x.id), x.drawnId), x.drawnId, Trim(x.path), NormalChangeType(x.changeType),
      FirstNonEmpty(Trim(x.summary), "File changed"), NormalCount(x.added), NormalCount(x.deleted),
      Trim(x.before), Trim(x.after)))
  }

  /** Drawn ids are never blank. */
  ghost predicate Drawn(x: DiffItem) {
    x.drawnId != "" && Tight(x.drawnId)
  }

  ghost predicate AllDrawn(items: seq<DiffItem>) {
    forall i :: 0 <= i < |items| ==> Drawn(items[i])
  }

  /** What a normalised item looks like. */
  ghost predicate Normal(x: DiffItem) {
    && x.id != "" && Tight(x.id) && Drawn(x)
    && x.path != "" && Tight(x.path)
    && x.changeType in {"added", "deleted", "modified"}
    && x.summary != "" && Tight(x.summary)
    && (x.added.Some? ==> x.added.value >= 0) && (x.deleted.Some? ==> x.deleted.value >= 0)
    && Tight(x.before) && Tight(x.after)
  }

  lemma LowerWords()
    ensures NormalChangeType("added") == "added" && NormalChangeType("deleted") == "deleted"
    ensures NormalChangeType("modified") == "modified"
  {
    TightIsTrimmed("added");
    TightIsTrimmed("deleted");
    TightIsTrimmed("modified");
    assert Lower("added") == "added" && Lower("deleted") == "deleted";
    assert Lower("modified")[0] == 'm';
  }

  lemma NormalizeGivesNormal(raw: DiffItem)
    requires Drawn(raw)
    ensures Normalize(raw).Some? ==> Normal(Normalize(raw).value)
  {
    TrimIsTight(raw.path);
    TrimIsTight(raw.before);
    TrimIsTight(raw.after);
    TrimIsTight(raw.id);
    TrimIsTight(raw.summary);
  }

  lemma NormalIsFixed(x: DiffItem)
    requires Normal(x)
    ensures Normalize(x) == Some(x)
  {
    LowerWords();
    TightIsTrimmed(x.path);
    TightIsTrimmed(x.before);
    TightIsTrimmed(x.after);
    TightIsTrimmed(x.id);
    TightIsTrimmed(x.summary);
  }

  /** Normalising is idempotent. */
  lemma NormalizeTwice(raw: DiffItem)
    requires Drawn(raw) && Normalize(raw).Some?
    ensures Normalize(Normalize(raw).value) == Normalize(raw)
  {
    NormalizeGivesNormal(raw);
    NormalIsFixed(Normalize(raw).value);
  }

  /** The items that have a path, normalised. */
  function NormalizeAll(items: seq<DiffItem>): seq<DiffItem> {
    if items == [] then []
    else
      var front := NormalizeAll(items[..|items| - 1]);
      match Normalize(items[|items| - 1])
      case None => front
      case Some(x) => front + [x]
  }

  ghost predicate AllNormal(items: seq<DiffItem>) {
    forall i {:trigger Normal(items[i])} :: 0 <= i < |items| ==> Normal(items[i])
  }

  lemma {:induction false} NormalizeAllNormal(items: seq<DiffItem>)
    requires AllDrawn(items)
    ensures AllNormal(NormalizeAll(items))
  {
    if items != [] {
      NormalizeAllNormal(items[..|items| - 1]);
      NormalizeGivesNormal(items[|items| - 1]);
    }
  }

  lemma AllNormalFront(items: seq<DiffItem>)
    requires AllNormal(items) && items != []
    ensures AllNormal(items[..|items| - 1]) && Normal(items[|items| - 1])
  {
    assert forall i {:trigger Normal(items[..|items| - 1][i])} :: 0 <= i < |items| - 1 ==> Normal(items[i]);
  }

  lemma {:induction false} NormalizeAllFixed(items: seq<DiffItem>)
    requires AllNormal(items)
    ensures NormalizeAll(items) == items
  {
    if items != [] {
      AllNormalFront(items);
      NormalizeAllFixed(items[..|items| - 1]);
      NormalIsFixed(items[|items| - 1]);
      assert items == items[..|items| - 1] + [items[|items| - 1]];
    }
  }

  lemma {:induction false} NormalizeAllConcat(a: seq<DiffItem>, b: seq<DiffItem>)
    ensures NormalizeAll(a + b) == NormalizeAll(a) + NormalizeAll(b)
  {
    if b == [] {
      assert a + b == a;
    } else {
      NormalizeAllConcat(a, b[..|b| - 1]);
      assert (a + b)[..|a + b| - 1] == a + b[..|b| - 1];
    }
  }

  // ---- merging -------------------------------------------------------------------------------

  function Position(acc: seq<DiffItem>, path: string): Option<nat> {
    if acc == [] then None
    else if acc[|acc| - 1].path == path then Some(|acc| - 1)
    else Position(acc[..|acc| - 1], path)
  }

  /** The later item wins, except for the id and for blobs it does not carry. */
  function Combine(e: DiffItem, x: DiffItem): DiffItem {
    e.(changeType := x.changeType,
       summary := x.summary,
       added := x.added,
       deleted := x.deleted,
       before := FirstNonEmpty(x.before, e.before),
       after := FirstNonEmpty(x.after, e.after))
  }

  function Put(acc: seq<DiffItem>, x: DiffItem): seq<DiffItem> {
    match Position(acc, x.path)
    case None => acc + [x]
    case Some(k) => if k < |acc| then acc[k := Combine(acc[k], x)] else acc
  }

  function PutAll(acc: seq<DiffItem>, items: seq<DiffItem>): seq<DiffItem> {
    if items == [] then acc else Put(PutAll(acc, items[..|items| - 1]), items[|items| - 1])
  }

  function Merge(existing: seq<DiffItem>, incoming: seq<DiffItem>): seq<DiffItem> {
    PutAll(PutAll([], NormalizeAll(existing)), NormalizeAll(incoming))
  }

  lemma {:induction false} PositionFinds(acc: seq<DiffItem>, path: string)
    ensures match Position(acc, path)
      case Some(k) => k < |acc| && acc[k].path == path
      case None => forall i :: 0 <= i < |acc| ==> acc[i].path != path
  {
    if acc != [] {
      PositionFinds(acc[..|acc| - 1], path);
    }
  }

  ghost predicate UniquePaths(acc: seq<DiffItem>) {
    forall i, j :: 0 <= i < j < |acc| ==> acc[i].path != acc[j].path
  }

  lemma PositionIs(acc: seq<DiffItem>, k: nat)
    requires UniquePaths(acc) && k < |acc|
    ensures Position(acc, acc[k].path) == Some(k)
  {
    PositionFinds(acc, acc[k].path);
  }

  // ---- the loop ------------------------------------------------------------------------------

  /** The index the merge loop keeps beside its result. */
  ghost predicate Indexes(index: map<string, nat>, acc: seq<DiffItem>) {
    && UniquePaths(acc) && AllNormal(acc)
    && (forall p :: p in index ==> index[p] < |acc| && acc[index[p]].path == p)
    && (forall i :: 0 <= i < |acc| ==> acc[i].path in index)
  }

  /** The in-place update of an item; its id is replaced only if it is blank. */
  method UpdateItem(e: DiffItem, x: DiffItem) returns (updated: DiffItem)
    requires Normal(e) && Normal(x)
    ensures updated == Combine(e, x)
  {
    TightIsTrimmed(e.id);
    updated := e.(changeType := x.changeType, summary := x.summary);
    if Trim(updated.id) == "" {
      updated := updated.(id := x.id);
    }
    updated := updated.(added := x.added, deleted := x.deleted);
    if x.before != "" {
      updated := updated.(before := x.before);
    }
    if x.after != "" {
      updated := updated.(after := x.after);
    }
  }

  /** One item as it comes. */
  function PutRaw(acc: seq<DiffItem>, raw: DiffItem): seq<DiffItem> {
    match Normalize(raw)
    case None => acc
    case Some(x) => Put(acc, x)
  }

  method ApplyItem(acc: seq<DiffItem>, index: map<string, nat>, raw: DiffItem)
    returns (acc': seq<DiffItem>, index': map<string, nat>)
    requires Indexes(index, acc) && Drawn(raw)
    ensures acc' == PutRaw(acc, raw)
    ensures Indexes(index', acc')
  {
    acc', index' := acc, index;
    var normalized := Normalize(raw);
    NormalizeGivesNormal(raw);
    if normalized.Some? {
      acc', index' := PutItem(acc, index, normalized.value);
    }
  }

  method PutItem(acc: seq<DiffItem>, index: map<string, nat>, x: DiffItem)
    returns (acc': seq<DiffItem>, index': map<string, nat>)
    requires Indexes(index, acc) && Normal(x)
    ensures acc' == Put(acc, x) && Indexes(index', acc')
  {
    PositionFinds(acc, x.path);
    if x.path in index {
      var k := index[x.path];
      PositionIs(acc, k);
      var updated := UpdateItem(acc[k], x);
      acc', index' := acc[k := updated], index;
    } else {
      index' := index[x.path := |acc|];
      acc' := acc + [x];
    }
  }

  lemma PutNormalized(acc: seq<DiffItem>, items: seq<DiffItem>, raw: DiffItem)
    ensures PutAll(acc, NormalizeAll(items + [raw])) == PutRaw(PutAll(acc, NormalizeAll(items)), raw)
  {
    assert (items + [raw])[..|items|] == items;
    match Normalize(raw)
    case None =>
    case Some(x) => assert (NormalizeAll(items) + [x])[..|NormalizeAll(items)|] == NormalizeAll(items);
  }

  method ApplyItems(acc: seq<DiffItem>, index: map<string, nat>, items: seq<DiffItem>)
    returns (acc': seq<DiffItem>, index': map<string, nat>)
    requires Indexes(index, acc) && AllDrawn(items)
    ensures acc' == PutAll(acc, NormalizeAll(items)) && Indexes(index', acc')
  {
    acc', index' := acc, index;
    for i := 0 to |items|
      invariant acc' == PutAll(acc, NormalizeAll(items[..i])) && Indexes(index', acc')
    {
      assert items[..i + 1] == items[..i] + [items[i]];
      PutNormalized(acc, items[..i], items[i]);
      acc', index' := ApplyItem(acc', index', items[i]);
    }
    assert items[..|items|] == items;
  }

  method MergeDiffItems(existing: seq<DiffItem>, incoming: seq<DiffItem>) returns (merged: seq<DiffItem>)
    requires AllDrawn(existing) && AllDrawn(incoming)
    ensures merged == Merge(existing, incoming)
  {
    var index: map<string, nat>;
    merged, index := ApplyItems([], map[], existing);
    merged, index := ApplyItems(merged, index, incoming);
  }

  // ---- algebra -------------------------------------------------------------------------------

  /** What a merge produces: normal items with distinct paths. */
  ghost predicate Merged(acc: seq<DiffItem>) {
    UniquePaths(acc) && AllNormal(acc)
  }

  lemma PutUnique(acc: seq<DiffItem>, x: DiffItem)
    requires UniquePaths(acc)
    ensures UniquePaths(Put(acc, x)) && Position(Put(acc, x), x.path).Some?
    ensures Position(acc, x.path).Some? ==> Position(Put(acc, x), x.path) == Position(acc, x.path)
    ensures Position(acc, x.path).None? ==> Position(Put(acc, x), x.path) == Some(|acc|)
  {
    PositionFinds(acc, x.path);
    if Position(acc, x.path).Some? {
      PositionIs(Put(acc, x), Position(acc, x.path).value);
    }
  }

  lemma PutNormal(acc: seq<DiffItem>, x: DiffItem)
    requires AllNormal(acc) && Normal(x)
    ensures AllNormal(Put(acc, x))
  {
    PositionFinds(acc, x.path);
    forall i | 0 <= i < |Put(acc, x)|
      ensures Normal(Put(acc, x)[i])
    {
      if i < |acc| {
        assert Normal(acc[i]);
      }
    }
  }

  lemma {:induction false} PutAllNormal(acc: seq<DiffItem>, items: seq<DiffItem>)
    requires AllNormal(acc) && AllNormal(items)
    ensures AllNormal(PutAll(acc, items))
  {
    if items != [] {
      var front := items[..|items| - 1];
      AllNormalFront(items);
      PutAllNormal(acc, front);
      PutNormal(PutAll(acc, front), items[|items| - 1]);
    }
  }

  lemma {:induction false} PutAllMerged(acc: seq<DiffItem>, items: seq<DiffItem>)
    requires UniquePaths(acc)
    ensures UniquePaths(PutAll(acc, items))
  {
    if items != [] {
      PutAllMerged(acc, items[..|items| - 1]);
      PutUnique(PutAll(acc, items[..|items| - 1]), items[|items| - 1]);
    }
  }

  lemma {:induction false} PutAllConcat(acc: seq<DiffItem>, a: seq<DiffItem>, b: seq<DiffItem>)
    ensures PutAll(acc, a + b) == PutAll(PutAll(acc, a), b)
  {
    if b == [] {
      assert a + b == a;
    } else {
      PutAllConcat(acc, a, b[..|b| - 1]);
      assert (a + b)[..|a + b| - 1] == a + b[..|b| - 1];
    }
  }

  /** Items of two paths change places when the first path is already there. */
  lemma PutPut(acc: seq<DiffItem>, x: DiffItem, y: DiffItem)
    requires UniquePaths(acc) && x.path != y.path && Position(acc, x.path).Some?
    ensures Put(Put(acc, x), y) == Put(Put(acc, y), x)
    ensures Position(Put(acc, y), x.path).Some?
  {
    PositionFinds(acc, x.path);
    PositionFinds(acc, y.path);
    PutUnique(acc, x);
    PutUnique(acc, y);
    var k := Position(acc, x.path).value;
    PositionIs(Put(acc, y), k);
    PositionFinds(Put(acc, x), y.path);
    if Position(acc, y.path).Some? {
      PositionIs(Put(acc, x), Position(acc, y.path).value);
    }
  }

  /** An item whose path is already there can be put before items of other paths. */
  lemma {:induction false} PutCommutes(acc: seq<DiffItem>, items: seq<DiffItem>, x: DiffItem)
    requires UniquePaths(acc) && Position(acc, x.path).Some?
    requires forall i :: 0 <= i < |items| ==> items[i].path != x.path
    ensures Position(PutAll(acc, items), x.path).Some?
    ensures PutAll(Put(acc, x), items) == Put(PutAll(acc, items), x)
  {
    if items != [] {
      var front := items[..|items| - 1];
      PutCommutes(acc, front, x);
      PutAllMerged(acc, front);
      PutPut(PutAll(acc, front), x, items[|items| - 1]);
    }
  }

  /** Two items of one path can be put one after the other or combined first. */
  lemma PutCombined(acc: seq<DiffItem>, e: DiffItem, x: DiffItem)
    requires UniquePaths(acc) && e.path == x.path
    ensures Put(acc, Combine(e, x)) == Put(Put(acc, e), x)
  {
    PositionFinds(acc, e.path);
    PutUnique(acc, e);
  }

  lemma PutAround(acc: seq<DiffItem>, front: seq<DiffItem>, e: DiffItem, back: seq<DiffItem>, x: DiffItem)
    requires UniquePaths(acc) && e.path == x.path
    requires forall i :: 0 <= i < |back| ==> back[i].path != x.path
    ensures PutAll(acc, front + [Combine(e, x)] + back) == Put(PutAll(acc, front + [e] + back), x)
  {
    var base := PutAll(acc, front);
    PutAllConcat(acc, front + [e], back);
    PutAllConcat(acc, front + [Combine(e, x)], back);
    assert (front + [e])[..|front|] == front && (front + [Combine(e, x)])[..|front|] == front;
    PutAllMerged(acc, front);
    PutCombined(base, e, x);
    PutUnique(base, e);
    PutCommutes(Put(base, e), back, x);
  }

  lemma PutIntoMerged(acc: seq<DiffItem>, m: seq<DiffItem>, x: DiffItem)
    requires UniquePaths(acc) && UniquePaths(m)
    ensures PutAll(acc, Put(m, x)) == Put(PutAll(acc, m), x)
  {
    PositionFinds(m, x.path);
    match Position(m, x.path)
    case None =>
      assert (m + [x])[..|m|] == m;
    case Some(k) =>
      assert m == m[..k] + [m[k]] + m[k + 1..];
      assert Put(m, x) == m[..k] + [Combine(m[k], x)] + m[k + 1..];
      PutAround(acc, m[..k], m[k], m[k + 1..], x);
  }

  /** Putting items is the same as putting what they merge to. */
  lemma {:induction false} PutMerged(acc: seq<DiffItem>, items: seq<DiffItem>)
    requires UniquePaths(acc)
    ensures PutAll(acc, PutAll([], items)) == PutAll(acc, items)
  {
    if items != [] {
      var front := items[..|items| - 1];
      PutMerged(acc, front);
      PutAllMerged([], front);
      PutIntoMerged(acc, PutAll([], front), items[|items| - 1]);
    }
  }

  lemma MergeIsMerged(a: seq<DiffItem>, b: seq<DiffItem>)
    requires AllDrawn(a) && AllDrawn(b)
    ensures Merged(Merge(a, b)) && NormalizeAll(Merge(a, b)) == Merge(a, b)
    ensures Merge(a, b) == PutAll([], NormalizeAll(a) + NormalizeAll(b))
  {
    NormalizeAllNormal(a);
    NormalizeAllNormal(b);
    PutAllMerged([], NormalizeAll(a));
    PutAllMerged(PutAll([], NormalizeAll(a)), NormalizeAll(b));
    PutAllNormal([], NormalizeAll(a));
    PutAllNormal(PutAll([], NormalizeAll(a)), NormalizeAll(b));
    NormalizeAllFixed(Merge(a, b));
    PutAllConcat([], NormalizeAll(a), NormalizeAll(b));
  }

  /** Merging is associative. */
  lemma MergeAssociative(a: seq<DiffItem>, b: seq<DiffItem>, c: seq<DiffItem>)
    requires AllDrawn(a) && AllDrawn(b) && AllDrawn(c)
    ensures Merge(Merge(a, b), c) == Merge(a, Merge(b, c))
  {
    var x, y, z := NormalizeAll(a), NormalizeAll(b), NormalizeAll(c);
    MergeIsMerged(a, b);
    MergeIsMerged(b, c);
    PutMerged([], x + y);
    PutAllConcat([], x, y);
    PutAllMerged([], x);
    PutMerged(PutAll([], x), y + z);
    PutAllConcat(PutAll([], x), y, z);
  }

  /** What a merge produced is left alone by merging with nothing, on either side. */
  lemma MergeIdentity(a: seq<DiffItem>, b: seq<DiffItem>)
    requires AllDrawn(a) && AllDrawn(b)
    ensures Merge([], Merge(a, b)) == Merge(a, b) && Merge(Merge(a, b), []) == Merge(a, b)
  {
    MergeIsMerged(a, b);
    PutMerged([], NormalizeAll(a) + NormalizeAll(b));
  }

  /** It does not matter in which batches the items of a run arrive. */
  lemma MergeBatches(existing: seq<DiffItem>, first: seq<DiffItem>, second: seq<DiffItem>)
    requires AllDrawn(existing) && AllDrawn(first) && AllDrawn(second)
    ensures Merge(Merge(existing, first), second) == Merge(existing, first + second)
  {
    var x, y, z := NormalizeAll(existing), NormalizeAll(first), NormalizeAll(second);
    MergeIsMerged(existing, first);
    PutMerged([], x + y);
    PutAllConcat([], x, y);
    NormalizeAllConcat(first, second);
    PutAllConcat(PutAll([], x), y, z);
  }

  // ---- what normalising does ----------------------------------------------------------------------

  /** The three change types; whatever is neither added nor deleted is modified. */
  lemma ChangeTypesExactly(raw: string)
    ensures NormalChangeType(raw) == "added" <==> Lower(Trim(raw)) == "added"
    ensures NormalChangeType(raw) == "deleted" <==> Lower(Trim(raw)) == "deleted"
    ensures NormalChangeType(raw) != "added" && NormalChangeType(raw) != "deleted" ==>
      NormalChangeType(raw) == "modified"
  {
    hide Lower, Trim;
  }

  ghost predicate AtLeastZero(count: Option<int>, normal: Option<int>) {
    match count
    case None => normal.None?
    case Some(n) => normal.Some? && normal.value >= 0 && normal.value >= n && (normal.value == 0 || normal.value == n)
  }

  /** Only an item without a path is dropped; the others get an id and a summary if they have none, and their
      counts are not below zero. */
  lemma NormalizeExactly(x: DiffItem)
    ensures Normalize(x).None? <==> Blank(x.path)
    ensures Normalize(x).Some? ==>
      var y := Normalize(x).value;
      && y.path == Trim(x.path) && y.before == Trim(x.before) && y.after == Trim(x.after)
      && y.id == (if Blank(x.id) then x.drawnId else Trim(x.id)) && y.drawnId == x.drawnId
      && y.summary == (if Blank(x.summary) then "File changed" else Trim(x.summary))
      && y.changeType == NormalChangeType(x.changeType)
      && AtLeastZero(x.added, y.added) && AtLeastZero(x.deleted, y.deleted)
  {
    hide Trim, Blank, NormalChangeType;
    BlankExactly(x.path);
    BlankExactly(x.id);
    BlankExactly(x.summary);
  }
}
