/**
 The files of a project without version control after a rollback. The hub undoes the entries of the ledger
 whose last run is deleted, each with the FIRST blob the whole set carried for it, so it may go back too far.
 */
module RollbackTree {
  import opened Basics
  import opened Text
  import opened Paths
  import opened Ordering
  import opened Diffs
  import opened DiffSummary
  import opened Ledger
  import opened Restore
  import opened Undo
  import opened QueueModel
  import opened QueueInvariant
  import opened QueueRuns

  /** Edits before and after a point in time. */
  lemma {:induction false} ContentsConcat(start: Option<string>, a: seq<Edit>, b: seq<Edit>, p: string)
    ensures ContentsAt(start, a + b, p) == ContentsAt(ContentsAt(start, a, p), b, p)
  {
    if b == [] {
      assert a + b == a;
    } else {
      ContentsConcat(start, a, b[..|b| - 1], p);
      assert (a + b)[..|a + b| - 1] == a + b[..|b| - 1];
    }
  }

  lemma {:induction false} CarriedConcat(start: Option<string>, a: seq<Edit>, b: seq<Edit>, p: string)
    ensures FirstCarried(start, a + b, p) ==
      if FirstCarried(start, a, p).Some? then FirstCarried(start, a, p)
      else FirstCarried(ContentsAt(start, a, p), b, p)
  {
    if b == [] {
      assert a + b == a;
    } else {
      CarriedConcat(start, a, b[..|b| - 1], p);
      ContentsConcat(start, a, b[..|b| - 1], p);
      assert (a + b)[..|a + b| - 1] == a + b[..|b| - 1];
    }
  }

  lemma {:induction false} LastTouchOfEdits(a: seq<Edit>, b: seq<Edit>, p: string)
    ensures LastTouch(TouchesOf(a + b), p) ==
      if LastTouch(TouchesOf(b), p).Some? then LastTouch(TouchesOf(b), p) else LastTouch(TouchesOf(a), p)
  {
    if b == [] {
      assert a + b == a && TouchesOf(b) == [];
    } else {
      LastTouchOfEdits(a, b[..|b| - 1], p);
      var n := |a + b| - 1;
      assert (a + b)[..n] == a + b[..|b| - 1];
      assert TouchesOf(a + b)[..n] == TouchesOf((a + b)[..n]);
      assert TouchesOf(b)[..|b| - 1] == TouchesOf(b[..|b| - 1]);
    }
  }

  lemma {:induction false} UntouchedContents(start: Option<string>, edits: seq<Edit>, p: string)
    requires LastTouch(TouchesOf(edits), p).None?
    ensures ContentsAt(start, edits, p) == start
  {
    if edits != [] {
      assert TouchesOf(edits)[..|edits| - 1] == TouchesOf(edits[..|edits| - 1]);
      UntouchedContents(start, edits[..|edits| - 1], p);
    }
  }

  lemma {:induction false} LastRunIs(edits: seq<Edit>, p: string, gone: set<string>, deleted: bool)
    requires forall i :: 0 <= i < |edits| ==> (edits[i].touch.runId in gone <==> deleted)
    requires LastTouch(TouchesOf(edits), p).Some?
    ensures LastTouch(TouchesOf(edits), p).value.runId in gone <==> deleted
  {
    var front := edits[..|edits| - 1];
    assert TouchesOf(edits)[..|front|] == TouchesOf(front);
    if edits[|front|].touch.item.path != p {
      LastRunIs(front, p, gone, deleted);
    }
  }

  /** All edits of kept runs came before all edits of deleted ones. */
  ghost predicate Parted(kept: seq<Edit>, dropped: seq<Edit>, gone: set<string>) {
    && (forall i :: 0 <= i < |kept| ==> kept[i].touch.runId !in gone)
    && (forall i :: 0 <= i < |dropped| ==> dropped[i].touch.runId in gone)
  }

  /** An entry is undone exactly when a deleted run touched its path; otherwise the file is as the kept runs
      left it. */
  lemma EntryOfGoneRun(start: Option<string>, kept: seq<Edit>, dropped: seq<Edit>, gone: set<string>, k: nat)
    requires AllRegular(TouchesOf(kept + dropped)) && k < |UpsertAll([], TouchesOf(kept + dropped))|
    requires Parted(kept, dropped, gone)
    ensures var e := UpsertAll([], TouchesOf(kept + dropped))[k];
      && (e.runId in gone <==> LastTouch(TouchesOf(dropped), e.path).Some?)
      && (e.runId !in gone ==> ContentsAt(start, kept + dropped, e.path) == ContentsAt(start, kept, e.path))
  {
    LedgerDescribes(TouchesOf(kept + dropped));
    var e := UpsertAll([], TouchesOf(kept + dropped))[k];
    hide UpsertAll, AllRegular;
    assert Describes(e, TouchesOf(kept + dropped));
    LastTouchOfEdits(kept, dropped, e.path);
    ContentsConcat(start, kept, dropped, e.path);
    if LastTouch(TouchesOf(dropped), e.path).Some? {
      LastRunIs(dropped, e.path, gone, true);
    } else {
      LastRunIs(kept, e.path, gone, false);
      UntouchedContents(ContentsAt(start, kept, e.path), dropped, e.path);
    }
  }

  /** Undoing the entry gives back what the kept runs had left: if they carried a blob, exactly when that still
      is the file; if not, when undoing the edits of the deleted runs alone would. */
  ghost predicate Unwinds(start: Option<string>, kept: seq<Edit>, dropped: seq<Edit>, e: Entry) {
    match FirstCarried(start, kept, e.path)
    case Some(c) => ContentsAt(start, kept, e.path) == Some(c)
    case None => Undoes(ContentsAt(start, kept, e.path), dropped, e)
  }

  lemma UnwindsExactly(start: Option<string>, kept: seq<Edit>, dropped: seq<Edit>, e: Entry)
    ensures Unwinds(start, kept, dropped, e)
      <==> Left(start, kept + dropped, e) == ContentsAt(start, kept, e.path)
  {
    ContentsConcat(start, kept, dropped, e.path);
    CarriedConcat(start, kept, dropped, e.path);
  }

  /** `middle` has the files the kept runs had left. */
  ghost predicate LeftByKept(root: Place, start: Tree, kept: seq<Edit>, middle: Tree, entries: seq<Entry>) {
    forall k :: 0 <= k < |entries| && Target(root, entries[k].path).Some? ==>
      Look(middle, PlaceOf(root, entries[k])) ==
        ContentsAt(Look(start, PlaceOf(root, entries[k])), kept, entries[k].path)
  }

  function GoneRun(gone: set<string>): Entry -> bool {
    (e: Entry) => Trim(e.runId) in gone
  }

  /** The entries a rollback undoes: those whose last run it deletes. */
  method EntriesToUndo(entries: seq<Entry>, gone: set<string>) returns (undone: seq<Entry>)
    ensures undone == Select(entries, GoneRun(gone))
  {
    undone := [];
    for i := 0 to |entries|
      invariant undone == Select(entries[..i], GoneRun(gone))
    {
      assert entries[..i + 1][..i] == entries[..i];
      if Trim(entries[i].runId) in gone {
        undone := undone + [entries[i]];
      }
    }
    assert entries[..|entries|] == entries;
  }

  lemma GoneRunIs(edits: seq<Edit>, gone: set<string>, k: nat)
    requires AllRegular(TouchesOf(edits)) && k < |UpsertAll([], TouchesOf(edits))|
    ensures var e := UpsertAll([], TouchesOf(edits))[k]; GoneRun(gone)(e) <==> e.runId in gone
  {
    LedgerDescribes(TouchesOf(edits));
    var e := UpsertAll([], TouchesOf(edits))[k];
    var i := LastTouchAt(TouchesOf(edits), e.path);
    assert Regular(TouchesOf(edits)[i]);
    TightIsTrimmed(e.runId);
  }

  ghost predicate AllUnwind(root: Place, start: Tree, kept: seq<Edit>, dropped: seq<Edit>, t: Tree,
                            gone: set<string>) {
    var entries := UpsertAll([], TouchesOf(kept + dropped));
    forall k :: 0 <= k < |entries| && entries[k].runId in gone ==>
      && Doable(root, start, kept + dropped, t, entries[k])
      && Unwinds(Look(start, PlaceOf(root, entries[k])), kept, dropped, entries[k])
  }

  /**
   The files after a rollback are those the kept runs had left if and only if every entry that a deleted run
   touched last is doable and unwinds.
   */
  lemma {:induction false} RollbackRestoresTreeExactly(root: Place, start: Tree, kept: seq<Edit>,
                                                       dropped: seq<Edit>, t: Tree, middle: Tree,
                                                       gone: set<string>, encode: string -> string,
                                                       decode: string -> Option<string>)
    requires PendingSet(root, start, kept + dropped, t, encode, decode) && Parted(kept, dropped, gone)
    requires Spread(root, UpsertAll([], TouchesOf(kept + dropped)))
    requires RestUnchanged(root, middle, t, UpsertAll([], TouchesOf(kept + dropped)))
    requires LeftByKept(root, start, kept, middle, UpsertAll([], TouchesOf(kept + dropped)))
    ensures var entries := UpsertAll([], TouchesOf(kept + dropped));
      var outcome := PerformAll(t, Acts(root, Select(entries, GoneRun(gone)), decode));
      outcome.Restored? && outcome.tree.files == middle.files
      <==> AllUnwind(root, start, kept, dropped, t, gone)
  {
    var edits := kept + dropped;
    var entries := UpsertAll([], TouchesOf(edits));
    hide UpsertAll, PerformAll, Acts, Doable, Unwinds, Left, Target, AllRegular, Codec, Spread, RestUnchanged;
    forall k | 0 <= k < |entries|
      ensures GoneRun(gone)(entries[k]) <==> entries[k].runId in gone
      ensures entries[k].runId !in gone && Target(root, entries[k].path).Some? ==>
        Look(t, PlaceOf(root, entries[k])) == Look(middle, PlaceOf(root, entries[k]))
      ensures entries[k].runId in gone && Doable(root, start, edits, t, entries[k]) ==>
        (Unwinds(Look(start, PlaceOf(root, entries[k])), kept, dropped, entries[k])
         <==> Left(Look(start, PlaceOf(root, entries[k])), edits, entries[k])
              == Look(middle, PlaceOf(root, entries[k])))
    {
      GoneRunIs(edits, gone, k);
      EntryOfGoneRun(Look(start, PlaceOf(root, entries[k])), kept, dropped, gone, k);
      UnwindsExactly(Look(start, PlaceOf(root, entries[k])), kept, dropped, entries[k]);
      assert Told(root, start, edits, t, encode, entries[k]);
      DoableInside(root, start, edits, t, entries[k]);
    }
    UndoReachesExactly(root, start, edits, t, middle, GoneRun(gone), encode, decode);
  }

  lemma DoableInside(root: Place, start: Tree, edits: seq<Edit>, t: Tree, e: Entry)
    ensures Doable(root, start, edits, t, e) ==> Target(root, e.path).Some?
  {
  }

  /** When a kept run's edit carried a blob and the kept runs left something else, the rollback puts the file
      back to before the kept runs. */
  lemma {:induction false} KeptWorkIsLost(start: Option<string>, kept: seq<Edit>, dropped: seq<Edit>, e: Entry)
    requires FirstCarried(start, kept, e.path).Some?
    ensures Left(start, kept + dropped, e) == FirstCarried(start, kept, e.path)
    ensures Unwinds(start, kept, dropped, e) <==> ContentsAt(start, kept, e.path) == FirstCarried(start, kept, e.path)
  {
    CarriedConcat(start, kept, dropped, e.path);
  }

  /** The runs a rollback deletes are those behind a prefix of the order list, so edits that came run by run
      are parted by it. */
  lemma {:induction false} RollbackParts(h: Hub, c: ConvId, messageId: MessageId, now: nat,
                                         kept: seq<Edit>, dropped: seq<Edit>)
    requires Inv(h) && c in h.convs && Rollback(h, c, messageId, now, true, true).1.Done?
    requires var h' := Rollback(h, c, messageId, now, true, true).0;
      && c in h'.convs
      && (forall i :: 0 <= i < |kept| ==> kept[i].touch.runId in h'.convs[c].order)
      && (forall i :: 0 <= i < |dropped| ==>
            dropped[i].touch.runId in h.convs[c].order && dropped[i].touch.runId !in h'.convs[c].order)
    ensures var h' := Rollback(h, c, messageId, now, true, true).0;
      Parted(kept, dropped, h.runs.Keys - h'.runs.Keys)
  {
    RollbackIsTruncation(h, c, messageId, now);
    assert ConvInv(h.runs, h.issued, c, h.convs[c]);
  }
}
