/** What touches change in a ledger that holds entries already, and when they change nothing. */
module LedgerChange {
  import opened Basics
  import opened Text
  import opened Paths
  import opened Diffs
  import opened DiffSummary
  import opened Ledger

  /** An entry after touches of its path and of others. */
  function Updated(e: Entry, touches: seq<Touch>): Entry {
    match LastTouch(touches, e.path)
    case None => e
    case Some(t) =>
      var before := FirstBefore(Items(touches), e.path);
      var after := LastAfter(Items(touches), e.path);
      Entry(t.messageId, t.runId, e.path, t.item.changeType, t.item.summary, t.item.added, t.item.deleted,
            if Trim(e.before) == "" && before != "" then before else e.before,
            if after != "" then after else e.after)
  }

  lemma NoTouchNoBlob(touches: seq<Touch>, p: string)
    requires LastTouch(touches, p).None?
    ensures FirstBefore(Items(touches), p) == "" && LastAfter(Items(touches), p) == ""
  {
    LastTouchIsLast(touches, p);
    FirstSeenElements(Items(touches));
    NothingBefore(Items(touches), p);
  }

  lemma {:induction false} LastTouchIsLast(touches: seq<Touch>, p: string)
    ensures LastTouch(touches, p).None? <==> LastOf(Items(touches), p).None?
  {
    if touches != [] {
      var front := touches[..|touches| - 1];
      LastTouchIsLast(front, p);
      assert Items(touches)[..|front|] == Items(front);
    }
  }

  /** A touch as the ledger reads it. */
  function ReadTouch(t: Touch): Touch {
    var x := t.item;
    Touch(Trim(t.runId), Trim(t.messageId),
          x.(path := NormalizePath(x.path), changeType := NormalChangeType(x.changeType), summary := Trim(x.summary),
             added := NormalCount(x.added), deleted := NormalCount(x.deleted),
             before := Trim(x.before), after := Trim(x.after)))
  }

  /** The touches as the ledger reads them, without those that lead to no path. */
  function Read(touches: seq<Touch>): seq<Touch> {
    if touches == [] then []
    else
      var front, last := Read(touches[..|touches| - 1]), touches[|touches| - 1];
      if NormalizePath(last.item.path) == "" then front else front + [ReadTouch(last)]
  }

  lemma {:induction false} BlobsTight(touches: seq<Touch>, p: string)
    ensures Tight(FirstBefore(Items(Read(touches)), p))
  {
    hide NormalizePath, IsSpace, Trim;
    if touches != [] {
      var front, last := touches[..|touches| - 1], touches[|touches| - 1];
      BlobsTight(front, p);
      ItemsAppend(Read(front), ReadTouch(last));
      TrimIsTight(last.item.before);
    }
  }

  lemma UpdatedStep(e: Entry, front: seq<Touch>, t: Touch)
    requires LastTouch(front, e.path).None? ==>
      FirstBefore(Items(front), e.path) == "" && LastAfter(Items(front), e.path) == ""
    requires Tight(FirstBefore(Items(front), e.path))
    ensures Updated(e, front + [ReadTouch(t)]) ==
      if NormalizePath(t.item.path) == e.path then TouchEntry(Updated(e, front), t) else Updated(e, front)
  {
    ItemsAppend(front, ReadTouch(t));
    assert (front + [ReadTouch(t)])[..|front|] == front;
    TightIsTrimmed(FirstBefore(Items(front), e.path));
  }

  ghost predicate AllKnown(entries: seq<Entry>, touches: seq<Touch>) {
    forall i :: 0 <= i < |touches| ==> HasEntry(entries, touches[i].item.path)
  }

  /** The entries there are keep their places and are updated one by one; new ones come behind them,
      exactly when a touch is of a new path. */
  lemma {:induction false} AppliedExactly(entries: seq<Entry>, touches: seq<Touch>)
    requires UniqueEntries(entries)
    ensures var after := UpsertAll(entries, touches);
      && |entries| <= |after|
      && (forall k :: 0 <= k < |entries| ==> after[k] == Updated(entries[k], Read(touches)))
      && (|after| == |entries| <==> AllKnown(entries, Read(touches)))
  {
    if touches != [] {
      var front, t := touches[..|touches| - 1], touches[|touches| - 1];
      AppliedExactly(entries, front);
      UpsertAllUnique(entries, front);
      if NormalizePath(t.item.path) != "" {
        AppliedStep(entries, UpsertAll(entries, front), front, t);
      }
    }
  }

  lemma AllKnownStep(entries: seq<Entry>, front: seq<Touch>, t: Touch)
    ensures AllKnown(entries, front + [t]) <==> AllKnown(entries, front) && HasEntry(entries, t.item.path)
  {
    hide HasEntry;
    assert forall i :: 0 <= i < |front| ==> (front + [t])[i] == front[i];
    assert (front + [t])[|front|] == t;
  }

  lemma UpsertAtEntries(entries: seq<Entry>, p: string, t: Touch)
    requires UniqueEntries(entries)
    ensures var after := UpsertAt(entries, p, t);
      && |entries| <= |after|
      && (forall k :: 0 <= k < |entries| ==>
            after[k] == if entries[k].path == p then TouchEntry(entries[k], t) else entries[k])
      && (|after| == |entries| <==> HasEntry(entries, p))
  {
    EntryPositionFinds(entries, p);
    hide TouchEntry, NewEntry;
  }

  lemma AppliedStep(entries: seq<Entry>, before: seq<Entry>, front: seq<Touch>, t: Touch)
    requires UniqueEntries(before) && NormalizePath(t.item.path) != "" && |entries| <= |before|
    requires forall k :: 0 <= k < |entries| ==> before[k] == Updated(entries[k], Read(front))
    requires |before| == |entries| <==> AllKnown(entries, Read(front))
    ensures var after, read := Upsert(before, t), Read(front) + [ReadTouch(t)];
      && |entries| <= |after|
      && (forall k :: 0 <= k < |entries| ==> after[k] == Updated(entries[k], read))
      && (|after| == |entries| <==> AllKnown(entries, read))
  {
    var p := NormalizePath(t.item.path);
    UpsertAtEntries(before, p, t);
    AllKnownStep(entries, Read(front), ReadTouch(t));
    UpdatedPath(entries, Read(front));
    assert Upsert(before, t) == UpsertAt(before, p, t) && ReadTouch(t).item.path == p;
    hide UniqueEntries, AllKnown, Upsert, UpsertAt, Updated, TouchEntry, NewEntry, NormalizePath, Read, ReadTouch;
    forall k | 0 <= k < |entries|
      ensures UpsertAt(before, p, t)[k] == Updated(entries[k], Read(front) + [ReadTouch(t)])
    {
      BlobsTight(front, entries[k].path);
      if LastTouch(Read(front), entries[k].path).None? {
        NoTouchNoBlob(Read(front), entries[k].path);
      }
      UpdatedStep(entries[k], Read(front), t);
    }
    if |before| == |entries| {
      assert HasEntry(entries, p) <==> HasEntry(before, p);
    }
  }

  lemma UpdatedPath(entries: seq<Entry>, touches: seq<Touch>)
    ensures forall k :: 0 <= k < |entries| ==> Updated(entries[k], touches).path == entries[k].path
  {
  }

  /** The touches only repeat what the entry of `p` says. */
  ghost predicate Repeats(entries: seq<Entry>, touches: seq<Touch>, p: string) {
    match LastTouch(touches, p)
    case None => true
    case Some(t) =>
      exists k :: 0 <= k < |entries| && entries[k].path == p && SameFields(entries[k], t, touches)
  }

  ghost predicate OnlyRepeats(entries: seq<Entry>, touches: seq<Touch>) {
    forall p :: Repeats(entries, touches, p)
  }

  ghost predicate SameFields(e: Entry, t: Touch, touches: seq<Touch>) {
    && e.messageId == t.messageId && e.runId == t.runId
    && e.changeType == t.item.changeType && e.summary == t.item.summary
    && e.added == t.item.added && e.deleted == t.item.deleted
    && (Trim(e.before) == "" ==> FirstBefore(Items(touches), e.path) in ["", e.before])
    && LastAfter(Items(touches), e.path) in ["", e.after]
  }

  lemma UnchangedEntry(e: Entry, touches: seq<Touch>)
    ensures Updated(e, touches) == e
      <==> (LastTouch(touches, e.path).Some? ==> SameFields(e, LastTouch(touches, e.path).value, touches))
  {
  }

  lemma {:induction false} LastTouchOf(touches: seq<Touch>, i: nat)
    requires i < |touches|
    ensures LastTouch(touches, touches[i].item.path).Some?
    decreases |touches|
  {
    if i < |touches| - 1 && touches[|touches| - 1].item.path != touches[i].item.path {
      LastTouchOf(touches[..|touches| - 1], i);
    }
  }

  lemma {:induction false} LastTouchKnown(entries: seq<Entry>, touches: seq<Touch>, p: string)
    requires AllKnown(entries, touches) && LastTouch(touches, p).Some?
    ensures HasEntry(entries, p)
  {
    var front := touches[..|touches| - 1];
    if touches[|touches| - 1].item.path != p {
      assert AllKnown(entries, front) by {
        assert forall i :: 0 <= i < |front| ==> front[i] == touches[i];
      }
      LastTouchKnown(entries, front, p);
    }
  }

  lemma UnchangedRepeats(entries: seq<Entry>, touches: seq<Touch>, p: string)
    requires UniqueEntries(entries) && UpsertAll(entries, touches) == entries
    ensures Repeats(entries, Read(touches), p)
  {
    AppliedExactly(entries, touches);
    hide Updated, SameFields, UpsertAll, Read;
    if LastTouch(Read(touches), p).Some? {
      LastTouchKnown(entries, Read(touches), p);
      var k :| 0 <= k < |entries| && entries[k].path == p;
      assert UpsertAll(entries, touches)[k] == Updated(entries[k], Read(touches));
      UnchangedEntry(entries[k], Read(touches));
    }
  }

  lemma RepeatsUnchanged(entries: seq<Entry>, touches: seq<Touch>)
    requires UniqueEntries(entries) && OnlyRepeats(entries, Read(touches))
    ensures UpsertAll(entries, touches) == entries
  {
    AppliedExactly(entries, touches);
    hide Updated, SameFields, UpsertAll, Read;
    var read := Read(touches);
    forall i | 0 <= i < |read|
      ensures HasEntry(entries, read[i].item.path)
    {
      LastTouchOf(read, i);
      assert Repeats(entries, read, read[i].item.path);
    }
    forall k | 0 <= k < |entries|
      ensures Updated(entries[k], read) == entries[k]
    {
      assert Repeats(entries, read, entries[k].path);
      UnchangedEntry(entries[k], read);
    }
  }

  /** Touches leave a ledger as it is exactly when, path by path, they only repeat what it says. */
  lemma {:induction false} UnchangedExactly(entries: seq<Entry>, touches: seq<Touch>)
    requires UniqueEntries(entries)
    ensures UpsertAll(entries, touches) == entries <==> OnlyRepeats(entries, Read(touches))
  {
    if UpsertAll(entries, touches) == entries {
      hide Repeats, UpsertAll, Read;
      forall p
        ensures Repeats(entries, Read(touches), p)
      {
        UnchangedRepeats(entries, touches, p);
      }
    } else if OnlyRepeats(entries, Read(touches)) {
      RepeatsUnchanged(entries, touches);
    }
  }

  // ---- a run the ledger does not know ----------------------------------------------------------------

  ghost predicate NamesRun(entries: seq<Entry>, run: string) {
    exists i :: 0 <= i < |entries| && entries[i].runId == run
  }

  lemma UpsertNames(entries: seq<Entry>, t: Touch)
    requires NormalizePath(t.item.path) != ""
    ensures NamesRun(Upsert(entries, t), Trim(t.runId))
  {
    var path := NormalizePath(t.item.path);
    EntryPositionFinds(entries, path);
    var after := Upsert(entries, t);
    match EntryPosition(entries, path)
    case None => assert after[|entries|].runId == Trim(t.runId);
    case Some(k) => assert after[k].runId == Trim(t.runId);
  }

  /** Touches that lead to a path leave the name of their last run in the ledger. */
  lemma {:induction false} TouchesName(entries: seq<Entry>, touches: seq<Touch>)
    requires touches != [] && forall i :: 0 <= i < |touches| ==> NormalizePath(touches[i].item.path) != ""
    ensures NamesRun(UpsertAll(entries, touches), Trim(touches[|touches| - 1].runId))
  {
    hide Upsert;
    UpsertNames(UpsertAll(entries, touches[..|touches| - 1]), touches[|touches| - 1]);
  }

  /** An item that was normalised leads to a path. */
  lemma TightPathLeads(path: string)
    requires path != "" && Tight(path)
    ensures NormalizePath(path) != ""
  {
    var s := Slashed(path);
    assert Tight(s) && s != "" by {
      assert s[0] == path[0] || s[0] == '/';
      assert s[|s| - 1] == path[|path| - 1] || s[|s| - 1] == '/';
    }
    TightIsTrimmed(s);
    SlashedHasNone(path);
    CleanIsStable(s);
  }

  lemma {:induction false} NormalizedLead(items: seq<DiffItem>)
    ensures forall i :: 0 <= i < |NormalizeAll(items)| ==> NormalizePath(NormalizeAll(items)[i].path) != ""
  {
    if items != [] {
      NormalizedLead(items[..|items| - 1]);
      var raw := items[|items| - 1];
      if Trim(raw.path) != "" {
        TrimIsTight(raw.path);
        TightPathLeads(Trim(raw.path));
      }
    }
  }
}
