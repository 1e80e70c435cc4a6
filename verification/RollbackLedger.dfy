/** The run queue and the change ledger together: what a rollback leaves in the ledger. */
module RollbackLedger {
  import opened Basics
  import opened Text
  import Paths
  import opened Diffs
  import opened Ledger
  import opened LedgerRebuild
  import opened QueueModel
  import opened QueueInvariant
  import opened QueueRuns
  import opened ChangeSets

  /** `events` are the diff events of every run, in the order in which they came. */
  function EventsOf(events: map<RunId, seq<seq<DiffItem>>>, id: RunId): seq<seq<DiffItem>> {
    if id in events then events[id] else []
  }

  function DiffsOf(diffs: map<RunId, seq<DiffItem>>, id: RunId): seq<DiffItem> {
    if id in diffs then diffs[id] else []
  }

  /** The diffs kept per run are what its events merge to. */
  ghost predicate Follows(diffs: map<RunId, seq<DiffItem>>, events: map<RunId, seq<seq<DiffItem>>>) {
    forall id :: DiffsOf(diffs, id) == RunDiffs(EventsOf(events, id))
  }

  ghost predicate AllEventsDrawn(events: map<RunId, seq<seq<DiffItem>>>) {
    forall id, i :: id in events && 0 <= i < |events[id]| ==> AllDrawn(events[id][i])
  }

  /** Appending a diff event keeps the diffs of its run in step with its events. */
  lemma {:induction false} AppendFollows(diffs: map<RunId, seq<DiffItem>>, events: map<RunId, seq<seq<DiffItem>>>,
                      run: RunId, message: string, items: seq<DiffItem>)
    requires Follows(diffs, events) && AllEventsDrawn(events) && AllDrawn(items) && Trim(run) != "" && Tight(run)
    ensures var events' := events[run := EventsOf(events, run) + [items]];
      Follows(DiffsAfter(diffs, DiffGenerated(run, message, items)), events')
  {
    TightIsTrimmed(run);
    var before := EventsOf(events, run);
    var events' := events[run := before + [items]];
    var diffs' := DiffsAfter(diffs, DiffGenerated(run, message, items));
    assert (before + [items])[..|before|] == before;
    RunDiffsMerge(before);
    ParsedNormal(before);
    PutAllNormal([], Parsed(before));
    NormalizeAllFixed(RunDiffs(before));
    assert DiffsOf(diffs, run) == RunDiffs(before);
    if NormalizeAll(items) == [] {
      PutMerged([], Parsed(before));
      assert Merge(RunDiffs(before), []) == RunDiffs(before);
    }
    forall id
      ensures DiffsOf(diffs', id) == RunDiffs(EventsOf(events', id))
    {
      if id != run {
        assert DiffsOf(diffs, id) == RunDiffs(EventsOf(events, id));
      }
    }
  }

  /** The runs of the order list with their diff events. */
  function Chunks(runs: map<RunId, Run>, events: map<RunId, seq<seq<DiffItem>>>, order: seq<RunId>): seq<Chunk> {
    if order == [] then []
    else
      var front, id := Chunks(runs, events, order[..|order| - 1]), order[|order| - 1];
      if id in runs then front + [Chunk(id, runs[id].messageId, EventsOf(events, id))] else front
  }

  /** A rebuild reads the kept diffs of exactly the chunks of the order list. */
  lemma {:induction false} KeptTouchesAreKept(runs: map<RunId, Run>, diffs: map<RunId, seq<DiffItem>>,
                                              events: map<RunId, seq<seq<DiffItem>>>, order: seq<RunId>)
    requires Follows(diffs, events)
    ensures KeptTouches(runs, diffs, order) == Kept(Chunks(runs, events, order))
  {
    if order != [] {
      var front, id := order[..|order| - 1], order[|order| - 1];
      KeptTouchesAreKept(runs, diffs, events, front);
      assert DiffsOf(diffs, id) == RunDiffs(EventsOf(events, id));
      if id in runs {
        var chunk := Chunk(id, runs[id].messageId, EventsOf(events, id));
        assert (Chunks(runs, events, front) + [chunk])[..|Chunks(runs, events, front)|] == Chunks(runs, events, front);
        assert id !in diffs ==> Stamp(id, runs[id].messageId, DiffsOf(diffs, id)) == [];
      }
    }
  }

  lemma {:induction false} ChunksOfPrefix(runs: map<RunId, Run>, runs': map<RunId, Run>,
                                          events: map<RunId, seq<seq<DiffItem>>>, order: seq<RunId>, order': seq<RunId>)
    requires order' <= order
    requires forall id :: id in order' ==> id in runs && id in runs' && runs'[id] == runs[id]
    ensures Chunks(runs', events, order') <= Chunks(runs, events, order)
    decreases |order|
  {
    if order' == order {
      ChunksAgree(runs, runs', events, order);
    } else {
      ChunksOfPrefix(runs, runs', events, order[..|order| - 1], order');
    }
  }

  lemma {:induction false} ChunksAgree(runs: map<RunId, Run>, runs': map<RunId, Run>,
                                       events: map<RunId, seq<seq<DiffItem>>>, order: seq<RunId>)
    requires forall id :: id in order ==> id in runs && id in runs' && runs'[id] == runs[id]
    ensures Chunks(runs', events, order) == Chunks(runs, events, order)
  {
    if order != [] {
      ChunksAgree(runs, runs', events, order[..|order| - 1]);
      assert order[|order| - 1] in order;
    }
  }

  lemma RegularPrefix(a: seq<Chunk>, b: seq<Chunk>)
    requires a <= b && RegularChunks(b)
    ensures RegularChunks(a)
  {
    assert forall i :: 0 <= i < |a| ==> a[i] == b[i];
  }

  /** After a rollback the ledger holds what folding only the diff events of the kept runs would have
      given, entry for entry and in order, exactly when every path is settled by the kept runs. The
      kept runs are a prefix of the runs there were, so the events folded are a prefix of the log. */
  lemma RollbackRebuildsExactly(h: Hub, c: ConvId, messageId: MessageId, now: nat, diffs: map<RunId, seq<DiffItem>>,
                                diffs': map<RunId, seq<DiffItem>>, events: map<RunId, seq<seq<DiffItem>>>,
                                l: LedgerView, f: string)
    requires Inv(h) && Rollback(h, c, messageId, now, true, true).1.Done? && c in h.convs
    requires var h' := Rollback(h, c, messageId, now, true, true).0;
      && c in h'.convs
      && diffs' == map id | id in diffs && (id in h'.runs || id !in h.runs) :: diffs[id]
    requires Follows(diffs, events) && RegularChunks(Chunks(h.runs, events, h.convs[c].order))
    ensures var h' := Rollback(h, c, messageId, now, true, true).0;
      var before, kept := Chunks(h.runs, events, h.convs[c].order), Chunks(h'.runs, events, h'.convs[c].order);
      && kept <= before && Logged(kept) <= Logged(before)
      && (Rebuilt(l, f, KeptTouches(h'.runs, diffs', h'.convs[c].order)).entries == UpsertAll([], Logged(kept))
          <==> AllSettled(kept))
  {
    RollbackIsTruncation(h, c, messageId, now);
    var h' := Rollback(h, c, messageId, now, true, true).0;
    var order, order' := h.convs[c].order, h'.convs[c].order;
    assert ConvInv(h.runs, h.issued, c, h.convs[c]);
    assert forall id :: id in order' ==> id in order && id in h'.runs;
    ChunksOfPrefix(h.runs, h'.runs, events, order, order');
    var before, kept := Chunks(h.runs, events, order), Chunks(h'.runs, events, order');
    RegularPrefix(kept, before);
    LoggedPrefix(kept, before);
    KeptTouchesDependOn(h'.runs, diffs, diffs', order');
    KeptTouchesAreKept(h'.runs, diffs, events, order');
    RebuildAgreesExactly(kept);
  }

  lemma {:induction false} LoggedPrefix(a: seq<Chunk>, b: seq<Chunk>)
    requires a <= b
    ensures Logged(a) <= Logged(b)
    decreases |b|
  {
    if a != b {
      LoggedPrefix(a, b[..|b| - 1]);
    }
  }

  lemma {:induction false} KeptTouchesDependOn(runs: map<RunId, Run>, diffs: map<RunId, seq<DiffItem>>,
                                               diffs': map<RunId, seq<DiffItem>>, order: seq<RunId>)
    requires forall id :: id in order && id in runs ==>
      DiffsOf(diffs', id) == DiffsOf(diffs, id) && (id in diffs <==> id in diffs')
    ensures KeptTouches(runs, diffs', order) == KeptTouches(runs, diffs, order)
  {
    if order != [] {
      assert order[|order| - 1] in order;
      KeptTouchesDependOn(runs, diffs, diffs', order[..|order| - 1]);
    }
  }

  // ---- after a commit -------------------------------------------------------------------------------

  ghost predicate Touched(touches: seq<Touch>, p: string) {
    exists k :: 0 <= k < |touches| && Paths.NormalizePath(touches[k].item.path) == p
  }

  lemma UpsertEntryOf(entries: seq<Entry>, path: string, t: Touch, p: string)
    ensures HasEntry(UpsertAt(entries, path, t), p) <==> HasEntry(entries, p) || path == p
  {
    EntryPositionFinds(entries, path);
    hide EntryPosition;
    var after := UpsertAt(entries, path, t);
    match EntryPosition(entries, path)
    case None =>
      assert after == entries + [NewEntry(path, t)];
      assert after[|entries|].path == path;
      assert forall i :: 0 <= i < |entries| ==> after[i] == entries[i];
    case Some(k) =>
      assert TouchEntry(entries[k], t).path == path;
      assert forall i :: 0 <= i < |entries| ==> after[i].path == entries[i].path;
  }

  /** A path has an entry exactly when a touch leads to it. */
  lemma {:induction false} EntryExactlyWhenTouched(touches: seq<Touch>, p: string)
    ensures HasEntry(UpsertAll([], touches), p) <==> p != "" && Touched(touches, p)
  {
    if touches != [] {
      var front, t := touches[..|touches| - 1], touches[|touches| - 1];
      EntryExactlyWhenTouched(front, p);
      TouchedFront(touches, p);
      UpsertEntryOf(UpsertAll([], front), Paths.NormalizePath(t.item.path), t, p);
    }
  }

  lemma TouchedFront(touches: seq<Touch>, p: string)
    requires touches != []
    ensures Touched(touches, p)
      <==> Touched(touches[..|touches| - 1], p) || Paths.NormalizePath(touches[|touches| - 1].item.path) == p
  {
    hide Paths.NormalizePath;
    var front := touches[..|touches| - 1];
    if k :| 0 <= k < |front| && Paths.NormalizePath(front[k].item.path) == p {
      assert touches[k] == front[k];
    }
    if k :| 0 <= k < |touches| && Paths.NormalizePath(touches[k].item.path) == p {
      assert k < |front| ==> front[k] == touches[k];
    }
  }

  /** A run has a diff for the path. */
  ghost predicate DiffsHave(diffs: map<RunId, seq<DiffItem>>, id: RunId, p: string) {
    id in diffs && exists i :: 0 <= i < |diffs[id]| && Paths.NormalizePath(diffs[id][i].path) == p
  }

  lemma StampTouched(run: string, message: string, items: seq<DiffItem>, touches: seq<Touch>, p: string)
    ensures Touched(touches + Stamp(run, message, items), p)
      <==> Touched(touches, p) || exists i :: 0 <= i < |items| && Paths.NormalizePath(items[i].path) == p
  {
    hide Paths.NormalizePath;
    var all := touches + Stamp(run, message, items);
    if k :| 0 <= k < |all| && Paths.NormalizePath(all[k].item.path) == p {
      if k < |touches| {
        assert all[k] == touches[k];
      } else {
        assert all[k].item == items[k - |touches|];
      }
    }
    if k :| 0 <= k < |touches| && Paths.NormalizePath(touches[k].item.path) == p {
      assert all[k] == touches[k];
    }
    if i :| 0 <= i < |items| && Paths.NormalizePath(items[i].path) == p {
      assert all[|touches| + i].item == items[i];
    }
  }

  lemma {:induction false} KeptTouchesTouched(runs: map<RunId, Run>, diffs: map<RunId, seq<DiffItem>>,
                                              order: seq<RunId>, p: string)
    ensures Touched(KeptTouches(runs, diffs, order), p)
      <==> exists id :: id in order && id in runs && DiffsHave(diffs, id, p)
  {
    if order != [] {
      var front, id := order[..|order| - 1], order[|order| - 1];
      KeptTouchesTouched(runs, diffs, front, p);
      assert order == front + [id];
      if id in runs && id in diffs {
        StampTouched(id, runs[id].messageId, diffs[id], KeptTouches(runs, diffs, front), p);
      }
    }
  }

  /**
   A commit clears the ledger but keeps the diffs of the runs, so a rollback after it brings entries back
   that were committed: a path is in the ledger again exactly when a run that the rollback keeps has a
   diff for it, whether it was committed or not.
   */
  lemma {:induction false} CommittedEntriesReturnExactly(h: Hub, c: ConvId, messageId: MessageId, now: nat,
                                                         diffs: map<RunId, seq<DiffItem>>,
                                                         diffs': map<RunId, seq<DiffItem>>, l: LedgerView,
                                                         cp: Checkpoint, e: string, f: string, g: string, p: string)
    requires Inv(h) && Rollback(h, c, messageId, now, true, true).1.Done? && c in h.convs && p != ""
    requires var h' := Rollback(h, c, messageId, now, true, true).0;
      var after := DiffsAfter(diffs, Committed(f, Some(CheckpointPayload(cp))));
      && c in h'.convs
      && diffs' == map id | id in after && (id in h'.runs || id !in h.runs) :: after[id]
    ensures var h' := Rollback(h, c, messageId, now, true, true).0;
      var committed := CommitFinished(l, cp, e, f);
      var order' := h'.convs[c].order;
      && committed.entries == []
      && order' <= h.convs[c].order
      && (HasEntry(Rebuilt(committed, g, KeptTouches(h'.runs, diffs', order')).entries, p)
          <==> exists id :: id in order' && DiffsHave(diffs, id, p))
  {
    RollbackIsTruncation(h, c, messageId, now);
    var h' := Rollback(h, c, messageId, now, true, true).0;
    var order, order' := h.convs[c].order, h'.convs[c].order;
    assert ConvInv(h.runs, h.issued, c, h.convs[c]);
    assert forall id :: id in order' ==> id in order && id in h'.runs;
    EntryExactlyWhenTouched(KeptTouches(h'.runs, diffs', order'), p);
    KeptTouchesTouched(h'.runs, diffs', order', p);
    assert forall id :: id in order' ==> (DiffsHave(diffs', id, p) <==> DiffsHave(diffs, id, p));
  }
}
