/**
 Two ways to the same ledger. While runs go on, every diff event is folded into the ledger at
 once. After a rollback the ledger is rebuilt from the merged diffs kept per run. Here: the two
 agree on everything but the blobs from before, and when exactly they agree on those.
 */
module LedgerRebuild {
  import opened Basics
  import opened Text
  import opened Paths
  import opened Diffs
  import opened DiffSummary
  import opened Ledger

  /** The diff events of one run, as they came. */
  datatype Chunk = Chunk(runId: string, messageId: string, events: seq<seq<DiffItem>>)

  function Parsed(events: seq<seq<DiffItem>>): seq<DiffItem> {
    if events == [] then [] else Parsed(events[..|events| - 1]) + NormalizeAll(events[|events| - 1])
  }

  /** What is kept for the run: every event merged into what was there. */
  function RunDiffs(events: seq<seq<DiffItem>>): seq<DiffItem> {
    if events == [] then []
    else Merge(RunDiffs(events[..|events| - 1]), NormalizeAll(events[|events| - 1]))
  }

  function Stamp(runId: string, messageId: string, items: seq<DiffItem>): seq<Touch> {
    seq(|items|, i requires 0 <= i < |items| => Touch(runId, messageId, items[i]))
  }

  /** The touches of the event log. */
  function Logged(chunks: seq<Chunk>): seq<Touch> {
    if chunks == [] then []
    else
      var c := chunks[|chunks| - 1];
      Logged(chunks[..|chunks| - 1]) + Stamp(c.runId, c.messageId, Parsed(c.events))
  }

  /** The touches of a rebuild from the diffs kept per run. */
  function Kept(chunks: seq<Chunk>): seq<Touch> {
    if chunks == [] then []
    else
      var c := chunks[|chunks| - 1];
      Kept(chunks[..|chunks| - 1]) + Stamp(c.runId, c.messageId, RunDiffs(c.events))
  }

  /** The first run that carries a blob from before for `p` ends with the blob it starts with. */
  predicate Settled(chunks: seq<Chunk>, p: string) {
    chunks == [] ||
    var front, items := chunks[..|chunks| - 1], Parsed(chunks[|chunks| - 1].events);
    if FirstBefore(Items(Logged(front)), p) != "" then Settled(front, p)
    else FirstBefore(items, p) == LastBefore(items, p)
  }

  /** Paths in normal form, and generated ids without blanks. */
  ghost predicate RegularChunk(c: Chunk) {
    && Tight(c.runId) && Tight(c.messageId)
    && (forall i :: 0 <= i < |c.events| ==> AllDrawn(c.events[i]))
    && (forall i {:trigger Parsed(c.events)[i]} :: 0 <= i < |Parsed(c.events)| ==>
          NormalizePath(Parsed(c.events)[i].path) == Parsed(c.events)[i].path)
  }

  ghost predicate RegularChunks(chunks: seq<Chunk>) {
    forall i {:trigger RegularChunk(chunks[i])} :: 0 <= i < |chunks| ==> RegularChunk(chunks[i])
  }

  // ---- one run ----------------------------------------------------------------------------------

  lemma {:induction false} ParsedNormal(events: seq<seq<DiffItem>>)
    requires forall i :: 0 <= i < |events| ==> AllDrawn(events[i])
    ensures AllNormal(Parsed(events))
  {
    if events != [] {
      var front := Parsed(events[..|events| - 1]);
      var last := NormalizeAll(events[|events| - 1]);
      ParsedNormal(events[..|events| - 1]);
      NormalizeAllNormal(events[|events| - 1]);
      forall i | 0 <= i < |front + last|
        ensures Normal((front + last)[i])
      {
        assert i < |front| ==> Normal(front[i]);
        assert i >= |front| ==> Normal(last[i - |front|]);
      }
    }
  }

  /** Merging event by event is merging all the run's items. */
  lemma {:induction false} RunDiffsMerge(events: seq<seq<DiffItem>>)
    requires forall i :: 0 <= i < |events| ==> AllDrawn(events[i])
    ensures RunDiffs(events) == PutAll([], Parsed(events))
  {
    if events != [] {
      var front, last := events[..|events| - 1], events[|events| - 1];
      RunDiffsMerge(front);
      ParsedNormal(front);
      PutAllNormal([], Parsed(front));
      NormalizeAllFixed(RunDiffs(front));
      NormalizeAllNormal(last);
      NormalizeAllFixed(NormalizeAll(last));
      PutMerged([], Parsed(front));
      PutAllConcat([], Parsed(front), NormalizeAll(last));
    }
  }

  lemma {:induction false} LoneItem(m: seq<DiffItem>, k: nat)
    requires UniquePaths(m) && k < |m|
    ensures LastOf(m, m[k].path) == Some(m[k])
    ensures FirstBefore(m, m[k].path) == LastBefore(m, m[k].path) == m[k].before
    ensures LastAfter(m, m[k].path) == m[k].after
  {
    var front, p := m[..|m| - 1], m[k].path;
    if k < |m| - 1 {
      LoneItem(front, k);
    } else {
      PositionFinds(front, p);
      AbsentPath(front, p);
    }
  }

  lemma {:induction false} AbsentPath(m: seq<DiffItem>, p: string)
    requires forall i :: 0 <= i < |m| ==> m[i].path != p
    ensures FirstOf(m, p).None? && LastOf(m, p).None?
    ensures FirstBefore(m, p) == "" && LastBefore(m, p) == "" && LastAfter(m, p) == ""
  {
    if m != [] {
      AbsentPath(m[..|m| - 1], p);
    }
  }

  lemma {:induction false} UniqueFirstSeen(m: seq<DiffItem>)
    requires UniquePaths(m)
    ensures |FirstSeen(m)| == |m| && forall k :: 0 <= k < |m| ==> FirstSeen(m)[k] == m[k].path
  {
    if m != [] {
      UniqueFirstSeen(m[..|m| - 1]);
      FirstSeenElements(m[..|m| - 1]);
    }
  }

  predicate SameLast(a: Option<DiffItem>, b: Option<DiffItem>) {
    if a.None? || b.None? then a.None? && b.None?
    else
      && a.value.changeType == b.value.changeType && a.value.summary == b.value.summary
      && a.value.added == b.value.added && a.value.deleted == b.value.deleted
  }

  /** What merging changes for a path: only which blob from before comes first. */
  lemma MergedItems(items: seq<DiffItem>, p: string)
    ensures var m := PutAll([], items);
      && FirstSeen(m) == FirstSeen(items)
      && SameLast(LastOf(m, p), LastOf(items, p))
      && FirstBefore(m, p) == LastBefore(items, p)
      && LastAfter(m, p) == LastAfter(items, p)
  {
    var m := PutAll([], items);
    PutAllMerged([], items);
    MergeSummarises(items);
    UniqueFirstSeen(m);
    FirstSeenElements(items);
    PositionFinds(m, p);
    if Position(m, p).Some? {
      LoneItem(m, Position(m, p).value);
    } else {
      AbsentPath(m, p);
      assert p !in FirstSeen(items);
      NothingBefore(items, p);
    }
  }

  lemma {:induction false} SomeBefore(items: seq<DiffItem>, p: string)
    ensures FirstBefore(items, p) == "" <==> LastBefore(items, p) == ""
  {
    if items != [] {
      SomeBefore(items[..|items| - 1], p);
    }
  }

  // ---- all runs ---------------------------------------------------------------------------------

  lemma {:induction false} LastTouchConcat(a: seq<Touch>, b: seq<Touch>, p: string)
    ensures LastTouch(a + b, p) == if LastTouch(b, p).Some? then LastTouch(b, p) else LastTouch(a, p)
    ensures Items(a + b) == Items(a) + Items(b)
  {
    if b == [] {
      assert a + b == a;
    } else {
      LastTouchConcat(a, b[..|b| - 1], p);
      assert (a + b)[..|a + b| - 1] == a + b[..|b| - 1];
    }
  }

  lemma {:induction false} LastTouchStamp(runId: string, messageId: string, items: seq<DiffItem>, p: string)
    ensures Items(Stamp(runId, messageId, items)) == items
    ensures LastTouch(Stamp(runId, messageId, items), p) ==
      (match LastOf(items, p) case None => None case Some(x) => Some(Touch(runId, messageId, x)))
  {
    if items != [] {
      LastTouchStamp(runId, messageId, items[..|items| - 1], p);
      assert Stamp(runId, messageId, items)[..|items| - 1] == Stamp(runId, messageId, items[..|items| - 1]);
    }
  }

  predicate SameTouch(a: Option<Touch>, b: Option<Touch>) {
    if a.None? || b.None? then a.None? && b.None?
    else
      && a.value.runId == b.value.runId && a.value.messageId == b.value.messageId
      && SameLast(Some(a.value.item), Some(b.value.item))
  }

  ghost predicate Agree(a: seq<Touch>, b: seq<Touch>, p: string) {
    && SameTouch(LastTouch(a, p), LastTouch(b, p))
    && LastAfter(Items(a), p) == LastAfter(Items(b), p)
    && (FirstBefore(Items(a), p) == "" <==> FirstBefore(Items(b), p) == "")
  }

  lemma StampAgrees(c: Chunk, p: string)
    requires RegularChunk(c)
    ensures Agree(Stamp(c.runId, c.messageId, Parsed(c.events)), Stamp(c.runId, c.messageId, RunDiffs(c.events)), p)
    ensures FirstSeen(RunDiffs(c.events)) == FirstSeen(Parsed(c.events))
    ensures FirstBefore(RunDiffs(c.events), p) == LastBefore(Parsed(c.events), p)
  {
    RunDiffsMerge(c.events);
    MergedItems(Parsed(c.events), p);
    SomeBefore(Parsed(c.events), p);
    LastTouchStamp(c.runId, c.messageId, Parsed(c.events), p);
    LastTouchStamp(c.runId, c.messageId, RunDiffs(c.events), p);
  }

  lemma RegularFront(chunks: seq<Chunk>)
    requires RegularChunks(chunks) && chunks != []
    ensures RegularChunks(chunks[..|chunks| - 1]) && RegularChunk(chunks[|chunks| - 1])
  {
    assert forall i :: 0 <= i < |chunks| - 1 ==> chunks[..|chunks| - 1][i] == chunks[i];
  }

  /** Path by path, the log and the kept diffs agree; on the blob from before exactly when the
      path is settled. */
  lemma {:induction false} KeptAgrees(chunks: seq<Chunk>, p: string)
    requires RegularChunks(chunks)
    ensures Agree(Logged(chunks), Kept(chunks), p)
    ensures FirstBefore(Items(Logged(chunks)), p) == FirstBefore(Items(Kept(chunks)), p) <==> Settled(chunks, p)
  {
    if chunks != [] {
      RegularFront(chunks);
      var front, c := chunks[..|chunks| - 1], chunks[|chunks| - 1];
      KeptAgrees(front, p);
      StampAgrees(c, p);
      var logged := Stamp(c.runId, c.messageId, Parsed(c.events));
      var kept := Stamp(c.runId, c.messageId, RunDiffs(c.events));
      LastTouchStamp(c.runId, c.messageId, Parsed(c.events), p);
      LastTouchStamp(c.runId, c.messageId, RunDiffs(c.events), p);
      LastTouchConcat(Logged(front), logged, p);
      LastTouchConcat(Kept(front), kept, p);
      SummaryConcat(Items(Logged(front)), Items(logged), p);
      SummaryConcat(Items(Kept(front)), Items(kept), p);
    }
  }

  lemma {:induction false} KeptFirstSeen(chunks: seq<Chunk>)
    requires RegularChunks(chunks)
    ensures FirstSeen(Items(Kept(chunks))) == FirstSeen(Items(Logged(chunks)))
  {
    if chunks != [] {
      RegularFront(chunks);
      var front, c := chunks[..|chunks| - 1], chunks[|chunks| - 1];
      KeptFirstSeen(front);
      StampAgrees(c, "");
      var logged := Stamp(c.runId, c.messageId, Parsed(c.events));
      var kept := Stamp(c.runId, c.messageId, RunDiffs(c.events));
      LastTouchStamp(c.runId, c.messageId, Parsed(c.events), "");
      LastTouchStamp(c.runId, c.messageId, RunDiffs(c.events), "");
      LastTouchConcat(Logged(front), logged, "");
      LastTouchConcat(Kept(front), kept, "");
      FirstSeenAppend(Items(Logged(front)), Parsed(c.events));
      FirstSeenAppend(Items(Kept(front)), RunDiffs(c.events));
    }
  }

  // ---- regularity -------------------------------------------------------------------------------

  lemma StampRegular(runId: string, messageId: string, items: seq<DiffItem>)
    requires Tight(runId) && Tight(messageId) && AllNormal(items)
    requires forall i :: 0 <= i < |items| ==> NormalizePath(items[i].path) == items[i].path
    ensures AllRegular(Stamp(runId, messageId, items))
  {
    forall i | 0 <= i < |items|
      ensures Regular(Stamp(runId, messageId, items)[i])
    {
      assert Normal(items[i]);
    }
  }

  lemma RunDiffsRegular(c: Chunk)
    requires RegularChunk(c)
    ensures AllNormal(Parsed(c.events)) && AllNormal(RunDiffs(c.events))
    ensures forall i :: 0 <= i < |RunDiffs(c.events)| ==>
      NormalizePath(RunDiffs(c.events)[i].path) == RunDiffs(c.events)[i].path
  {
    ParsedNormal(c.events);
    RunDiffsMerge(c.events);
    PutAllNormal([], Parsed(c.events));
    MergeSummarises(Parsed(c.events));
    FirstSeenElements(Parsed(c.events));
    var m, items := RunDiffs(c.events), Parsed(c.events);
    forall i | 0 <= i < |m|
      ensures NormalizePath(m[i].path) == m[i].path
    {
      assert m[i].path in FirstSeen(items);
      var j :| 0 <= j < |items| && items[j].path == m[i].path;
    }
  }

  lemma AllRegularConcat(a: seq<Touch>, b: seq<Touch>)
    requires AllRegular(a) && AllRegular(b)
    ensures AllRegular(a + b)
  {
    forall i | 0 <= i < |a + b|
      ensures Regular((a + b)[i])
    {
      assert i < |a| ==> Regular(a[i]);
      assert i >= |a| ==> Regular(b[i - |a|]);
    }
  }

  lemma {:induction false} ChunksRegular(chunks: seq<Chunk>)
    requires RegularChunks(chunks)
    ensures AllRegular(Logged(chunks)) && AllRegular(Kept(chunks))
  {
    if chunks != [] {
      RegularFront(chunks);
      var front, c := chunks[..|chunks| - 1], chunks[|chunks| - 1];
      ChunksRegular(front);
      RunDiffsRegular(c);
      StampRegular(c.runId, c.messageId, Parsed(c.events));
      StampRegular(c.runId, c.messageId, RunDiffs(c.events));
      AllRegularConcat(Logged(front), Stamp(c.runId, c.messageId, Parsed(c.events)));
      AllRegularConcat(Kept(front), Stamp(c.runId, c.messageId, RunDiffs(c.events)));
    }
  }

  // ---- the theorem ------------------------------------------------------------------------------

  lemma RebuiltShape(chunks: seq<Chunk>)
    requires RegularChunks(chunks)
    ensures var inc, reb := UpsertAll([], Logged(chunks)), UpsertAll([], Kept(chunks));
      var seen := FirstSeen(Items(Logged(chunks)));
      && |inc| == |reb| == |seen|
      && forall k :: 0 <= k < |inc| ==> inc[k].path == seen[k] && reb[k].path == seen[k]
  {
    ChunksRegular(chunks);
    KeptFirstSeen(chunks);
    LedgerDescribes(Logged(chunks));
    LedgerDescribes(Kept(chunks));
  }

  lemma EntryAgrees(e: Entry, e': Entry, chunks: seq<Chunk>)
    requires RegularChunks(chunks) && e.path == e'.path
    requires Describes(e, Logged(chunks)) && Describes(e', Kept(chunks))
    ensures e == e' <==> Settled(chunks, e.path)
  {
    KeptAgrees(chunks, e.path);
  }

  lemma RebuiltEntry(chunks: seq<Chunk>, k: nat)
    requires RegularChunks(chunks) && k < |UpsertAll([], Logged(chunks))| && k < |UpsertAll([], Kept(chunks))|
    ensures UpsertAll([], Logged(chunks))[k] == UpsertAll([], Kept(chunks))[k]
       <==> Settled(chunks, UpsertAll([], Logged(chunks))[k].path)
  {
    RebuiltShape(chunks);
    ChunksRegular(chunks);
    LedgerDescribes(Logged(chunks));
    LedgerDescribes(Kept(chunks));
    EntryAgrees(UpsertAll([], Logged(chunks))[k], UpsertAll([], Kept(chunks))[k], chunks);
  }

  lemma UntouchedSettled(chunks: seq<Chunk>, p: string)
    requires RegularChunks(chunks) && p !in FirstSeen(Items(Logged(chunks)))
    ensures Settled(chunks, p)
  {
    KeptAgrees(chunks, p);
    FirstSeenElements(Items(Logged(chunks)));
    NothingBefore(Items(Logged(chunks)), p);
  }

  ghost predicate AllSettled(chunks: seq<Chunk>) {
    forall p :: Settled(chunks, p)
  }

  lemma SettledRebuilds(chunks: seq<Chunk>)
    requires RegularChunks(chunks) && AllSettled(chunks)
    ensures UpsertAll([], Kept(chunks)) == UpsertAll([], Logged(chunks))
  {
    var inc, reb := UpsertAll([], Logged(chunks)), UpsertAll([], Kept(chunks));
    RebuiltShape(chunks);
    forall k | 0 <= k < |inc|
      ensures inc[k] == reb[k]
    {
      RebuiltEntry(chunks, k);
      assert Settled(chunks, inc[k].path);
    }
  }

  lemma RebuiltSettles(chunks: seq<Chunk>, p: string)
    requires RegularChunks(chunks)
    requires UpsertAll([], Kept(chunks)) == UpsertAll([], Logged(chunks))
    ensures Settled(chunks, p)
  {
    var inc, seen := UpsertAll([], Logged(chunks)), FirstSeen(Items(Logged(chunks)));
    RebuiltShape(chunks);
    if p in seen {
      var k :| 0 <= k < |seen| && seen[k] == p;
      RebuiltEntry(chunks, k);
    } else {
      UntouchedSettled(chunks, p);
    }
  }

  /** The rebuilt ledger is the incremental one, entry for entry and in the same order, exactly
      when every path is settled. */
  lemma {:induction false} RebuildAgreesExactly(chunks: seq<Chunk>)
    requires RegularChunks(chunks)
    ensures UpsertAll([], Kept(chunks)) == UpsertAll([], Logged(chunks)) <==> AllSettled(chunks)
  {
    if AllSettled(chunks) {
      SettledRebuilds(chunks);
    }
    if UpsertAll([], Kept(chunks)) == UpsertAll([], Logged(chunks)) {
      forall p
        ensures Settled(chunks, p)
      {
        RebuiltSettles(chunks, p);
      }
    }
  }

  /** The two agree in particular when no run changes its mind about a path's blob. */
  lemma {:induction false} OneBlobSettles(chunks: seq<Chunk>, p: string)
    requires forall i :: 0 <= i < |chunks| ==>
      FirstBefore(Parsed(chunks[i].events), p) == LastBefore(Parsed(chunks[i].events), p)
    ensures Settled(chunks, p)
  {
    if chunks != [] {
      OneBlobSettles(chunks[..|chunks| - 1], p);
    }
  }

  /** A run that carries two different blobs for a path nobody carried one for before makes the
      rebuilt ledger differ. */
  lemma {:induction false} TwoBlobsDiffer(c: Chunk, p: string)
    requires RegularChunk(c)
    requires FirstBefore(Parsed(c.events), p) != LastBefore(Parsed(c.events), p)
    ensures UpsertAll([], Kept([c])) != UpsertAll([], Logged([c]))
  {
    assert [c][..0] == [] && [c][|[c]| - 1] == c;
    assert !Settled([c], p);
    RebuildAgreesExactly([c]);
  }
}
