/**
 Two logs, one ledger? What the entries of a ledger depend on, and when runs whose diff events
 interleave still leave the ledger that a rebuild run by run gives.
 */
module LedgerInterleave {
  import opened Basics
  import opened Text
  import opened Ordering
  import opened Diffs
  import opened DiffSummary
  import opened Ledger
  import opened LedgerRebuild

  lemma EntryDescribed(touches: seq<Touch>, k: nat)
    requires AllRegular(touches) && k < |FirstSeen(Items(touches))|
    ensures k < |UpsertAll([], touches)|
    ensures UpsertAll([], touches)[k].path == FirstSeen(Items(touches))[k]
    ensures Describes(UpsertAll([], touches)[k], touches)
  {
    LedgerDescribes(touches);
  }

  lemma {:induction false} LastTouchSeen(touches: seq<Touch>, p: string)
    requires LastTouch(touches, p).Some?
    ensures exists i :: 0 <= i < |Items(touches)| && Items(touches)[i].path == p
  {
    var n := |touches| - 1;
    if touches[n].item.path == p {
      assert Items(touches)[n].path == p;
    } else {
      LastTouchSeen(touches[..n], p);
      var i :| 0 <= i < n && Items(touches[..n])[i].path == p;
      assert Items(touches)[i].path == p;
    }
  }

  // ---- what a ledger depends on -------------------------------------------------------------------

  /** The touches say the same of `p`. */
  ghost predicate SamePath(a: seq<Touch>, b: seq<Touch>, p: string) {
    && SameTouch(LastTouch(a, p), LastTouch(b, p))
    && FirstBefore(Items(a), p) == FirstBefore(Items(b), p)
    && LastAfter(Items(a), p) == LastAfter(Items(b), p)
  }

  lemma UnseenPath(touches: seq<Touch>, p: string)
    requires p !in FirstSeen(Items(touches))
    ensures LastTouch(touches, p).None? && FirstBefore(Items(touches), p) == "" && LastAfter(Items(touches), p) == ""
  {
    FirstSeenElements(Items(touches));
    NothingBefore(Items(touches), p);
    if LastTouch(touches, p).Some? {
      LastTouchSeen(touches, p);
    }
  }

  lemma SameEntryExactly(a: seq<Touch>, b: seq<Touch>, k: nat)
    requires AllRegular(a) && AllRegular(b) && FirstSeen(Items(a)) == FirstSeen(Items(b)) && k < |FirstSeen(Items(a))|
    ensures k < |UpsertAll([], a)| && k < |UpsertAll([], b)|
    ensures UpsertAll([], a)[k] == UpsertAll([], b)[k] <==> SamePath(a, b, FirstSeen(Items(a))[k])
  {
    EntryDescribed(a, k);
    EntryDescribed(b, k);
  }

  /** Two sequences of touches give one ledger exactly when they show the paths in one order and say the
      same of every path. */
  lemma {:induction false} LedgersEqualExactly(a: seq<Touch>, b: seq<Touch>)
    requires AllRegular(a) && AllRegular(b)
    ensures UpsertAll([], a) == UpsertAll([], b)
      <==> FirstSeen(Items(a)) == FirstSeen(Items(b)) && forall p :: SamePath(a, b, p)
  {
    SameShape(a, b);
    if FirstSeen(Items(a)) == FirstSeen(Items(b)) {
      forall k | 0 <= k < |FirstSeen(Items(a))|
        ensures UpsertAll([], a)[k] == UpsertAll([], b)[k] <==> SamePath(a, b, FirstSeen(Items(a))[k])
      {
        SameEntryExactly(a, b, k);
      }
      forall p | p !in FirstSeen(Items(a))
        ensures SamePath(a, b, p)
      {
        UnseenPath(a, p);
        UnseenPath(b, p);
      }
    }
  }

  lemma {:induction false} SameShape(a: seq<Touch>, b: seq<Touch>)
    requires AllRegular(a) && AllRegular(b)
    ensures |UpsertAll([], a)| == |FirstSeen(Items(a))| && |UpsertAll([], b)| == |FirstSeen(Items(b))|
    ensures UpsertAll([], a) == UpsertAll([], b) ==> FirstSeen(Items(a)) == FirstSeen(Items(b))
  {
    LedgerDescribes(a);
    LedgerDescribes(b);
  }

  // ---- interleaved runs ---------------------------------------------------------------------------

  function OfRun(touches: seq<Touch>, r: string): seq<Touch> {
    Select(touches, (t: Touch) => t.runId == r)
  }

  /** Run by run, the log has the touches of the chunks in their order; how the runs mix is open. */
  ghost predicate Interleaves(log: seq<Touch>, chunks: seq<Chunk>) {
    forall r {:trigger OfRun(log, r)} :: OfRun(log, r) == OfRun(Logged(chunks), r)
  }

  lemma {:induction false} SelectConcat(a: seq<Touch>, b: seq<Touch>, r: string)
    ensures OfRun(a + b, r) == OfRun(a, r) + OfRun(b, r)
  {
    if b == [] {
      assert a + b == a;
    } else {
      SelectConcat(a, b[..|b| - 1], r);
      assert (a + b)[..|a + b| - 1] == a + b[..|b| - 1];
    }
  }

  lemma {:induction false} OfRunStamp(run: string, message: string, items: seq<DiffItem>, r: string)
    ensures OfRun(Stamp(run, message, items), r) == if r == run then Stamp(run, message, items) else []
  {
    if items != [] {
      OfRunStamp(run, message, items[..|items| - 1], r);
      assert Stamp(run, message, items)[..|items| - 1] == Stamp(run, message, items[..|items| - 1]);
    }
  }

  lemma {:induction false} OfRunAbsent(chunks: seq<Chunk>, r: string)
    requires forall i :: 0 <= i < |chunks| ==> chunks[i].runId != r
    ensures OfRun(Logged(chunks), r) == []
  {
    if chunks != [] {
      var front, c := chunks[..|chunks| - 1], chunks[|chunks| - 1];
      OfRunAbsent(front, r);
      SelectConcat(Logged(front), Stamp(c.runId, c.messageId, Parsed(c.events)), r);
      OfRunStamp(c.runId, c.messageId, Parsed(c.events), r);
    }
  }

  /** When every chunk has a run of its own, an interleaving has for each run exactly its parsed events. */
  lemma {:induction false} OfRunIsItsChunk(chunks: seq<Chunk>, k: nat)
    requires k < |chunks| && forall i, j :: 0 <= i < j < |chunks| ==> chunks[i].runId != chunks[j].runId
    ensures OfRun(Logged(chunks), chunks[k].runId)
         == Stamp(chunks[k].runId, chunks[k].messageId, Parsed(chunks[k].events))
    decreases |chunks|
  {
    var front, c := chunks[..|chunks| - 1], chunks[|chunks| - 1];
    SelectConcat(Logged(front), Stamp(c.runId, c.messageId, Parsed(c.events)), chunks[k].runId);
    OfRunStamp(c.runId, c.messageId, Parsed(c.events), chunks[k].runId);
    if k < |front| {
      OfRunIsItsChunk(front, k);
    } else {
      OfRunAbsent(front, c.runId);
    }
  }

  lemma InterleavedIsRegular(log: seq<Touch>, chunks: seq<Chunk>)
    requires RegularChunks(chunks) && Interleaves(log, chunks)
    ensures AllRegular(log)
  {
    ChunksRegular(chunks);
    forall i | 0 <= i < |log|
      ensures Regular(log[i])
    {
      var r := log[i].runId;
      SelectElements(log, (t: Touch) => t.runId == r);
      SelectElements(Logged(chunks), (t: Touch) => t.runId == r);
      assert log[i] in log && log[i] in OfRun(log, r);
      assert log[i] in OfRun(Logged(chunks), r);
      assert log[i] in Logged(chunks);
      var j :| 0 <= j < |Logged(chunks)| && Logged(chunks)[j] == log[i];
      assert Regular(Logged(chunks)[j]);
    }
  }

  lemma {:induction false} LastOfRun(log: seq<Touch>, p: string)
    requires LastTouch(log, p).Some?
    ensures LastTouch(OfRun(log, LastTouch(log, p).value.runId), p) == LastTouch(log, p)
  {
    var front, last := log[..|log| - 1], log[|log| - 1];
    var r := LastTouch(log, p).value.runId;
    var kept := OfRun(front, r);
    if last.item.path == p {
      assert OfRun(log, r) == kept + [last];
    } else {
      LastOfRun(front, p);
      assert (kept + [last])[..|kept|] == kept;
    }
  }

  function LastRun(touches: seq<Touch>, p: string): Option<string> {
    match LastTouch(touches, p)
    case None => None
    case Some(t) => Some(t.runId)
  }

  lemma SameRunSameTouch(log: seq<Touch>, chunks: seq<Chunk>, p: string)
    requires Interleaves(log, chunks) && LastRun(log, p) == LastRun(Logged(chunks), p)
    ensures LastTouch(log, p) == LastTouch(Logged(chunks), p)
  {
    if LastTouch(log, p).Some? {
      LastOfRun(log, p);
      LastOfRun(Logged(chunks), p);
      assert OfRun(log, LastRun(log, p).value) == OfRun(Logged(chunks), LastRun(log, p).value);
    }
  }

  /** The blob from before that a rebuild keeps: the last one of the first run in order to carry one. */
  function KeptBefore(chunks: seq<Chunk>, p: string): string {
    if chunks == [] then ""
    else FirstNonEmpty(KeptBefore(chunks[..|chunks| - 1], p), LastBefore(Parsed(chunks[|chunks| - 1].events), p))
  }

  lemma {:induction false} KeptBeforeIsKept(chunks: seq<Chunk>, p: string)
    requires RegularChunks(chunks)
    ensures FirstBefore(Items(Kept(chunks)), p) == KeptBefore(chunks, p)
  {
    if chunks != [] {
      RegularFront(chunks);
      var front, c := chunks[..|chunks| - 1], chunks[|chunks| - 1];
      KeptBeforeIsKept(front, p);
      StampAgrees(c, p);
      LastTouchStamp(c.runId, c.messageId, RunDiffs(c.events), p);
      LastTouchConcat(Kept(front), Stamp(c.runId, c.messageId, RunDiffs(c.events)), p);
      SummaryConcat(Items(Kept(front)), RunDiffs(c.events), p);
    }
  }

  /** For `p` the log behaves as if the runs had come one after the other: the same run touched it last,
      its first blob from before is the one a rebuild keeps, and its last blob from after is the last in
      queue order. */
  ghost predicate AsInOrder(log: seq<Touch>, chunks: seq<Chunk>, p: string) {
    && LastRun(log, p) == LastRun(Logged(chunks), p)
    && FirstBefore(Items(log), p) == KeptBefore(chunks, p)
    && LastAfter(Items(log), p) == LastAfter(Items(Logged(chunks)), p)
  }

  lemma AsInOrderExactly(log: seq<Touch>, chunks: seq<Chunk>, p: string)
    requires RegularChunks(chunks) && Interleaves(log, chunks)
    ensures SamePath(Kept(chunks), log, p) <==> AsInOrder(log, chunks, p)
  {
    KeptAgrees(chunks, p);
    KeptBeforeIsKept(chunks, p);
    if LastRun(log, p) == LastRun(Logged(chunks), p) {
      SameRunSameTouch(log, chunks, p);
    }
  }

  /**
   However the diff events of the runs interleaved, the ledger rebuilt run by run is the incremental one
   exactly when the log shows the paths in the order in which the runs, one after the other, would show
   them, and behaves for every path as if they had come so.
   */
  lemma {:induction false} InterleavedAgreesExactly(log: seq<Touch>, chunks: seq<Chunk>)
    requires RegularChunks(chunks) && Interleaves(log, chunks)
    ensures UpsertAll([], Kept(chunks)) == UpsertAll([], log)
      <==> FirstSeen(Items(log)) == FirstSeen(Items(Logged(chunks))) && forall p :: AsInOrder(log, chunks, p)
  {
    InterleavedIsRegular(log, chunks);
    ChunksRegular(chunks);
    KeptFirstSeen(chunks);
    LedgersEqualExactly(Kept(chunks), log);
    forall p
      ensures SamePath(Kept(chunks), log, p) <==> AsInOrder(log, chunks, p)
    {
      AsInOrderExactly(log, chunks, p);
    }
  }

  /** In particular they differ as soon as the last event for a path came from another run than the last
      run in the queue that touched it. */
  lemma {:induction false} LaterRunOvertakenDiffers(log: seq<Touch>, chunks: seq<Chunk>, p: string)
    requires RegularChunks(chunks) && Interleaves(log, chunks)
    requires LastRun(log, p) != LastRun(Logged(chunks), p)
    ensures UpsertAll([], Kept(chunks)) != UpsertAll([], log)
  {
    InterleavedAgreesExactly(log, chunks);
    assert !AsInOrder(log, chunks, p);
  }
}
