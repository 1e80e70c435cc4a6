/**
 Whole runs of the hub together with the diff events of its runs. The log has the touches of the runs there
 are, in the order in which their events came; a rollback or a deletion takes those of the deleted runs away.
 */
module LedgerRuns {
  import opened Basics
  import opened Text
  import opened Paths
  import opened Ordering
  import opened Diffs
  import opened DiffSummary
  import opened Ledger
  import opened LedgerRebuild
  import opened LedgerInterleave
  import opened QueueModel
  import opened QueueInvariant
  import opened QueueRuns
  import opened ChangeSets
  import opened RollbackLedger

  datatype World = World(
    hub: Hub,
    diffs: map<RunId, seq<DiffItem>>,
    events: map<RunId, seq<seq<DiffItem>>>,
    log: seq<Touch>)

  datatype Event = QueueStep(step: QueueModel.Step) | DiffEvent(run: RunId, items: seq<DiffItem>)

  const NOTHING := World(EMPTY, map[], map[], [])

  function OfOthers(touches: seq<Touch>, gone: set<RunId>): seq<Touch> {
    Select(touches, (t: Touch) => t.runId !in gone)
  }

  /** Rollbacks and deletions drop the diffs of the runs they delete. */
  function After(w: World, ev: Event): World {
    match ev
    case QueueStep(step) =>
      var hub := QueueModel.Next(w.hub, step);
      var gone := w.hub.runs.Keys - hub.runs.Keys;
      World(hub, w.diffs - gone, w.events - gone, OfOthers(w.log, gone))
    case DiffEvent(run, items) =>
      if run !in w.hub.runs then w
      else
        var message := w.hub.runs[run].messageId;
        World(w.hub, DiffsAfter(w.diffs, DiffGenerated(run, message, items)),
              w.events[run := EventsOf(w.events, run) + [items]], w.log + Touches(run, message, items))
  }

  function Play(events: seq<Event>): World {
    if events == [] then NOTHING else After(Play(events[..|events| - 1]), events[|events| - 1])
  }

  /** Paths in normal form. */
  ghost predicate RegularPaths(items: seq<DiffItem>) {
    forall i {:trigger items[i].path} :: 0 <= i < |items| ==> NormalizePath(items[i].path) == items[i].path
  }

  /** Generated ids have no blanks, and events come from runs that are there. */
  ghost predicate CanHappen(w: World, ev: Event) {
    match ev
    case QueueStep(step) =>
      QueueRuns.Allowed(w.hub, step) && (step.DoSubmit? ==> IsId(step.id) && Tight(step.msg))
    case DiffEvent(run, items) => run in w.hub.runs && AllDrawn(items) && RegularPaths(NormalizeAll(items))
  }

  ghost predicate AllHappen(events: seq<Event>) {
    events != [] ==>
      AllHappen(events[..|events| - 1]) && CanHappen(Play(events[..|events| - 1]), events[|events| - 1])
  }

  // ---- what every run keeps -------------------------------------------------------------------------

  function ChunkOf(w: World, id: RunId): Chunk
    requires id in w.hub.runs
  {
    Chunk(id, w.hub.runs[id].messageId, EventsOf(w.events, id))
  }

  /** The touches of a run, from its events. */
  function TouchesOfRun(w: World, id: RunId): seq<Touch> {
    if id in w.hub.runs then Stamp(id, w.hub.runs[id].messageId, Parsed(EventsOf(w.events, id))) else []
  }

  ghost predicate Logs(w: World) {
    forall id {:trigger OfRun(w.log, id)} :: OfRun(w.log, id) == TouchesOfRun(w, id)
  }

  ghost predicate Regulars(w: World) {
    forall id :: id in w.hub.runs ==> id != "" && RegularChunk(ChunkOf(w, id))
  }

  ghost predicate InStep(w: World) {
    && Inv(w.hub)
    && Follows(w.diffs, w.events)
    && w.events.Keys <= w.hub.runs.Keys
    && Regulars(w)
    && Logs(w)
  }

  lemma DeletionFollows(diffs: map<RunId, seq<DiffItem>>, events: map<RunId, seq<seq<DiffItem>>>, gone: set<RunId>)
    requires Follows(diffs, events)
    ensures Follows(diffs - gone, events - gone)
  {
    forall id
      ensures DiffsOf(diffs - gone, id) == RunDiffs(EventsOf(events - gone, id))
    {
      assert DiffsOf(diffs, id) == RunDiffs(EventsOf(events, id));
    }
  }

  lemma {:induction false} OthersOfRun(touches: seq<Touch>, gone: set<RunId>, r: RunId)
    ensures OfRun(OfOthers(touches, gone), r) == if r in gone then [] else OfRun(touches, r)
  {
    if touches != [] {
      var front, last := touches[..|touches| - 1], touches[|touches| - 1];
      OthersOfRun(front, gone, r);
      if last.runId !in gone {
        assert (OfOthers(front, gone) + [last])[..|OfOthers(front, gone)|] == OfOthers(front, gone);
      }
    }
  }

  /** A step takes no run to another conversation or message, and only a submit makes one. */
  lemma StepKeepsPlaces(h: Hub, step: QueueModel.Step)
    requires Inv(h) && QueueRuns.Allowed(h, step)
    ensures var h' := QueueModel.Next(h, step);
      && (forall id :: id in h.runs && id in h'.runs ==> SamePlace(h.runs[id], h'.runs[id]))
      && (forall id :: id in h'.runs && id !in h.runs ==>
            step.DoSubmit? && step.id == id && h'.runs[id].messageId == step.msg)
  {
    hide Inv, ConvInv;
    match step
    case DoCreate(_, _, _) =>
    case DoSubmit(_, id, _, _, _) => assert h.runs.Keys <= h.issued by { SubmitNew(h, id); }
    case DoRollback(c, m, now, known, ok) =>
      if Rollback(h, c, m, now, known, ok).1.Done? {
        RollbackIsTruncation(h, c, m, now);
      }
    case DoDelete(_) =>
    case _ => StepRestates(h, step);
  }

  lemma SubmitNew(h: Hub, id: RunId)
    requires Inv(h)
    ensures h.runs.Keys <= h.issued
  {
  }

  lemma QueueLogs(w: World, step: QueueModel.Step)
    requires InStep(w) && CanHappen(w, QueueStep(step))
    ensures Logs(After(w, QueueStep(step)))
  {
    var w' := After(w, QueueStep(step));
    var gone := w.hub.runs.Keys - w'.hub.runs.Keys;
    StepKeepsPlaces(w.hub, step);
    hide Inv, Follows, Regulars, QueueModel.Next, QueueRuns.Allowed, OfRun, OfOthers, Stamp, TouchesOfRun;
    forall id
      ensures OfRun(w'.log, id) == TouchesOfRun(w', id)
    {
      OthersOfRun(w.log, gone, id);
      assert OfRun(w.log, id) == TouchesOfRun(w, id);
      SameTouchesOfRun(w, w', gone, id);
    }
  }

  lemma SameTouchesOfRun(w: World, w': World, gone: set<RunId>, id: RunId)
    requires w.events.Keys <= w.hub.runs.Keys
    requires gone == w.hub.runs.Keys - w'.hub.runs.Keys && w'.events == w.events - gone
    requires id in w.hub.runs && id in w'.hub.runs ==> SamePlace(w.hub.runs[id], w'.hub.runs[id])
    ensures TouchesOfRun(w', id) == if id in gone then [] else TouchesOfRun(w, id)
  {
    assert EventsOf(w'.events, id) == if id in gone then [] else EventsOf(w.events, id);
  }

  lemma QueueRegulars(w: World, step: QueueModel.Step)
    requires InStep(w) && CanHappen(w, QueueStep(step))
    ensures Regulars(After(w, QueueStep(step)))
  {
    var w' := After(w, QueueStep(step));
    StepKeepsPlaces(w.hub, step);
    hide Inv, Follows, Logs, QueueModel.Next, OfOthers, Parsed, NormalizePath;
    forall id | id in w'.hub.runs
      ensures id != "" && RegularChunk(ChunkOf(w', id))
    {
      if id in w.hub.runs {
        assert RegularChunk(ChunkOf(w, id));
        assert ChunkOf(w', id) == ChunkOf(w, id);
      }
    }
  }

  lemma QueueInStep(w: World, step: QueueModel.Step)
    requires InStep(w) && CanHappen(w, QueueStep(step))
    ensures InStep(After(w, QueueStep(step)))
  {
    StepKeeps(w.hub, step);
    QueueLogs(w, step);
    QueueRegulars(w, step);
    hide Inv, Follows, Logs, Regulars, QueueModel.Next, OfOthers, QueueRuns.Allowed;
    DeletionFollows(w.diffs, w.events, w.hub.runs.Keys - QueueModel.Next(w.hub, step).runs.Keys);
  }

  lemma {:induction false} StampConcat(run: string, message: string, a: seq<DiffItem>, b: seq<DiffItem>)
    ensures Stamp(run, message, a + b) == Stamp(run, message, a) + Stamp(run, message, b)
  {
  }

  lemma DiffLogs(w: World, run: RunId, items: seq<DiffItem>)
    requires Logs(w) && run in w.hub.runs
    ensures Logs(After(w, DiffEvent(run, items)))
  {
    var w' := After(w, DiffEvent(run, items));
    var message, before := w.hub.runs[run].messageId, EventsOf(w.events, run);
    assert (before + [items])[..|before|] == before;
    forall id
      ensures OfRun(w'.log, id) == TouchesOfRun(w', id)
    {
      SelectConcat(w.log, Touches(run, message, items), id);
      OfRunStamp(run, message, NormalizeAll(items), id);
      StampConcat(run, message, Parsed(before), NormalizeAll(items));
      assert OfRun(w.log, id) == TouchesOfRun(w, id);
    }
  }

  lemma RegularPathsConcat(a: seq<DiffItem>, b: seq<DiffItem>)
    requires RegularPaths(a) && RegularPaths(b)
    ensures RegularPaths(a + b)
  {
    hide NormalizePath;
    forall i | 0 <= i < |a + b|
      ensures NormalizePath((a + b)[i].path) == (a + b)[i].path
    {
      assert i < |a| ==> (a + b)[i] == a[i];
      assert i >= |a| ==> (a + b)[i] == b[i - |a|];
    }
  }

  lemma ChunkGrows(c: Chunk, items: seq<DiffItem>)
    requires RegularChunk(c) && AllDrawn(items) && RegularPaths(NormalizeAll(items))
    ensures RegularChunk(c.(events := c.events + [items]))
  {
    assert (c.events + [items])[..|c.events|] == c.events;
    hide NormalizePath, NormalizeAll, Tight, AllDrawn;
    RegularPathsConcat(Parsed(c.events), NormalizeAll(items));
    assert Parsed(c.events + [items]) == Parsed(c.events) + NormalizeAll(items);
  }

  lemma DiffRegulars(w: World, run: RunId, items: seq<DiffItem>)
    requires Regulars(w) && CanHappen(w, DiffEvent(run, items))
    ensures Regulars(After(w, DiffEvent(run, items)))
  {
    var w' := After(w, DiffEvent(run, items));
    hide RegularChunk, AllDrawn, RegularPaths, NormalizeAll, DiffsAfter, Touches;
    forall id | id in w'.hub.runs
      ensures id != "" && RegularChunk(ChunkOf(w', id))
    {
      assert RegularChunk(ChunkOf(w, id));
      if id == run {
        ChunkGrows(ChunkOf(w, id), items);
      }
    }
  }

  lemma DiffInStep(w: World, run: RunId, items: seq<DiffItem>)
    requires InStep(w) && CanHappen(w, DiffEvent(run, items))
    ensures InStep(After(w, DiffEvent(run, items)))
  {
    DiffLogs(w, run, items);
    DiffRegulars(w, run, items);
    assert RegularChunk(ChunkOf(w, run));
    forall id, i | id in w.events && 0 <= i < |w.events[id]|
      ensures AllDrawn(w.events[id][i])
    {
      assert RegularChunk(ChunkOf(w, id));
    }
    TightIsTrimmed(run);
    AppendFollows(w.diffs, w.events, run, w.hub.runs[run].messageId, items);
  }

  /** Over any run of queue steps, diff events and rollbacks, the diffs kept and the log stay in step with the
      events of the runs there are. */
  lemma {:induction false} AlwaysInStep(events: seq<Event>)
    requires AllHappen(events)
    ensures InStep(Play(events))
  {
    if events != [] {
      var front, last := events[..|events| - 1], events[|events| - 1];
      AlwaysInStep(front);
      match last
      case QueueStep(step) => QueueInStep(Play(front), step);
      case DiffEvent(run, items) => DiffInStep(Play(front), run, items);
    }
  }

  // ---- the log of one conversation -------------------------------------------------------------------

  function OfConv(touches: seq<Touch>, runs: map<RunId, Run>, c: ConvId): seq<Touch> {
    Select(touches, (t: Touch) => t.runId in runs && runs[t.runId].conv == c)
  }

  function LogOf(w: World, c: ConvId): seq<Touch> {
    OfConv(w.log, w.hub.runs, c)
  }

  function ChunksOf(w: World, c: ConvId): seq<Chunk>
    requires c in w.hub.convs
  {
    Chunks(w.hub.runs, w.events, w.hub.convs[c].order)
  }

  lemma {:induction false} ConvOfRun(touches: seq<Touch>, runs: map<RunId, Run>, c: ConvId, r: RunId)
    ensures OfRun(OfConv(touches, runs, c), r) == if r in runs && runs[r].conv == c then OfRun(touches, r) else []
  {
    if touches != [] {
      var front, last := touches[..|touches| - 1], touches[|touches| - 1];
      ConvOfRun(front, runs, c, r);
      var kept := OfConv(front, runs, c);
      if last.runId in runs && runs[last.runId].conv == c {
        assert (kept + [last])[..|kept|] == kept;
      }
    }
  }

  lemma {:induction false} RunOfChunks(runs: map<RunId, Run>, events: map<RunId, seq<seq<DiffItem>>>,
                                       order: seq<RunId>, r: RunId)
    requires NoDup(order) && forall id :: id in order ==> id in runs
    ensures OfRun(Logged(Chunks(runs, events, order)), r)
         == if r in order then Stamp(r, runs[r].messageId, Parsed(EventsOf(events, r))) else []
  {
    LoggedNothing(r);
    hide OfRun, Stamp, Parsed, Logged;
    if order != [] {
      var front, id := order[..|order| - 1], order[|order| - 1];
      RunOfChunks(runs, events, front, r);
      assert order == front + [id] && id !in front;
      var chunk := Chunk(id, runs[id].messageId, EventsOf(events, id));
      LoggedAppend(Chunks(runs, events, front), chunk);
      assert Chunks(runs, events, order) == Chunks(runs, events, front) + [chunk];
      hide Chunks, EventsOf;
      SelectConcat(Logged(Chunks(runs, events, front)), Stamp(id, chunk.messageId, Parsed(chunk.events)), r);
      OfRunStamp(id, chunk.messageId, Parsed(chunk.events), r);
    }
  }

  lemma LoggedNothing(r: RunId)
    ensures OfRun(Logged([]), r) == []
  {
  }

  lemma LoggedAppend(chunks: seq<Chunk>, c: Chunk)
    ensures Logged(chunks + [c]) == Logged(chunks) + Stamp(c.runId, c.messageId, Parsed(c.events))
  {
    assert (chunks + [c])[..|chunks|] == chunks;
  }

  /** The log of a conversation interleaves the events of its listed runs. */
  lemma LogInterleaves(w: World, c: ConvId)
    requires InStep(w) && c in w.hub.convs
    ensures Interleaves(LogOf(w, c), ChunksOf(w, c))
  {
    assert ConvInv(w.hub.runs, w.hub.issued, c, w.hub.convs[c]);
    hide Inv, ConvInv, Follows, Regulars, OfConv, OfRun, Chunks, Logged;
    forall r
      ensures OfRun(LogOf(w, c), r) == OfRun(Logged(ChunksOf(w, c)), r)
    {
      ConvOfRun(w.log, w.hub.runs, c, r);
      RunOfChunks(w.hub.runs, w.events, w.hub.convs[c].order, r);
      assert OfRun(w.log, r) == TouchesOfRun(w, r);
    }
  }

  lemma {:induction false} ChunksAreRegular(w: World, order: seq<RunId>)
    requires Regulars(w)
    ensures RegularChunks(Chunks(w.hub.runs, w.events, order))
  {
    if order != [] {
      var front, id := order[..|order| - 1], order[|order| - 1];
      ChunksAreRegular(w, front);
      assert id in w.hub.runs ==> RegularChunk(ChunkOf(w, id));
    }
  }

  /** Of the log a rollback leaves what the runs that it keeps had touched. */
  lemma {:induction false} CutLog(touches: seq<Touch>, runs: map<RunId, Run>, runs': map<RunId, Run>, c: ConvId)
    requires forall id :: id in runs' ==> id in runs && runs'[id] == runs[id]
    ensures OfConv(OfOthers(touches, runs.Keys - runs'.Keys), runs', c)
         == Select(OfConv(touches, runs, c), (t: Touch) => t.runId in runs')
  {
    if touches != [] {
      var front, last := touches[..|touches| - 1], touches[|touches| - 1];
      CutLog(front, runs, runs', c);
      var gone := runs.Keys - runs'.Keys;
      var others, kept := OfOthers(front, gone), OfConv(front, runs, c);
      assert (others + [last])[..|others|] == others && (kept + [last])[..|kept|] == kept;
    }
  }

  /**
   After any run of the hub, a rollback leaves in the ledger what folding the touches of the kept runs, in the
   order in which they came, would give: exactly when the runs, had they come one after the other, would have
   shown the paths in that order, and for every path the same run came last, the first blob from before is the
   one the rebuild keeps and the last blob from after is the last in queue order.
   */
  lemma {:induction false} RollbackOverRunsExactly(events: seq<Event>, c: ConvId, messageId: MessageId, now: nat,
                                                   l: LedgerView, f: string)
    requires AllHappen(events) && c in Play(events).hub.convs
    requires Rollback(Play(events).hub, c, messageId, now, true, true).1.Done?
    ensures var w := Play(events);
      var w' := After(w, QueueStep(DoRollback(c, messageId, now, true, true)));
      && c in w'.hub.convs && w'.hub.convs[c].order <= w.hub.convs[c].order
      && LogOf(w', c) == Select(LogOf(w, c), (t: Touch) => t.runId in w'.hub.runs)
      && (Rebuilt(l, f, KeptTouches(w'.hub.runs, w'.diffs, w'.hub.convs[c].order)).entries
            == UpsertAll([], LogOf(w', c))
          <==> (FirstSeen(Items(LogOf(w', c))) == FirstSeen(Items(Logged(ChunksOf(w', c))))
                && forall p :: AsInOrder(LogOf(w', c), ChunksOf(w', c), p)))
  {
    hide InStep, CanHappen, Rollback, KeptTouches, AsInOrder;
    AlwaysInStep(events);
    RollbackInStep(Play(events), c, messageId, now, l, f);
  }

  lemma RollbackInStep(w: World, c: ConvId, messageId: MessageId, now: nat, l: LedgerView, f: string)
    requires InStep(w) && c in w.hub.convs && Rollback(w.hub, c, messageId, now, true, true).1.Done?
    ensures var w' := After(w, QueueStep(DoRollback(c, messageId, now, true, true)));
      && c in w'.hub.convs && w'.hub.convs[c].order <= w.hub.convs[c].order
      && LogOf(w', c) == Select(LogOf(w, c), (t: Touch) => t.runId in w'.hub.runs)
      && (Rebuilt(l, f, KeptTouches(w'.hub.runs, w'.diffs, w'.hub.convs[c].order)).entries
            == UpsertAll([], LogOf(w', c))
          <==> (FirstSeen(Items(LogOf(w', c))) == FirstSeen(Items(Logged(ChunksOf(w', c))))
                && forall p :: AsInOrder(LogOf(w', c), ChunksOf(w', c), p)))
  {
    var step := QueueStep(DoRollback(c, messageId, now, true, true));
    var w' := After(w, step);
    hide Inv, Follows, Regulars, Logs, Rollback, OfConv, KeptTouches, AsInOrder, Chunks, Logged, UpsertAll, FirstSeen;
    RollbackIsTruncation(w.hub, c, messageId, now);
    QueueInStep(w, step.step);
    CutLog(w.log, w.hub.runs, w'.hub.runs, c);
    RebuiltInStep(w', c, l, f);
  }

  /** What a rebuild gives in any reachable state, against the log as it came. */
  lemma RebuiltInStep(w: World, c: ConvId, l: LedgerView, f: string)
    requires InStep(w) && c in w.hub.convs
    ensures Rebuilt(l, f, KeptTouches(w.hub.runs, w.diffs, w.hub.convs[c].order)).entries == UpsertAll([], LogOf(w, c))
      <==> (FirstSeen(Items(LogOf(w, c))) == FirstSeen(Items(Logged(ChunksOf(w, c))))
            && forall p :: AsInOrder(LogOf(w, c), ChunksOf(w, c), p))
  {
    LogInterleaves(w, c);
    ChunksAreRegular(w, w.hub.convs[c].order);
    KeptTouchesAreKept(w.hub.runs, w.diffs, w.events, w.hub.convs[c].order);
    hide InStep, AsInOrder, OfConv, KeptTouches, Chunks, Interleaves, RegularChunks;
    InterleavedAgreesExactly(LogOf(w, c), ChunksOf(w, c));
  }
}
