/**
 The change set of a conversation: how its ledger follows the event log, how commit and discard
 check an expected version and clear the ledger, and how a rollback rebuilds it.
 */
module ChangeSets {
  import opened Basics
  import opened Text
  import opened Diffs
  import opened Ledger
  import opened LedgerRebuild
  import opened Ordering
  import opened QueueModel
  import opened QueueInvariant

  /** The contents of a ChangeLedger; a ledger that was never used is UNUSED. */
  datatype LedgerView = LedgerView(pendingId: string, entries: seq<Entry>, checkpoint: Option<Checkpoint>)

  const UNUSED := LedgerView("", [], None)

  /** The events a ledger follows. `messageId` is the message of the run, "" for an unknown run. */
  datatype LedgerEvent =
    | DiffGenerated(runId: string, messageId: string, items: seq<DiffItem>)
    | Committed(changeSetId: string, checkpoint: Option<map<string, string>>)
    | Discarded(changeSetId: string)
    | RolledBack
    | OtherEvent

  function Touches(runId: string, messageId: string, items: seq<DiffItem>): seq<Touch> {
    Stamp(runId, messageId, NormalizeAll(items))
  }

  function Field(payload: map<string, string>, key: string): string {
    if key in payload then Trim(payload[key]) else ""
  }

  function CheckpointPayload(cp: Checkpoint): map<string, string> {
    map["checkpoint_id" := cp.id, "message" := cp.message, "created_at" := cp.createdAt,
        "git_commit_id" := cp.gitCommit, "entries_digest" := cp.digest]
  }

  function CheckpointFrom(payload: Option<map<string, string>>): Option<Checkpoint> {
    match payload
    case None => None
    case Some(m) =>
      if Field(m, "checkpoint_id") == "" then None
      else Some(Checkpoint(Field(m, "checkpoint_id"), Field(m, "message"), Field(m, "created_at"),
                           Field(m, "git_commit_id"), Field(m, "entries_digest")))
  }

  // ---- what each section does to the ledger -------------------------------------------------------

  /** `e` is drawn when the ledger has no id yet. */
  function Ensured(l: LedgerView, e: string): LedgerView {
    if Trim(l.pendingId) == "" then l.(pendingId := e) else l
  }

  function GivenOr(given: string, f: string): string {
    FirstNonEmpty(Trim(given), f)
  }

  function Rebuilt(l: LedgerView, f: string, kept: seq<Touch>): LedgerView {
    LedgerView(f, UpsertAll([], kept), l.checkpoint)
  }

  /** One event of the log. `f` is a freshly drawn id; `kept` are the diffs kept per run, which only
      a rollback reads. */
  function Applied(l0: LedgerView, ev: LedgerEvent, e: string, f: string, kept: seq<Touch>): LedgerView {
    var l := Ensured(l0, e);
    match ev
    case DiffGenerated(run, message, items) =>
      if NormalizeAll(items) == [] then l
      else l.(entries := UpsertAll(l.entries, Touches(run, message, items)), pendingId := f)
    case Committed(given, payload) =>
      var cp := CheckpointFrom(payload);
      LedgerView(GivenOr(given, f), [], if cp.Some? then cp else l.checkpoint)
    case Discarded(given) => l.(entries := [], pendingId := GivenOr(given, f))
    case RolledBack => Rebuilt(l, f, kept)
    case OtherEvent => l
  }

  function Clone(entries: seq<Entry>): seq<Entry> {
    seq(|entries|, i requires 0 <= i < |entries| => entries[i].(path := Trim(entries[i].path)))
  }

  /** The answer of the first locked section of commit and discard. A commit of nothing pending is
      refused, a discard of nothing pending succeeds without doing anything. */
  datatype Verdict = Accepted(entries: seq<Entry>) | Busy | Conflict | NothingPending

  function Check(l: LedgerView, expected: string, busy: bool): Verdict {
    if busy then Busy
    else if Trim(expected) == "" || Trim(expected) != Trim(l.pendingId) then Conflict
    else if l.entries == [] then NothingPending
    else Accepted(Clone(l.entries))
  }

  /** The ledger as the second locked section of a commit leaves it before its event is appended. */
  function CommitCleared(l: LedgerView, cp: Checkpoint, f: string): LedgerView {
    LedgerView(f, [], Some(cp))
  }

  /** The whole second section of a commit: the direct update, then its own event. */
  function CommitFinished(l: LedgerView, cp: Checkpoint, e: string, f: string): LedgerView {
    Applied(CommitCleared(Ensured(l, e), cp, f), Committed(f, Some(CheckpointPayload(cp))), e, f, [])
  }

  function DiscardFinished(l: LedgerView, e: string, f: string): LedgerView {
    Applied(Ensured(l, e).(entries := [], pendingId := f), Discarded(f), e, f, [])
  }

  /** A run that is not over blocks commit and discard. */
  ghost predicate HasMutable(runs: map<RunId, Run>, order: seq<RunId>) {
    exists id :: id in order && id in runs && !Terminal(runs[id].state)
  }

  datatype ChangeSet = ChangeSet(
    id: string, entries: seq<Entry>, canCommit: bool, canDiscard: bool, checkpoint: Option<Checkpoint>)

  function ByPath(): (Entry, Entry) -> bool {
    (a: Entry, b: Entry) => StringLess(a.path, b.path)
  }

  function Shown(l: LedgerView, busy: bool, spare: string): ChangeSet {
    var pending := !busy && l.entries != [];
    ChangeSet(FirstNonEmpty(Trim(l.pendingId), spare), Sort(Clone(l.entries), ByPath()), pending, pending, l.checkpoint)
  }

  /** The touches of a rebuild: run by run in queue order, the diffs kept for it. */
  function KeptTouches(runs: map<RunId, Run>, diffs: map<RunId, seq<DiffItem>>, order: seq<RunId>): seq<Touch> {
    if order == [] then []
    else
      var front, id := KeptTouches(runs, diffs, order[..|order| - 1]), order[|order| - 1];
      if id in runs && id in diffs then front + Stamp(id, runs[id].messageId, diffs[id]) else front
  }

  predicate HasDiffs(diffs: map<RunId, seq<DiffItem>>, id: RunId) {
    id in diffs && diffs[id] != []
  }

  /** The runs of `order` that have diffs, each once. */
  function WithDiffs(diffs: map<RunId, seq<DiffItem>>, order: seq<RunId>): seq<RunId> {
    if order == [] then []
    else
      var front, id := WithDiffs(diffs, order[..|order| - 1]), order[|order| - 1];
      if HasDiffs(diffs, id) && id !in front then front + [id] else front
  }

  lemma {:induction false} WithDiffsElements(diffs: map<RunId, seq<DiffItem>>, order: seq<RunId>)
    ensures NoDup(WithDiffs(diffs, order))
    ensures forall id :: id in WithDiffs(diffs, order) <==> id in order && HasDiffs(diffs, id)
  {
    if order != [] {
      WithDiffsElements(diffs, order[..|order| - 1]);
      assert order == order[..|order| - 1] + [order[|order| - 1]];
    }
  }

  /** Leaving out runs without diffs does not change the touches of a rebuild. */
  lemma {:induction false} WithDiffsKeeps(runs: map<RunId, Run>, diffs: map<RunId, seq<DiffItem>>, order: seq<RunId>)
    requires NoDup(order)
    ensures KeptTouches(runs, diffs, WithDiffs(diffs, order)) == KeptTouches(runs, diffs, order)
  {
    if order != [] {
      var front, id := order[..|order| - 1], order[|order| - 1];
      WithDiffsKeeps(runs, diffs, front);
      WithDiffsElements(diffs, front);
      assert id !in front;
      if HasDiffs(diffs, id) {
        assert (WithDiffs(diffs, front) + [id])[..|WithDiffs(diffs, front)|] == WithDiffs(diffs, front);
      }
    }
  }

  // ---- the mutable change set ------------------------------------------------------------------------

  ghost predicate DrawnDiffs(diffs: map<RunId, seq<DiffItem>>) {
    forall id {:trigger diffs[id]} :: id in diffs ==> AllDrawn(diffs[id])
  }

  function DiffsAfter(diffs: map<RunId, seq<DiffItem>>, ev: LedgerEvent): map<RunId, seq<DiffItem>> {
    match ev
    case DiffGenerated(run, _, items) =>
      if Trim(run) == "" || NormalizeAll(items) == [] then diffs
      else diffs[Trim(run) := Merge(if Trim(run) in diffs then diffs[Trim(run)] else [], NormalizeAll(items))]
    case _ => diffs
  }

  /** The part of the hub's state that belongs to the change set of one conversation. */
  class SessionChanges {
    var ledger: ChangeLedger?
    var diffs: map<RunId, seq<DiffItem>>
    var log: seq<LedgerEvent>

    ghost function View(): LedgerView
      reads this, ledger
    {
      if ledger == null then UNUSED else LedgerView(ledger.pendingId, ledger.entries, ledger.checkpoint)
    }

    constructor ()
      ensures View() == UNUSED && diffs == map[] && log == []
    {
      ledger, diffs, log := null, map[], [];
    }

    method Ensure(e: string) returns (l: ChangeLedger)
      modifies this`ledger, ledger
      ensures l == ledger && View() == Ensured(old(View()), e)
      ensures fresh(ledger) || ledger == old(ledger)
    {
      if ledger != null {
        if Trim(ledger.pendingId) == "" {
          ledger.pendingId := e;
        }
        return ledger;
      }
      l := new ChangeLedger(e);
      ledger := l;
    }

    /** The runs of the conversation that have diffs: those of the order list, then any others in
        whatever order the map yields them. */
    method CollectDiffRuns(runs: map<RunId, Run>, c: ConvId, order: seq<RunId>) returns (ids: seq<RunId>)
      ensures NoDup(ids) && WithDiffs(diffs, order) <= ids
      ensures forall id :: id in ids <==> HasDiffs(diffs, id) && (id in order || (id in runs && runs[id].conv == c))
    {
      ids := [];
      for i := 0 to |order|
        invariant ids == WithDiffs(diffs, order[..i])
      {
        assert order[..i + 1][..i] == order[..i];
        if HasDiffs(diffs, order[i]) && order[i] !in ids {
          ids := ids + [order[i]];
        }
      }
      assert order[..|order|] == order;
      WithDiffsElements(diffs, order);
      var todo := runs.Keys;
      while todo != {}
        invariant todo <= runs.Keys
        invariant NoDup(ids) && WithDiffs(diffs, order) <= ids
        invariant forall id :: id in ids <==>
          HasDiffs(diffs, id) && (id in order || (id in runs.Keys - todo && runs[id].conv == c))
      {
        var id :| id in todo;
        todo := todo - {id};
        if runs[id].conv == c && HasDiffs(diffs, id) && id !in ids {
          ids := ids + [id];
        }
      }
    }

    /** Replaces the ledger by a new one made from the diffs kept for the runs `ids`: those of the order
        list, then any others of the conversation. When the order list names all of them, as it does
        under the queue invariant, it alone decides. */
    method Rebuild(runs: map<RunId, Run>, c: ConvId, order: seq<RunId>, f: string) returns (ghost ids: seq<RunId>)
      requires Trim(f) != ""
      modifies this`ledger
      ensures fresh(ledger) && View() == Rebuilt(old(View()), f, KeptTouches(runs, diffs, ids))
      ensures NoDup(ids) && WithDiffs(diffs, order) <= ids
      ensures forall id :: id in ids <==> HasDiffs(diffs, id) && (id in order || (id in runs && runs[id].conv == c))
      ensures Lists(runs, c, order) ==> KeptTouches(runs, diffs, ids) == KeptTouches(runs, diffs, order)
    {
      var rebuilt := new ChangeLedger(f);
      if ledger != null {
        rebuilt.checkpoint := ledger.checkpoint;
      }
      var collected := CollectDiffRuns(runs, c, order);
      FillLedger(rebuilt, runs, collected, f);
      ListedRunsDecide(runs, diffs, c, order, collected);
      ids := collected;
      ledger := rebuilt;
    }

    /** Upserts the kept diffs of the runs, one run after the other. */
    method FillLedger(l: ChangeLedger, runs: map<RunId, Run>, ids: seq<RunId>, f: string)
      requires Trim(l.pendingId) != "" && l.entries == []
      modifies l`entries, l`pendingId
      ensures l.pendingId == old(l.pendingId)
      ensures l.entries == UpsertAll([], KeptTouches(runs, diffs, ids))
    {
      for i := 0 to |ids|
        invariant l.pendingId == old(l.pendingId)
        invariant l.entries == UpsertAll([], KeptTouches(runs, diffs, ids[..i]))
      {
        var id := ids[i];
        assert ids[..i + 1][..i] == ids[..i];
        if id in runs && id in diffs {
          UpsertAllConcat([], KeptTouches(runs, diffs, ids[..i]), Stamp(id, runs[id].messageId, diffs[id]));
          l.UpsertEntries(Stamp(id, runs[id].messageId, diffs[id]), f);
        }
      }
      assert ids[..|ids|] == ids;
    }

    method ApplyEvent(ev: LedgerEvent, runs: map<RunId, Run>, c: ConvId, order: seq<RunId>, e: string, f: string)
      requires Trim(e) != "" && Trim(f) != ""
      modifies this`ledger, ledger
      ensures (ev.RolledBack? ==> Lists(runs, c, order)) ==>
        View() == Applied(old(View()), ev, e, f, KeptTouches(runs, diffs, order))
      ensures fresh(ledger) || ledger == old(ledger)
    {
      var l := Ensure(e);
      match ev {
        case DiffGenerated(run, message, items) =>
          var parsed := NormalizeAll(items);
          if parsed == [] {
            return;
          }
          l.UpsertEntries(Stamp(run, message, parsed), f);
          l.pendingId := f;
        case Committed(given, payload) =>
          l.entries := [];
          var cp := CheckpointFrom(payload);
          if cp.Some? {
            l.checkpoint := cp;
          }
          l.pendingId := GivenOr(given, f);
        case Discarded(given) =>
          l.entries := [];
          l.pendingId := GivenOr(given, f);
        case RolledBack =>
          ghost var ids := Rebuild(runs, c, order, f);
        case OtherEvent =>
      }
    }

    /** Merges the diffs of an event into those kept for its run. */
    method KeepDiffs(run: RunId, items: seq<DiffItem>)
      requires DrawnDiffs(diffs) && AllNormal(items)
      modifies this`diffs
      ensures diffs == old(diffs)[run := Merge(if run in old(diffs) then old(diffs)[run] else [], items)]
      ensures DrawnDiffs(diffs)
    {
      var existing := if run in diffs then diffs[run] else [];
      NormalIsDrawn(items);
      var merged := MergeDiffItems(existing, items);
      MergeIsMerged(existing, items);
      NormalIsDrawn(merged);
      diffs := diffs[run := merged];
    }

    /** Appends an event: keeps its diffs, then updates the ledger. */
    method AppendEvent(ev: LedgerEvent, runs: map<RunId, Run>, c: ConvId, order: seq<RunId>, e: string, f: string)
      requires Trim(e) != "" && Trim(f) != ""
      requires DrawnDiffs(diffs) && (ev.DiffGenerated? ==> AllDrawn(ev.items))
      modifies this, ledger
      ensures diffs == DiffsAfter(old(diffs), ev)
      ensures (ev.RolledBack? ==> Lists(runs, c, order)) ==>
        View() == Applied(old(View()), ev, e, f, KeptTouches(runs, diffs, order))
      ensures log == old(log) + [ev]
      ensures DrawnDiffs(diffs)
    {
      if ev.DiffGenerated? {
        var parsed := NormalizeAll(ev.items);
        if Trim(ev.runId) != "" && parsed != [] {
          NormalizeAllNormal(ev.items);
          KeepDiffs(Trim(ev.runId), parsed);
        }
      }
      ApplyEvent(ev, runs, c, order, e, f);
      log := log + [ev];
    }

    method RunsPending(runs: map<RunId, Run>, order: seq<RunId>) returns (busy: bool)
      ensures busy == HasMutable(runs, order)
    {
      for i := 0 to |order|
        invariant !HasMutable(runs, order[..i])
      {
        if order[i] in runs && !Terminal(runs[order[i]].state) {
          return true;
        }
        assert order[..i + 1] == order[..i] + [order[i]];
      }
      assert order[..|order|] == order;
      busy := false;
    }

    /** The first locked section of commit and of discard. */
    method BeginChange(runs: map<RunId, Run>, order: seq<RunId>, expected: string, e: string) returns (v: Verdict)
      modifies this`ledger, ledger
      ensures View() == Ensured(old(View()), e)
      ensures v == Check(View(), expected, HasMutable(runs, order))
    {
      var l := Ensure(e);
      var busy := RunsPending(runs, order);
      if busy {
        return Busy;
      }
      if Trim(expected) == "" || Trim(expected) != Trim(l.pendingId) {
        return Conflict;
      }
      var entries := Clone(l.entries);
      if entries == [] {
        return NothingPending;
      }
      v := Accepted(entries);
    }

    /** The second locked section of a commit. */
    method FinishCommit(cp: Checkpoint, runs: map<RunId, Run>, c: ConvId, order: seq<RunId>, e: string, f: string)
      requires Trim(e) != "" && Trim(f) != "" && DrawnDiffs(diffs)
      modifies this, ledger
      ensures View() == CommitFinished(old(View()), cp, e, f)
      ensures log == old(log) + [Committed(f, Some(CheckpointPayload(cp)))] && diffs == old(diffs)
    {
      var l := Ensure(e);
      l.entries := [];
      l.checkpoint := Some(cp);
      l.pendingId := f;
      AppendEvent(Committed(l.pendingId, Some(CheckpointPayload(cp))), runs, c, order, e, f);
    }

    /** The second locked section of a discard. */
    method FinishDiscard(runs: map<RunId, Run>, c: ConvId, order: seq<RunId>, e: string, f: string)
      requires Trim(e) != "" && Trim(f) != "" && DrawnDiffs(diffs)
      modifies this, ledger
      ensures View() == DiscardFinished(old(View()), e, f)
      ensures log == old(log) + [Discarded(f)] && diffs == old(diffs)
    {
      var l := Ensure(e);
      l.entries := [];
      l.pendingId := f;
      AppendEvent(Discarded(l.pendingId), runs, c, order, e, f);
    }

    method BuildChangeSet(runs: map<RunId, Run>, order: seq<RunId>, e: string, spare: string) returns (shown: ChangeSet)
      modifies this`ledger, ledger
      ensures View() == Ensured(old(View()), e)
      ensures shown == Shown(View(), HasMutable(runs, order), spare)
    {
      var l := Ensure(e);
      var entries := Sort(Clone(l.entries), ByPath());
      var busy := RunsPending(runs, order);
      var canCommit, canDiscard := !busy, !busy;
      SortPermutes(Clone(l.entries), ByPath());
      if entries == [] {
        assert |multiset(entries)| == |Clone(l.entries)|;
        canCommit, canDiscard := false, false;
      } else {
        assert entries[0] in entries;
      }
      shown := ChangeSet(FirstNonEmpty(Trim(l.pendingId), spare), entries, canCommit, canDiscard, l.checkpoint);
    }
  }

  lemma ListedRunsDecide(runs: map<RunId, Run>, diffs: map<RunId, seq<DiffItem>>, c: ConvId,
      order: seq<RunId>, ids: seq<RunId>)
    requires NoDup(ids) && WithDiffs(diffs, order) <= ids
    requires forall id :: id in ids <==> HasDiffs(diffs, id) && (id in order || (id in runs && runs[id].conv == c))
    ensures Lists(runs, c, order) ==> KeptTouches(runs, diffs, ids) == KeptTouches(runs, diffs, order)
  {
    if Lists(runs, c, order) {
      WithDiffsElements(diffs, order);
      NothingMore(ids, WithDiffs(diffs, order));
      WithDiffsKeeps(runs, diffs, order);
    }
  }

  lemma NormalIsDrawn(items: seq<DiffItem>)
    requires AllNormal(items)
    ensures AllDrawn(items)
  {
    assert forall i {:trigger items[i]} :: 0 <= i < |items| ==> Normal(items[i]);
  }

  lemma NothingMore<T>(ids: seq<T>, front: seq<T>)
    requires NoDup(ids) && front <= ids
    requires forall id :: id in ids ==> id in front
    ensures ids == front
  {
    assert forall i :: 0 <= i < |front| ==> front[i] == ids[i];
    NoDupSize(front);
    NoDupSize(ids);
    assert Elements(ids) == Elements(front);
  }

  // ---- commit and discard agree with their events --------------------------------------------------

  /** A drawn id. */
  ghost predicate IsId(id: string) {
    id != "" && Tight(id)
  }

  /** A checkpoint comes back from the payload of its event as it went in exactly when it has an id
      and no field has blanks at its ends. */
  lemma CheckpointTripExactly(cp: Checkpoint)
    ensures CheckpointFrom(Some(CheckpointPayload(cp))) == Some(cp)
      <==> (cp.id != "" && Tight(cp.id) && Tight(cp.message) && Tight(cp.createdAt)
            && Tight(cp.gitCommit) && Tight(cp.digest))
  {
    TrimmedExactly(cp.id);
    TrimmedExactly(cp.message);
    TrimmedExactly(cp.createdAt);
    TrimmedExactly(cp.gitCommit);
    TrimmedExactly(cp.digest);
  }

  lemma TrimmedExactly(s: string)
    ensures Trim(s) == s <==> Tight(s)
  {
    if Tight(s) {
      TightIsTrimmed(s);
    } else {
      TrimIsTight(s);
    }
  }

  /** The direct update of a commit followed by its own event is the event alone, exactly when the
      checkpoint's id is not blank (or the ledger already held that very checkpoint). */
  lemma {:induction false} CommitIsItsEventExactly(l: LedgerView, cp: Checkpoint, e: string, f: string)
    requires IsId(e) && IsId(f)
    ensures CommitFinished(l, cp, e, f) == Applied(l, Committed(f, Some(CheckpointPayload(cp))), e, f, [])
      <==> Trim(cp.id) != "" || l.checkpoint == Some(cp)
  {
    TightIsTrimmed(f);
  }

  lemma {:induction false} DiscardIsItsEvent(l: LedgerView, e: string, f: string)
    requires IsId(e) && IsId(f)
    ensures DiscardFinished(l, e, f) == Applied(l, Discarded(f), e, f, [])
    ensures DiscardFinished(l, e, f) == LedgerView(f, [], l.checkpoint)
  {
    TightIsTrimmed(f);
  }

  /** The message a commit carries: the caller's, or a suggestion when that is blank. */
  function CommitMessage(asked: string, suggested: string): string {
    FirstNonEmpty(Trim(asked), suggested)
  }

  /** Both drivers make checkpoints that survive the trip: the committed ledger shows the checkpoint
      that the caller was answered with. `digits` is the random part of the id, and the commit id of
      the git driver has its blanks trimmed. */
  lemma CommittedCheckpointIsKept(l: LedgerView, git: bool, digits: string, asked: string, suggested: string,
                                  createdAt: string, head: string, digest: string, e: string, f: string)
    requires IsId(digits) && Tight(suggested) && Tight(createdAt) && Tight(digest) && IsId(e) && IsId(f)
    ensures var cp := Checkpoint((if git then "cp_git_" else "cp_non_git_") + digits, CommitMessage(asked, suggested),
                                 createdAt, if git then Trim(head) else "", digest);
      CommitFinished(l, cp, e, f) == LedgerView(f, [], Some(cp))
  {
    TrimIsTight(asked);
    TrimIsTight(head);
    TightIsTrimmed(f);
    var cp := Checkpoint((if git then "cp_git_" else "cp_non_git_") + digits, CommitMessage(asked, suggested),
                         createdAt, if git then Trim(head) else "", digest);
    CheckpointTripExactly(cp);
  }

  // ---- what is shown -------------------------------------------------------------------------------

  /** The advertised CanCommit says exactly whether a commit with the shown id would be accepted now;
      no other id would be. CanDiscard says the same of a discard that does something. */
  lemma CanCommitExactly(l: LedgerView, busy: bool, spare: string, expected: string)
    requires Trim(l.pendingId) != ""
    ensures var shown := Shown(l, busy, spare);
      && (shown.canCommit <==> Check(l, shown.id, busy).Accepted?)
      && (shown.canDiscard <==> Check(l, shown.id, busy).Accepted?)
      && (Check(l, expected, busy).Accepted? <==> shown.canCommit && Trim(expected) == shown.id)
  {
    TrimTwice(l.pendingId);
  }

  /** What is shown is what would be committed, in another order. */
  lemma ShownIsCommitted(l: LedgerView, busy: bool, spare: string, expected: string)
    requires Check(l, expected, busy).Accepted?
    ensures multiset(Shown(l, busy, spare).entries) == multiset(Check(l, expected, busy).entries)
    ensures Sorted(Shown(l, busy, spare).entries, ByPath())
  {
    SortPermutes(Clone(l.entries), ByPath());
    ByPathOrders();
    SortSorts(Clone(l.entries), ByPath());
  }

  lemma ByPathOrders()
    ensures WeakOrder(ByPath())
  {
    StringLessIsWeakOrder();
    var before := ByPath();
    forall x, y
      ensures before(x, y) ==> !before(y, x)
    {
    }
    forall x, y, z
      ensures before(x, y) && !before(z, y) ==> before(x, z)
    {
    }
  }

  /** Under the queue invariant a change set is busy exactly when a run is active, that is, when the
      conversation is not idle. */
  lemma {:induction false} BusyExactlyWhenActive(h: Hub, c: ConvId)
    requires Inv(h) && c in h.convs
    ensures HasMutable(h.runs, h.convs[c].order) <==> h.convs[c].active.Some?
    ensures HasMutable(h.runs, h.convs[c].order) <==> !h.convs[c].queueState.Idle?
  {
    var conv := h.convs[c];
    assert ConvInv(h.runs, h.issued, c, conv);
    if conv.active.Some? {
      assert Ongoing(h.runs[conv.active.value].state);
    }
  }
}
