/**
 Whole runs of one change set. Commits and discards hold the lock twice, with the driver's work in
 between, so anything may happen between the check of the expected version and the clearing.
 */
module ChangeVersions {
  import opened Basics
  import opened Text
  import opened Ledger
  import opened LedgerRebuild
  import opened Diffs
  import Paths
  import opened ChangeSets

  datatype Job = Committing(entries: seq<Entry>) | Discarding(entries: seq<Entry>)

  /** `drawn` holds every id drawn so far; `jobs` are the accepted commits and discards whose
      drivers are still at work; `log` is the event log. */
  datatype State = State(ledger: LedgerView, drawn: set<string>, jobs: map<nat, Job>, log: seq<LedgerEvent>)

  /** `e` and `f` are the ids a step may draw, `kept` the diffs kept per run when it rebuilds. */
  datatype Step =
    | Append(ev: LedgerEvent, e: string, f: string, kept: seq<Touch>)
    | Rebuild(f: string, kept: seq<Touch>)
    | BeginCommit(job: nat, expected: string, busy: bool, e: string)
    | BeginDiscard(job: nat, expected: string, busy: bool, e: string)
    | Finish(job: nat, cp: Checkpoint, e: string, f: string)
    | Abort(job: nat)

  const START := State(UNUSED, {}, map[], [])

  function Begin(s: State, job: nat, verdict: Verdict, commit: bool): map<nat, Job> {
    match verdict
    case Accepted(entries) => s.jobs[job := if commit then Committing(entries) else Discarding(entries)]
    case _ => s.jobs
  }

  function Next(s: State, step: Step): State {
    match step
    case Append(ev, e, f, kept) =>
      State(Applied(s.ledger, ev, e, f, kept), s.drawn + {e, f}, s.jobs, s.log + [ev])
    case Rebuild(f, kept) => s.(ledger := Rebuilt(s.ledger, f, kept), drawn := s.drawn + {f})
    case BeginCommit(job, expected, busy, e) =>
      var l := Ensured(s.ledger, e);
      State(l, s.drawn + {e}, Begin(s, job, Check(l, expected, busy), true), s.log)
    case BeginDiscard(job, expected, busy, e) =>
      var l := Ensured(s.ledger, e);
      State(l, s.drawn + {e}, Begin(s, job, Check(l, expected, busy), false), s.log)
    case Finish(job, cp, e, f) =>
      if job !in s.jobs then s
      else if s.jobs[job].Committing?
      then State(CommitFinished(s.ledger, cp, e, f), s.drawn + {e, f}, s.jobs - {job},
                 s.log + [Committed(f, Some(CheckpointPayload(cp)))])
      else State(DiscardFinished(s.ledger, e, f), s.drawn + {e, f}, s.jobs - {job}, s.log + [Discarded(f)])
    case Abort(job) => s.(jobs := s.jobs - {job})
  }

  function Exec(steps: seq<Step>): State {
    if steps == [] then START else Next(Exec(steps[..|steps| - 1]), steps[|steps| - 1])
  }

  ghost predicate Fresh(s: State, id: string) {
    IsId(id) && id !in s.drawn
  }

  /** Drawn ids are new; jobs get new numbers; only a finished job appends the event of a commit or
      of a discard. */
  ghost predicate Allowed(s: State, step: Step) {
    match step
    case Append(ev, e, f, _) => Fresh(s, e) && Fresh(s, f) && e != f && !ev.Committed? && !ev.Discarded?
    case Rebuild(f, _) => Fresh(s, f)
    case BeginCommit(job, _, _, e) => Fresh(s, e) && job !in s.jobs
    case BeginDiscard(job, _, _, e) => Fresh(s, e) && job !in s.jobs
    case Finish(_, _, e, f) => Fresh(s, e) && Fresh(s, f) && e != f
    case Abort(_) => true
  }

  ghost predicate AllAllowed(steps: seq<Step>) {
    steps != [] ==>
      AllAllowed(steps[..|steps| - 1]) && Allowed(Exec(steps[..|steps| - 1]), steps[|steps| - 1])
  }

  // ---- versions -----------------------------------------------------------------------------------

  /** The pending id is blank only before the first was drawn. */
  predicate PendingSound(s: State) {
    s.ledger.pendingId == "" || (Trim(s.ledger.pendingId) != "" && s.ledger.pendingId in s.drawn)
  }

  /** Any step leaves id and entries alone, gives the unused ledger its first id, or draws a new id. */
  lemma StepVersions(s: State, step: Step)
    requires Allowed(s, step) && PendingSound(s)
    ensures var t := Next(s, step);
      && s.drawn <= t.drawn
      && PendingSound(t)
      && (t.ledger.pendingId == s.ledger.pendingId ==> t.ledger.entries == s.ledger.entries)
      && (t.ledger.pendingId != s.ledger.pendingId ==> t.ledger.pendingId !in s.drawn && t.ledger.pendingId != "")
  {
    match step
    case Append(_, e, f, _) => IdTrims(e); IdTrims(f);
    case Rebuild(f, _) => IdTrims(f);
    case BeginCommit(_, _, _, e) => IdTrims(e);
    case BeginDiscard(_, _, _, e) => IdTrims(e);
    case Finish(_, _, e, f) => IdTrims(e); IdTrims(f);
    case Abort(_) =>
  }

  lemma IdTrims(id: string)
    requires IsId(id)
    ensures Trim(id) == id
  {
    TightIsTrimmed(id);
  }

  lemma {:induction false} PendingIsDrawn(steps: seq<Step>)
    requires AllAllowed(steps)
    ensures PendingSound(Exec(steps))
  {
    if steps != [] {
      PendingIsDrawn(steps[..|steps| - 1]);
      StepVersions(Exec(steps[..|steps| - 1]), steps[|steps| - 1]);
    }
  }

  lemma {:induction false} DrawnGrows(steps: seq<Step>, i: nat)
    requires AllAllowed(steps) && i <= |steps|
    ensures AllAllowed(steps[..i]) && Exec(steps[..i]).drawn <= Exec(steps).drawn
  {
    if i == |steps| {
      assert steps[..i] == steps;
    } else {
      var front := steps[..|steps| - 1];
      DrawnGrows(front, i);
      assert front[..i] == steps[..i];
      PendingIsDrawn(front);
      StepVersions(Exec(front), steps[|steps| - 1]);
    }
  }

  /** The optimistic version is sound: whenever two states of a run carry the same pending id, they
      hold the same entries, whatever happened in between. */
  lemma {:induction false} SameIdSameEntries(steps: seq<Step>, i: nat)
    requires AllAllowed(steps) && i <= |steps|
    requires Exec(steps[..i]).ledger.pendingId == Exec(steps).ledger.pendingId
    ensures Exec(steps[..i]).ledger.entries == Exec(steps).ledger.entries
  {
    if i == |steps| {
      assert steps[..i] == steps;
    } else {
      var front := steps[..|steps| - 1];
      assert front[..i] == steps[..i];
      PendingIsDrawn(front);
      DrawnGrows(front, i);
      PendingIsDrawn(steps[..i]);
      StepVersions(Exec(front), steps[|steps| - 1]);
      SameIdSameEntries(front, i);
    }
  }

  lemma {:induction false} PendingIsTight(steps: seq<Step>)
    requires AllAllowed(steps)
    ensures Tight(Exec(steps).ledger.pendingId)
    decreases |steps|
  {
    if steps != [] {
      PendingIsTight(steps[..|steps| - 1]);
      match steps[|steps| - 1]
      case Append(_, e, f, _) => IdTrims(e); IdTrims(f);
      case Rebuild(f, _) => IdTrims(f);
      case BeginCommit(_, _, _, e) => IdTrims(e);
      case BeginDiscard(_, _, _, e) => IdTrims(e);
      case Finish(_, _, e, f) => IdTrims(e); IdTrims(f);
      case Abort(_) =>
    }
  }

  /** A commit that is accepted on the id shown earlier in the run takes exactly the entries that
      were shown with that id. */
  lemma {:induction false} AcceptedCommitsWhatWasShown(steps: seq<Step>, i: nat, expected: string, e: string)
    requires AllAllowed(steps) && i <= |steps| && Exec(steps[..i]).ledger.pendingId != ""
    requires Trim(expected) == Shown(Exec(steps[..i]).ledger, false, "").id
    requires Check(Ensured(Exec(steps).ledger, e), expected, false).Accepted?
    ensures Check(Ensured(Exec(steps).ledger, e), expected, false).entries == Clone(Exec(steps[..i]).ledger.entries)
    ensures multiset(Check(Ensured(Exec(steps).ledger, e), expected, false).entries)
         == multiset(Shown(Exec(steps[..i]).ledger, false, "").entries)
  {
    DrawnGrows(steps, i);
    PendingIsTight(steps[..i]);
    PendingIsTight(steps);
    PendingIsDrawn(steps);
    TightIsTrimmed(Exec(steps[..i]).ledger.pendingId);
    TightIsTrimmed(Exec(steps).ledger.pendingId);
    if Exec(steps).ledger.pendingId != "" {
      SameIdSameEntries(steps, i);
    } else {
      NothingBeforeFirstId(steps);
    }
    ShownIsCommitted(Exec(steps[..i]).ledger, false, "", expected);
  }

  lemma {:induction false} NothingBeforeFirstId(steps: seq<Step>)
    requires AllAllowed(steps) && Exec(steps).ledger.pendingId == ""
    ensures Exec(steps).ledger.entries == []
  {
    DrawnGrows(steps, 0);
    SameIdSameEntries(steps, 0);
    assert steps[..0] == [];
  }

  /** If the id has not moved since a job was accepted, finishing it clears exactly the entries that
      its driver worked on. `i` is when the job was accepted. */
  lemma {:induction false} UnmovedIdClearsWhatWasCommitted(steps: seq<Step>, i: nat, expected: string, e: string)
    requires AllAllowed(steps) && i <= |steps|
    requires Check(Ensured(Exec(steps[..i]).ledger, e), expected, false).Accepted?
    requires Exec(steps).ledger.pendingId == Exec(steps[..i]).ledger.pendingId
    ensures Clone(Exec(steps).ledger.entries) == Check(Ensured(Exec(steps[..i]).ledger, e), expected, false).entries
  {
    SameIdSameEntries(steps, i);
  }

  /** Finishing a commit or a discard empties the ledger, whatever it held. */
  lemma FinishClears(s: State, job: nat, cp: Checkpoint, e: string, f: string)
    requires IsId(e) && IsId(f) && job in s.jobs
    ensures Next(s, Finish(job, cp, e, f)).ledger.entries == []
    ensures Next(s, Finish(job, cp, e, f)).ledger.pendingId == f
  {
    TightIsTrimmed(f);
  }

  // ---- the log ------------------------------------------------------------------------------------

  /** Folding the log from nothing, as a restart does: ids are drawn anew (`id` stands for them), and
      no diffs are kept per run yet, so a rollback in the log empties the ledger. */
  function Replay(log: seq<LedgerEvent>, id: string): LedgerView {
    if log == [] then UNUSED else Applied(Replay(log[..|log| - 1], id), log[|log| - 1], id, id, [])
  }

  predicate SameContents(a: LedgerView, b: LedgerView) {
    a.entries == b.entries && a.checkpoint == b.checkpoint
  }

  predicate RollsBack(step: Step) {
    step.Rebuild? || (step.Append? && step.ev.RolledBack?)
  }

  lemma ReplayStep(s: State, step: Step, id: string)
    requires Allowed(s, step) && !RollsBack(step) && IsId(id)
    requires step.Finish? ==> Trim(step.cp.id) != ""
    requires SameContents(s.ledger, Replay(s.log, id))
    ensures SameContents(Next(s, step).ledger, Replay(Next(s, step).log, id))
  {
    var log := s.log;
    match step
    case Append(ev, e, f, kept) => assert (log + [ev])[..|log|] == log;
    case Finish(job, cp, e, f) =>
      if job in s.jobs {
        var ev := if s.jobs[job].Committing? then Committed(f, Some(CheckpointPayload(cp))) else Discarded(f);
        assert (log + [ev])[..|log|] == log;
        CommitIsItsEventExactly(s.ledger, cp, e, f);
        DiscardIsItsEvent(s.ledger, e, f);
      }
    case _ =>
  }

  /** Without rollbacks the ledger is a fold of the event log, however commits and discards
      interleave with other events. Checkpoints have ids, as both drivers make them. */
  lemma {:induction false} LedgerIsFoldOfLog(steps: seq<Step>, id: string)
    requires AllAllowed(steps) && IsId(id)
    requires forall k :: 0 <= k < |steps| ==> !RollsBack(steps[k]) && (steps[k].Finish? ==> Trim(steps[k].cp.id) != "")
    ensures SameContents(Exec(steps).ledger, Replay(Exec(steps).log, id))
  {
    if steps != [] {
      var front := steps[..|steps| - 1];
      LedgerIsFoldOfLog(front, id);
      ReplayStep(Exec(front), steps[|steps| - 1], id);
    }
  }

  /** After a rollback a replay of the log loses what the rebuild kept: ledger and replay agree
      exactly when the rebuild kept no entry. */
  lemma {:induction false} ReplayAfterRollbackExactly(s: State, e: string, f: string, kept: seq<Touch>, id: string)
    requires IsId(id) && IsId(e)
    requires SameContents(s.ledger, Replay(s.log, id))
    ensures var t := Next(s, Append(RolledBack, e, f, kept));
      && (SameContents(t.ledger, Replay(t.log, id)) <==> t.ledger.entries == [])
      && (t.ledger.entries == [] <==> NoPaths(kept))
  {
    assert (s.log + [RolledBack])[..|s.log|] == s.log;
    assert UpsertAll([], []) == [];
    NoEntriesExactly(kept);
  }

  ghost predicate NoPath(t: Touch) {
    Paths.NormalizePath(t.item.path) == ""
  }

  lemma UpsertSize(entries: seq<Entry>, t: Touch)
    ensures NoPath(t) ==> Upsert(entries, t) == entries
    ensures !NoPath(t) ==> |Upsert(entries, t)| > 0
  {
    UpsertAtSize(entries, Paths.NormalizePath(t.item.path), t);
  }

  lemma UpsertAtSize(entries: seq<Entry>, path: string, t: Touch)
    ensures |UpsertAt(entries, path, t)| == |entries| + if EntryPosition(entries, path).None? then 1 else 0
    ensures |UpsertAt(entries, path, t)| > 0
  {
    EntryPositionFinds(entries, path);
    match EntryPosition(entries, path)
    case None => assert UpsertAt(entries, path, t) == entries + [NewEntry(path, t)];
    case Some(k) => assert |UpsertAt(entries, path, t)| == |entries|;
  }

  ghost predicate NoPaths(kept: seq<Touch>) {
    forall k :: 0 <= k < |kept| ==> NoPath(kept[k])
  }

  lemma NoPathsFront(kept: seq<Touch>)
    requires kept != []
    ensures NoPaths(kept) <==> NoPaths(kept[..|kept| - 1]) && NoPath(kept[|kept| - 1])
  {
    assert forall k :: 0 <= k < |kept| - 1 ==> kept[..|kept| - 1][k] == kept[k];
  }

  lemma {:induction false} NoEntriesExactly(kept: seq<Touch>)
    ensures UpsertAll([], kept) == [] <==> NoPaths(kept)
  {
    if kept != [] {
      var n := |kept| - 1;
      NoEntriesExactly(kept[..n]);
      UpsertSize(UpsertAll([], kept[..n]), kept[n]);
      NoPathsFront(kept);
    }
  }
}
