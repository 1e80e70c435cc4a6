/** What a change set holds, told from the steps alone: what came since it was last cleared, and the checkpoint
    of the last commit. */
module ChangeHistory {
  import opened Basics
  import opened Text
  import opened Diffs
  import opened DiffSummary
  import opened Ledger
  import opened LedgerRebuild
  import opened Ordering
  import opened ChangeSets
  import opened ChangeVersions

  /** The step clears the change set: it finishes a commit or a discard that is at work. */
  predicate Clears(s: State, step: Step) {
    step.Finish? && step.job in s.jobs
  }

  /** What a step makes of what has been reported: a rollback starts over from the diffs that are kept. */
  function After(s: State, step: Step, reported: seq<Touch>): seq<Touch> {
    if Clears(s, step) then []
    else if step.Rebuild? then step.kept
    else if !step.Append? then reported
    else
      match step.ev
      case RolledBack => step.kept
      case DiffGenerated(run, message, items) => reported + Stamp(run, message, NormalizeAll(items))
      case _ => reported
  }

  /** What has been reported since the change set was last cleared or rebuilt. */
  function Reported(steps: seq<Step>): seq<Touch> {
    if steps == [] then []
    else After(Exec(steps[..|steps| - 1]), steps[|steps| - 1], Reported(steps[..|steps| - 1]))
  }

  /** The checkpoint of the last commit that was finished. */
  function LastCheckpoint(steps: seq<Step>): Option<Checkpoint> {
    if steps == [] then None
    else
      var front, last := steps[..|steps| - 1], steps[|steps| - 1];
      if Clears(Exec(front), last) && Exec(front).jobs[last.job].Committing? then Some(last.cp)
      else LastCheckpoint(front)
  }

  /** Checkpoints as the drivers make them. */
  ghost predicate Whole(cp: Checkpoint) {
    && cp.id != "" && Tight(cp.id) && Tight(cp.message) && Tight(cp.createdAt)
    && Tight(cp.gitCommit) && Tight(cp.digest)
  }

  ghost predicate WholeCheckpoints(steps: seq<Step>) {
    forall i :: 0 <= i < |steps| && steps[i].Finish? ==> Whole(steps[i].cp)
  }

  /** Over any run, commits and discards interleaving at will, the entries are those of what was reported since
      the last clearing. */
  lemma {:induction false} PendingExactly(steps: seq<Step>)
    requires AllAllowed(steps)
    ensures Exec(steps).ledger.entries == UpsertAll([], Reported(steps))
  {
    if steps != [] {
      PendingExactly(steps[..|steps| - 1]);
      StepReports(Exec(steps[..|steps| - 1]), steps[|steps| - 1], Reported(steps[..|steps| - 1]));
    }
  }

  lemma StepReports(s: State, step: Step, reported: seq<Touch>)
    requires Allowed(s, step) && s.ledger.entries == UpsertAll([], reported)
    ensures Next(s, step).ledger.entries == UpsertAll([], After(s, step, reported))
  {
    assert UpsertAll([], []) == [];
    hide UpsertAll, Trim, NormalizeAll, Clone, Check, CheckpointFrom, CheckpointPayload;
    if step.Append? && step.ev.DiffGenerated? {
      DiffReports(s.ledger, step.ev, step.e, step.f, reported);
    }
  }

  lemma DiffReports(l: LedgerView, ev: LedgerEvent, e: string, f: string, reported: seq<Touch>)
    requires ev.DiffGenerated? && l.entries == UpsertAll([], reported)
    ensures forall kept :: Applied(l, ev, e, f, kept).entries
                           == UpsertAll([], reported + Stamp(ev.runId, ev.messageId, NormalizeAll(ev.items)))
  {
    hide UpsertAll, Trim, NormalizeAll;
    var touches := Stamp(ev.runId, ev.messageId, NormalizeAll(ev.items));
    UpsertAllConcat([], reported, touches);
    if NormalizeAll(ev.items) == [] {
      assert reported + touches == reported;
    }
  }

  /** The checkpoint shown is that of the last commit that was finished; rollbacks and discards keep it. */
  lemma {:induction false} CheckpointExactly(steps: seq<Step>)
    requires AllAllowed(steps) && WholeCheckpoints(steps)
    ensures Exec(steps).ledger.checkpoint == LastCheckpoint(steps)
  {
    hide Next, Allowed, Whole;
    if steps != [] {
      var front := steps[..|steps| - 1];
      CheckpointExactly(front);
      StepCheckpoint(Exec(front), steps[|steps| - 1]);
    }
  }

  lemma StepCheckpoint(s: State, step: Step)
    requires Allowed(s, step) && (step.Finish? ==> Whole(step.cp))
    ensures Next(s, step).ledger.checkpoint ==
      if Clears(s, step) && s.jobs[step.job].Committing? then Some(step.cp) else s.ledger.checkpoint
  {
    hide UpsertAll, Trim, NormalizeAll, Clone, Check, CheckpointFrom, CheckpointPayload;
    if step.Finish? {
      CheckpointTripExactly(step.cp);
    }
  }

  /** So each pending entry says of its path what was reported of it last, with the first blob from before and
      the last from after, and there is one for every path reported, in the order in which they were. */
  lemma {:induction false} PendingDescribes(steps: seq<Step>)
    requires AllAllowed(steps) && AllRegular(Reported(steps))
    ensures var entries, reported := Exec(steps).ledger.entries, Reported(steps);
      && |entries| == |FirstSeen(Items(reported))|
      && forall k :: 0 <= k < |entries| ==>
        entries[k].path == FirstSeen(Items(reported))[k] && Describes(entries[k], reported)
  {
    PendingExactly(steps);
    LedgerDescribes(Reported(steps));
  }

  /** What is shown: the pending id, or a spare one while there is none, the last checkpoint, and every pending
      entry with its path trimmed. An accepted commit or discard takes the same entries in ledger order. */
  lemma ShownTells(l: LedgerView, busy: bool, spare: string, expected: string)
    ensures var shown := Shown(l, busy, spare);
      && shown.checkpoint == l.checkpoint && shown.id == (if Blank(l.pendingId) then spare else Trim(l.pendingId))
      && |shown.entries| == |l.entries|
      && (forall k :: 0 <= k < |l.entries| ==> l.entries[k].(path := Trim(l.entries[k].path)) in shown.entries)
    ensures Check(l, expected, busy).Accepted? ==>
      var entries := Check(l, expected, busy).entries;
      && |entries| == |l.entries|
      && forall k :: 0 <= k < |l.entries| ==> entries[k] == l.entries[k].(path := Trim(l.entries[k].path))
  {
    hide Trim;
    BlankExactly(l.pendingId);
    SortPermutes(Clone(l.entries), ByPath());
    assert |Sort(Clone(l.entries), ByPath())| == |multiset(Sort(Clone(l.entries), ByPath()))|;
    assert |Clone(l.entries)| == |multiset(Clone(l.entries))|;
    forall k | 0 <= k < |l.entries|
      ensures l.entries[k].(path := Trim(l.entries[k].path)) in Sort(Clone(l.entries), ByPath())
    {
      assert Clone(l.entries)[k] in Clone(l.entries);
    }
  }

  /** An accepted commit or discard is at work with what it took until it finishes or is given up; others are
      not. A finished one is logged as what it was. */
  lemma {:induction false} JobsTell(s: State, step: Step)
    requires Allowed(s, step)
    ensures var s' := Next(s, step);
      && (step.BeginCommit? ==>
            match Check(Ensured(s.ledger, step.e), step.expected, step.busy)
            case Accepted(entries) => s'.jobs == s.jobs[step.job := Committing(entries)]
            case _ => s'.jobs == s.jobs)
      && (step.BeginDiscard? ==>
            match Check(Ensured(s.ledger, step.e), step.expected, step.busy)
            case Accepted(entries) => s'.jobs == s.jobs[step.job := Discarding(entries)]
            case _ => s'.jobs == s.jobs)
      && (step.Finish? || step.Abort? ==> s'.jobs == s.jobs - {step.job})
      && (step.Append? || step.Rebuild? ==> s'.jobs == s.jobs)
    ensures var s' := Next(s, step);
      s'.log ==
        if step.Append? then s.log + [step.ev]
        else if !Clears(s, step) then s.log
        else if s.jobs[step.job].Committing? then s.log + [Committed(step.f, Some(CheckpointPayload(step.cp)))]
        else s.log + [Discarded(step.f)]
  {
    hide Trim, UpsertAll, NormalizeAll, Clone, CheckpointFrom, CheckpointPayload;
  }
}
