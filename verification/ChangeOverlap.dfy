/**
 What may happen between the two locked sections of a commit: when a second commit of the same
 version is accepted, and when diffs are cleared that nobody committed.
 */
module ChangeOverlap {
  import opened Basics
  import opened Text
  import Paths
  import opened Diffs
  import opened Ledger
  import opened LedgerRebuild
  import opened LedgerChange
  import opened ChangeSets
  import opened ChangeVersions

  // ---- when the version moves -----------------------------------------------------------------------

  /** The step draws a new pending id: a diff event with a diff in it, a rollback, a commit or discard that
      is finished, or whatever comes first. */
  predicate Moves(s: State, step: Step) {
    var first := Trim(s.ledger.pendingId) == "";
    match step
    case Append(ev, _, _, _) => first || ev.RolledBack? || (ev.DiffGenerated? && NormalizeAll(ev.items) != [])
    case Rebuild(_, _) => true
    case BeginCommit(_, _, _, _) => first
    case BeginDiscard(_, _, _, _) => first
    case Finish(job, _, _, _) => job in s.jobs
    case Abort(_) => false
  }

  lemma MovesExactly(s: State, step: Step)
    requires Allowed(s, step) && PendingSound(s)
    ensures Next(s, step).ledger.pendingId != s.ledger.pendingId <==> Moves(s, step)
  {
    match step
    case Append(_, e, f, _) => IdTrims(e); IdTrims(f);
    case Rebuild(f, _) => IdTrims(f);
    case BeginCommit(_, _, _, e) => IdTrims(e);
    case BeginDiscard(_, _, _, e) => IdTrims(e);
    case Finish(job, cp, e, f) =>
      if job in s.jobs {
        FinishClears(s, job, cp, e, f);
      }
    case Abort(_) =>
  }

  /** No step from `i` on moves the version. */
  ghost predicate Quiet(steps: seq<Step>, i: nat) {
    forall j {:trigger steps[..j]} :: i <= j < |steps| ==> !Moves(Exec(steps[..j]), steps[j])
  }

  lemma QuietFront(steps: seq<Step>, i: nat)
    requires i < |steps|
    ensures Quiet(steps, i)
      <==> Quiet(steps[..|steps| - 1], i) && !Moves(Exec(steps[..|steps| - 1]), steps[|steps| - 1])
  {
    hide Moves, Exec;
    var front := steps[..|steps| - 1];
    assert forall j :: 0 <= j < |front| ==> front[..j] == steps[..j] && front[j] == steps[j];
    if Quiet(front, i) && !Moves(Exec(front), steps[|steps| - 1]) {
      forall j | i <= j < |steps|
        ensures !Moves(Exec(steps[..j]), steps[j])
      {
        assert j < |front| ==> !Moves(Exec(front[..j]), front[j]);
      }
    }
    if Quiet(steps, i) {
      assert !Moves(Exec(steps[..|steps| - 1]), steps[|steps| - 1]);
      forall j | i <= j < |front|
        ensures !Moves(Exec(front[..j]), front[j])
      {
        assert !Moves(Exec(steps[..j]), steps[j]);
      }
    }
  }

  /** A version that has moved never comes back: the id is that of an earlier moment exactly when no step
      since has moved it. */
  lemma {:induction false} UnmovedExactly(steps: seq<Step>, i: nat)
    requires AllAllowed(steps) && i <= |steps|
    ensures Exec(steps).ledger.pendingId == Exec(steps[..i]).ledger.pendingId <==> Quiet(steps, i)
  {
    if i == |steps| {
      assert steps[..i] == steps;
    } else {
      var front, step := steps[..|steps| - 1], steps[|steps| - 1];
      assert front[..i] == steps[..i];
      UnmovedExactly(front, i);
      QuietFront(steps, i);
      PendingIsDrawn(front);
      DrawnGrows(front, i);
      PendingIsDrawn(steps[..i]);
      StepVersions(Exec(front), step);
      MovesExactly(Exec(front), step);
    }
  }

  // ---- a second commit of one version -----------------------------------------------------------------

  lemma {:induction false} AcceptedId(steps: seq<Step>, expected: string, busy: bool, e: string)
    requires AllAllowed(steps)
    ensures var l := Exec(steps).ledger;
      Check(Ensured(l, e), expected, busy).Accepted?
      <==> !busy && Trim(expected) == l.pendingId && l.pendingId != "" && l.entries != []
  {
    PendingIsDrawn(steps);
    PendingIsTight(steps);
    TightIsTrimmed(Exec(steps).ledger.pendingId);
    if Exec(steps).ledger.pendingId == "" {
      NothingBeforeFirstId(steps);
    }
  }

  /**
   Nothing reserves a version. When a commit was accepted at moment `i`, another commit that expects the
   same id is accepted later exactly when no step since has moved the version and no run is pending; it
   then takes the same entries. Finishing the first commit moves it.
   */
  lemma {:induction false} SecondCommitAcceptedExactly(steps: seq<Step>, i: nat, expected: string, e: string,
                                                       busy: bool, e': string)
    requires AllAllowed(steps) && i <= |steps|
    requires Check(Ensured(Exec(steps[..i]).ledger, e), expected, false).Accepted?
    ensures var first := Check(Ensured(Exec(steps[..i]).ledger, e), expected, false);
      var second := Check(Ensured(Exec(steps).ledger, e'), expected, busy);
      && (second.Accepted? <==> !busy && Quiet(steps, i))
      && (second.Accepted? ==> second.entries == first.entries)
  {
    DrawnGrows(steps, i);
    AcceptedId(steps[..i], expected, false, e);
    AcceptedId(steps, expected, busy, e');
    PendingIsDrawn(steps[..i]);
    UnmovedExactly(steps, i);
    if Quiet(steps, i) {
      SameIdSameEntries(steps, i);
    }
  }

  /**
   Every answer a commit or discard can get. When it expects the id that was shown at moment `i`: busy exactly when
   a run is pending, a conflict exactly when none is but a step since has moved the id, nothing to do exactly when
   neither holds and nothing was shown then, and otherwise the entries that were shown then.
   */
  lemma {:induction false} AnswersExactly(steps: seq<Step>, i: nat, expected: string, busy: bool, e: string)
    requires AllAllowed(steps) && i <= |steps| && Fresh(Exec(steps), e)
    requires Exec(steps[..i]).ledger.pendingId != "" && Trim(expected) == Shown(Exec(steps[..i]).ledger, busy, "").id
    ensures var answer := Check(Ensured(Exec(steps).ledger, e), expected, busy);
      var shown := Exec(steps[..i]).ledger.entries;
      && (answer.Busy? <==> busy)
      && (answer.Conflict? <==> !busy && !Quiet(steps, i))
      && (answer.NothingPending? <==> !busy && Quiet(steps, i) && shown == [])
      && (answer.Accepted? <==> !busy && Quiet(steps, i) && shown != [])
      && (answer.Accepted? ==> answer.entries == Clone(shown))
      && (answer.NothingPending? ==> Exec(steps).ledger.entries == [])
  {
    DrawnGrows(steps, i);
    PendingIsTight(steps[..i]);
    PendingIsTight(steps);
    PendingIsDrawn(steps);
    PendingIsDrawn(steps[..i]);
    TightIsTrimmed(Exec(steps[..i]).ledger.pendingId);
    TightIsTrimmed(Exec(steps).ledger.pendingId);
    IdTrims(e);
    UnmovedExactly(steps, i);
    if Quiet(steps, i) {
      SameIdSameEntries(steps, i);
    }
  }

  /** Without an expected id the answer is busy or a conflict. */
  lemma BlankIsRefused(l: LedgerView, expected: string, busy: bool)
    requires Trim(expected) == ""
    ensures Check(l, expected, busy) == if busy then Busy else Conflict
  {
  }

  lemma AllowedThen(steps: seq<Step>, step: Step)
    requires AllAllowed(steps) && Allowed(Exec(steps), step)
    ensures AllAllowed(steps + [step]) && Exec(steps + [step]) == Next(Exec(steps), step)
  {
    assert (steps + [step])[..|steps|] == steps;
  }

  /** It happens: from every reachable ledger that a commit is accepted on, two commits with ids of their own
      are both accepted, one after the other. */
  lemma {:induction false} OneVersionCommittedTwice(steps: seq<Step>, a: nat, b: nat, expected: string,
                                                    e: string, e': string)
    requires AllAllowed(steps) && Fresh(Exec(steps), e) && Fresh(Exec(steps), e') && e != e'
    requires a != b && a !in Exec(steps).jobs && b !in Exec(steps).jobs
    requires Check(Ensured(Exec(steps).ledger, e), expected, false).Accepted?
    ensures var s := Exec(steps);
      var both := steps + [BeginCommit(a, expected, false, e)] + [BeginCommit(b, expected, false, e')];
      && AllAllowed(both)
      && a in Exec(both).jobs && b in Exec(both).jobs
      && Exec(both).jobs[a] == Exec(both).jobs[b] == Committing(Clone(s.ledger.entries))
  {
    var one := steps + [BeginCommit(a, expected, false, e)];
    AllowedThen(steps, BeginCommit(a, expected, false, e));
    AcceptedId(steps, expected, false, e);
    PendingIsDrawn(steps);
    assert Exec(one).ledger == Exec(steps).ledger;
    AllowedThen(one, BeginCommit(b, expected, false, e'));
  }

  /** Such a ledger is reached with the first diff event that has a path. */
  lemma {:induction false} FirstDiffCanBeCommitted(run: string, message: string, items: seq<DiffItem>, x: DiffItem,
                                                   e: string, f: string)
    requires IsId(e) && IsId(f) && e != f
    requires NormalizeAll(items) == [x]
    ensures var steps := [Append(DiffGenerated(run, message, items), e, f, [])];
      AllAllowed(steps) && Check(Exec(steps).ledger, f, false).Accepted?
  {
    var step := Append(DiffGenerated(run, message, items), e, f, []);
    AllowedThen([], step);
    assert [] + [step] == [step];
    IdTrims(e);
    IdTrims(f);
    LateItem([], run, message, items, x);
    NormalizedLead(items);
  }

  // ---- late diffs -----------------------------------------------------------------------------------

  /** What one diff item does to the entries: it adds an entry for a new path, and changes the one there is
      for another. */
  lemma LateItem(entries: seq<Entry>, run: string, message: string, items: seq<DiffItem>, x: DiffItem)
    requires NormalizeAll(items) == [x]
    ensures var path, t := Paths.NormalizePath(x.path), Touch(run, message, x);
      UpsertAll(entries, Touches(run, message, items)) ==
        (if path == "" then entries
         else
           match EntryPosition(entries, path)
           case None => entries + [NewEntry(path, t)]
           case Some(k) => if k < |entries| then entries[k := TouchEntry(entries[k], t)] else entries)
  {
    var t := Touch(run, message, x);
    assert Touches(run, message, items) == [t];
    assert [t][..0] == [];
    assert UpsertAll(entries, [t]) == Upsert(UpsertAll(entries, []), t);
  }

  lemma TouchKeepsPath(e: Entry, t: Touch)
    ensures TouchEntry(e, t).path == e.path
  {
  }

  lemma UpsertAtKeepsPaths(entries: seq<Entry>, path: string, t: Touch)
    ensures |entries| <= |UpsertAt(entries, path, t)|
    ensures forall i :: 0 <= i < |entries| ==> UpsertAt(entries, path, t)[i].path == entries[i].path
  {
    hide TouchEntry, NewEntry, EntryPosition;
    var position := EntryPosition(entries, path);
    if position.Some? && position.value < |entries| {
      TouchKeepsPath(entries[position.value], t);
    }
  }

  lemma {:induction false} UpsertKeepsPaths(entries: seq<Entry>, touches: seq<Touch>)
    ensures |entries| <= |UpsertAll(entries, touches)|
    ensures forall i :: 0 <= i < |entries| ==> UpsertAll(entries, touches)[i].path == entries[i].path
  {
    if touches != [] {
      var front, t := touches[..|touches| - 1], touches[|touches| - 1];
      UpsertKeepsPaths(entries, front);
      UpsertAtKeepsPaths(UpsertAll(entries, front), Paths.NormalizePath(t.item.path), t);
    }
  }

  lemma CloneTells(entries: seq<Entry>, more: seq<Entry>)
    requires |entries| <= |more| && forall i :: 0 <= i < |entries| ==> more[i].path == entries[i].path
    ensures Clone(more) == Clone(entries) <==> more == entries
  {
    if Clone(more) == Clone(entries) {
      assert |Clone(more)| == |more| && |Clone(entries)| == |entries|;
      forall i | 0 <= i < |entries|
        ensures more[i] == entries[i]
      {
        assert Clone(more)[i] == Clone(entries)[i];
        assert more[i] == Clone(more)[i].(path := more[i].path);
        assert entries[i] == Clone(entries)[i].(path := entries[i].path);
      }
    }
  }

  /** A commit is accepted, and a diff event arrives while its driver works. */
  function Late(s: State, job: nat, expected: string, ev: LedgerEvent, ids: seq<string>): State
    requires |ids| == 5
  {
    Next(Next(s, BeginCommit(job, expected, false, ids[0])), Append(ev, ids[1], ids[2], []))
  }

  /** All three steps are allowed, the event reaches the ledger, and the finish leaves no entry of it. */
  lemma LateDiffsAreCleared(s: State, job: nat, expected: string, run: string, message: string,
                            items: seq<DiffItem>, cp: Checkpoint, ids: seq<string>)
    requires PendingSound(s) && job !in s.jobs
    requires |ids| == 5 && NoDup(ids) && forall id :: id in ids ==> Fresh(s, id)
    requires Check(Ensured(s.ledger, ids[0]), expected, false).Accepted?
    ensures var diff := DiffGenerated(run, message, items);
      var begun := Next(s, BeginCommit(job, expected, false, ids[0]));
      var late := Late(s, job, expected, diff, ids);
      && Allowed(s, BeginCommit(job, expected, false, ids[0]))
      && Allowed(begun, Append(diff, ids[1], ids[2], []))
      && Allowed(late, Finish(job, cp, ids[3], ids[4]))
      && job in late.jobs && late.jobs[job] == Committing(Clone(s.ledger.entries))
      && late.ledger.entries == UpsertAll(s.ledger.entries, Touches(run, message, items))
      && Next(late, Finish(job, cp, ids[3], ids[4])).ledger.entries == []
      && (Clone(late.ledger.entries) == Clone(s.ledger.entries) <==> late.ledger.entries == s.ledger.entries)
  {
    FreshInTurn(s, ids);
    var diff := DiffGenerated(run, message, items);
    IdTrims(ids[0]);
    var late := Late(s, job, expected, diff, ids);
    assert UpsertAll(s.ledger.entries, []) == s.ledger.entries;
    UpsertKeepsPaths(s.ledger.entries, Touches(run, message, items));
    CloneTells(s.ledger.entries, late.ledger.entries);
    FinishClears(late, job, cp, ids[3], ids[4]);
  }

  /**
   What the finished commit clears is what was committed exactly when the event that came in between only
   repeated what the ledger said: for every path it touches there is an entry with its last run, message,
   change type, summary and counts, and no other blob.
   */
  lemma {:induction false} LateDiffsAreLostExactly(s: State, job: nat, expected: string, run: string,
                                                   message: string, items: seq<DiffItem>, ids: seq<string>)
    requires PendingSound(s) && job !in s.jobs && UniqueEntries(s.ledger.entries)
    requires |ids| == 5 && NoDup(ids) && forall id :: id in ids ==> Fresh(s, id)
    requires Check(Ensured(s.ledger, ids[0]), expected, false).Accepted?
    ensures var late := Late(s, job, expected, DiffGenerated(run, message, items), ids);
      && job in late.jobs
      && (Committing(Clone(late.ledger.entries)) == late.jobs[job]
          <==> OnlyRepeats(s.ledger.entries, Read(Touches(run, message, items))))
  {
    hide PendingSound, Late, Touches, OnlyRepeats, Read, Clone, Check, UniqueEntries, Fresh;
    LateDiffsAreCleared(s, job, expected, run, message, items, NO_CHECKPOINT, ids);
    UnchangedExactly(s.ledger.entries, Touches(run, message, items));
  }

  /**
   An event of a run that no committed entry names loses something exactly when it has a diff: then an
   entry of that run is cleared, and none was committed.
   */
  lemma {:induction false} LateRunIsLostExactly(s: State, job: nat, expected: string, run: string,
                                                message: string, items: seq<DiffItem>, ids: seq<string>)
    requires PendingSound(s) && job !in s.jobs && !NamesRun(s.ledger.entries, Trim(run))
    requires |ids| == 5 && NoDup(ids) && forall id :: id in ids ==> Fresh(s, id)
    requires Check(Ensured(s.ledger, ids[0]), expected, false).Accepted?
    ensures var late := Late(s, job, expected, DiffGenerated(run, message, items), ids);
      && job in late.jobs && late.jobs[job].Committing?
      && (late.jobs[job].entries == Clone(late.ledger.entries) <==> NormalizeAll(items) == [])
      && (NormalizeAll(items) != [] ==>
            NamesRun(late.ledger.entries, Trim(run)) && !NamesRun(late.jobs[job].entries, Trim(run)))
  {
    hide PendingSound, Late, Check, Fresh;
    LateDiffsAreCleared(s, job, expected, run, message, items, NO_CHECKPOINT, ids);
    var touches := Touches(run, message, items);
    if touches != [] {
      NormalizedLead(items);
      TouchesName(s.ledger.entries, touches);
    }
    CloneNames(s.ledger.entries, Trim(run));
  }

  const NO_CHECKPOINT := Checkpoint("", "", "", "", "")

  lemma CloneNames(entries: seq<Entry>, run: string)
    ensures NamesRun(Clone(entries), run) <==> NamesRun(entries, run)
  {
    if i :| 0 <= i < |entries| && entries[i].runId == run {
      assert Clone(entries)[i].runId == run;
    }
  }

  /** The entries of every reachable ledger have different paths. */
  lemma {:induction false} UniqueOverRuns(steps: seq<Step>)
    ensures UniqueEntries(Exec(steps).ledger.entries)
  {
    if steps != [] {
      var front := steps[..|steps| - 1];
      UniqueOverRuns(front);
      match steps[|steps| - 1]
      case Append(DiffGenerated(run, message, items), e, f, kept) =>
        UpsertAllUnique(Exec(front).ledger.entries, Touches(run, message, items));
      case Append(RolledBack, e, f, kept) => UpsertAllUnique([], kept);
      case Rebuild(f, kept) => UpsertAllUnique([], kept);
      case _ =>
    }
  }

  lemma FreshInTurn(s: State, ids: seq<string>)
    requires |ids| == 5 && NoDup(ids) && forall id :: id in ids ==> Fresh(s, id)
    ensures forall k :: 0 <= k < 5 ==> IsId(ids[k]) && ids[k] !in s.drawn
    ensures ids[1] != ids[2] && ids[3] != ids[4]
    ensures ids[1] !in s.drawn + {ids[0]} && ids[2] !in s.drawn + {ids[0]}
    ensures ids[3] !in s.drawn + {ids[0]} + {ids[1], ids[2]} && ids[4] !in s.drawn + {ids[0]} + {ids[1], ids[2]}
  {
    assert forall k :: 0 <= k < 5 ==> ids[k] in ids;
  }
}
