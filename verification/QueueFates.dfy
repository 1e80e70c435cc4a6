/** How the runs of the hub end, over whole runs of it. */
module QueueFates {
  import opened Basics
  import opened QueueModel
  import opened QueueInvariant
  import opened QueueSteps
  import opened QueueRuns
  import opened QueueEffects

  /** How a step ends run `id`, if it does: the runtime reports it finished, failed or stopped; it can not be
      started; or it, or its conversation while it is active, is stopped, or it is denied where no approval is
      asked for. */
  function EndOf(h: Hub, step: Step, id: RunId): Option<RunState> {
    match step
    case DoEvent(x, ev) =>
      if x != id || id !in h.runs then None
      else if ev.Finished? then Some(Completed)
      else if ev.Errored? then Some(Failed)
      else if ev.Stopped? then Some(Cancelled)
      else None
    case DoFail(x) =>
      if x == id && id in h.runs && !Terminal(h.runs[id].state) then Some(Failed) else None
    case DoStop(c) =>
      if c in h.convs && h.convs[c].active == Some(id) then Some(Cancelled) else None
    case DoControl(x, action, answer, m) =>
      if x == id && Control(h, id, action, answer, m).1.Done? && id in h.runs && Cancels(h.runs[id].state, action)
      then Some(Cancelled) else None
    case _ => None
  }

  /** How the run last ended. */
  function Ended(steps: seq<Step>, id: RunId): Option<RunState> {
    if steps == [] then None
    else
      match EndOf(Exec(EMPTY, steps[..|steps| - 1]), steps[|steps| - 1], id)
      case Some(s) => Some(s)
      case None => Ended(steps[..|steps| - 1], id)
  }

  /** A run that is over stays so but for another end. */
  ghost predicate StaysOver(r: Run, r': Run) {
    (Terminal(r'.state) <==> Terminal(r.state)) && (Terminal(r.state) ==> r'.state == r.state)
  }

  ghost predicate EndsAs(h: Hub, h': Hub, id: RunId, end: Option<RunState>) {
    id in h.runs && id in h'.runs ==>
      match end
      case Some(s) => h'.runs[id].state == s
      case None => StaysOver(h.runs[id], h'.runs[id])
  }

  lemma HandsOnStaysOver(h: Hub, h': Hub, c: ConvId, a: RunId, id: RunId)
    requires HandsOn(h, h', c, a) && id in h.runs && id != a
    ensures id in h'.runs && StaysOver(h.runs[id], h'.runs[id])
  {
  }

  lemma StaysPutStaysOver(h: Hub, h': Hub, a: RunId, id: RunId)
    requires StaysPut(h, h', a) && id in h.runs && id != a
    ensures id in h'.runs && StaysOver(h.runs[id], h'.runs[id])
  {
  }

  lemma StopEnds(h: Hub, c: ConvId, id: RunId)
    requires Inv(h)
    ensures EndsAs(h, StopConversation(h, c).0, id, EndOf(h, DoStop(c), id))
  {
    StopLeadsTo(h, c);
    hide Inv, StopConversation, HandsOn, StaysOver;
    if id in h.runs {
      SameStaysOver(h.runs[id]);
      if c in h.convs && h.convs[c].active.Some? {
        if id == h.convs[c].active.value {
          assert EndOf(h, DoStop(c), id) == Some(Cancelled);
        } else {
          HandsOnStaysOver(h, StopConversation(h, c).0, c, h.convs[c].active.value, id);
          assert EndOf(h, DoStop(c), id).None?;
        }
      } else {
        assert EndOf(h, DoStop(c), id).None?;
      }
    }
  }

  lemma SameStaysOver(r: Run)
    ensures StaysOver(r, r)
  {
  }

  lemma FailEnds(h: Hub, x: RunId, id: RunId)
    ensures EndsAs(h, FailRun(h, x), id, EndOf(h, DoFail(x), id))
  {
    FailLeadsTo(h, x);
    hide FailRun;
    if x in h.runs && id in h.runs && id != x {
      var c := h.runs[x].conv;
      if !Terminal(h.runs[x].state) && c in h.convs && h.convs[c].active == Some(x) {
        HandsOnStaysOver(h, FailRun(h, x), c, x, id);
      }
    }
  }

  lemma EventEndsOthers(h: Hub, x: RunId, ev: RuntimeEvent, id: RunId)
    requires id in h.runs && id != x
    ensures id in ProjectEvent(h, x, ev).runs && StaysOver(h.runs[id], ProjectEvent(h, x, ev).runs[id])
  {
    EventAdvances(h, x, ev);
    hide ProjectEvent, HandsOn, StaysPut, StaysOver;
    if x in h.runs {
      var c := h.runs[x].conv;
      if (ev.Finished? || ev.Errored? || ev.Stopped?) && c in h.convs && h.convs[c].active == Some(x) {
        HandsOnStaysOver(h, ProjectEvent(h, x, ev), c, x, id);
      } else {
        StaysPutStaysOver(h, ProjectEvent(h, x, ev), x, id);
      }
    } else {
      SameStaysOver(h.runs[id]);
    }
  }

  lemma TimelyGoesOn(h: Hub, x: RunId, ev: RuntimeEvent)
    requires Inv(h) && Timely(h, x, ev) && x in h.runs
    requires ev.Started? || ev.NeedsApproval? || ev.NeedsInput? || ev.ResumesRunning?
    ensures !Terminal(h.runs[x].state)
  {
    ActiveIsOngoing(h, x);
  }

  lemma EventEndsItself(h: Hub, x: RunId, ev: RuntimeEvent)
    requires Inv(h) && Timely(h, x, ev) && x in h.runs
    ensures EndsAs(h, ProjectEvent(h, x, ev), x, EndOf(h, DoEvent(x, ev), x))
  {
    hide ProjectEvent, Inv, Timely;
    EventLeadsTo(h, x, ev);
    if ev.Started? || ev.NeedsApproval? || ev.NeedsInput? || ev.ResumesRunning? {
      TimelyGoesOn(h, x, ev);
    }
  }

  lemma EventEnds(h: Hub, x: RunId, ev: RuntimeEvent, id: RunId)
    requires Inv(h) && Timely(h, x, ev)
    ensures EndsAs(h, ProjectEvent(h, x, ev), id, EndOf(h, DoEvent(x, ev), id))
  {
    hide ProjectEvent, Inv, StaysOver, Timely;
    if id == x && x in h.runs {
      EventEndsItself(h, x, ev);
    } else if id in h.runs {
      EventEndsOthers(h, x, ev, id);
    }
  }

  lemma ControlEndsOthers(h: Hub, x: RunId, action: Action, answer: Answer, m: MessageId, id: RunId)
    requires Inv(h) && Control(h, x, action, answer, m).1.Done? && id in h.runs && id != x
    ensures var h' := Control(h, x, action, answer, m).0;
      id in h'.runs && StaysOver(h.runs[id], h'.runs[id])
  {
    ControlOutcomeExactly(h, x, action, answer, m);
    hide Control, Inv, HandsOn, StaysOver, OnlyLane, OthersSame;
    SameStaysOver(h.runs[id]);
    if Cancels(h.runs[x].state, action) {
      ControlCancels(h, x, action, answer, m);
      var c := h.runs[x].conv;
      if h.convs[c].active == Some(x) {
        HandsOnStaysOver(h, Control(h, x, action, answer, m).0, c, x, id);
      }
    } else {
      ControlLetsRun(h, x, action, answer, m);
    }
  }

  lemma ControlEndsItself(h: Hub, x: RunId, action: Action, answer: Answer, m: MessageId)
    requires Inv(h) && Control(h, x, action, answer, m).1.Done?
    ensures EndsAs(h, Control(h, x, action, answer, m).0, x, EndOf(h, DoControl(x, action, answer, m), x))
  {
    ControlOutcomeExactly(h, x, action, answer, m);
    ControlLeadsTo(h, x, action, answer, m);
    hide Control, Inv;
  }

  lemma ControlEnds(h: Hub, x: RunId, action: Action, answer: Answer, m: MessageId, id: RunId)
    requires Inv(h)
    ensures EndsAs(h, Control(h, x, action, answer, m).0, id, EndOf(h, DoControl(x, action, answer, m), id))
  {
    hide Control, Inv, StaysOver, Cancels;
    if Control(h, x, action, answer, m).1.Done? {
      if id == x {
        ControlEndsItself(h, x, action, answer, m);
      } else if id in h.runs {
        ControlEndsOthers(h, x, action, answer, m, id);
      }
    } else {
      ControlOutcomeExactly(h, x, action, answer, m);
      if id in h.runs {
        SameStaysOver(h.runs[id]);
      }
    }
  }

  lemma StepEnds(h: Hub, step: Step, id: RunId)
    requires Inv(h) && Allowed(h, step)
    ensures EndsAs(h, Next(h, step), id, EndOf(h, step, id))
  {
    match step
    case DoCreate(_, _, _) =>
    case DoSubmit(c, x, msg, model, now) => SubmitLeadsTo(h, c, x, msg, model, now);
    case DoCommand(_, _, _, _) =>
    case DoStop(c) => StopEnds(h, c, id);
    case DoControl(x, action, answer, m) => ControlEnds(h, x, action, answer, m, id);
    case DoRollback(c, m, now, known, ok) =>
      if Rollback(h, c, m, now, known, ok).1.Done? {
        RollbackIsTruncation(h, c, m, now);
      }
    case DoFail(x) => FailEnds(h, x, id);
    case DoEvent(x, ev) => EventEnds(h, x, ev, id);
    case DoSync(project, model, resolved) =>
      SyncLeadsTo(h, project, model, resolved);
      if id in h.runs {
        ActiveIsOngoing(h, id);
      }
    case DoDelete(_) =>
  }

  lemma OnlyThere(h: Hub, step: Step, id: RunId)
    requires Inv(h) && id !in h.runs
    ensures EndOf(h, step, id).None?
  {
    match step
    case DoStop(c) =>
      if c in h.convs {
        assert ConvInv(h.runs, h.issued, c, h.convs[c]);
      }
    case _ =>
  }

  lemma StepIssues(h: Hub, step: Step)
    requires Inv(h) && Allowed(h, step)
    ensures h.issued <= Next(h, step).issued
    ensures forall id :: id in Next(h, step).runs && id !in h.runs ==> id !in h.issued
  {
    hide Inv;
    match step
    case DoSubmit(c, x, msg, model, now) => SubmitLeadsTo(h, c, x, msg, model, now);
    case DoRollback(c, m, now, known, ok) =>
      if Rollback(h, c, m, now, known, ok).1.Done? {
        RollbackIsTruncation(h, c, m, now);
      }
    case DoCreate(_, _, _) =>
    case DoDelete(_) =>
    case _ => StepRestates(h, step); IssuedStays(h, step);
  }

  lemma IssuedStays(h: Hub, step: Step)
    requires step.DoCommand? || step.DoStop? || step.DoControl? || step.DoFail? || step.DoEvent? || step.DoSync?
    ensures Next(h, step).issued == h.issued
  {
  }

  lemma {:induction false} NeverEnded(steps: seq<Step>, id: RunId)
    requires AllAllowed(EMPTY, steps) && id !in Exec(EMPTY, steps).issued
    ensures Ended(steps, id).None?
  {
    if steps != [] {
      var front, step := steps[..|steps| - 1], steps[|steps| - 1];
      InvariantOverRuns(front);
      StepIssues(Exec(EMPTY, front), step);
      NeverEnded(front, id);
      assert Inv(Exec(EMPTY, front));
      OnlyThere(Exec(EMPTY, front), step, id);
    }
  }

  /** Over any run of the hub, a run is over exactly when something ended it, and then as it last was ended:
      completed when it finished, failed when it failed or could not be started, cancelled when it, or its
      conversation, was stopped, or it was denied. Nothing revives it. */
  lemma {:induction false} FateOverRuns(steps: seq<Step>, id: RunId)
    requires AllAllowed(EMPTY, steps) && id in Exec(EMPTY, steps).runs
    ensures var s := Exec(EMPTY, steps).runs[id].state;
      Ended(steps, id) == if s.Completed? || s.Failed? || s.Cancelled? then Some(s) else None
  {
    if steps != [] {
      var front, step := steps[..|steps| - 1], steps[|steps| - 1];
      var h := Exec(EMPTY, front);
      InvariantOverRuns(front);
      if id in h.runs {
        FateOverRuns(front, id);
        StepEnds(h, step, id);
        EndIsOver(h, step, id);
      } else {
        StepIssues(h, step);
        NeverEnded(front, id);
        OnlyThere(h, step, id);
        NewRunsGoOn(h, step, id);
      }
    }
  }

  lemma EndIsOver(h: Hub, step: Step, id: RunId)
    ensures EndOf(h, step, id).Some? ==> Terminal(EndOf(h, step, id).value)
  {
  }

  lemma NewRunsGoOn(h: Hub, step: Step, id: RunId)
    requires Inv(h) && Allowed(h, step) && id !in h.runs && id in Next(h, step).runs
    ensures !Terminal(Next(h, step).runs[id].state)
  {
    match step
    case DoSubmit(c, x, msg, model, now) => SubmitLeadsTo(h, c, x, msg, model, now);
    case DoRollback(c, m, now, known, ok) =>
      if Rollback(h, c, m, now, known, ok).1.Done? {
        RollbackIsTruncation(h, c, m, now);
      }
    case DoCreate(_, _, _) =>
    case DoDelete(_) =>
    case _ => StepRestates(h, step);
  }
}
