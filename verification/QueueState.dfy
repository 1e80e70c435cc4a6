/** The hub's mutable state and its locked sections, each proved to do what QueueModel says. */
module QueueState {
  import opened Basics
  import opened QueueModel

  /** A run under the model sync of conversation `c`. */
  function Rewritten(id: RunId, run: Run, c: ConvId, active: Option<RunId>, resolved: Option<string>): Run {
    if run.conv == c && !Terminal(run.state) && resolved.Some?
    then
      var updated := run.(model := resolved.value);
      if active == Some(id) then updated.(state := Pending) else updated
    else run
  }

  function Relabelled(conv: Conv, project: string, model: string): Conv {
    if conv.project == project then conv.(model := model) else conv
  }

  /** Every run and every conversation rewritten. */
  lemma SyncedAll(h: Hub, project: string, model: string, resolved: Option<string>, runs: map<RunId, Run>,
                  convs: map<ConvId, Conv>)
    requires runs.Keys == h.runs.Keys && convs.Keys == h.convs.Keys
    requires forall id :: id in runs ==> runs[id] == SyncedRun(h.convs, id, h.runs[id], project, resolved)
    requires forall c :: c in convs ==> convs[c] == Relabelled(h.convs[c], project, model)
    ensures h.(runs := runs, convs := convs) == SyncModel(h, project, model, resolved)
  {
    hide SyncedRun;
    assert runs == SyncModel(h, project, model, resolved).runs;
    assert convs == SyncModel(h, project, model, resolved).convs;
  }

  /** The runs of all conversations but those in `todo` rewritten. */
  ghost predicate RunsSynced(h: Hub, project: string, resolved: Option<string>, todo: set<ConvId>,
                             runs: map<RunId, Run>) {
    && runs.Keys == h.runs.Keys
    && forall id :: id in runs ==> (runs[id] ==
         if h.runs[id].conv in todo then h.runs[id] else SyncedRun(h.convs, id, h.runs[id], project, resolved))
  }

  lemma RunsSyncedStep(h: Hub, project: string, resolved: Option<string>, todo: set<ConvId>, c: ConvId,
                       convs: map<ConvId, Conv>, before: map<RunId, Run>, after: map<RunId, Run>)
    requires RunsSynced(h, project, resolved, todo, before) && after.Keys == before.Keys
    requires c in todo && c in convs && c in h.convs && convs[c] == h.convs[c]
    requires forall id :: id in after ==> (after[id] ==
      if before[id].conv == c then SyncedRun(convs, id, before[id], project, resolved) else before[id])
    ensures RunsSynced(h, project, resolved, todo - {c}, after)
  {
    forall id | id in after
      ensures after[id] == if h.runs[id].conv in todo - {c} then h.runs[id]
                           else SyncedRun(h.convs, id, h.runs[id], project, resolved)
    {
      assert before[id].conv == h.runs[id].conv;
    }
  }

  class AppState {
    var runs: map<RunId, Run>
    var convs: map<ConvId, Conv>
    var questions: map<RunId, Question>
    ghost var issued: set<RunId>

    ghost function View(): Hub
      reads this
    {
      Hub(runs, convs, questions, issued)
    }

    constructor ()
      ensures View() == EMPTY
    {
      runs, convs, questions, issued := map[], map[], map[], {};
    }

    // ---- queue helpers --------------------------------------------------------------------

    method DeriveNextQueueIndex(c: ConvId) returns (index: int)
      requires c in convs
      ensures index == NextIndex(runs, convs[c].order)
    {
      var order := convs[c].order;
      var maxValue := -1;
      for i := 0 to |order|
        invariant maxValue == MaxIndex(runs, order[..i])
      {
        assert order[..i + 1][..i] == order[..i];
        if order[i] in runs && runs[order[i]].queueIndex > maxValue {
          maxValue := runs[order[i]].queueIndex;
        }
      }
      assert order[..|order|] == order;
      index := maxValue + 1;
    }

    method FirstMatching(order: seq<RunId>, want: RunState -> bool) returns (found: Option<RunId>)
      ensures found == FirstWith(runs, order, want)
    {
      for i := 0 to |order|
        invariant FirstWith(runs, order, want) == FirstWith(runs, order[i..], want)
      {
        if order[i] in runs && want(runs[order[i]].state) {
          return Some(order[i]);
        }
        assert order[i..][1..] == order[i + 1..];
      }
      found := None;
    }

    method DeriveState(order: seq<RunId>, active: Option<RunId>) returns (q: QueueState)
      ensures q == DeriveQueueState(runs, order, active)
    {
      if active.Some? {
        return Running;
      }
      var queued := FirstMatching(order, (s: RunState) => s.Queued?);
      q := if queued.Some? then Waiting else Idle;
    }

    /** Makes the first queued run pending. */
    method StartNextQueued(order: seq<RunId>) returns (next: Option<RunId>)
      modifies this`runs
      ensures next == FirstQueued(old(runs), order)
      ensures next.Some? ==> next.value in old(runs) && runs == SetState(old(runs), next.value, Pending)
      ensures next.None? ==> runs == old(runs)
    {
      for i := 0 to |order|
        invariant runs == old(runs)
        invariant FirstQueued(runs, order) == FirstQueued(runs, order[i..])
      {
        var id := order[i];
        if id in runs && runs[id].state.Queued? {
          runs := runs[id := runs[id].(state := Pending)];
          return Some(id);
        }
        assert order[i..][1..] == order[i + 1..];
      }
      next := None;
    }

    /** The active run is gone: hand the lane to the next queued run. */
    method AdvanceQueue(c: ConvId)
      requires c in convs
      modifies this`runs, this`convs
      ensures runs == StartNext(old(runs), old(convs[c]))
      ensures convs == old(convs)[c := ConvAfterNext(old(runs), old(convs[c]))]
    {
      var conv := convs[c].(active := None);
      var next := StartNextQueued(conv.order);
      if next.None? {
        conv := conv.(queueState := Idle);
      } else {
        conv := conv.(active := next, queueState := Running);
      }
      convs := convs[c := conv];
    }

    // ---- submit and command results ---------------------------------------------------------

    method CreateSession(c: ConvId, project: string, model: string)
      requires c !in convs
      modifies this
      ensures View() == CreateConversation(old(View()), c, project, model)
    {
      convs := convs[c := Conv(project, model, None, Idle, [], [], [])];
    }

    method SubmitRun(c: ConvId, id: RunId, msgId: MessageId, model: string, now: nat) returns (outcome: Outcome)
      modifies this
      ensures (View(), outcome) == Submit(old(View()), c, id, msgId, model, now)
    {
      if c !in convs {
        return ConversationNotFound;
      }
      var conv := convs[c];
      var queueIndex := DeriveNextQueueIndex(c);
      conv := conv.(messages := conv.messages + [Message(msgId, User, Some(queueIndex))]);
      var state := Queued;
      if conv.active.None? {
        state := Pending;
      }
      runs := runs[id := Run(c, msgId, state, queueIndex, model)];
      issued := issued + {id};
      conv := conv.(order := conv.order + [id]);
      conv := conv.(snapshots := conv.snapshots + [Snapshot(msgId, conv.messages, conv.order, now)]);
      if conv.active.None? {
        conv := conv.(active := Some(id), queueState := Running);
      } else {
        conv := conv.(queueState := Waiting);
      }
      convs := convs[c := conv];
      outcome := Done;
    }

    method AppendCommandResult(c: ConvId, userMsg: MessageId, systemMsg: MessageId, now: nat) returns (outcome: Outcome)
      modifies this
      ensures (View(), outcome) == CommandResult(old(View()), c, userMsg, systemMsg, now)
    {
      if c !in convs {
        return ConversationNotFound;
      }
      var conv := convs[c];
      var messages := conv.messages + [Message(userMsg, User, None)];
      messages := messages + [Message(systemMsg, System, None)];
      assert messages == conv.messages + [Message(userMsg, User, None), Message(systemMsg, System, None)];
      conv := conv.(messages := messages, snapshots := conv.snapshots + [Snapshot(userMsg, messages, conv.order, now)]);
      convs := convs[c := conv];
      outcome := Done;
    }

    // ---- runs that end ------------------------------------------------------------------------

    method StopSession(c: ConvId) returns (outcome: Outcome)
      modifies this
      ensures (View(), outcome) == StopConversation(old(View()), c)
    {
      if c !in convs {
        return ConversationNotFound;
      }
      var active := convs[c].active;
      if active.Some? && active.value in runs {
        runs := runs[active.value := runs[active.value].(state := Cancelled)];
      }
      AdvanceQueue(c);
      outcome := Done;
    }

    method FailExecutionAndAdvanceQueue(id: RunId)
      modifies this
      ensures View() == FailRun(old(View()), id)
    {
      if id !in runs || Terminal(runs[id].state) {
        return;
      }
      var c := runs[id].conv;
      runs := runs[id := runs[id].(state := Failed)];
      if c in convs && convs[c].active == Some(id) {
        AdvanceQueue(c);
      }
    }

    method ProjectRuntimeEvent(id: RunId, ev: RuntimeEvent)
      modifies this
      ensures View() == ProjectEvent(old(View()), id, ev)
    {
      if id !in runs {
        return;
      }
      match ev {
        case NeedsInput(Some(q)) => questions := questions[id := q];
        case ResumesRunning(true) => questions := questions - {id};
        case _ =>
      }
      var c := runs[id].conv;
      runs := runs[id := runs[id].(state := StateAfter(ev, runs[id].state))];
      if Ends(ev) {
        questions := questions - {id};
        if c in convs && convs[c].active == Some(id) {
          AdvanceQueue(c);
        }
      }
    }

    // ---- run control ----------------------------------------------------------------------------

    method ControlRun(id: RunId, action: Action, answer: Answer, answerMsg: MessageId) returns (outcome: Outcome)
      modifies this
      ensures (View(), outcome) == Control(old(View()), id, action, answer, answerMsg)
    {
      if id !in runs {
        return RunNotFound;
      }
      if runs[id].conv !in convs {
        return ConversationNotFound;
      }
      var applied := ApplyControl(ToCore(runs[id].state), action);
      if applied.None? {
        return StateConflict;
      }
      match action {
        case Approve => outcome := ResumeRun(id, Approve, answer, answerMsg);
        case Resume => outcome := ResumeRun(id, Resume, answer, answerMsg);
        case Deny => outcome := DenyRun(id, answer, answerMsg);
        case Stop => outcome := StopRun(id, Stop, answer, answerMsg);
        case AnswerQuestion => outcome := AnswerRun(id, answer, answerMsg);
      }
    }

    /** Approve and resume. */
    method ResumeRun(id: RunId, action: Action, answer: Answer, answerMsg: MessageId) returns (outcome: Outcome)
      requires id in runs && runs[id].conv in convs && (action.Approve? || action.Resume?)
      requires ApplyControl(ToCore(runs[id].state), action).Some?
      modifies this
      ensures (View(), outcome) == Control(old(View()), id, action, answer, answerMsg)
    {
      var run, conv := runs[id], convs[runs[id].conv];
      var desired := FromCore(ApplyControl(ToCore(run.state), action).value, run.state);
      if conv.active.Some? && conv.active.value != id {
        return RunAlreadyActive;
      }
      if run.state.Confirming? {
        desired := Executing;
      }
      WriteControlled(id, desired, conv.(active := Some(id), queueState := Running));
      outcome := Done;
    }

    method DenyRun(id: RunId, answer: Answer, answerMsg: MessageId) returns (outcome: Outcome)
      requires id in runs && runs[id].conv in convs && ApplyControl(ToCore(runs[id].state), Deny).Some?
      modifies this
      ensures (View(), outcome) == Control(old(View()), id, Deny, answer, answerMsg)
    {
      if !runs[id].state.Confirming? {
        outcome := StopRun(id, Deny, answer, answerMsg);
        return;
      }
      var conv := convs[runs[id].conv];
      WriteControlled(id, Executing, conv.(active := Some(id), queueState := Running));
      outcome := Done;
    }

    /** Stop, and deny of a run that does not wait for approval. */
    method StopRun(id: RunId, action: Action, answer: Answer, answerMsg: MessageId) returns (outcome: Outcome)
      requires id in runs && runs[id].conv in convs && ApplyControl(ToCore(runs[id].state), action).Some?
      requires action.Stop? || (action.Deny? && !runs[id].state.Confirming?)
      modifies this
      ensures (View(), outcome) == Control(old(View()), id, action, answer, answerMsg)
    {
      var run := runs[id];
      var conv := ReleaseLane(id, convs[run.conv]);
      runs := runs[id := run.(state := Cancelled)];
      questions := questions - {id};
      convs := convs[run.conv := conv];
      outcome := Done;
    }

    method AnswerRun(id: RunId, answer: Answer, answerMsg: MessageId) returns (outcome: Outcome)
      requires id in runs && runs[id].conv in convs && ApplyControl(ToCore(runs[id].state), AnswerQuestion).Some?
      modifies this
      ensures (View(), outcome) == Control(old(View()), id, AnswerQuestion, answer, answerMsg)
    {
      var run, conv := runs[id], convs[runs[id].conv];
      if conv.active.Some? && conv.active.value != id {
        return RunAlreadyActive;
      }
      if !run.state.AwaitingInput? || id !in questions {
        return StateConflict;
      }
      if !AnswerFits(questions[id], answer) {
        return InvalidAnswer;
      }
      var index := if run.queueIndex >= 0 then Some(run.queueIndex) else None;
      conv := conv.(active := Some(id), queueState := Running,
                    messages := conv.messages + [Message(answerMsg, User, index)]);
      WriteControlled(id, Executing, conv);
      outcome := Done;
      ghost var expected := Control(old(View()), id, AnswerQuestion, answer, answerMsg).0;
      assert runs == expected.runs && convs == expected.convs && questions == expected.questions;
    }

    /** The state a control leads to is written last; only a run that waits for input keeps its question. */
    method WriteControlled(id: RunId, desired: RunState, conv: Conv)
      requires id in runs
      modifies this
      ensures runs == SetState(old(runs), id, desired)
      ensures questions == if desired.AwaitingInput? then old(questions) else old(questions) - {id}
      ensures convs == old(convs)[old(runs)[id].conv := conv] && issued == old(issued)
    {
      var c := runs[id].conv;
      runs := runs[id := runs[id].(state := desired)];
      if !desired.AwaitingInput? {
        questions := questions - {id};
      }
      convs := convs[c := conv];
    }

    /** The lane after a cancelled run: the next run if it was active, else only a new status. */
    method ReleaseLane(id: RunId, conv: Conv) returns (released: Conv)
      modifies this`runs
      ensures conv.active == Some(id) ==>
        runs == StartNext(old(runs), conv) && released == ConvAfterNext(old(runs), conv)
      ensures conv.active != Some(id) ==>
        runs == old(runs) && released == conv.(queueState := DeriveQueueState(runs, conv.order, conv.active))
    {
      if conv.active == Some(id) {
        var next := StartNextQueued(conv.order);
        if next.None? {
          released := conv.(active := None, queueState := Idle);
        } else {
          released := conv.(active := next, queueState := Running);
        }
      } else {
        var q := DeriveState(conv.order, conv.active);
        released := conv.(queueState := q);
      }
    }

    // ---- rollback ---------------------------------------------------------------------------------

    method FindStoredSnapshot(items: seq<Snapshot>, messageId: MessageId) returns (found: Option<Snapshot>)
      ensures found == FindSnapshot(items, messageId)
    {
      assert items[..|items|] == items;
      for i := |items| downto 0
        invariant FindSnapshot(items, messageId) == FindSnapshot(items[..i], messageId)
      {
        assert items[..i + 1][..i] == items[..i];
        if items[i].messageId == messageId {
          return Some(items[i]);
        }
      }
      found := None;
    }

    method PositionOf(messages: seq<Message>, messageId: MessageId) returns (position: Option<nat>)
      ensures position == MessagePosition(messages, messageId)
      ensures position.Some? ==> position.value < |messages|
    {
      for i := 0 to |messages|
        invariant var rest := MessagePosition(messages[i..], messageId);
          MessagePosition(messages, messageId) == if rest.None? then None else Some(rest.value + i)
      {
        if messages[i].id == messageId {
          return Some(i);
        }
        assert messages[i..][1..] == messages[i + 1..];
      }
      position := None;
    }

    method MaxQueueIndexOfMessages(messages: seq<Message>) returns (maxValue: int)
      ensures maxValue == MaxMessageIndex(messages)
    {
      maxValue := -1;
      for i := 0 to |messages|
        invariant maxValue == MaxMessageIndex(messages[..i])
      {
        assert messages[..i + 1][..i] == messages[..i];
        if messages[i].queueIndex.Some? && messages[i].queueIndex.value > maxValue {
          maxValue := messages[i].queueIndex.value;
        }
      }
      assert messages[..|messages|] == messages;
    }

    method BuildSnapshotFromMessages(c: ConvId, messageId: MessageId, now: nat) returns (snapshot: Option<Snapshot>)
      requires c in convs
      ensures snapshot == FallbackSnapshot(View(), convs[c], messageId, now)
    {
      var messages, order := convs[c].messages, convs[c].order;
      var position := PositionOf(messages, messageId);
      if position.None? || !messages[position.value].role.User? {
        return None;
      }
      var kept := messages[..position.value + 1];
      var target := -1;
      if messages[position.value].queueIndex.Some? {
        target := messages[position.value].queueIndex.value;
      }
      if target < 0 {
        target := MaxQueueIndexOfMessages(kept);
      }
      var keptIds := [];
      for i := 0 to |order|
        invariant keptIds == KeptByIndex(runs, order[..i], target)
      {
        assert order[..i + 1][..i] == order[..i];
        if order[i] in runs && !(target >= 0 && runs[order[i]].queueIndex > target) {
          keptIds := keptIds + [order[i]];
        }
      }
      assert order[..|order|] == order;
      snapshot := Some(Snapshot(messageId, kept, keptIds, now));
    }

    method PruneSnapshots(items: seq<Snapshot>, limit: nat) returns (kept: seq<Snapshot>)
      ensures kept == KeepSnapshotsUntil(items, limit)
    {
      kept := [];
      for i := 0 to |items|
        invariant kept == KeepSnapshotsUntil(items[..i], limit)
      {
        assert items[..i + 1][..i] == items[..i];
        if items[i].createdAt <= limit {
          kept := kept + [items[i]];
        }
      }
      assert items[..|items|] == items;
    }

    /** Deletes the conversation's runs that the snapshot does not name. */
    method DropRuns(c: ConvId, snapshot: Snapshot)
      modifies this`runs
      ensures runs == SurvivingRuns(old(runs), c, snapshot)
    {
      var todo, dropped := runs.Keys, {};
      while todo != {}
        invariant runs == old(runs)
        invariant todo <= runs.Keys
        invariant dropped == set id | id in runs && id !in todo && runs[id].conv == c && id !in snapshot.runIds
      {
        var id :| id in todo;
        todo := todo - {id};
        if runs[id].conv == c && id !in snapshot.runIds {
          dropped := dropped + {id};
        }
      }
      while dropped != {}
        invariant forall id :: id in runs ==> id in old(runs) && runs[id] == old(runs)[id]
        invariant forall id :: id in old(runs) ==>
          (id in runs <==> id in dropped || old(runs)[id].conv != c || id in snapshot.runIds)
      {
        var id :| id in dropped;
        runs := runs - {id};
        dropped := dropped - {id};
      }
    }

    method OrderFrom(snapshot: Snapshot) returns (ordered: seq<RunId>)
      ensures ordered == Filter(snapshot.runIds, runs.Keys)
    {
      var ids := snapshot.runIds;
      ordered := [];
      for i := 0 to |ids|
        invariant ordered == Filter(ids[..i], runs.Keys)
      {
        assert ids[..i + 1][..i] == ids[..i];
        if ids[i] in runs {
          ordered := ordered + [ids[i]];
        }
      }
      assert ids[..|ids|] == ids;
    }

    method RollbackSession(c: ConvId, messageId: MessageId, now: nat, projectKnown: bool, restoreOk: bool)
      returns (outcome: Outcome)
      modifies this
      ensures (View(), outcome) == Rollback(old(View()), c, messageId, now, projectKnown, restoreOk)
    {
      if c !in convs {
        return ConversationNotFound;
      }
      var conv := convs[c];
      var found := FindStoredSnapshot(conv.snapshots, messageId);
      if found.None? {
        found := BuildSnapshotFromMessages(c, messageId, now);
        if found.None? {
          return SnapshotNotFound;
        }
      }
      var snapshot := found.value;
      if !projectKnown {
        return ProjectNotFound;
      }
      if !restoreOk {
        return RestoreFailed;
      }
      DropRuns(c, snapshot);
      var ordered := OrderFrom(snapshot);
      var kept := PruneSnapshots(conv.snapshots, snapshot.createdAt);
      conv := conv.(order := ordered, messages := snapshot.messages, snapshots := kept);
      var active := FirstMatching(ordered, Ongoing);
      var q := DeriveState(ordered, active);
      conv := conv.(active := active, queueState := q);
      convs := convs[c := conv];
      outcome := Done;
    }

    // ---- model configuration and deletion -----------------------------------------------------------

    /** Rewrites the runs of one conversation, in whatever order the map yields them. */
    method SyncRunsOf(c: ConvId, active: Option<RunId>, resolved: Option<string>)
      modifies this`runs
      ensures runs.Keys == old(runs).Keys
      ensures forall id :: id in runs ==> runs[id] == Rewritten(id, old(runs)[id], c, active, resolved)
    {
      var todo := runs.Keys;
      while todo != {}
        invariant runs.Keys == old(runs).Keys
        invariant todo <= runs.Keys
        invariant forall id :: id in todo ==> runs[id] == old(runs)[id]
        invariant forall id :: id in runs && id !in todo ==>
          runs[id] == Rewritten(id, old(runs)[id], c, active, resolved)
      {
        var id :| id in todo;
        todo := todo - {id};
        var run := runs[id];
        if run.conv == c && !Terminal(run.state) && resolved.Some? {
          run := run.(model := resolved.value);
          runs := runs[id := run];
          if active == Some(id) && !run.state.Pending? {
            runs := runs[id := run.(state := Pending)];
          }
        }
      }
    }

    method SyncOne(c: ConvId, project: string, model: string, resolved: Option<string>)
      requires c in convs
      modifies this`runs, this`convs
      ensures convs == old(convs)[c := Relabelled(old(convs)[c], project, model)]
      ensures runs.Keys == old(runs).Keys
      ensures forall id :: id in runs ==> (runs[id] ==
        if old(runs)[id].conv == c then SyncedRun(old(convs), id, old(runs)[id], project, resolved) else old(runs)[id])
    {
      if convs[c].project == project {
        if convs[c].model != model {
          convs := convs[c := convs[c].(model := model)];
        }
        SyncRunsOf(c, convs[c].active, resolved);
      }
    }

    method SyncModelConfig(project: string, model: string, resolved: Option<string>)
      modifies this
      ensures View() == SyncModel(old(View()), project, model, resolved)
    {
      var todo := convs.Keys;
      assert RunsSynced(View(), project, resolved, todo, runs);
      while todo != {}
        invariant convs.Keys == old(convs).Keys && todo <= convs.Keys
        invariant forall d :: d in todo ==> convs[d] == old(convs)[d]
        invariant forall d :: d in convs && d !in todo ==> convs[d] == Relabelled(old(convs)[d], project, model)
        invariant RunsSynced(old(View()), project, resolved, todo, runs)
        invariant questions == old(questions) && issued == old(issued)
      {
        var c :| c in todo;
        ghost var before, convsBefore := runs, convs;
        SyncOne(c, project, model, resolved);
        RunsSyncedStep(old(View()), project, resolved, todo, c, convsBefore, before, runs);
        todo := todo - {c};
      }
      SyncedAll(old(View()), project, model, resolved, runs, convs);
    }

    method DeleteSession(c: ConvId)
      modifies this
      ensures View() == DeleteConversation(old(View()), c)
    {
      var todo := runs.Keys;
      while todo != {}
        invariant todo <= old(runs).Keys
        invariant forall id :: id in runs ==> id in old(runs) && runs[id] == old(runs)[id]
        invariant forall id :: id in old(runs) ==> (id in runs <==> id in todo || old(runs)[id].conv != c)
        invariant convs == old(convs) && questions == old(questions) && issued == old(issued)
      {
        var id :| id in todo;
        todo := todo - {id};
        if runs[id].conv == c {
          runs := runs - {id};
        }
      }
      convs := convs - {c};
    }
  }
}
