/** Every step of the run queue keeps the invariant; a runtime event does so exactly when it
    does not make a run other than the active one ongoing. */
module QueueSteps {
  import opened Basics
  import opened QueueModel
  import opened QueueInvariant

  lemma {:induction false} FirstWithAgrees(a: map<RunId, Run>, b: map<RunId, Run>, order: seq<RunId>,
      want: RunState -> bool)
    requires forall id :: id in order ==> (id in a && want(a[id].state) <==> id in b && want(b[id].state))
    ensures FirstWith(a, order, want) == FirstWith(b, order, want)
  {
    if order != [] {
      assert order[0] in order;
      FirstWithAgrees(a, b, order[1..], want);
    }
  }

  // ---- runs that end ----------------------------------------------------------------------

  /** The active run is over; the lane is repaired by starting the next queued run. */
  lemma EndedLane(runs: map<RunId, Run>, conv: Conv, a: RunId, s: RunState)
    requires NoDup(conv.order) && forall id :: id in conv.order ==> id in runs
    requires Lane(runs, conv.order, Some(a)) && a in runs && Terminal(s)
    ensures var runs' := SetState(runs, a, s);
      && Lane(StartNext(runs', conv), conv.order, ConvAfterNext(runs', conv).active)
      && (ConvAfterNext(runs', conv).queueState.Idle? <==> ConvAfterNext(runs', conv).active.None?)
  {
    AdvanceRestoresLane(SetState(runs, a, s), conv);
  }

  lemma EndRestated(h: Hub, id: RunId, s: RunState, questions: map<RunId, Question>)
    requires id in h.runs && h.runs[id].conv in h.convs
    requires Lists(h.runs, h.runs[id].conv, h.convs[h.runs[id].conv].order)
    ensures var c := h.runs[id].conv;
      Restated(h, AdvanceAfter(h, SetState(h.runs, id, s), id, c).(questions := questions), c)
  {
    var conv := h.convs[h.runs[id].conv];
    FirstWithFinds(SetState(h.runs, id, s), conv.order, (s: RunState) => s.Queued?);
  }

  lemma EndActiveKeeps(h: Hub, id: RunId, s: RunState, questions: map<RunId, Question>)
    requires Inv(h) && id in h.runs && Terminal(s)
    requires h.convs[h.runs[id].conv].active == Some(id)
    ensures Inv(AdvanceAfter(h, SetState(h.runs, id, s), id, h.runs[id].conv).(questions := questions))
  {
    var c := h.runs[id].conv;
    var h' := AdvanceAfter(h, SetState(h.runs, id, s), id, c).(questions := questions);
    assert ConvInv(h.runs, h.issued, c, h.convs[c]);
    EndRestated(h, id, s, questions);
    EndedLane(h.runs, h.convs[c], id, s);
    RestateKeeps(h, h', c);
  }

  lemma EndedOtherLane(runs: map<RunId, Run>, order: seq<RunId>, active: Option<RunId>, id: RunId, s: RunState)
    requires (forall x :: x in order ==> x in runs) && id in runs && Lane(runs, order, active)
    requires Terminal(s) && active != Some(id)
    ensures Lane(SetState(runs, id, s), order, active)
  {
  }

  /** A run that is not active may end at any time. */
  lemma EndOtherKeeps(h: Hub, id: RunId, s: RunState, queueState: QueueState, questions: map<RunId, Question>)
    requires Inv(h) && id in h.runs && Terminal(s)
    requires h.convs[h.runs[id].conv].active != Some(id)
    requires queueState.Idle? <==> h.convs[h.runs[id].conv].active.None?
    ensures var c := h.runs[id].conv;
      Inv(h.(runs := SetState(h.runs, id, s),
             convs := h.convs[c := h.convs[c].(queueState := queueState)],
             questions := questions))
  {
    var c := h.runs[id].conv;
    assert ConvInv(h.runs, h.issued, c, h.convs[c]);
    EndedOtherLane(h.runs, h.convs[c].order, h.convs[c].active, id, s);
    hide Lane, ConvInv, Inv;
    RestateKeeps(h, h.(runs := SetState(h.runs, id, s),
                       convs := h.convs[c := h.convs[c].(queueState := queueState)],
                       questions := questions), c);
  }

  lemma EndRunKeeps(h: Hub, id: RunId, s: RunState, questions: map<RunId, Question>)
    requires Inv(h) && id in h.runs && Terminal(s)
    ensures Inv(AdvanceAfter(h, SetState(h.runs, id, s), id, h.runs[id].conv).(questions := questions))
  {
    var c := h.runs[id].conv;
    assert ConvInv(h.runs, h.issued, c, h.convs[c]);
    if h.convs[c].active == Some(id) {
      EndActiveKeeps(h, id, s, questions);
    } else {
      EndOtherKeeps(h, id, s, h.convs[c].queueState, questions);
      assert h.convs[c := h.convs[c].(queueState := h.convs[c].queueState)] == h.convs;
    }
  }

  lemma {:induction false} FailKeeps(h: Hub, id: RunId)
    requires Inv(h)
    ensures Inv(FailRun(h, id))
  {
    if id in h.runs && !Terminal(h.runs[id].state) {
      EndRunKeeps(h, id, Failed, h.questions);
    }
  }

  lemma StopKeeps(h: Hub, c: ConvId)
    requires Inv(h)
    ensures Inv(StopConversation(h, c).0)
  {
    if c in h.convs {
      var conv := h.convs[c];
      assert ConvInv(h.runs, h.issued, c, conv);
      if conv.active.Some? {
        EndActiveKeeps(h, conv.active.value, Cancelled, h.questions);
      } else {
        AdvanceRestoresLane(h.runs, conv);
        FirstWithFinds(h.runs, conv.order, (s: RunState) => s.Queued?);
        RestateKeeps(h, StopConversation(h, c).0, c);
      }
    }
  }

  // ---- run control ------------------------------------------------------------------------

  /** Stop and deny advance the queue before they record that the run is cancelled. With the
      invariant the result is that of ending the run first. */
  lemma CancelEndsRun(h: Hub, id: RunId)
    requires id in h.runs && h.runs[id].conv in h.convs && !h.runs[id].state.Queued?
    requires h.convs[h.runs[id].conv].active == Some(id)
    ensures CancelRun(h, id)
         == AdvanceAfter(h, SetState(h.runs, id, Cancelled), id, h.runs[id].conv).(questions := h.questions - {id})
  {
    var conv := h.convs[h.runs[id].conv];
    var runs := SetState(h.runs, id, Cancelled);
    FirstWithAgrees(h.runs, runs, conv.order, (s: RunState) => s.Queued?);
    FirstWithFinds(h.runs, conv.order, (s: RunState) => s.Queued?);
    assert StartNext(h.runs, conv)[id := h.runs[id].(state := Cancelled)] == StartNext(runs, conv);
  }

  lemma CancelKeeps(h: Hub, id: RunId)
    requires Inv(h) && id in h.runs && !Terminal(h.runs[id].state)
    ensures Inv(CancelRun(h, id))
  {
    var c := h.runs[id].conv;
    assert ConvInv(h.runs, h.issued, c, h.convs[c]);
    ActiveIsOngoing(h, id);
    if h.convs[c].active == Some(id) {
      CancelEndsRun(h, id);
      EndActiveKeeps(h, id, Cancelled, h.questions - {id});
    } else {
      EndOtherKeeps(h, id, Cancelled, DeriveQueueState(h.runs, h.convs[c].order, h.convs[c].active),
                    h.questions - {id});
    }
  }

  lemma ResumedLane(runs: map<RunId, Run>, order: seq<RunId>, id: RunId, s: RunState)
    requires (forall x :: x in order ==> x in runs) && id in runs && Lane(runs, order, Some(id)) && Ongoing(s)
    ensures Lane(SetState(runs, id, s), order, Some(id))
  {
    forall i, j | 0 <= i < j < |order| && order[j] == id
      ensures Terminal(runs[order[i]].state) && order[i] != id
    {
      assert order[i] in order && Ongoing(runs[order[j]].state);
    }
  }

  /** Moving the active run from one ongoing state to another. */
  lemma ResumeActiveKeeps(h: Hub, id: RunId, s: RunState, messages: seq<Message>, questions: map<RunId, Question>)
    requires Inv(h) && id in h.runs && Ongoing(s)
    requires h.convs[h.runs[id].conv].active == Some(id)
    ensures var c := h.runs[id].conv;
      Inv(h.(runs := SetState(h.runs, id, s),
             convs := h.convs[c := h.convs[c].(active := Some(id), queueState := Running, messages := messages)],
             questions := questions))
  {
    var c := h.runs[id].conv;
    assert ConvInv(h.runs, h.issued, c, h.convs[c]);
    ResumedLane(h.runs, h.convs[c].order, id, s);
    hide Lane, ConvInv, Inv;
    RestateKeeps(h, h.(runs := SetState(h.runs, id, s),
             convs := h.convs[c := h.convs[c].(active := Some(id), queueState := Running, messages := messages)],
             questions := questions), c);
  }

  lemma ActiveIsOngoing(h: Hub, id: RunId)
    requires Inv(h) && id in h.runs
    ensures var active := h.convs[h.runs[id].conv].active;
      && (Ongoing(h.runs[id].state) <==> active == Some(id))
      && (active.None? ==> Terminal(h.runs[id].state))
  {
    assert ConvInv(h.runs, h.issued, h.runs[id].conv, h.convs[h.runs[id].conv]);
    assert id in h.convs[h.runs[id].conv].order;
  }

  /** An accepted control that does not cancel only restates the active run. */
  lemma ControlResumes(h: Hub, id: RunId, action: Action, answer: Answer, answerMsg: MessageId)
    requires id in h.runs && h.runs[id].conv in h.convs
    requires var active := h.convs[h.runs[id].conv].active;
      && (Ongoing(h.runs[id].state) <==> active == Some(id))
      && (active.None? ==> Terminal(h.runs[id].state))
    requires Control(h, id, action, answer, answerMsg).1.Done?
    requires !action.Stop? && !(action.Deny? && !h.runs[id].state.Confirming?)
    ensures var h' := Control(h, id, action, answer, answerMsg).0;
      var c := h.runs[id].conv;
      && h.convs[c].active == Some(id)
      && c in h'.convs && id in h'.runs && Ongoing(h'.runs[id].state)
      && h' == h.(runs := SetState(h.runs, id, h'.runs[id].state),
                  convs := h.convs[c :=
                    h.convs[c].(active := Some(id), queueState := Running, messages := h'.convs[c].messages)],
                  questions := h'.questions)
  {
  }

  lemma {:induction false} ControlKeeps(h: Hub, id: RunId, action: Action, answer: Answer, answerMsg: MessageId)
    requires Inv(h)
    ensures Inv(Control(h, id, action, answer, answerMsg).0)
  {
    hide ConvInv;
    var (h', outcome) := Control(h, id, action, answer, answerMsg);
    if outcome.Done? {
      ActiveIsOngoing(h, id);
      if action.Stop? || (action.Deny? && !h.runs[id].state.Confirming?) {
        CancelKeeps(h, id);
      } else {
        ControlResumes(h, id, action, answer, answerMsg);
        ResumeActiveKeeps(h, id, h'.runs[id].state, h'.convs[h.runs[id].conv].messages, h'.questions);
      }
    }
  }

  lemma ControlOutcome(h: Hub, id: RunId, action: Action, answer: Answer, answerMsg: MessageId)
    requires id in h.runs && h.runs[id].conv in h.convs
    requires Control(h, id, action, answer, answerMsg).1.Done?
    ensures !Terminal(h.runs[id].state)
    ensures var h' := Control(h, id, action, answer, answerMsg).0;
      && id in h'.runs
      && (Terminal(h'.runs[id].state) <==> action.Stop? || (action.Deny? && !h.runs[id].state.Confirming?))
    ensures h.convs[h.runs[id].conv].active == Some(id) || h.convs[h.runs[id].conv].active.None?
      || action.Stop? || action.Deny?
  {
  }

  /** A control that is accepted acts on the active run or cancels a queued one, and cancels
      exactly when it is a stop or the denial of a run that does not wait for approval. */
  lemma {:induction false} ControlTargets(h: Hub, id: RunId, action: Action, answer: Answer, answerMsg: MessageId)
    requires Inv(h)
    requires Control(h, id, action, answer, answerMsg).1.Done?
    ensures id in h.runs && !Terminal(h.runs[id].state)
    ensures h.convs[h.runs[id].conv].active == Some(id) || (h.runs[id].state.Queued? && (action.Stop? || action.Deny?))
    ensures var h' := Control(h, id, action, answer, answerMsg).0;
      && id in h'.runs
      && (Terminal(h'.runs[id].state) <==> action.Stop? || (action.Deny? && !h.runs[id].state.Confirming?))
  {
    ActiveIsOngoing(h, id);
    ControlOutcome(h, id, action, answer, answerMsg);
  }

  /** A control that is accepted leaves no question open for its run, and no other question touched. */
  lemma ControlSettlesQuestion(h: Hub, id: RunId, action: Action, answer: Answer, answerMsg: MessageId)
    requires id in h.runs && h.runs[id].conv in h.convs
    requires Control(h, id, action, answer, answerMsg).1.Done?
    ensures Control(h, id, action, answer, answerMsg).0.questions == h.questions - {id}
  {
  }

  lemma TerminalRefusesAnswer(h: Hub, id: RunId, answer: Answer, answerMsg: MessageId)
    requires id in h.runs && h.runs[id].conv in h.convs && Terminal(h.runs[id].state)
    ensures Control(h, id, AnswerQuestion, answer, answerMsg) == (h, StateConflict)
  {
  }

  lemma StopCancelsActive(h: Hub, c: ConvId, a: RunId)
    requires c in h.convs && h.convs[c].active == Some(a) && a in h.runs
    ensures var h' := StopConversation(h, c).0;
      && a in h'.runs && h'.runs[a] == h.runs[a].(state := Cancelled)
      && h'.questions == h.questions && h'.convs.Keys == h.convs.Keys
  {
    FirstWithFinds(SetState(h.runs, a, Cancelled), h.convs[c].order, (s: RunState) => s.Queued?);
  }

  /** Stopping the conversation does not: the question of the stopped run stays open, but no answer to
      it is accepted any more. */
  lemma {:induction false} StopLeavesQuestion(h: Hub, c: ConvId, a: RunId, answer: Answer, answerMsg: MessageId)
    requires Inv(h) && c in h.convs && h.convs[c].active == Some(a) && a in h.questions
    ensures var h' := StopConversation(h, c).0;
      && a in h'.questions && h'.questions[a] == h.questions[a]
      && Control(h', a, AnswerQuestion, answer, answerMsg) == (h', StateConflict)
  {
    assert ConvInv(h.runs, h.issued, c, h.convs[c]);
    StopCancelsActive(h, c, a);
    TerminalRefusesAnswer(StopConversation(h, c).0, a, answer, answerMsg);
  }

  // ---- runtime events -----------------------------------------------------------------------

  /** The event leaves every run but the active one queued or over. */
  ghost predicate Timely(h: Hub, id: RunId, ev: RuntimeEvent) {
    id in h.runs && Ongoing(StateAfter(ev, h.runs[id].state)) ==>
      h.runs[id].conv in h.convs && h.convs[h.runs[id].conv].active == Some(id)
  }

  lemma TimelyEventKeeps(h: Hub, id: RunId, ev: RuntimeEvent)
    requires Inv(h) && id in h.runs && !Ends(ev) && Timely(h, id, ev)
    ensures Inv(ProjectEvent(h, id, ev))
  {
    var c := h.runs[id].conv;
    assert ConvInv(h.runs, h.issued, c, h.convs[c]);
    RestateKeeps(h, ProjectEvent(h, id, ev), c);
  }

  lemma LateEventBreaks(h: Hub, id: RunId, ev: RuntimeEvent)
    requires Inv(h) && id in h.runs && !Ends(ev) && !Timely(h, id, ev)
    ensures !Inv(ProjectEvent(h, id, ev))
  {
    var c := h.runs[id].conv;
    var h' := ProjectEvent(h, id, ev);
    assert id in h'.convs[c].order by {
      assert ConvInv(h.runs, h.issued, c, h.convs[c]);
    }
    assert !Lane(h'.runs, h'.convs[c].order, h'.convs[c].active);
  }

  /** Exactly the timely events keep the invariant. */
  lemma ProjectEventKeepsExactly(h: Hub, id: RunId, ev: RuntimeEvent)
    requires Inv(h)
    ensures Inv(ProjectEvent(h, id, ev)) <==> Timely(h, id, ev)
  {
    if id in h.runs {
      if Ends(ev) {
        EndRunKeeps(h, id, StateAfter(ev, h.runs[id].state), QuestionsAfter(h.questions, id, ev));
        assert ProjectEvent(h, id, ev)
            == AdvanceAfter(h, SetState(h.runs, id, StateAfter(ev, h.runs[id].state)), id, h.runs[id].conv)
                 .(questions := QuestionsAfter(h.questions, id, ev));
      } else if Timely(h, id, ev) {
        TimelyEventKeeps(h, id, ev);
      } else {
        LateEventBreaks(h, id, ev);
      }
    }
  }

  /** The hub does not guard against late events: after a conversation stop, an approval request
      of the stopped run makes it ongoing again beside the run that was started in its place. */
  lemma LateEventRevivesStoppedRun(h: Hub, c: ConvId, a: RunId)
    requires Inv(h) && c in h.convs && h.convs[c].active == Some(a)
    requires FirstQueued(h.runs, h.convs[c].order).Some?
    ensures var h' := ProjectEvent(StopConversation(h, c).0, a, NeedsApproval);
      var b := h'.convs[c].active;
      && b.Some? && b.value != a && a in h'.runs && b.value in h'.runs
      && Ongoing(h'.runs[a].state) && Ongoing(h'.runs[b.value].state)
      && !Inv(h')
  {
    var conv := h.convs[c];
    assert ConvInv(h.runs, h.issued, c, conv);
    StopKeeps(h, c);
    var stopped := StopConversation(h, c).0;
    var runs := SetState(h.runs, a, Cancelled);
    FirstWithAgrees(h.runs, runs, conv.order, (s: RunState) => s.Queued?);
    FirstWithFinds(runs, conv.order, (s: RunState) => s.Queued?);
    assert ConvInv(stopped.runs, stopped.issued, c, stopped.convs[c]);
    ProjectEventKeepsExactly(stopped, a, NeedsApproval);
  }

  // ---- rollback -----------------------------------------------------------------------------

  lemma {:induction false} KeptByIndexIsPrefix(runs: map<RunId, Run>, order: seq<RunId>, target: int)
    requires forall id :: id in order ==> id in runs
    requires Increasing(runs, order)
    ensures KeptByIndex(runs, order, target) <= order
    ensures KeptByIndex(runs, order, target) == order
      || (order != [] && target >= 0 && runs[order[|order| - 1]].queueIndex > target)
  {
    if order != [] {
      var n := |order| - 1;
      KeptByIndexIsPrefix(runs, order[..n], target);
      if KeptByIndex(runs, order[..n], target) != order[..n] {
        assert runs[order[n - 1]].queueIndex < runs[order[n]].queueIndex;
      } else if target >= 0 && runs[order[n]].queueIndex > target {
        assert KeptByIndex(runs, order, target) == order[..n];
      }
    }
  }

  lemma {:induction false} KeptByIndexElements(runs: map<RunId, Run>, order: seq<RunId>, target: int)
    ensures forall id :: (id in KeptByIndex(runs, order, target)
                          <==> id in order && id in runs && (target < 0 || runs[id].queueIndex <= target))
  {
    if order != [] {
      KeptByIndexElements(runs, order[..|order| - 1], target);
      assert order == order[..|order| - 1] + [order[|order| - 1]];
    }
  }

  lemma {:induction false} FindSnapshotStored(items: seq<Snapshot>, messageId: MessageId)
    ensures match FindSnapshot(items, messageId)
      case Some(s) => s in items && s.messageId == messageId
      case None => forall s :: s in items ==> s.messageId != messageId
  {
    if items != [] {
      FindSnapshotStored(items[..|items| - 1], messageId);
      assert items == items[..|items| - 1] + [items[|items| - 1]];
    }
  }

  /** Both kinds of snapshot a rollback can use fit the current order list. */
  lemma ChosenSnapshotFits(h: Hub, c: ConvId, messageId: MessageId, now: nat)
    requires Inv(h) && c in h.convs
    ensures match ChooseSnapshot(h, h.convs[c], messageId, now)
      case Some(s) => SnapshotFits(h.runs, h.issued, h.convs[c].order, s)
      case None => true
  {
    var conv := h.convs[c];
    assert ConvInv(h.runs, h.issued, c, conv);
    FindSnapshotStored(conv.snapshots, messageId);
    if FindSnapshot(conv.snapshots, messageId).None? {
      match FallbackSnapshot(h, conv, messageId, now) {
        case None =>
        case Some(s) =>
          var k := MessagePosition(conv.messages, messageId).value;
          KeptByIndexIsPrefix(h.runs, conv.order, IndexOfMessage(conv.messages, k));
          FilterAll(s.runIds, h.runs.Keys);
      }
    }
  }

  lemma {:induction false} KeepSnapshotsSubset(items: seq<Snapshot>, limit: nat)
    ensures forall s :: s in KeepSnapshotsUntil(items, limit) <==> s in items && s.createdAt <= limit
  {
    if items != [] {
      KeepSnapshotsSubset(items[..|items| - 1], limit);
      assert items == items[..|items| - 1] + [items[|items| - 1]];
    }
  }

  /** Rolling back to a fitting snapshot cuts the order list: what is left is a prefix, and the
      conversation's live runs are exactly that prefix. */
  lemma RollbackCuts(runs: map<RunId, Run>, issued: set<RunId>, c: ConvId, order: seq<RunId>, s: Snapshot)
    requires Lists(runs, c, order) && SnapshotFits(runs, issued, order, s)
    ensures var runs' := SurvivingRuns(runs, c, s);
      var order' := Filter(s.runIds, runs'.Keys);
      && order' == Filter(s.runIds, runs.Keys)
      && order' <= order
      && Lists(runs', c, order')
  {
    var runs' := SurvivingRuns(runs, c, s);
    FilterAgree(s.runIds, runs.Keys, runs'.Keys);
    var order' := Filter(s.runIds, runs'.Keys);
    FilterElements(s.runIds, runs'.Keys);
    assert order' == order[..|order'|];
  }

  /** A snapshot that fits the old list still fits a list that was cut. */
  lemma CutKeepsSnapshot(runs: map<RunId, Run>, runs': map<RunId, Run>, issued: set<RunId>, c: ConvId,
                         order: seq<RunId>, order': seq<RunId>, s: Snapshot)
    requires Lists(runs, c, order) && SnapshotFits(runs, issued, order, s)
    requires order' <= order && Lists(runs', c, order')
    requires runs'.Keys <= runs.Keys
    requires forall id :: id in runs' ==> runs'[id].conv == runs[id].conv
    ensures SnapshotFits(runs', issued, order', s)
  {
    var live := Filter(s.runIds, runs.Keys);
    FilterElements(s.runIds, runs.Keys);
    FilterTwice(s.runIds, runs.Keys, runs'.Keys);
    assert live == order[..|live|] && order' == order[..|order'|];
    FilterAgree(live, runs'.Keys, Elements(order'));
    FilterPrefix(order, |live|, |order'|);
  }

  lemma CutKeepsLane(runs: map<RunId, Run>, runs': map<RunId, Run>, order: seq<RunId>, order': seq<RunId>,
      active: Option<RunId>)
    requires forall id :: id in order ==> id in runs
    requires Lane(runs, order, active) && order' <= order
    requires forall id :: id in order' ==> id in runs' && runs'[id] == runs[id]
    ensures FirstOngoing(runs', order') == if active.Some? && active.value in order' then active else None
    ensures Lane(runs', order', FirstOngoing(runs', order'))
    ensures DeriveQueueState(runs', order', FirstOngoing(runs', order')).Idle? <==> FirstOngoing(runs', order').None?
  {
    FirstWithFinds(runs', order', Ongoing);
    FirstWithFinds(runs', order', (s: RunState) => s.Queued?);
    assert forall i :: 0 <= i < |order'| ==> order'[i] == order[i] && order'[i] in order' && order[i] in order;
    var first := FirstOngoing(runs', order');
    if active.Some? && active.value in order' {
      var k :| 0 <= k < |order'| && order'[k] == active.value;
      assert Ongoing(runs'[order'[k]].state);
    } else if active.Some? {
      var k :| 0 <= k < |order| && order[k] == active.value;
      assert k >= |order'|;
      assert forall i :: 0 <= i < |order'| ==> Terminal(runs[order[i]].state);
    }
  }

  lemma RollbackKeepsConv(h: Hub, c: ConvId, s: Snapshot)
    requires Inv(h) && c in h.convs && SnapshotFits(h.runs, h.issued, h.convs[c].order, s)
    ensures var h' := RestoreSnapshot(h, c, s);
      ConvInv(h'.runs, h'.issued, c, h'.convs[c])
  {
    var h' := RestoreSnapshot(h, c, s);
    var conv, conv' := h.convs[c], h'.convs[c];
    assert ConvInv(h.runs, h.issued, c, conv);
    RollbackCuts(h.runs, h.issued, c, conv.order, s);
    CutKeepsLane(h.runs, h'.runs, conv.order, conv'.order, conv.active);
    KeepSnapshotsSubset(conv.snapshots, s.createdAt);
    forall t | t in conv'.snapshots
      ensures SnapshotFits(h'.runs, h'.issued, conv'.order, t)
    {
      CutKeepsSnapshot(h.runs, h'.runs, h.issued, c, conv.order, conv'.order, t);
    }
  }

  lemma RollbackKeeps(h: Hub, c: ConvId, messageId: MessageId, now: nat, projectKnown: bool, restoreOk: bool)
    requires Inv(h)
    ensures Inv(Rollback(h, c, messageId, now, projectKnown, restoreOk).0)
  {
    var (h', outcome) := Rollback(h, c, messageId, now, projectKnown, restoreOk);
    if outcome.Done? {
      ChosenSnapshotFits(h, c, messageId, now);
      RollbackKeepsConv(h, c, ChooseSnapshot(h, h.convs[c], messageId, now).value);
      LocalStep(h, h', c);
    }
  }

  // ---- model configuration, deletion -----------------------------------------------------------

  ghost predicate SamePhase(r: Run, r': Run) {
    && SamePlace(r, r')
    && (Ongoing(r'.state) <==> Ongoing(r.state))
    && (Terminal(r'.state) <==> Terminal(r.state))
  }

  lemma SamePhaseKeepsConv(runs: map<RunId, Run>, runs': map<RunId, Run>, issued: set<RunId>, c: ConvId, conv: Conv)
    requires ConvInv(runs, issued, c, conv)
    requires runs'.Keys == runs.Keys
    requires forall id :: id in runs ==> SamePhase(runs[id], runs'[id])
    ensures ConvInv(runs', issued, c, conv)
  {
    assert forall i :: 0 <= i < |conv.order| ==> conv.order[i] in conv.order;
    assert forall i :: 0 <= i < |conv.order| ==> SamePhase(runs[conv.order[i]], runs'[conv.order[i]]);
    assert forall s :: s in conv.snapshots ==> SnapshotFits(runs, issued, conv.order, s);
  }

  lemma SyncKeeps(h: Hub, project: string, model: string, resolved: Option<string>)
    requires Inv(h)
    ensures Inv(SyncModel(h, project, model, resolved))
  {
    var h' := SyncModel(h, project, model, resolved);
    forall id | id in h.runs
      ensures SamePhase(h.runs[id], h'.runs[id])
    {
      var c := h.runs[id].conv;
      assert ConvInv(h.runs, h.issued, c, h.convs[c]);
      assert id in h.convs[c].order;
    }
    assert h'.runs.Keys == h.runs.Keys;
    forall c | c in h'.convs
      ensures ConvInv(h'.runs, h'.issued, c, h'.convs[c])
    {
      SamePhaseKeepsConv(h.runs, h'.runs, h.issued, c, h.convs[c]);
    }
  }

  lemma {:induction false} DeleteKeeps(h: Hub, c: ConvId)
    requires Inv(h)
    ensures Inv(DeleteConversation(h, c))
  {
    var h' := DeleteConversation(h, c);
    forall d | d in h'.convs
      ensures ConvInv(h'.runs, h'.issued, d, h'.convs[d])
    {
      OthersKeep(h.runs, h'.runs, h.issued, h'.issued, c, d, h.convs[d]);
    }
  }
}
