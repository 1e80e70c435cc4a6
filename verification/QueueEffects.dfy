/**
 What every step of the run queue does, told from outside: which steps are refused and why, and what has
 changed and what has not when one is accepted.
 */
module QueueEffects {
  import opened Basics
  import opened QueueModel
  import opened QueueInvariant
  import opened QueueSteps
  import opened QueueRuns

  /** Nothing of the run but its state changed. */
  ghost predicate OnlyState(r: Run, r': Run, s: RunState) {
    && r'.conv == r.conv && r'.messageId == r.messageId && r'.queueIndex == r.queueIndex && r'.model == r.model
    && r'.state == s
  }

  /** Nothing of the conversation but its active run and status changed. */
  ghost predicate OnlyLane(v: Conv, v': Conv) {
    && v'.project == v.project && v'.model == v.model && v'.order == v.order
    && v'.messages == v.messages && v'.snapshots == v.snapshots
  }

  ghost predicate OthersSame(h: Hub, h': Hub, c: ConvId) {
    && h'.convs.Keys == h.convs.Keys && h'.issued == h.issued
    && (forall d :: d in h.convs && d != c ==> h'.convs[d] == h.convs[d])
  }

  /** The first run of the list that waits, besides run `a`. */
  ghost predicate FirstWaiting(h: Hub, order: seq<RunId>, a: RunId, id: RunId) {
    && id in order && id in h.runs && id != a && h.runs[id].state.Queued?
    && exists k :: 0 <= k < |order| && order[k] == id
         && forall i :: 0 <= i < k && order[i] in h.runs && order[i] != a ==> !h.runs[order[i]].state.Queued?
  }

  /** Run `a` of conversation `c` has given the lane up: the first run that waits is pending and active
      instead, or the conversation is idle; no other run changed. */
  ghost predicate HandsOn(h: Hub, h': Hub, c: ConvId, a: RunId) {
    && c in h.convs && c in h'.convs && OnlyLane(h.convs[c], h'.convs[c]) && OthersSame(h, h', c)
    && h'.runs.Keys == h.runs.Keys
    && match h'.convs[c].active
       case None =>
         && h'.convs[c].queueState.Idle?
         && (forall id :: id in h.convs[c].order && id in h.runs && id != a ==> !h.runs[id].state.Queued?)
         && (forall id :: id in h.runs && id != a ==> h'.runs[id] == h.runs[id])
       case Some(next) =>
         && h'.convs[c].queueState.Running?
         && FirstWaiting(h, h.convs[c].order, a, next)
         && OnlyState(h.runs[next], h'.runs[next], Pending)
         && (forall id :: id in h.runs && id != a && id != next ==> h'.runs[id] == h.runs[id])
  }

  /** No run but `a` and no conversation changed. */
  ghost predicate StaysPut(h: Hub, h': Hub, a: RunId) {
    && h'.runs.Keys == h.runs.Keys && h'.convs == h.convs && h'.issued == h.issued
    && (forall id :: id in h.runs && id != a ==> h'.runs[id] == h.runs[id])
  }

  lemma AdvanceHandsOn(h: Hub, a: RunId, s: RunState, c: ConvId)
    requires a in h.runs && c in h.convs && h.convs[c].active == Some(a) && Terminal(s)
    ensures var h' := AdvanceAfter(h, SetState(h.runs, a, s), a, c);
      && HandsOn(h, h', c, a) && OnlyState(h.runs[a], h'.runs[a], s) && h'.questions == h.questions
  {
    var runs, order := SetState(h.runs, a, s), h.convs[c].order;
    FirstWithFinds(runs, order, (r: RunState) => r.Queued?);
    match FirstQueued(runs, order)
    case None =>
      forall id | id in order && id in h.runs && id != a
        ensures !h.runs[id].state.Queued?
      {
        var i :| 0 <= i < |order| && order[i] == id;
        assert order[i] in runs && runs[order[i]] == h.runs[id];
      }
    case Some(next) =>
      var k: nat :| FirstAt(runs, order, (r: RunState) => r.Queued?, next, k);
      forall i | 0 <= i < k && order[i] in h.runs && order[i] != a
        ensures !h.runs[order[i]].state.Queued?
      {
        assert order[i] in runs && runs[order[i]] == h.runs[order[i]];
      }
      assert order[k] == next && FirstWaiting(h, order, a, next);
  }

  // ---- controls -------------------------------------------------------------------------------------

  /** Another run has the lane. */
  predicate Taken(h: Hub, id: RunId)
    requires id in h.runs && h.runs[id].conv in h.convs
  {
    var active := h.convs[h.runs[id].conv].active;
    active.Some? && active.value != id
  }

  /** The answer is to the open question, says something, and only what the question allows. */
  ghost predicate Answers(q: Question, a: Answer) {
    && a.questionId == q.id && q.id != ""
    && (a.optionId == "" ==> a.text != "")
    && (a.optionId == "" || a.optionId in q.optionIds)
    && (a.text == "" || q.allowText)
  }

  ghost predicate Known(h: Hub, id: RunId) {
    id in h.runs && h.runs[id].conv in h.convs
  }

  /** What each control asks of the run. */
  ghost predicate Controllable(s: RunState, action: Action) {
    match action
    case Stop => !Terminal(s)
    case Deny => !Terminal(s)
    case Approve => s.Queued? || s.Pending? || s.Confirming? || s.Executing?
    case Resume => s.Queued? || s.Pending? || s.Confirming? || s.Executing?
    case AnswerQuestion => s.AwaitingInput?
  }

  /** Which controls are accepted, and which refusal is given to the others; a refusal changes nothing. */
  lemma ControlOutcomeExactly(h: Hub, id: RunId, action: Action, answer: Answer, m: MessageId)
    ensures var (h', outcome) := Control(h, id, action, answer, m);
      && (outcome.RunNotFound? <==> id !in h.runs)
      && (outcome.ConversationNotFound? <==> id in h.runs && h.runs[id].conv !in h.convs)
      && (outcome.StateConflict? <==>
          (Known(h, id)
           && (!Controllable(h.runs[id].state, action)
               || (action.AnswerQuestion? && !Taken(h, id) && id !in h.questions))))
      && (outcome.RunAlreadyActive? <==>
          (Known(h, id) && Controllable(h.runs[id].state, action)
           && !action.Stop? && !action.Deny? && Taken(h, id)))
      && (outcome.InvalidAnswer? <==>
          (Known(h, id) && action.AnswerQuestion? && h.runs[id].state.AwaitingInput?
           && !Taken(h, id) && id in h.questions && !Answers(h.questions[id], answer)))
      && (outcome.Done? <==>
          (Known(h, id) && Controllable(h.runs[id].state, action)
           && (action.Stop? || action.Deny? || !Taken(h, id))
           && (action.AnswerQuestion? ==> id in h.questions && Answers(h.questions[id], answer))))
      && (!outcome.Done? ==> h' == h)
  {
  }

  predicate Cancels(s: RunState, action: Action) {
    action.Stop? || (action.Deny? && !s.Confirming?)
  }

  /** The state every accepted control leads to: a stop, or the denial of a run that does not wait for approval,
      cancels; approving, resuming or denying a run that does, and answering one that waits for input, lets it
      go on; a queued run becomes pending, and a pending or executing run stays as it is. */
  lemma {:induction false} ControlLeadsTo(h: Hub, id: RunId, action: Action, answer: Answer, m: MessageId)
    requires Control(h, id, action, answer, m).1.Done?
    ensures var h' := Control(h, id, action, answer, m).0;
      && id in h.runs && id in h'.runs
      && (Cancels(h.runs[id].state, action) ==> OnlyState(h.runs[id], h'.runs[id], Cancelled))
      && (!Cancels(h.runs[id].state, action) ==>
            && (h.runs[id].state.Confirming? ==> OnlyState(h.runs[id], h'.runs[id], Executing))
            && (h.runs[id].state.AwaitingInput? ==> OnlyState(h.runs[id], h'.runs[id], Executing))
            && (h.runs[id].state.Queued? ==> OnlyState(h.runs[id], h'.runs[id], Pending))
            && (h.runs[id].state.Pending? ==> h'.runs[id] == h.runs[id])
            && (h.runs[id].state.Executing? ==> h'.runs[id] == h.runs[id])
            && !Terminal(h.runs[id].state))
      && h'.questions == h.questions - {id}
  {
    ControlOutcomeExactly(h, id, action, answer, m);
  }

  /** What an accepted control that does not cancel does besides: the run has the lane, and the answer to its
      question becomes a message of the user that stands for the run. */
  lemma {:induction false} ControlLetsRun(h: Hub, id: RunId, action: Action, answer: Answer, m: MessageId)
    requires Control(h, id, action, answer, m).1.Done? && !Cancels(h.runs[id].state, action)
    ensures var h' := Control(h, id, action, answer, m).0;
      var c := h.runs[id].conv;
      && c in h.convs && OthersSame(h, h', c) && h'.runs.Keys == h.runs.Keys
      && (forall x :: x in h.runs && x != id ==> h'.runs[x] == h.runs[x])
      && h'.convs[c].active == Some(id) && h'.convs[c].queueState == Running
      && OnlyLane(h.convs[c].(messages := h'.convs[c].messages), h'.convs[c])
      && (!action.AnswerQuestion? ==> h'.convs[c].messages == h.convs[c].messages)
      && (action.AnswerQuestion? ==>
            && |h'.convs[c].messages| == |h.convs[c].messages| + 1
            && h.convs[c].messages <= h'.convs[c].messages
            && var asked := h'.convs[c].messages[|h.convs[c].messages|];
            && asked.id == m && asked.role == User
            && (h.runs[id].queueIndex >= 0 ==> asked.queueIndex == Some(h.runs[id].queueIndex))
            && (h.runs[id].queueIndex < 0 ==> asked.queueIndex.None?))
  {
    ControlOutcomeExactly(h, id, action, answer, m);
  }

  /** Cancelling the active run hands the lane on; cancelling another changes no other run. */
  lemma {:induction false} ControlCancels(h: Hub, id: RunId, action: Action, answer: Answer, m: MessageId)
    requires Inv(h) && Control(h, id, action, answer, m).1.Done? && Cancels(h.runs[id].state, action)
    ensures var h' := Control(h, id, action, answer, m).0;
      var c := h.runs[id].conv;
      && (h.convs[c].active == Some(id) ==> HandsOn(h, h', c, id))
      && (h.convs[c].active != Some(id) ==>
            && OthersSame(h, h', c) && h'.runs.Keys == h.runs.Keys
            && (forall x :: x in h.runs && x != id ==> h'.runs[x] == h.runs[x])
            && OnlyLane(h.convs[c], h'.convs[c]) && h'.convs[c].active == h.convs[c].active
            && h'.convs[c].queueState == Running)
  {
    var c := h.runs[id].conv;
    assert ConvInv(h.runs, h.issued, c, h.convs[c]);
    ActiveIsOngoing(h, id);
    ControlOutcomeExactly(h, id, action, answer, m);
    if h.convs[c].active == Some(id) {
      CancelEndsRun(h, id);
      AdvanceHandsOn(h, id, Cancelled, c);
      HandsOnAnyQuestions(h, AdvanceAfter(h, SetState(h.runs, id, Cancelled), id, c), c, id, h.questions - {id});
    }
  }

  lemma HandsOnAnyQuestions(h: Hub, h': Hub, c: ConvId, a: RunId, questions: map<RunId, Question>)
    requires HandsOn(h, h', c, a)
    ensures HandsOn(h, h'.(questions := questions), c, a)
  {
  }

  /** The lifecycle machine tells all states apart but queued and pending, and gives each back, a pending one as
      queued. */
  lemma CoreStates(s: RunState, other: RunState)
    ensures ToCore(s) == ToCore(other) <==>
      s == other || ((s.Queued? || s.Pending?) && (other.Queued? || other.Pending?))
    ensures FromCore(ToCore(s), s) == if s.Pending? then Queued else s
  {
  }

  /** The derived state of a conversation: running with an active run; else waiting when one is queued. */
  lemma {:induction false} DerivedExactly(runs: map<RunId, Run>, order: seq<RunId>, active: Option<RunId>)
    ensures var state := DeriveQueueState(runs, order, active);
      && (state.Running? <==> active.Some?)
      && (state.Waiting? <==> active.None? && exists id :: id in order && id in runs && runs[id].state.Queued?)
  {
    FirstWithFinds(runs, order, (s: RunState) => s.Queued?);
    if id :| id in order && id in runs && runs[id].state.Queued? {
      var i :| 0 <= i < |order| && order[i] == id;
      assert order[i] in runs;
    }
  }

  // ---- runtime events -------------------------------------------------------------------------------

  /** The state an event gives its run. */
  lemma {:induction false} EventLeadsTo(h: Hub, id: RunId, ev: RuntimeEvent)
    requires id in h.runs
    ensures var h' := ProjectEvent(h, id, ev);
      && id in h'.runs
      && (ev.Started? ==> OnlyState(h.runs[id], h'.runs[id], Executing))
      && (ev.NeedsApproval? ==> OnlyState(h.runs[id], h'.runs[id], Confirming))
      && (ev.NeedsInput? ==> OnlyState(h.runs[id], h'.runs[id], AwaitingInput))
      && (ev.ResumesRunning? ==> OnlyState(h.runs[id], h'.runs[id], Executing))
      && (ev.Finished? ==> OnlyState(h.runs[id], h'.runs[id], Completed))
      && (ev.Errored? ==> OnlyState(h.runs[id], h'.runs[id], Failed))
      && (ev.Stopped? ==> OnlyState(h.runs[id], h'.runs[id], Cancelled))
      && (ev.Progress? ==> h'.runs[id] == h.runs[id])
  {
    if Ends(ev) {
      var asked := h.(questions := QuestionsAfter(h.questions, id, ev));
      AdvanceKeepsEnded(asked, id, StateAfter(ev, h.runs[id].state), h.runs[id].conv);
    }
  }

  lemma AdvanceKeepsEnded(h: Hub, a: RunId, s: RunState, c: ConvId)
    requires a in h.runs && Terminal(s)
    ensures var h' := AdvanceAfter(h, SetState(h.runs, a, s), a, c);
      a in h'.runs && OnlyState(h.runs[a], h'.runs[a], s)
  {
    if c in h.convs {
      FirstWithFinds(SetState(h.runs, a, s), h.convs[c].order, (r: RunState) => r.Queued?);
    }
  }

  /** An event of a run that is not there changes nothing. One that ends the active run hands its lane on; any
      other changes no other run and no conversation. */
  lemma {:induction false} EventAdvances(h: Hub, id: RunId, ev: RuntimeEvent)
    ensures var h' := ProjectEvent(h, id, ev);
      && (id !in h.runs ==> h' == h)
      && (id in h.runs ==>
            var c := h.runs[id].conv;
            var ends := ev.Finished? || ev.Errored? || ev.Stopped?;
            && (ends && c in h.convs && h.convs[c].active == Some(id) ==> HandsOn(h, h', c, id))
            && (!(ends && c in h.convs && h.convs[c].active == Some(id)) ==> StaysPut(h, h', id)))
  {
    if id in h.runs {
      var c := h.runs[id].conv;
      var asked := h.(questions := QuestionsAfter(h.questions, id, ev));
      if Ends(ev) && c in h.convs && h.convs[c].active == Some(id) {
        AdvanceHandsOn(asked, id, StateAfter(ev, h.runs[id].state), c);
        HandsOnFrom(h, asked, ProjectEvent(h, id, ev), c, id);
      }
    }
  }

  lemma HandsOnFrom(h: Hub, asked: Hub, h': Hub, c: ConvId, a: RunId)
    requires asked == h.(questions := asked.questions) && HandsOn(asked, h', c, a)
    ensures HandsOn(h, h', c, a)
  {
    if h'.convs[c].active.Some? {
      assert FirstWaiting(asked, h.convs[c].order, a, h'.convs[c].active.value);
      assert FirstWaiting(h, h.convs[c].order, a, h'.convs[c].active.value);
    }
  }

  /** The open questions after an event: one that brings a question opens it, one that resolves it or ends the
      run closes it, and no question of another run is touched. */
  lemma EventAsks(h: Hub, id: RunId, ev: RuntimeEvent)
    requires id in h.runs
    ensures var h' := ProjectEvent(h, id, ev);
      && (forall x :: x != id ==> (x in h'.questions <==> x in h.questions))
      && (forall x :: x != id && x in h.questions ==> h'.questions[x] == h.questions[x])
      && (ev.NeedsInput? && ev.question.Some? ==> id in h'.questions && h'.questions[id] == ev.question.value)
      && (ev.Finished? || ev.Errored? || ev.Stopped? || (ev.ResumesRunning? && ev.resolved) ==> id !in h'.questions)
      && (ev.Started? || ev.NeedsApproval? || ev.Progress? ==> h'.questions == h.questions)
      && (ev.NeedsInput? && ev.question.None? ==> h'.questions == h.questions)
      && (ev.ResumesRunning? && !ev.resolved ==> h'.questions == h.questions)
  {
  }

  // ---- a run that can not be started, and a stopped conversation ------------------------------------------

  /** A run that could not be started fails, unless it is over already. */
  lemma {:induction false} FailLeadsTo(h: Hub, id: RunId)
    ensures var h' := FailRun(h, id);
      && (id !in h.runs || h.runs[id].state.Completed? || h.runs[id].state.Failed? || h.runs[id].state.Cancelled? ==>
            h' == h)
      && (id in h.runs && !(h.runs[id].state.Completed? || h.runs[id].state.Failed? || h.runs[id].state.Cancelled?) ==>
            var c := h.runs[id].conv;
            && id in h'.runs && OnlyState(h.runs[id], h'.runs[id], Failed) && h'.questions == h.questions
            && (c in h.convs && h.convs[c].active == Some(id) ==> HandsOn(h, h', c, id))
            && (!(c in h.convs && h.convs[c].active == Some(id)) ==> StaysPut(h, h', id)))
  {
    if id in h.runs && !Terminal(h.runs[id].state) {
      var c := h.runs[id].conv;
      if c in h.convs && h.convs[c].active == Some(id) {
        AdvanceHandsOn(h, id, Failed, c);
      }
    }
  }

  /** Stopping a conversation cancels its active run and hands the lane on; without one nothing changes. */
  lemma {:induction false} StopLeadsTo(h: Hub, c: ConvId)
    requires Inv(h)
    ensures var (h', outcome) := StopConversation(h, c);
      && (outcome.Done? <==> c in h.convs) && (outcome.ConversationNotFound? <==> c !in h.convs)
      && (c !in h.convs || h.convs[c].active.None? ==> h' == h)
      && (c in h.convs && h.convs[c].active.Some? ==>
            var a := h.convs[c].active.value;
            && a in h.runs && a in h'.runs && OnlyState(h.runs[a], h'.runs[a], Cancelled)
            && HandsOn(h, h', c, a) && h'.questions == h.questions)
  {
    if c in h.convs {
      var conv := h.convs[c];
      assert ConvInv(h.runs, h.issued, c, conv);
      if conv.active.Some? {
        var a := conv.active.value;
        assert a in conv.order;
        AdvanceHandsOn(h, a, Cancelled, c);
      } else {
        FirstWithFinds(h.runs, conv.order, (s: RunState) => s.Queued?);
        assert StopConversation(h, c).0.convs == h.convs;
      }
    }
  }

  // ---- submits, commands and conversations ----------------------------------------------------------------

  /** A submit makes one run, with an index one beyond the largest of the conversation, and one message and
      one snapshot of it; it starts at once exactly when no run is active. */
  lemma {:induction false} SubmitLeadsTo(h: Hub, c: ConvId, id: RunId, msg: MessageId, model: string, now: nat)
    requires Inv(h) && id !in h.issued
    ensures var (h', outcome) := Submit(h, c, id, msg, model, now);
      && (outcome.Done? <==> c in h.convs) && (outcome.ConversationNotFound? <==> c !in h.convs)
      && (c !in h.convs ==> h' == h)
      && (c in h.convs ==>
            var v, v' := h.convs[c], h'.convs[c];
            && id in h'.runs && h'.runs.Keys == h.runs.Keys + {id}
            && (forall x :: x in h.runs ==> h'.runs[x] == h.runs[x])
            && h'.questions == h.questions && h'.issued == h.issued + {id}
            && h'.convs.Keys == h.convs.Keys
            && (forall d :: d in h.convs && d != c ==> h'.convs[d] == h.convs[d])
            && v'.project == v.project && v'.model == v.model
            && v'.order == v.order + [id]
            && v'.messages == v.messages + [Message(msg, User, Some(h'.runs[id].queueIndex))]
            && v'.snapshots == v.snapshots + [Snapshot(msg, v'.messages, v'.order, now)]
            && NewRun(h, v, h'.runs[id], c, msg, model)
            && (v.active.None? ==>
                  h'.runs[id].state.Pending? && v'.active == Some(id) && v'.queueState.Running?)
            && (v.active.Some? ==>
                  h'.runs[id].state.Queued? && v'.active == v.active && v'.queueState.Waiting?))
  {
    if c in h.convs {
      assert ConvInv(h.runs, h.issued, c, h.convs[c]);
      MaxIndexBounds(h.runs, h.convs[c].order);
    }
  }

  ghost predicate NewRun(h: Hub, v: Conv, run: Run, c: ConvId, msg: MessageId, model: string) {
    && run.conv == c && run.messageId == msg && run.model == model
    && (v.order == [] ==> run.queueIndex == 0)
    && (v.order != [] ==> exists x :: x in v.order && x in h.runs && run.queueIndex == h.runs[x].queueIndex + 1)
    && (forall x :: x in v.order && x in h.runs ==> h.runs[x].queueIndex < run.queueIndex)
  }

  /** A command leaves its two messages, neither of which stands for a run, and a snapshot of the runs there
      are. */
  lemma {:induction false} CommandLeadsTo(h: Hub, c: ConvId, u: MessageId, s: MessageId, now: nat)
    ensures var (h', outcome) := CommandResult(h, c, u, s, now);
      && (outcome.Done? <==> c in h.convs) && (outcome.ConversationNotFound? <==> c !in h.convs)
      && (c !in h.convs ==> h' == h)
      && (c in h.convs ==>
            var v, v' := h.convs[c], h'.convs[c];
            && h'.runs == h.runs && h'.questions == h.questions && OthersSame(h, h', c)
            && v'.project == v.project && v'.model == v.model && v'.order == v.order
            && v'.active == v.active && v'.queueState == v.queueState
            && |v'.messages| == |v.messages| + 2 && v.messages <= v'.messages
            && v'.messages[|v.messages|] == Message(u, User, None)
            && v'.messages[|v.messages| + 1] == Message(s, System, None)
            && v'.snapshots == v.snapshots + [Snapshot(u, v'.messages, v.order, now)])
  {
  }

  /** A new conversation is idle and empty; nothing else changes. */
  lemma {:induction false} CreateLeadsTo(h: Hub, c: ConvId, project: string, model: string)
    requires c !in h.convs
    ensures var h' := CreateConversation(h, c, project, model);
      && h'.runs == h.runs && h'.questions == h.questions && h'.issued == h.issued
      && h'.convs.Keys == h.convs.Keys + {c} && (forall d :: d in h.convs ==> h'.convs[d] == h.convs[d])
      && var v := h'.convs[c];
         && v.project == project && v.model == model && v.active.None? && v.queueState.Idle?
         && v.order == [] && v.messages == [] && v.snapshots == []
  {
  }

  /** Deleting a conversation deletes its runs; nothing of the others changes. */
  lemma {:induction false} DeleteLeadsTo(h: Hub, c: ConvId)
    ensures var h' := DeleteConversation(h, c);
      && (forall d :: d in h'.convs <==> d in h.convs && d != c)
      && (forall d :: d in h'.convs ==> h'.convs[d] == h.convs[d])
      && (forall id :: id in h'.runs <==> id in h.runs && h.runs[id].conv != c)
      && (forall id :: id in h'.runs ==> h'.runs[id] == h.runs[id])
      && h'.questions == h.questions && h'.issued == h.issued
  {
  }

  /** A new default model reaches the conversations of its project and, when it resolves to one, the runs of
      those that are not over; the active ones start again. */
  lemma {:induction false} SyncLeadsTo(h: Hub, project: string, model: string, resolved: Option<string>)
    ensures var h' := SyncModel(h, project, model, resolved);
      && h'.convs.Keys == h.convs.Keys && h'.runs.Keys == h.runs.Keys
      && h'.questions == h.questions && h'.issued == h.issued
      && (forall c :: c in h.convs ==> OnlyModel(h.convs[c], h'.convs[c], project, model))
      && (forall id :: id in h.runs ==>
            var r, r' := h.runs[id], h'.runs[id];
            var reached := r.conv in h.convs && h.convs[r.conv].project == project && resolved.Some?
                           && !(r.state.Completed? || r.state.Failed? || r.state.Cancelled?);
            && (!reached ==> r' == r)
            && (reached ==>
                  && SamePlace(r, r') && r'.model == resolved.value
                  && (h.convs[r.conv].active == Some(id) ==> r'.state.Pending?)
                  && (h.convs[r.conv].active != Some(id) ==> r'.state == r.state)))
  {
  }

  ghost predicate OnlyModel(v: Conv, v': Conv, project: string, model: string) {
    && v'.project == v.project && v'.active == v.active && v'.queueState == v.queueState && v'.order == v.order
    && v'.messages == v.messages && v'.snapshots == v.snapshots
    && (v.project == project ==> v'.model == model) && (v.project != project ==> v'.model == v.model)
  }

  // ---- rollback -------------------------------------------------------------------------------------

  /** The first message with the id is the user's. */
  ghost predicate UserMessage(messages: seq<Message>, id: MessageId) {
    exists k :: 0 <= k < |messages| && messages[k].id == id && messages[k].role.User?
                && forall i :: 0 <= i < k ==> messages[i].id != id
  }

  ghost predicate HasSnapshot(v: Conv, id: MessageId) {
    exists t :: t in v.snapshots && t.messageId == id
  }

  lemma {:induction false} PositionIsFirst(messages: seq<Message>, id: MessageId)
    ensures match MessagePosition(messages, id)
      case Some(k) => k < |messages| && messages[k].id == id && forall i :: 0 <= i < k ==> messages[i].id != id
      case None => forall i :: 0 <= i < |messages| ==> messages[i].id != id
  {
    if messages != [] && messages[0].id != id {
      PositionIsFirst(messages[1..], id);
      assert forall i :: 1 <= i < |messages| ==> messages[1..][i - 1] == messages[i];
    }
  }

  /** When a rollback is refused, and how: it goes to a message that has a snapshot or is the user's; a refused
      one changes nothing. */
  lemma {:induction false} RollbackOutcomeExactly(h: Hub, c: ConvId, messageId: MessageId, now: nat, known: bool,
                                                  ok: bool)
    ensures var (h', outcome) := Rollback(h, c, messageId, now, known, ok);
      var there := c in h.convs && (HasSnapshot(h.convs[c], messageId) || UserMessage(h.convs[c].messages, messageId));
      && (outcome.ConversationNotFound? <==> c !in h.convs)
      && (outcome.SnapshotNotFound? <==> c in h.convs && !there)
      && (outcome.ProjectNotFound? <==> there && !known)
      && (outcome.RestoreFailed? <==> there && known && !ok)
      && (outcome.Done? <==> there && known && ok)
      && (!outcome.Done? ==> h' == h)
  {
    if c in h.convs {
      FindSnapshotStored(h.convs[c].snapshots, messageId);
      PositionIsFirst(h.convs[c].messages, messageId);
    }
  }

  lemma {:induction false} LatestSnapshot(items: seq<Snapshot>, messageId: MessageId) returns (k: nat)
    requires FindSnapshot(items, messageId).Some?
    ensures k < |items| && items[k] == FindSnapshot(items, messageId).value && items[k].messageId == messageId
    ensures forall i :: k < i < |items| ==> items[i].messageId != messageId
  {
    var n := |items| - 1;
    if items[n].messageId == messageId {
      k := n;
    } else {
      k := LatestSnapshot(items[..n], messageId);
    }
  }

  /** A message stands for its own index, or, without one, for the largest among the messages up to it. */
  lemma {:induction false} StandsFor(messages: seq<Message>, k: nat)
    requires k < |messages|
    ensures var target := IndexOfMessage(messages, k);
      && (messages[k].queueIndex.Some? && messages[k].queueIndex.value >= 0 ==>
            target == messages[k].queueIndex.value)
      && (!(messages[k].queueIndex.Some? && messages[k].queueIndex.value >= 0) ==>
            && target >= -1
            && (forall i :: 0 <= i <= k && messages[i].queueIndex.Some? ==> messages[i].queueIndex.value <= target)
            && (target >= 0 ==> exists i :: 0 <= i <= k && messages[i].queueIndex == Some(target)))
  {
    MaxMessageIndexBounds(messages[..k + 1]);
    assert forall i :: 0 <= i <= k ==> messages[..k + 1][i] == messages[i];
    if MaxMessageIndex(messages[..k + 1]) >= 0 {
      var m :| m in messages[..k + 1] && m.queueIndex == Some(MaxMessageIndex(messages[..k + 1]));
      var i :| 0 <= i < k + 1 && messages[..k + 1][i] == m;
    }
  }

  /** Runs of other conversations do not notice a rollback: every control of them, also the answer to an open
      question, gets the outcome it would have got before. */
  lemma {:induction false} RollbackKeepsOthers(h: Hub, c: ConvId, messageId: MessageId, now: nat, b: RunId,
                                               action: Action, answer: Answer, m: MessageId)
    requires Inv(h) && Rollback(h, c, messageId, now, true, true).1.Done?
    requires b in h.runs && h.runs[b].conv != c
    ensures var h' := Rollback(h, c, messageId, now, true, true).0;
      && b in h'.runs && h'.runs[b] == h.runs[b]
      && Control(h', b, action, answer, m).1 == Control(h, b, action, answer, m).1
  {
    RollbackIsTruncation(h, c, messageId, now);
    var h' := Rollback(h, c, messageId, now, true, true).0;
    hide Control, Rollback, Inv;
    ControlOutcomeExactly(h, b, action, answer, m);
    ControlOutcomeExactly(h', b, action, answer, m);
  }
}
