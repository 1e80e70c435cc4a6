/** What holds over whole runs of the hub: safety, rollback as truncation, first-in first-out. */
module QueueRuns {
  import opened Basics
  import opened QueueModel
  import opened QueueInvariant
  import opened QueueSteps

  /** New ids are new, and runtime events are timely; nothing else is asked of a step. */
  ghost predicate Allowed(h: Hub, step: Step) {
    match step
    case DoCreate(c, _, _) => c !in h.convs
    case DoSubmit(_, id, _, _, _) => id !in h.issued
    case DoEvent(id, ev) => Timely(h, id, ev)
    case _ => true
  }

  function Exec(h: Hub, steps: seq<Step>): Hub {
    if steps == [] then h else Next(Exec(h, steps[..|steps| - 1]), steps[|steps| - 1])
  }

  ghost predicate AllAllowed(h: Hub, steps: seq<Step>) {
    steps != [] ==>
      && AllAllowed(h, steps[..|steps| - 1])
      && Allowed(Exec(h, steps[..|steps| - 1]), steps[|steps| - 1])
  }

  lemma StepKeeps(h: Hub, step: Step)
    requires Inv(h) && Allowed(h, step)
    ensures Inv(Next(h, step))
  {
    match step
    case DoCreate(c, project, model) => CreateKeeps(h, c, project, model);
    case DoSubmit(c, id, msg, model, now) => SubmitKeeps(h, c, id, msg, model, now);
    case DoCommand(c, u, s, now) => CommandKeeps(h, c, u, s, now);
    case DoStop(c) => StopKeeps(h, c);
    case DoControl(id, action, answer, m) => ControlKeeps(h, id, action, answer, m);
    case DoRollback(c, m, now, known, ok) => RollbackKeeps(h, c, m, now, known, ok);
    case DoFail(id) => FailKeeps(h, id);
    case DoEvent(id, ev) => ProjectEventKeepsExactly(h, id, ev);
    case DoSync(project, model, resolved) => SyncKeeps(h, project, model, resolved);
    case DoDelete(c) => DeleteKeeps(h, c);
  }

  /** Safety: the invariant holds after every run from the empty hub. */
  lemma {:induction false} InvariantOverRuns(steps: seq<Step>)
    requires AllAllowed(EMPTY, steps)
    ensures Inv(Exec(EMPTY, steps))
  {
    if steps != [] {
      InvariantOverRuns(steps[..|steps| - 1]);
      StepKeeps(Exec(EMPTY, steps[..|steps| - 1]), steps[|steps| - 1]);
    }
  }

  // ---- rollback -----------------------------------------------------------------------------

  /** A rollback that succeeds cuts the conversation's runs to a prefix of the order list, keeps
      the runs of that prefix as they are, deletes the others, and leaves every other
      conversation and every question alone. It does so for every snapshot the search finds,
      however stale. */
  lemma RollbackIsTruncation(h: Hub, c: ConvId, messageId: MessageId, now: nat)
    requires Inv(h)
    requires Rollback(h, c, messageId, now, true, true).1.Done?
    ensures c in h.convs && ChooseSnapshot(h, h.convs[c], messageId, now).Some?
    ensures var h' := Rollback(h, c, messageId, now, true, true).0;
      && c in h'.convs
      && var order, order' := h.convs[c].order, h'.convs[c].order;
      && order' <= order
      && order' == Filter(ChooseSnapshot(h, h.convs[c], messageId, now).value.runIds, h.runs.Keys)
      && (forall id :: id in h'.runs <==> id in h.runs && (h.runs[id].conv != c || id in order'))
      && (forall id :: id in h'.runs ==> h'.runs[id] == h.runs[id])
      && h'.convs[c].active ==
        (if h.convs[c].active.Some? && h.convs[c].active.value in order' then h.convs[c].active else None)
      && (forall d :: d in h.convs && d != c ==> d in h'.convs && h'.convs[d] == h.convs[d])
      && h'.issued == h.issued
    ensures var h' := Rollback(h, c, messageId, now, true, true).0;
      var s := ChooseSnapshot(h, h.convs[c], messageId, now).value;
      && h'.questions == h.questions && h'.convs.Keys == h.convs.Keys
      && h'.convs[c].project == h.convs[c].project && h'.convs[c].model == h.convs[c].model
      && h'.convs[c].messages == s.messages
      && h'.convs[c].queueState == (if h'.convs[c].active.Some? then Running else Idle)
      && (forall t :: t in h'.convs[c].snapshots <==> t in h.convs[c].snapshots && t.createdAt <= s.createdAt)
  {
    ChosenSnapshotFits(h, c, messageId, now);
    var conv := h.convs[c];
    var s := ChooseSnapshot(h, conv, messageId, now).value;
    assert ConvInv(h.runs, h.issued, c, conv);
    RollbackCuts(h.runs, h.issued, c, conv.order, s);
    var h' := RestoreSnapshot(h, c, s);
    CutKeepsLane(h.runs, h'.runs, conv.order, h'.convs[c].order, conv.active);
    FilterElements(s.runIds, h'.runs.Keys);
    KeepSnapshotsSubset(conv.snapshots, s.createdAt);
  }

  /** Without a stored snapshot, as for the answer to a question, a rollback keeps the messages up to the
      given one, and exactly the runs whose index is not beyond the one it stands for. */
  lemma {:induction false} RollbackWithoutSnapshot(h: Hub, c: ConvId, messageId: MessageId, now: nat)
    requires Inv(h) && c in h.convs && FindSnapshot(h.convs[c].snapshots, messageId).None?
    requires Rollback(h, c, messageId, now, true, true).1.Done?
    ensures var h' := Rollback(h, c, messageId, now, true, true).0;
      var messages, position := h.convs[c].messages, MessagePosition(h.convs[c].messages, messageId);
      && position.Some? && position.value < |messages| && c in h'.convs
      && h'.convs[c].messages == messages[..position.value + 1]
      && forall id :: id in h'.convs[c].order <==>
           && id in h.convs[c].order
           && (IndexOfMessage(messages, position.value) < 0
               || h.runs[id].queueIndex <= IndexOfMessage(messages, position.value))
  {
    hide Lane, Increasing, SnapshotFits, DeriveQueueState, IndexOfMessage;
    RollbackIsTruncation(h, c, messageId, now);
    var conv := h.convs[c];
    assert ConvInv(h.runs, h.issued, c, conv);
    var target := IndexOfMessage(conv.messages, MessagePosition(conv.messages, messageId).value);
    KeptByIndexElements(h.runs, conv.order, target);
    FilterElements(KeptByIndex(h.runs, conv.order, target), h.runs.Keys);
  }

  lemma {:induction false} KeptSnapshotIsFound(items: seq<Snapshot>, messageId: MessageId)
    requires FindSnapshot(items, messageId).Some?
    ensures var s := FindSnapshot(items, messageId).value;
      FindSnapshot(KeepSnapshotsUntil(items, s.createdAt), messageId) == Some(s)
  {
    var n := |items| - 1;
    if items[n].messageId == messageId {
      var kept := KeepSnapshotsUntil(items[..n], items[n].createdAt) + [items[n]];
      assert KeepSnapshotsUntil(items, items[n].createdAt) == kept;
    } else {
      KeptSnapshotIsFound(items[..n], messageId);
      var s := FindSnapshot(items, messageId).value;
      var front := KeepSnapshotsUntil(items[..n], s.createdAt);
      assert (front + [items[n]])[..|front|] == front;
    }
  }

  lemma {:induction false} KeepSnapshotsTwice(items: seq<Snapshot>, limit: nat)
    ensures KeepSnapshotsUntil(KeepSnapshotsUntil(items, limit), limit) == KeepSnapshotsUntil(items, limit)
  {
    if items != [] {
      var front := KeepSnapshotsUntil(items[..|items| - 1], limit);
      KeepSnapshotsTwice(items[..|items| - 1], limit);
      assert (front + [items[|items| - 1]])[..|front|] == front;
    }
  }

  /** Rolling back twice to a stored snapshot is rolling back once, at whatever times. */
  lemma RollbackTwice(h: Hub, c: ConvId, messageId: MessageId, now: nat, later: nat)
    requires Inv(h) && c in h.convs && FindSnapshot(h.convs[c].snapshots, messageId).Some?
    ensures var once := Rollback(h, c, messageId, now, true, true).0;
      Rollback(once, c, messageId, later, true, true) == (once, Done)
  {
    hide Inv;
    var conv := h.convs[c];
    var s := FindSnapshot(conv.snapshots, messageId).value;
    var once := RestoreSnapshot(h, c, s);
    KeptSnapshotIsFound(conv.snapshots, messageId);
    KeepSnapshotsTwice(conv.snapshots, s.createdAt);
    var twice := RestoreSnapshot(once, c, s);
    assert twice.runs == once.runs;
    FilterAgree(s.runIds, once.runs.Keys, twice.runs.Keys);
    assert twice.convs == once.convs;
  }

  /** Pruning by second keeps a snapshot that names deleted runs: submit twice in one second,
      roll back to the first message, and the second snapshot is still stored. */
  lemma {:induction false} StaleSnapshotSurvives(h: Hub, c: ConvId, a: RunId, b: RunId, m: MessageId, n: MessageId,
      model: string, now: nat)
    requires Inv(h) && c in h.convs && a !in h.issued && b !in h.issued && a != b && m != n
    ensures var h1 := Submit(h, c, a, m, model, now).0;
      var h2 := Submit(h1, c, b, n, model, now).0;
      var (h3, outcome) := Rollback(h2, c, m, now, true, true);
      && outcome.Done? && b !in h3.runs
      && exists s :: s in h3.convs[c].snapshots && s.messageId == n && b in s.runIds
  {
    var h1 := Submit(h, c, a, m, model, now).0;
    var h2 := Submit(h1, c, b, n, model, now).0;
    var snaps1, snaps2 := h1.convs[c].snapshots, h2.convs[c].snapshots;
    var second := snaps2[|snaps2| - 1];
    assert ConvInv(h.runs, h.issued, c, h.convs[c]);
    assert snaps2[..|snaps2| - 1] == snaps1;
    assert FindSnapshot(snaps2, m) == Some(snaps1[|snaps1| - 1]);
    KeepSnapshotsSubset(snaps2, now);
    assert second in snaps2 && b in second.runIds;
  }

  // ---- first in, first out --------------------------------------------------------------------

  /** The queue indices of the runs that became active in `c` since its last rollback. */
  function Activated(h: Hub, h': Hub, c: ConvId): seq<int> {
    if c in h.convs && c in h'.convs && h'.convs[c].active.Some?
       && h'.convs[c].active != h.convs[c].active && h'.convs[c].active.value in h'.runs
    then [h'.runs[h'.convs[c].active.value].queueIndex]
    else []
  }

  predicate CutsHistory(h: Hub, step: Step, c: ConvId) {
    match step
    case DoRollback(d, m, now, known, ok) => d == c && Rollback(h, d, m, now, known, ok).1.Done?
    case DoDelete(d) => d == c
    case _ => false
  }

  function History(h: Hub, steps: seq<Step>, c: ConvId): seq<int> {
    if steps == [] then []
    else
      var before := Exec(h, steps[..|steps| - 1]);
      var step := steps[|steps| - 1];
      if CutsHistory(before, step, c) then []
      else History(h, steps[..|steps| - 1], c) + Activated(before, Next(before, step), c)
  }

  ghost predicate StrictlyIncreasing(s: seq<int>) {
    forall i, j :: 0 <= i < j < |s| ==> s[i] < s[j]
  }

  /** A newly active run was queued before. */
  ghost predicate StartsQueued(runs: map<RunId, Run>, conv: Conv, conv': Conv) {
    (conv'.active.Some? && conv'.active != conv.active && conv'.active.value in runs) ==>
      runs[conv'.active.value].state.Queued?
  }

  ghost predicate NotQueuedAgain(r: Run, r': Run) {
    SamePlace(r, r') && (r'.state.Queued? ==> r.state.Queued?)
  }

  /** How a step moves a conversation it does not cut: the order list only grows, by runs with
      later indices; no run is queued again; a newly active run was queued or is new. */
  ghost predicate MovesOn(h: Hub, h': Hub, c: ConvId)
    requires c in h.convs
  {
    && c in h'.convs
    && h.convs[c].order <= h'.convs[c].order
    && (forall id :: id in h.convs[c].order && id in h.runs ==>
          id in h'.runs && NotQueuedAgain(h.runs[id], h'.runs[id]))
    && (forall id :: id in h'.convs[c].order && id !in h.convs[c].order ==>
          id in h'.runs && h'.runs[id].queueIndex >= NextIndex(h.runs, h.convs[c].order))
    && StartsQueued(h.runs, h.convs[c], h'.convs[c])
  }

  /** A step that changes no order list: it restates runs and may activate queued ones. */
  ghost predicate Restates(h: Hub, h': Hub) {
    && h'.convs.Keys == h.convs.Keys && h'.runs.Keys == h.runs.Keys
    && (forall id :: id in h.runs ==> id in h'.runs && NotQueuedAgain(h.runs[id], h'.runs[id]))
    && (forall c :: c in h.convs ==>
          h'.convs[c].order == h.convs[c].order && StartsQueued(h.runs, h.convs[c], h'.convs[c]))
  }

  /** Starting the next run after `runs` replaced the runs of `h`. */
  lemma NextRestates(h: Hub, runs: map<RunId, Run>, c: ConvId, questions: map<RunId, Question>)
    requires c in h.convs && runs.Keys == h.runs.Keys
    requires forall id :: id in h.runs ==> id in runs && NotQueuedAgain(h.runs[id], runs[id])
    ensures Restates(h, h.(runs := StartNext(runs, h.convs[c]), convs := h.convs[c := ConvAfterNext(runs, h.convs[c])],
                           questions := questions))
  {
    FirstWithFinds(runs, h.convs[c].order, (s: RunState) => s.Queued?);
  }

  lemma EndRestates(h: Hub, id: RunId, s: RunState, questions: map<RunId, Question>)
    requires id in h.runs && Terminal(s)
    ensures Restates(h, AdvanceAfter(h, SetState(h.runs, id, s), id, h.runs[id].conv).(questions := questions))
  {
    var c := h.runs[id].conv;
    if c in h.convs {
      NextRestates(h, SetState(h.runs, id, s), c, questions);
    }
  }

  lemma StopRestates(h: Hub, c: ConvId)
    ensures Restates(h, StopConversation(h, c).0)
  {
    if c in h.convs {
      var active := h.convs[c].active;
      var runs := if active.Some? && active.value in h.runs then SetState(h.runs, active.value, Cancelled) else h.runs;
      NextRestates(h, runs, c, h.questions);
    }
  }

  lemma CancelRestates(h: Hub, id: RunId)
    requires id in h.runs && h.runs[id].conv in h.convs
    ensures Restates(h, CancelRun(h, id))
  {
    NextRestates(h, h.runs, h.runs[id].conv, h.questions);
  }

  lemma ControlRestates(h: Hub, id: RunId, action: Action, answer: Answer, m: MessageId)
    requires id in h.runs && h.runs[id].conv in h.convs
    requires var active := h.convs[h.runs[id].conv].active;
      && (Ongoing(h.runs[id].state) <==> active == Some(id))
      && (active.None? ==> Terminal(h.runs[id].state))
    requires Control(h, id, action, answer, m).1.Done?
    ensures Restates(h, Control(h, id, action, answer, m).0)
  {
    if action.Stop? || (action.Deny? && !h.runs[id].state.Confirming?) {
      CancelRestates(h, id);
    } else {
      ControlResumes(h, id, action, answer, m);
    }
  }

  lemma SyncRestates(h: Hub, project: string, model: string, resolved: Option<string>)
    ensures Restates(h, SyncModel(h, project, model, resolved))
  {
  }

  lemma SubmitMovesOn(h: Hub, d: ConvId, id: RunId, msg: MessageId, model: string, now: nat, c: ConvId)
    requires c in h.convs && id !in h.convs[c].order && id !in h.runs
    ensures MovesOn(h, Submit(h, d, id, msg, model, now).0, c)
  {
  }

  lemma StandsStill(h: Hub)
    ensures Restates(h, h)
  {
  }

  lemma CommandRestates(h: Hub, c: ConvId, userMsg: MessageId, systemMsg: MessageId, now: nat)
    ensures Restates(h, CommandResult(h, c, userMsg, systemMsg, now).0)
  {
  }

  lemma EventRestates(h: Hub, id: RunId, ev: RuntimeEvent)
    ensures Restates(h, ProjectEvent(h, id, ev))
  {
    if id in h.runs && Ends(ev) {
      EndRestates(h, id, StateAfter(ev, h.runs[id].state), QuestionsAfter(h.questions, id, ev));
    }
  }

  lemma StepRestates(h: Hub, step: Step)
    requires Inv(h)
    requires step.DoCommand? || step.DoStop? || step.DoControl? || step.DoFail? || step.DoEvent? || step.DoSync?
    ensures Restates(h, Next(h, step))
  {
    hide Inv;
    match step
    case DoCommand(c, u, t, now) => CommandRestates(h, c, u, t, now);
    case DoStop(d) => StopRestates(h, d);
    case DoControl(id, action, answer, m) =>
      if Control(h, id, action, answer, m).1.Done? {
        ActiveIsOngoing(h, id);
        ControlRestates(h, id, action, answer, m);
      } else {
        StandsStill(h);
      }
    case DoFail(id) =>
      if id in h.runs && !Terminal(h.runs[id].state) {
        EndRestates(h, id, Failed, h.questions);
      } else {
        StandsStill(h);
      }
    case DoEvent(id, ev) =>
      EventRestates(h, id, ev);
    case DoSync(project, model, resolved) => SyncRestates(h, project, model, resolved);
  }

  lemma RollbackElsewhere(h: Hub, d: ConvId, m: MessageId, now: nat, known: bool, ok: bool, c: ConvId)
    requires Inv(h) && c in h.convs && !CutsHistory(h, DoRollback(d, m, now, known, ok), c)
    ensures MovesOn(h, Rollback(h, d, m, now, known, ok).0, c)
  {
    if Rollback(h, d, m, now, known, ok).1.Done? {
      RollbackIsTruncation(h, d, m, now);
    }
    assert ConvInv(h.runs, h.issued, c, h.convs[c]);
  }

  lemma StepMovesOn(h: Hub, step: Step, c: ConvId)
    requires Inv(h) && Allowed(h, step) && c in h.convs && !CutsHistory(h, step, c)
    ensures MovesOn(h, Next(h, step), c)
  {
    match step
    case DoCreate(_, _, _) =>
    case DoSubmit(d, id, msg, model, now) =>
      assert ConvInv(h.runs, h.issued, c, h.convs[c]);
      SubmitMovesOn(h, d, id, msg, model, now, c);
    case DoRollback(d, m, now, known, ok) => RollbackElsewhere(h, d, m, now, known, ok, c);
    case DoDelete(d) => assert ConvInv(h.runs, h.issued, c, h.convs[c]);
    case _ => StepRestates(h, step);
  }

  /** Everything activated so far comes before every queued run and every later one. */
  ghost predicate HistoryFits(h: Hub, c: ConvId, history: seq<int>) {
    && StrictlyIncreasing(history)
    && (c !in h.convs ==> history == [])
    && (c in h.convs ==> forall v :: v in history ==>
          && v < NextIndex(h.runs, h.convs[c].order)
          && forall id :: id in h.convs[c].order && id in h.runs && h.runs[id].state.Queued? ==>
            v < h.runs[id].queueIndex)
  }

  /** The next index never goes back while the order list only grows. */
  lemma NextIndexGrows(h: Hub, h': Hub, c: ConvId)
    requires Inv(h) && Inv(h') && c in h.convs && MovesOn(h, h', c)
    ensures NextIndex(h.runs, h.convs[c].order) <= NextIndex(h'.runs, h'.convs[c].order)
    ensures forall id :: id in h'.convs[c].order ==> h'.runs[id].queueIndex < NextIndex(h'.runs, h'.convs[c].order)
  {
    var order, order' := h.convs[c].order, h'.convs[c].order;
    assert ConvInv(h.runs, h.issued, c, h.convs[c]) && ConvInv(h'.runs, h'.issued, c, h'.convs[c]);
    MaxIndexBounds(h.runs, order);
    MaxIndexBounds(h'.runs, order');
    if order != [] {
      var id :| id in order && h.runs[id].queueIndex == MaxIndex(h.runs, order);
      assert id in order';
    }
  }

  /** Queued runs come after the active one. */
  lemma QueuedAfterActive(runs: map<RunId, Run>, order: seq<RunId>, a: RunId, id: RunId)
    requires forall x :: x in order ==> x in runs
    requires Increasing(runs, order) && Lane(runs, order, Some(a))
    requires id in order && runs[id].state.Queued?
    ensures runs[a].queueIndex < runs[id].queueIndex
  {
    var k :| 0 <= k < |order| && order[k] == a;
    var i :| 0 <= i < |order| && order[i] == id;
    assert Ongoing(runs[order[k]].state) && !Terminal(runs[order[i]].state);
    assert runs[order[k]].queueIndex < runs[order[i]].queueIndex;
  }

  lemma HistoryStillFits(h: Hub, h': Hub, c: ConvId, history: seq<int>)
    requires c in h.convs && MovesOn(h, h', c) && HistoryFits(h, c, history)
    requires forall id :: id in h.convs[c].order ==> id in h.runs
    requires NextIndex(h.runs, h.convs[c].order) <= NextIndex(h'.runs, h'.convs[c].order)
    requires h'.convs[c].active.Some? ==> h'.convs[c].active.value in h'.convs[c].order
    ensures HistoryFits(h', c, history)
    ensures forall u :: u in history && Activated(h, h', c) != [] ==> u < Activated(h, h', c)[0]
  {
    var order, order' := h.convs[c].order, h'.convs[c].order;
    forall u, id | u in history && id in order' && id in h'.runs && h'.runs[id].state.Queued?
      ensures u < h'.runs[id].queueIndex
    {
      assert id in order ==> NotQueuedAgain(h.runs[id], h'.runs[id]);
    }
    if Activated(h, h', c) != [] {
      var a := h'.convs[c].active.value;
      assert a in order ==> NotQueuedAgain(h.runs[a], h'.runs[a]);
    }
  }

  lemma ActivatedComesFirst(h: Hub, h': Hub, c: ConvId)
    requires Inv(h') && c in h.convs && MovesOn(h, h', c) && Activated(h, h', c) != []
    ensures var v := Activated(h, h', c)[0];
      && v < NextIndex(h'.runs, h'.convs[c].order)
      && forall id :: id in h'.convs[c].order && h'.runs[id].state.Queued? ==> v < h'.runs[id].queueIndex
  {
    var order', a := h'.convs[c].order, h'.convs[c].active.value;
    assert ConvInv(h'.runs, h'.issued, c, h'.convs[c]);
    MaxIndexBounds(h'.runs, order');
    forall id | id in order' && h'.runs[id].state.Queued?
      ensures h'.runs[a].queueIndex < h'.runs[id].queueIndex
    {
      QueuedAfterActive(h'.runs, order', a, id);
    }
  }

  lemma ActivationFits(h: Hub, h': Hub, c: ConvId, history: seq<int>)
    requires Inv(h) && Inv(h') && c in h.convs && MovesOn(h, h', c)
    requires HistoryFits(h, c, history)
    ensures HistoryFits(h', c, history + Activated(h, h', c))
  {
    NextIndexGrows(h, h', c);
    assert ConvInv(h.runs, h.issued, c, h.convs[c]) && ConvInv(h'.runs, h'.issued, c, h'.convs[c]);
    HistoryStillFits(h, h', c, history);
    if Activated(h, h', c) != [] {
      ActivatedComesFirst(h, h', c);
    }
    hide Inv, ConvInv, MovesOn;
    HistoryGrows(h', c, history, Activated(h, h', c));
  }

  lemma HistoryGrows(h: Hub, c: ConvId, history: seq<int>, more: seq<int>)
    requires c in h.convs && HistoryFits(h, c, history) && |more| <= 1
    requires more != [] ==>
      && (forall v :: v in history ==> v < more[0])
      && more[0] < NextIndex(h.runs, h.convs[c].order)
      && forall id :: id in h.convs[c].order && id in h.runs && h.runs[id].state.Queued? ==>
           more[0] < h.runs[id].queueIndex
    ensures HistoryFits(h, c, history + more)
  {
    if more == [] {
      assert history + more == history;
    } else {
      assert more == [more[0]];
      assert forall i :: 0 <= i < |history| ==> history[i] in history;
    }
  }

  lemma {:induction false} HistoryFitsOverRuns(steps: seq<Step>, c: ConvId)
    requires AllAllowed(EMPTY, steps)
    ensures HistoryFits(Exec(EMPTY, steps), c, History(EMPTY, steps, c))
  {
    if steps != [] {
      var front, step := steps[..|steps| - 1], steps[|steps| - 1];
      HistoryFitsOverRuns(front, c);
      InvariantOverRuns(front);
      InvariantOverRuns(steps);
      var h := Exec(EMPTY, front);
      if CutsHistory(h, step, c) {
      } else if c in h.convs {
        StepMovesOn(h, step, c);
        ActivationFits(h, Next(h, step), c, History(EMPTY, front, c));
      }
    }
  }

  /** First in, first out: between two rollbacks of a conversation, over any run, the runs that
      become active have strictly increasing queue indices. */
  lemma {:induction false} ActivationOrder(steps: seq<Step>, c: ConvId)
    requires AllAllowed(EMPTY, steps)
    ensures StrictlyIncreasing(History(EMPTY, steps, c))
  {
    HistoryFitsOverRuns(steps, c);
  }

  /** A new run is queued behind every other and gets an index above all of theirs. */
  lemma {:induction false} SubmitIsLast(h: Hub, c: ConvId, id: RunId, msg: MessageId, model: string, now: nat)
    requires Inv(h) && c in h.convs && id !in h.issued
    ensures var h' := Submit(h, c, id, msg, model, now).0;
      && h'.convs[c].order == h.convs[c].order + [id]
      && (forall x :: x in h.runs && h.runs[x].conv == c ==>
            h'.runs[x] == h.runs[x] && h.runs[x].queueIndex < h'.runs[id].queueIndex)
      && (h'.convs[c].active == Some(id) <==> h.convs[c].active.None?)
  {
    assert ConvInv(h.runs, h.issued, c, h.convs[c]);
    MaxIndexBounds(h.runs, h.convs[c].order);
  }

  /** The status a submit writes is the derived one exactly when the run could start at once; behind an
      active run it writes that the conversation waits, where the derivation would say it runs. */
  lemma SubmitStatusExactly(h: Hub, c: ConvId, id: RunId, msg: MessageId, model: string, now: nat)
    requires c in h.convs
    ensures var h' := Submit(h, c, id, msg, model, now).0;
      && DeriveQueueState(h'.runs, h'.convs[c].order, h'.convs[c].active) == Running
      && (h'.convs[c].queueState == Running <==> h.convs[c].active.None?)
      && !h'.convs[c].queueState.Idle?
  {
  }
}
