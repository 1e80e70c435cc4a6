/** Which stored snapshots name runs that a rollback deleted. */
module QueueSnapshots {
  import opened Basics
  import opened QueueModel
  import opened QueueInvariant
  import opened QueueSteps
  import opened QueueRuns
  import opened QueueUndo

  /** Every run the snapshot names is there. */
  ghost predicate Current(runs: map<RunId, Run>, s: Snapshot) {
    Elements(s.runIds) <= runs.Keys
  }

  ghost predicate NoneStale(h: Hub, c: ConvId)
    requires c in h.convs
  {
    forall t :: t in h.convs[c].snapshots ==> Current(h.runs, t)
  }

  lemma CurrentIsPrefix(runs: map<RunId, Run>, issued: set<RunId>, order: seq<RunId>, t: Snapshot)
    requires SnapshotFits(runs, issued, order, t) && Current(runs, t)
    ensures t.runIds <= order
  {
    forall x | x in t.runIds
      ensures x in runs.Keys
    {
      assert x in Elements(t.runIds);
    }
    FilterAll(t.runIds, runs.Keys);
  }

  /** What a cut to `order'` leaves current: what names no more runs than are left. */
  lemma CutKeepsCurrentExactly(runs: map<RunId, Run>, runs': map<RunId, Run>, issued: set<RunId>, c: ConvId,
      order: seq<RunId>, order': seq<RunId>, t: Snapshot)
    requires Lists(runs, c, order) && order' <= order && SnapshotFits(runs, issued, order, t)
    requires forall id :: id in runs' <==> id in runs && (runs[id].conv != c || id in order')
    ensures Current(runs', t) <==> Current(runs, t) && |t.runIds| <= |order'|
  {
    if Current(runs, t) {
      CurrentIsPrefix(runs, issued, order, t);
      if |t.runIds| <= |order'| {
        forall id | id in Elements(t.runIds)
          ensures id in runs'
        {
          var i :| 0 <= i < |t.runIds| && t.runIds[i] == id;
          assert order'[i] == order[i] == id;
        }
      } else {
        var id := t.runIds[|order'|];
        assert id == order[|order'|] && id in order && id in Elements(t.runIds);
        assert id !in order';
      }
    } else {
      assert runs'.Keys <= runs.Keys;
    }
  }

  /**
   After a rollback that succeeded no stored snapshot names a deleted run exactly when none did that is not
   later than the snapshot gone back to, and none of those names more runs than that one has left.
   */
  lemma {:induction false} NoneStaleAfterExactly(h: Hub, c: ConvId, messageId: MessageId, now: nat)
    requires Inv(h) && Rollback(h, c, messageId, now, true, true).1.Done?
    ensures c in h.convs && ChooseSnapshot(h, h.convs[c], messageId, now).Some?
    ensures var h' := Rollback(h, c, messageId, now, true, true).0;
      var s := ChooseSnapshot(h, h.convs[c], messageId, now).value;
      && c in h'.convs
      && (NoneStale(h', c) <==>
            forall t :: t in h.convs[c].snapshots && t.createdAt <= s.createdAt ==>
              Current(h.runs, t) && |t.runIds| <= |Filter(s.runIds, h.runs.Keys)|)
  {
    RollbackIsTruncation(h, c, messageId, now);
    var conv := h.convs[c];
    var h' := Rollback(h, c, messageId, now, true, true).0;
    var s := ChooseSnapshot(h, conv, messageId, now).value;
    assert ConvInv(h.runs, h.issued, c, conv);
    KeepSnapshotsSubset(conv.snapshots, s.createdAt);
    assert h'.convs[c].snapshots == KeepSnapshotsUntil(conv.snapshots, s.createdAt);
    forall t | t in conv.snapshots
      ensures Current(h'.runs, t) <==> Current(h.runs, t) && |t.runIds| <= |Filter(s.runIds, h.runs.Keys)|
    {
      CutKeepsCurrentExactly(h.runs, h'.runs, h.issued, c, conv.order, h'.convs[c].order, t);
    }
  }

  lemma {:induction false} KeepAllSnapshots(items: seq<Snapshot>, limit: nat)
    requires forall t :: t in items ==> t.createdAt <= limit
    ensures KeepSnapshotsUntil(items, limit) == items
  {
    if items != [] {
      KeepAllSnapshots(items[..|items| - 1], limit);
      assert items == items[..|items| - 1] + [items[|items| - 1]];
    }
  }

  /** Without a stored snapshot a rollback is dated now, so it prunes nothing: it leaves a stale snapshot
      exactly when there was one or one names more runs than are kept. */
  lemma {:induction false} FallbackPrunesNothing(h: Hub, c: ConvId, messageId: MessageId, now: nat)
    requires Inv(h) && c in h.convs && Rollback(h, c, messageId, now, true, true).1.Done?
    requires FindSnapshot(h.convs[c].snapshots, messageId).None?
    requires forall t :: t in h.convs[c].snapshots ==> t.createdAt <= now
    ensures var h' := Rollback(h, c, messageId, now, true, true).0;
      && c in h'.convs && h'.convs[c].snapshots == h.convs[c].snapshots
      && (NoneStale(h', c) <==>
            NoneStale(h, c) && forall t :: t in h.convs[c].snapshots ==> |t.runIds| <= |h'.convs[c].order|)
  {
    NoneStaleAfterExactly(h, c, messageId, now);
    RollbackIsTruncation(h, c, messageId, now);
    KeepAllSnapshots(h.convs[c].snapshots, now);
  }

  // ---- whole runs without stale snapshots ------------------------------------------------------------

  /** Snapshots of a conversation are taken in different seconds, and it is only rolled back to a message
      that has one. */
  ghost predicate Ticks(h: Hub, step: Step) {
    match step
    case DoSubmit(c, _, _, _, now) => c in h.convs ==> LaterThanAll(h.convs[c].snapshots, now)
    case DoCommand(c, _, _, now) => c in h.convs ==> LaterThanAll(h.convs[c].snapshots, now)
    case DoRollback(c, messageId, _, _, _) =>
      c in h.convs ==> FindSnapshot(h.convs[c].snapshots, messageId).Some?
    case _ => true
  }

  ghost predicate LaterThanAll(items: seq<Snapshot>, now: nat) {
    forall t :: t in items ==> t.createdAt < now
  }

  ghost predicate AllTick(h: Hub, steps: seq<Step>) {
    steps != [] ==>
      && AllTick(h, steps[..|steps| - 1])
      && Ticks(Exec(h, steps[..|steps| - 1]), steps[|steps| - 1])
  }

  /** In the order of their seconds the snapshots name more and more runs. */
  ghost predicate Growing(items: seq<Snapshot>) {
    forall i, j :: 0 <= i < j < |items| ==>
      items[i].createdAt < items[j].createdAt && |items[i].runIds| <= |items[j].runIds|
  }

  ghost predicate Orderly(h: Hub) {
    forall c :: c in h.convs ==> NoneStale(h, c) && Growing(h.convs[c].snapshots)
  }

  lemma {:induction false} KeptGrowing(items: seq<Snapshot>, limit: nat)
    requires Growing(items)
    ensures Growing(KeepSnapshotsUntil(items, limit))
  {
    if items != [] {
      var front, last := items[..|items| - 1], items[|items| - 1];
      KeptGrowing(front, limit);
      KeepSnapshotsSubset(front, limit);
      var kept := KeepSnapshotsUntil(front, limit);
      forall i | 0 <= i < |kept|
        ensures kept[i].createdAt < last.createdAt && |kept[i].runIds| <= |last.runIds|
      {
        assert kept[i] in front;
        var k :| 0 <= k < |front| && front[k] == kept[i];
        assert items[k] == kept[i];
      }
    }
  }

  lemma GrowingSize(items: seq<Snapshot>, t: Snapshot, s: Snapshot)
    requires Growing(items) && t in items && s in items && t.createdAt <= s.createdAt
    ensures |t.runIds| <= |s.runIds|
  {
    var i :| 0 <= i < |items| && items[i] == t;
    var j :| 0 <= j < |items| && items[j] == s;
  }

  lemma TakenGrowing(runs: map<RunId, Run>, issued: set<RunId>, order: seq<RunId>, items: seq<Snapshot>, s: Snapshot)
    requires forall t :: t in items ==> SnapshotFits(runs, issued, order, t) && Current(runs, t)
    requires Growing(items) && LaterThanAll(items, s.createdAt) && order <= s.runIds
    ensures Growing(items + [s])
  {
    hide SnapshotFits, Current;
    forall i | 0 <= i < |items|
      ensures items[i].createdAt < s.createdAt && |items[i].runIds| <= |s.runIds|
    {
      assert items[i] in items;
      CurrentIsPrefix(runs, issued, order, items[i]);
    }
  }

  /** A new snapshot that names the whole order list goes behind the others. */
  lemma TakenOrderly(h: Hub, h': Hub, c: ConvId, s: Snapshot)
    requires Inv(h) && Orderly(h) && c in h.convs && h'.convs.Keys == h.convs.Keys
    requires h.runs.Keys <= h'.runs.Keys && Current(h'.runs, s)
    requires h'.convs[c].snapshots == h.convs[c].snapshots + [s]
    requires LaterThanAll(h.convs[c].snapshots, s.createdAt) && h.convs[c].order <= s.runIds
    requires forall d :: d in h.convs && d != c ==> h'.convs[d].snapshots == h.convs[d].snapshots
    ensures Orderly(h')
  {
    assert ConvInv(h.runs, h.issued, c, h.convs[c]);
    assert NoneStale(h, c) && Growing(h.convs[c].snapshots);
    TakenGrowing(h.runs, h.issued, h.convs[c].order, h.convs[c].snapshots, s);
    hide Growing, Inv, ConvInv;
    forall d | d in h'.convs
      ensures NoneStale(h', d) && Growing(h'.convs[d].snapshots)
    {
      assert NoneStale(h, d) && Growing(h.convs[d].snapshots);
    }
  }

  lemma SameSnapshotsOrderly(h: Hub, h': Hub)
    requires Orderly(h) && h'.convs.Keys == h.convs.Keys && h.runs.Keys <= h'.runs.Keys
    requires forall d :: d in h.convs ==> h'.convs[d].snapshots == h.convs[d].snapshots
    ensures Orderly(h')
  {
    forall d | d in h'.convs
      ensures NoneStale(h', d) && Growing(h'.convs[d].snapshots)
    {
      assert NoneStale(h, d) && Growing(h.convs[d].snapshots);
    }
  }

  /** Taking away runs of other conversations leaves a conversation's snapshots current. */
  lemma OthersStayCurrent(h: Hub, h': Hub, d: ConvId)
    requires Inv(h) && Orderly(h) && d in h.convs && d in h'.convs && h'.convs[d] == h.convs[d]
    requires forall id :: id in h.runs && h.runs[id].conv == d ==> id in h'.runs
    ensures NoneStale(h', d) && Growing(h'.convs[d].snapshots)
  {
    assert ConvInv(h.runs, h.issued, d, h.convs[d]);
    assert NoneStale(h, d) && Growing(h.convs[d].snapshots);
    forall t | t in h.convs[d].snapshots
      ensures Current(h'.runs, t)
    {
      CurrentIsPrefix(h.runs, h.issued, h.convs[d].order, t);
      assert forall x :: x in t.runIds ==> x in h.convs[d].order;
    }
  }

  lemma RollbackOrderly(h: Hub, c: ConvId, messageId: MessageId, now: nat)
    requires Inv(h) && Orderly(h) && c in h.convs
    requires FindSnapshot(h.convs[c].snapshots, messageId).Some?
    ensures Orderly(Rollback(h, c, messageId, now, true, true).0)
  {
    var h' := Rollback(h, c, messageId, now, true, true).0;
    var items, s := h.convs[c].snapshots, FindSnapshot(h.convs[c].snapshots, messageId).value;
    FindSnapshotStored(items, messageId);
    assert NoneStale(h, c) && Growing(items);
    RollbackIsTruncation(h, c, messageId, now);
    NoneStaleAfterExactly(h, c, messageId, now);
    FilterAll(s.runIds, h.runs.Keys) by {
      assert forall x :: x in s.runIds ==> x in Elements(s.runIds);
    }
    forall t | t in items && t.createdAt <= s.createdAt
      ensures |t.runIds| <= |s.runIds|
    {
      GrowingSize(items, t, s);
    }
    KeptGrowing(items, s.createdAt);
    forall d | d in h'.convs && d != c
      ensures NoneStale(h', d) && Growing(h'.convs[d].snapshots)
    {
      OthersStayCurrent(h, h', d);
    }
  }

  lemma StartNextKeys(runs: map<RunId, Run>, conv: Conv)
    ensures runs.Keys <= StartNext(runs, conv).Keys
  {
  }

  lemma StopOrderly(h: Hub, c: ConvId)
    requires Orderly(h)
    ensures Orderly(StopConversation(h, c).0)
  {
    hide Orderly;
    if c in h.convs {
      var conv := h.convs[c];
      var runs := if conv.active.Some? && conv.active.value in h.runs
                  then SetState(h.runs, conv.active.value, Cancelled) else h.runs;
      StartNextKeys(runs, conv);
      SameSnapshotsOrderly(h, StopConversation(h, c).0);
    }
  }

  lemma ControlKeys(h: Hub, id: RunId, action: Action, answer: Answer, m: MessageId)
    ensures var h' := Control(h, id, action, answer, m).0;
      h.runs.Keys <= h'.runs.Keys && h'.convs.Keys == h.convs.Keys
  {
    if id in h.runs && h.runs[id].conv in h.convs {
      StartNextKeys(h.runs, h.convs[h.runs[id].conv]);
    }
  }

  lemma ControlOrderly(h: Hub, id: RunId, action: Action, answer: Answer, m: MessageId)
    requires Orderly(h)
    ensures Orderly(Control(h, id, action, answer, m).0)
  {
    hide Orderly, Control;
    var h' := Control(h, id, action, answer, m).0;
    ControlKeys(h, id, action, answer, m);
    forall d | d in h.convs
      ensures h'.convs[d].snapshots == h.convs[d].snapshots
    {
      ControlKeepsSnapshots(h, id, action, answer, m, d);
    }
    SameSnapshotsOrderly(h, h');
  }

  lemma AdvanceOrderly(h: Hub, runs: map<RunId, Run>, id: RunId, c: ConvId)
    requires Orderly(h) && h.runs.Keys <= runs.Keys
    ensures Orderly(AdvanceAfter(h, runs, id, c))
  {
    hide Orderly;
    if c in h.convs {
      StartNextKeys(runs, h.convs[c]);
    }
    SameSnapshotsOrderly(h, AdvanceAfter(h, runs, id, c));
  }

  lemma EventOrderly(h: Hub, id: RunId, ev: RuntimeEvent)
    requires Orderly(h)
    ensures Orderly(ProjectEvent(h, id, ev))
  {
    hide Orderly;
    if id in h.runs {
      var runs := SetState(h.runs, id, StateAfter(ev, h.runs[id].state));
      var asked := h.(questions := QuestionsAfter(h.questions, id, ev));
      SameSnapshotsOrderly(h, asked);
      SameSnapshotsOrderly(h, asked.(runs := runs));
      AdvanceOrderly(asked, runs, id, h.runs[id].conv);
    }
  }

  lemma SyncOrderly(h: Hub, project: string, model: string, resolved: Option<string>)
    requires Orderly(h)
    ensures Orderly(SyncModel(h, project, model, resolved))
  {
    hide Orderly;
    SameSnapshotsOrderly(h, SyncModel(h, project, model, resolved));
  }

  lemma DeleteOrderly(h: Hub, c: ConvId)
    requires Inv(h) && Orderly(h)
    ensures Orderly(DeleteConversation(h, c))
  {
    var h' := DeleteConversation(h, c);
    forall d | d in h'.convs
      ensures NoneStale(h', d) && Growing(h'.convs[d].snapshots)
    {
      OthersStayCurrent(h, h', d);
    }
  }

  lemma SubmitOrderly(h: Hub, c: ConvId, id: RunId, msg: MessageId, model: string, now: nat)
    requires Inv(h) && Orderly(h) && (c in h.convs ==> LaterThanAll(h.convs[c].snapshots, now))
    ensures Orderly(Submit(h, c, id, msg, model, now).0)
  {
    hide Orderly;
    if c in h.convs {
      var h' := Submit(h, c, id, msg, model, now).0;
      var s := Snapshot(msg, h'.convs[c].messages, h.convs[c].order + [id], now);
      assert ConvInv(h.runs, h.issued, c, h.convs[c]);
      assert Current(h'.runs, s);
      TakenOrderly(h, h', c, s);
    }
  }

  lemma CommandOrderly(h: Hub, c: ConvId, userMsg: MessageId, systemMsg: MessageId, now: nat)
    requires Inv(h) && Orderly(h) && (c in h.convs ==> LaterThanAll(h.convs[c].snapshots, now))
    ensures Orderly(CommandResult(h, c, userMsg, systemMsg, now).0)
  {
    hide Orderly;
    if c in h.convs {
      var h' := CommandResult(h, c, userMsg, systemMsg, now).0;
      var s := Snapshot(userMsg, h'.convs[c].messages, h.convs[c].order, now);
      assert ConvInv(h.runs, h.issued, c, h.convs[c]);
      assert Current(h'.runs, s);
      TakenOrderly(h, h', c, s);
    }
  }

  lemma StepOrderly(h: Hub, step: Step)
    requires Inv(h) && Orderly(h) && Allowed(h, step) && Ticks(h, step)
    ensures Orderly(Next(h, step))
  {
    match step
    case DoCreate(c, project, model) =>
      var h' := CreateConversation(h, c, project, model);
      forall d | d in h'.convs
        ensures NoneStale(h', d) && Growing(h'.convs[d].snapshots)
      {
        assert d in h.convs ==> NoneStale(h, d) && Growing(h.convs[d].snapshots);
      }
    case DoSubmit(c, id, msg, model, now) => SubmitOrderly(h, c, id, msg, model, now);
    case DoCommand(c, u, s, now) => CommandOrderly(h, c, u, s, now);
    case DoStop(c) => StopOrderly(h, c);
    case DoControl(id, action, answer, m) => ControlOrderly(h, id, action, answer, m);
    case DoRollback(c, m, now, known, ok) =>
      if c in h.convs && known && ok {
        RollbackOrderly(h, c, m, now);
      }
    case DoFail(id) =>
      if id in h.runs && !Terminal(h.runs[id].state) {
        AdvanceOrderly(h, SetState(h.runs, id, Failed), id, h.runs[id].conv);
      }
    case DoEvent(id, ev) => EventOrderly(h, id, ev);
    case DoSync(project, model, resolved) => SyncOrderly(h, project, model, resolved);
    case DoDelete(c) => DeleteOrderly(h, c);
  }

  /** Over any run in which snapshots of a conversation are taken in different seconds and rollbacks go to
      stored snapshots, no stored snapshot ever names a deleted run. */
  lemma {:induction false} NeverStaleOverRuns(steps: seq<Step>)
    requires AllAllowed(EMPTY, steps) && AllTick(EMPTY, steps)
    ensures Orderly(Exec(EMPTY, steps))
  {
    if steps != [] {
      var front, step := steps[..|steps| - 1], steps[|steps| - 1];
      NeverStaleOverRuns(front);
      InvariantOverRuns(front);
      StepOrderly(Exec(EMPTY, front), step);
    }
  }

  // ---- a rollback that leaves a stale snapshot in a later second ------------------------------------

  lemma {:induction false} PositionOfNew(messages: seq<Message>, m: Message)
    requires forall x :: x in messages ==> x.id != m.id
    ensures forall more: seq<Message> :: MessagePosition(messages + [m] + more, m.id) == Some(|messages|)
  {
    if messages == [] {
      forall more: seq<Message>
        ensures MessagePosition(messages + [m] + more, m.id) == Some(0)
      {
      }
    } else {
      PositionOfNew(messages[1..], m);
      forall more: seq<Message>
        ensures MessagePosition(messages + [m] + more, m.id) == Some(|messages|)
      {
        assert (messages + [m] + more)[1..] == messages[1..] + [m] + more;
      }
    }
  }

  lemma AnsweredMessage(h: Hub, a: RunId, answer: Answer, reply: MessageId)
    requires Inv(h) && a in h.runs && Control(h, a, AnswerQuestion, answer, reply).1.Done?
    ensures var h1 := Control(h, a, AnswerQuestion, answer, reply).0;
      var c := h.runs[a].conv;
      && c in h.convs && c in h1.convs && a in h1.runs && SamePlace(h.runs[a], h1.runs[a])
      && h.runs[a].queueIndex >= 0
      && h1.convs[c].order == h.convs[c].order && h1.convs[c].snapshots == h.convs[c].snapshots
      && h1.convs[c].messages == h.convs[c].messages + [Message(reply, User, Some(h.runs[a].queueIndex))]
      && h1.issued == h.issued
  {
  }

  /** A rollback to a message without a snapshot deletes every run behind the one it stands for, and leaves
      the snapshots that name it. */
  lemma {:induction false} FallbackLeavesStale(h: Hub, c: ConvId, b: RunId, reply: Message, front: seq<Message>,
      more: seq<Message>, later: nat, t: Snapshot)
    requires Inv(h) && c in h.convs && h.convs[c].messages == front + [reply] + more
    requires FindSnapshot(h.convs[c].snapshots, reply.id).None? && forall m :: m in front ==> m.id != reply.id
    requires reply.role.User? && reply.queueIndex.Some? && reply.queueIndex.value >= 0
    requires b in h.runs && h.runs[b].conv == c && h.runs[b].queueIndex > reply.queueIndex.value
    requires t in h.convs[c].snapshots && t.createdAt <= later
    ensures var (h', outcome) := Rollback(h, c, reply.id, later, true, true);
      outcome.Done? && c in h'.convs && b !in h'.runs && t in h'.convs[c].snapshots
  {
    hide Inv;
    var messages := h.convs[c].messages;
    PositionOfNew(front, reply);
    assert MessagePosition(messages, reply.id) == Some(|front|) && messages[|front|] == reply;
    RollbackWithoutSnapshot(h, c, reply.id, later);
    RollbackIsTruncation(h, c, reply.id, later);
    KeepSnapshotsSubset(h.convs[c].snapshots, later);
  }

  /**
   The active run asks, its question is answered with the message `reply`, and another run is submitted, at
   whatever second. A rollback to `reply`, then or later, deletes that run, and the snapshot of its message
   stays and names it.
   */
  lemma {:induction false} AnswerRollbackLeavesStale(h: Hub, c: ConvId, a: RunId, b: RunId, answer: Answer,
      reply: MessageId, n: MessageId, model: string, now: nat, later: nat)
    requires Inv(h) && c in h.convs && b !in h.issued && now <= later && reply != n
    requires a in h.runs && h.runs[a].conv == c && Control(h, a, AnswerQuestion, answer, reply).1.Done?
    requires FindSnapshot(h.convs[c].snapshots, reply).None?
    requires forall m :: m in h.convs[c].messages ==> m.id != reply
    ensures var h1 := Control(h, a, AnswerQuestion, answer, reply).0;
      var h2 := Submit(h1, c, b, n, model, now).0;
      var (h3, outcome) := Rollback(h2, c, reply, later, true, true);
      && outcome.Done? && c in h3.convs && b !in h3.runs
      && exists s :: s in h3.convs[c].snapshots && s.messageId == n && b in s.runIds
  {
    hide Inv, Control, NextIndex;
    var h1 := Control(h, a, AnswerQuestion, answer, reply).0;
    ControlKeeps(h, a, AnswerQuestion, answer, reply);
    AnsweredMessage(h, a, answer, reply);
    var h2 := Submit(h1, c, b, n, model, now).0;
    SubmitKeeps(h1, c, b, n, model, now);
    SubmitIsLast(h1, c, b, n, model, now);
    AppendedIsNotFound(h1, h2, c, reply);
    var front, items := h.convs[c].messages, h2.convs[c].snapshots;
    var asked := Message(reply, User, Some(h.runs[a].queueIndex));
    var taken := items[|items| - 1];
    assert taken in items && b in taken.runIds;
    FallbackLeavesStale(h2, c, b, asked, front, h2.convs[c].messages[|front| + 1..], later, taken);
  }
}
