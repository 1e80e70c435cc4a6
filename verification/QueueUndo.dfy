/** What a rollback brings back: the conversation as it was right after the message was submitted. */
module QueueUndo {
  import opened Basics
  import opened QueueModel
  import opened QueueInvariant
  import opened QueueSteps
  import opened QueueRuns

  /** The step takes no snapshot at `msg` in `c`. */
  predicate Elsewhere(step: Step, c: ConvId, msg: MessageId) {
    match step
    case DoSubmit(d, _, m, _, _) => d != c || m != msg
    case DoCommand(d, m, _, _) => d != c || m != msg
    case _ => true
  }

  /** No rollback or deletion of `c`, and no other snapshot at `msg`. */
  ghost predicate Later(h: Hub, steps: seq<Step>, c: ConvId, msg: MessageId) {
    steps != [] ==>
      && Later(h, steps[..|steps| - 1], c, msg)
      && !CutsHistory(Exec(h, steps[..|steps| - 1]), steps[|steps| - 1], c)
      && Elsewhere(steps[|steps| - 1], c, msg)
  }

  lemma AdvanceKeepsSnapshots(h: Hub, runs: map<RunId, Run>, id: RunId, d: ConvId, c: ConvId)
    requires c in h.convs
    ensures c in AdvanceAfter(h, runs, id, d).convs
    ensures AdvanceAfter(h, runs, id, d).convs[c].snapshots == h.convs[c].snapshots
  {
  }

  lemma ControlKeepsSnapshots(h: Hub, id: RunId, action: Action, answer: Answer, m: MessageId, c: ConvId)
    requires c in h.convs
    ensures var h' := Control(h, id, action, answer, m).0;
      c in h'.convs && h'.convs[c].snapshots == h.convs[c].snapshots
  {
  }

  /** The stored snapshot of `msg` stays the one a rollback finds. */
  lemma StepKeepsFound(h: Hub, step: Step, c: ConvId, msg: MessageId)
    requires Inv(h) && Allowed(h, step) && c in h.convs
    requires !CutsHistory(h, step, c) && Elsewhere(step, c, msg)
    ensures c in Next(h, step).convs
    ensures FindSnapshot(Next(h, step).convs[c].snapshots, msg) == FindSnapshot(h.convs[c].snapshots, msg)
  {
    match step
    case DoSubmit(d, id, m, model, now) => AppendedIsNotFound(h, Next(h, step), c, msg);
    case DoCommand(d, u, s, now) => AppendedIsNotFound(h, Next(h, step), c, msg);
    case DoControl(id, action, answer, m) => ControlKeepsSnapshots(h, id, action, answer, m, c);
    case DoFail(id) => FailKeepsSnapshots(h, id, c);
    case DoEvent(id, ev) => EventKeepsSnapshots(h, id, ev, c);
    case DoRollback(d, m, now, known, ok) =>
      if Rollback(h, d, m, now, known, ok).1.Done? {
        RollbackIsTruncation(h, d, m, now);
      }
    case _ =>
  }

  lemma FailKeepsSnapshots(h: Hub, id: RunId, c: ConvId)
    requires c in h.convs
    ensures c in FailRun(h, id).convs && FailRun(h, id).convs[c].snapshots == h.convs[c].snapshots
  {
    if id in h.runs && !Terminal(h.runs[id].state) {
      AdvanceKeepsSnapshots(h, SetState(h.runs, id, Failed), id, h.runs[id].conv, c);
    }
  }

  lemma EventKeepsSnapshots(h: Hub, id: RunId, ev: RuntimeEvent, c: ConvId)
    requires c in h.convs
    ensures c in ProjectEvent(h, id, ev).convs && ProjectEvent(h, id, ev).convs[c].snapshots == h.convs[c].snapshots
  {
    if id in h.runs && Ends(ev) {
      var asked := h.(questions := QuestionsAfter(h.questions, id, ev));
      AdvanceKeepsSnapshots(asked, SetState(h.runs, id, StateAfter(ev, h.runs[id].state)), id, h.runs[id].conv, c);
    }
  }

  lemma AppendedIsNotFound(h: Hub, h': Hub, c: ConvId, msg: MessageId)
    requires c in h.convs && c in h'.convs
    requires h'.convs[c].snapshots == h.convs[c].snapshots
      || exists s :: h'.convs[c].snapshots == h.convs[c].snapshots + [s] && s.messageId != msg
    ensures FindSnapshot(h'.convs[c].snapshots, msg) == FindSnapshot(h.convs[c].snapshots, msg)
  {
    if h'.convs[c].snapshots != h.convs[c].snapshots {
      var s :| h'.convs[c].snapshots == h.convs[c].snapshots + [s] && s.messageId != msg;
      assert (h.convs[c].snapshots + [s])[..|h.convs[c].snapshots|] == h.convs[c].snapshots;
    }
  }

  /** The order list goes on from that of an earlier moment, whose runs are where they were. */
  ghost predicate GoesOn(h: Hub, h': Hub, c: ConvId) {
    && c in h.convs && c in h'.convs
    && h.convs[c].order <= h'.convs[c].order
    && (forall id :: id in h.convs[c].order ==> id in h.runs && id in h'.runs && SamePlace(h.runs[id], h'.runs[id]))
  }

  lemma GoesOnFromItself(h: Hub, c: ConvId)
    requires Inv(h) && c in h.convs
    ensures GoesOn(h, h, c)
  {
    assert ConvInv(h.runs, h.issued, c, h.convs[c]);
  }

  lemma GoesOnFurther(h: Hub, before: Hub, after: Hub, c: ConvId)
    requires GoesOn(h, before, c) && MovesOn(before, after, c)
    ensures GoesOn(h, after, c)
  {
    assert forall id :: id in h.convs[c].order ==> id in before.convs[c].order;
  }

  /** What any later steps leave of a moment: the conversation goes on from it, and the snapshot of
      `msg` is still found. */
  lemma {:induction false} LaterGoesOn(h: Hub, steps: seq<Step>, c: ConvId, msg: MessageId)
    requires Inv(h) && c in h.convs && AllAllowed(h, steps) && Later(h, steps, c, msg)
    ensures var h' := Exec(h, steps);
      && Inv(h') && GoesOn(h, h', c)
      && FindSnapshot(h'.convs[c].snapshots, msg) == FindSnapshot(h.convs[c].snapshots, msg)
  {
    hide Inv;
    if steps == [] {
      GoesOnFromItself(h, c);
    } else {
      var front, step := steps[..|steps| - 1], steps[|steps| - 1];
      LaterGoesOn(h, front, c, msg);
      var before := Exec(h, front);
      StepKeeps(before, step);
      StepMovesOn(before, step, c);
      StepKeepsFound(before, step, c, msg);
      GoesOnFurther(h, before, Next(before, step), c);
    }
  }

  /**
   A rollback to a message that started a run undoes everything that came after the submit, whatever
   that was: the order list and the messages are those right after it, and the listed runs are the
   ones there were then, in their places.
   */
  lemma RollbackRestoresSubmit(h: Hub, c: ConvId, id: RunId, msg: MessageId, model: string, now: nat,
      steps: seq<Step>, later: nat)
    requires Inv(h) && c in h.convs && id !in h.issued
    requires var h1 := Submit(h, c, id, msg, model, now).0;
      AllAllowed(h1, steps) && Later(h1, steps, c, msg)
    ensures var h1 := Submit(h, c, id, msg, model, now).0;
      var (h', outcome) := Rollback(Exec(h1, steps), c, msg, later, true, true);
      && outcome.Done? && c in h'.convs && c in h1.convs
      && h'.convs[c].order == h1.convs[c].order
      && h'.convs[c].messages == h1.convs[c].messages
      && (forall x :: x in h1.convs[c].order ==> x in h1.runs && x in h'.runs && SamePlace(h1.runs[x], h'.runs[x]))
      && (forall x :: x in h'.runs && h'.runs[x].conv == c ==> x in h1.convs[c].order)
  {
    var h1 := Submit(h, c, id, msg, model, now).0;
    SubmitKeeps(h, c, id, msg, model, now);
    LaterGoesOn(h1, steps, c, msg);
    RestoresMoment(h1, Exec(h1, steps), c, msg, later);
  }

  lemma RestoresMoment(h1: Hub, h2: Hub, c: ConvId, msg: MessageId, later: nat)
    requires Inv(h2) && c in h1.convs && c in h2.convs
    requires forall id :: id in h1.convs[c].order ==>
      id in h1.runs && id in h2.runs && SamePlace(h1.runs[id], h2.runs[id])
    requires FindSnapshot(h2.convs[c].snapshots, msg).Some?
    requires FindSnapshot(h2.convs[c].snapshots, msg).value.runIds == h1.convs[c].order
    requires FindSnapshot(h2.convs[c].snapshots, msg).value.messages == h1.convs[c].messages
    ensures var (h', outcome) := Rollback(h2, c, msg, later, true, true);
      && outcome.Done? && c in h'.convs
      && h'.convs[c].order == h1.convs[c].order
      && h'.convs[c].messages == h1.convs[c].messages
      && (forall x :: x in h1.convs[c].order ==> x in h'.runs && SamePlace(h1.runs[x], h'.runs[x]))
      && (forall x :: x in h'.runs && h'.runs[x].conv == c ==> x in h1.convs[c].order)
  {
    FilterAll(h1.convs[c].order, h2.runs.Keys);
    RollbackIsTruncation(h2, c, msg, later);
    assert ConvInv(h2.runs, h2.issued, c, h2.convs[c]);
  }
}
