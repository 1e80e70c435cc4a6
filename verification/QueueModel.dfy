/**
 The run queue of the hub: every conversation has a list of runs of which at most one is
 active, and every step below is one section of the hub's code that holds the state lock.
 These functions say what each section does; QueueState.dfy does it with loops over mutable
 fields and is proved to agree.
 */
module QueueModel {
  import opened Basics

  type RunId = string
  type ConvId = string
  type MessageId = string

  datatype RunState =
    | Queued | Pending | Executing | Confirming | AwaitingInput
    | Completed | Failed | Cancelled

  datatype QueueState = Idle | Running | Waiting

  predicate Terminal(s: RunState) {
    s.Completed? || s.Failed? || s.Cancelled?
  }

  predicate Ongoing(s: RunState) {
    s.Executing? || s.Pending? || s.Confirming? || s.AwaitingInput?
  }

  datatype Run = Run(conv: ConvId, messageId: MessageId, state: RunState, queueIndex: int, model: string)

  datatype Role = User | System

  datatype Message = Message(id: MessageId, role: Role, queueIndex: Option<int>)

  /** `createdAt` is a time stamp with second resolution. */
  datatype Snapshot = Snapshot(messageId: MessageId, messages: seq<Message>, runIds: seq<RunId>, createdAt: nat)

  datatype Conv = Conv(
    project: string,
    model: string,
    active: Option<RunId>,
    queueState: QueueState,
    order: seq<RunId>,
    messages: seq<Message>,
    snapshots: seq<Snapshot>)

  datatype Question = Question(id: string, optionIds: set<string>, allowText: bool)

  datatype Answer = Answer(questionId: string, optionId: string, text: string)

  /** `issued` holds every run id ever handed out, also those of deleted runs. */
  datatype Hub = Hub(
    runs: map<RunId, Run>,
    convs: map<ConvId, Conv>,
    questions: map<RunId, Question>,
    issued: set<RunId>)

  datatype Outcome =
    | Done
    | ConversationNotFound | RunNotFound | SnapshotNotFound | ProjectNotFound
    | RestoreFailed | StateConflict | RunAlreadyActive | InvalidAnswer

  // ---- derived values -------------------------------------------------------------------

  function MaxIndex(runs: map<RunId, Run>, order: seq<RunId>): int {
    if order == [] then -1
    else
      var front := MaxIndex(runs, order[..|order| - 1]);
      var last := order[|order| - 1];
      if last in runs && runs[last].queueIndex > front then runs[last].queueIndex else front
  }

  function NextIndex(runs: map<RunId, Run>, order: seq<RunId>): int {
    MaxIndex(runs, order) + 1
  }

  /** The first run of `order` whose state satisfies `want`. */
  function FirstWith(runs: map<RunId, Run>, order: seq<RunId>, want: RunState -> bool): Option<RunId> {
    if order == [] then None
    else if order[0] in runs && want(runs[order[0]].state) then Some(order[0])
    else FirstWith(runs, order[1..], want)
  }

  function FirstQueued(runs: map<RunId, Run>, order: seq<RunId>): Option<RunId> {
    FirstWith(runs, order, (s: RunState) => s.Queued?)
  }

  function FirstOngoing(runs: map<RunId, Run>, order: seq<RunId>): Option<RunId> {
    FirstWith(runs, order, Ongoing)
  }

  function DeriveQueueState(runs: map<RunId, Run>, order: seq<RunId>, active: Option<RunId>): QueueState {
    if active.Some? then Running
    else if FirstQueued(runs, order).Some? then Waiting
    else Idle
  }

  function SetState(runs: map<RunId, Run>, id: RunId, s: RunState): map<RunId, Run>
    requires id in runs
  {
    runs[id := runs[id].(state := s)]
  }

  /** The active run is over: the first queued run becomes pending and active, if there is one. */
  function StartNext(runs: map<RunId, Run>, conv: Conv): map<RunId, Run> {
    match FirstQueued(runs, conv.order)
    case Some(next) => if next in runs then SetState(runs, next, Pending) else runs
    case None => runs
  }

  function ConvAfterNext(runs: map<RunId, Run>, conv: Conv): Conv {
    match FirstQueued(runs, conv.order)
    case Some(next) => conv.(active := Some(next), queueState := Running)
    case None => conv.(active := None, queueState := Idle)
  }

  // ---- steps ----------------------------------------------------------------------------

  function CreateConversation(h: Hub, c: ConvId, project: string, model: string): Hub {
    h.(convs := h.convs[c := Conv(project, model, None, Idle, [], [], [])])
  }

  function Submit(h: Hub, c: ConvId, id: RunId, msgId: MessageId, model: string, now: nat): (Hub, Outcome) {
    if c !in h.convs then (h, ConversationNotFound)
    else
      var conv := h.convs[c];
      var index := NextIndex(h.runs, conv.order);
      var state := if conv.active.None? then Pending else Queued;
      var messages := conv.messages + [Message(msgId, User, Some(index))];
      var order := conv.order + [id];
      var snapshot := Snapshot(msgId, messages, order, now);
      var conv' := conv.(
        messages := messages,
        order := order,
        snapshots := conv.snapshots + [snapshot],
        active := if conv.active.None? then Some(id) else conv.active,
        queueState := if conv.active.None? then Running else Waiting);
      (h.(runs := h.runs[id := Run(c, msgId, state, index, model)],
          convs := h.convs[c := conv'],
          issued := h.issued + {id}), Done)
  }

  function CommandResult(h: Hub, c: ConvId, userMsg: MessageId, systemMsg: MessageId, now: nat): (Hub, Outcome) {
    if c !in h.convs then (h, ConversationNotFound)
    else
      var conv := h.convs[c];
      var messages := conv.messages + [Message(userMsg, User, None), Message(systemMsg, System, None)];
      var snapshot := Snapshot(userMsg, messages, conv.order, now);
      (h.(convs := h.convs[c := conv.(messages := messages, snapshots := conv.snapshots + [snapshot])]), Done)
  }

  function StopConversation(h: Hub, c: ConvId): (Hub, Outcome) {
    if c !in h.convs then (h, ConversationNotFound)
    else
      var conv := h.convs[c];
      var runs := if conv.active.Some? && conv.active.value in h.runs
                  then SetState(h.runs, conv.active.value, Cancelled) else h.runs;
      (h.(runs := StartNext(runs, conv), convs := h.convs[c := ConvAfterNext(runs, conv)]), Done)
  }

  /** A run that just ended: advance the queue when it was the active one. */
  function AdvanceAfter(h: Hub, runs: map<RunId, Run>, id: RunId, c: ConvId): Hub {
    if c in h.convs && h.convs[c].active == Some(id)
    then h.(runs := StartNext(runs, h.convs[c]), convs := h.convs[c := ConvAfterNext(runs, h.convs[c])])
    else h.(runs := runs)
  }

  function FailRun(h: Hub, id: RunId): Hub {
    if id !in h.runs || Terminal(h.runs[id].state) then h
    else AdvanceAfter(h, SetState(h.runs, id, Failed), id, h.runs[id].conv)
  }

  // ---- run control: the lifecycle machine and the handler's transition --------------------

  datatype CoreState =
    | CoreQueued | CoreRunning | CoreWaitingApproval | CoreWaitingInput
    | CoreCompleted | CoreFailed | CoreCancelled

  datatype Action = Stop | Approve | Deny | Resume | AnswerQuestion

  function ToCore(s: RunState): CoreState {
    match s
    case Queued => CoreQueued
    case Pending => CoreQueued
    case Executing => CoreRunning
    case Confirming => CoreWaitingApproval
    case AwaitingInput => CoreWaitingInput
    case Completed => CoreCompleted
    case Failed => CoreFailed
    case Cancelled => CoreCancelled
  }

  function FromCore(core: CoreState, current: RunState): RunState {
    match core
    case CoreQueued => Queued
    case CoreRunning => if current.Executing? || current.Confirming? then Executing else Pending
    case CoreWaitingApproval => Confirming
    case CoreWaitingInput => AwaitingInput
    case CoreCompleted => Completed
    case CoreFailed => Failed
    case CoreCancelled => Cancelled
  }

  predicate CanTransition(from: CoreState, to: CoreState) {
    match from
    case CoreQueued => to.CoreRunning? || to.CoreCancelled?
    case CoreRunning =>
      to.CoreWaitingApproval? || to.CoreWaitingInput? || to.CoreCompleted? || to.CoreFailed? || to.CoreCancelled?
    case CoreWaitingApproval => to.CoreRunning? || to.CoreFailed? || to.CoreCancelled?
    case CoreWaitingInput => to.CoreRunning? || to.CoreFailed? || to.CoreCancelled?
    case _ => false
  }

  function Transition(from: CoreState, to: CoreState): Option<CoreState> {
    if CanTransition(from, to) then Some(to) else None
  }

  function ApplyControl(core: CoreState, action: Action): Option<CoreState> {
    match action
    case Stop => Transition(core, CoreCancelled)
    case Deny => Transition(core, CoreCancelled)
    case AnswerQuestion => if core.CoreWaitingInput? then Transition(core, CoreRunning) else None
    case _ =>
      if core.CoreQueued? || core.CoreWaitingApproval? then Transition(core, CoreRunning)
      else if core.CoreRunning? then Some(core)
      else None
  }

  /** `answer` has its blanks trimmed; an empty part was not given. */
  predicate AnswerFits(question: Question, answer: Answer) {
    && answer.questionId != ""
    && answer.questionId == question.id
    && (answer.optionId != "" || answer.text != "")
    && (answer.text != "" ==> question.allowText)
    && (answer.optionId != "" ==> answer.optionId in question.optionIds)
  }

  function Finish(h: Hub, id: RunId, s: RunState): Hub
    requires id in h.runs
  {
    h.(runs := SetState(h.runs, id, s),
       questions := if s.AwaitingInput? then h.questions else h.questions - {id})
  }

  /** Stop, and deny of a run that is not waiting for approval. The queue advances while the
      run still carries its old state; the new state is written last. */
  function CancelRun(h: Hub, id: RunId): Hub
    requires id in h.runs && h.runs[id].conv in h.convs
  {
    var c := h.runs[id].conv;
    var conv := h.convs[c];
    var advanced :=
      if conv.active == Some(id)
      then h.(runs := StartNext(h.runs, conv), convs := h.convs[c := ConvAfterNext(h.runs, conv)])
      else h.(convs := h.convs[c := conv.(queueState := DeriveQueueState(h.runs, conv.order, conv.active))]);
    advanced.(runs := advanced.runs[id := h.runs[id].(state := Cancelled)],
              questions := h.questions - {id})
  }

  function MakeActive(h: Hub, id: RunId): Hub
    requires id in h.runs && h.runs[id].conv in h.convs
  {
    var c := h.runs[id].conv;
    h.(convs := h.convs[c := h.convs[c].(active := Some(id), queueState := Running)])
  }

  function Control(h: Hub, id: RunId, action: Action, answer: Answer, answerMsg: MessageId): (Hub, Outcome) {
    if id !in h.runs then (h, RunNotFound)
    else if h.runs[id].conv !in h.convs then (h, ConversationNotFound)
    else
      var run := h.runs[id];
      var conv := h.convs[run.conv];
      var otherActive := conv.active.Some? && conv.active.value != id;
      match ApplyControl(ToCore(run.state), action)
      case None => (h, StateConflict)
      case Some(core) =>
        var desired := FromCore(core, run.state);
        match action
        case Stop => (CancelRun(h, id), Done)
        case Deny =>
          if run.state.Confirming? then (Finish(MakeActive(h, id), id, Executing), Done)
          else (CancelRun(h, id), Done)
        case AnswerQuestion =>
          if otherActive then (h, RunAlreadyActive)
          else if !run.state.AwaitingInput? || id !in h.questions then (h, StateConflict)
          else if !AnswerFits(h.questions[id], answer) then (h, InvalidAnswer)
          else
            var asked := Message(answerMsg, User, if run.queueIndex >= 0 then Some(run.queueIndex) else None);
            var told := h.(convs := h.convs[run.conv := conv.(messages := conv.messages + [asked])]);
            (Finish(MakeActive(told, id), id, Executing), Done)
        case _ =>
          if otherActive then (h, RunAlreadyActive)
          else (Finish(MakeActive(h, id), id, if run.state.Confirming? then Executing else desired), Done)
  }

  // ---- runtime events ---------------------------------------------------------------------

  /** What a projected runtime event means for its run. */
  datatype RuntimeEvent =
    | Started | NeedsApproval | NeedsInput(question: Option<Question>) | ResumesRunning(resolved: bool)
    | Finished | Errored | Stopped
    | Progress

  function StateAfter(ev: RuntimeEvent, s: RunState): RunState {
    match ev
    case Started => Executing
    case NeedsApproval => Confirming
    case NeedsInput(_) => AwaitingInput
    case ResumesRunning(_) => Executing
    case Finished => Completed
    case Errored => Failed
    case Stopped => Cancelled
    case Progress => s
  }

  predicate Ends(ev: RuntimeEvent) {
    ev.Finished? || ev.Errored? || ev.Stopped?
  }

  function QuestionsAfter(questions: map<RunId, Question>, id: RunId, ev: RuntimeEvent): map<RunId, Question> {
    match ev
    case NeedsInput(Some(q)) => questions[id := q]
    case ResumesRunning(true) => questions - {id}
    case _ => if Ends(ev) then questions - {id} else questions
  }

  function ProjectEvent(h: Hub, id: RunId, ev: RuntimeEvent): Hub {
    if id !in h.runs then h
    else
      var runs := SetState(h.runs, id, StateAfter(ev, h.runs[id].state));
      var asked := h.(questions := QuestionsAfter(h.questions, id, ev));
      if Ends(ev) then AdvanceAfter(asked, runs, id, h.runs[id].conv) else asked.(runs := runs)
  }

  // ---- rollback ---------------------------------------------------------------------------

  /** The latest snapshot taken at the message. */
  function FindSnapshot(items: seq<Snapshot>, messageId: MessageId): Option<Snapshot> {
    if items == [] then None
    else if items[|items| - 1].messageId == messageId then Some(items[|items| - 1])
    else FindSnapshot(items[..|items| - 1], messageId)
  }

  function MessagePosition(messages: seq<Message>, messageId: MessageId): Option<nat> {
    if messages == [] then None
    else if messages[0].id == messageId then Some(0)
    else
      match MessagePosition(messages[1..], messageId)
      case None => None
      case Some(k) => Some(k + 1)
  }

  function MaxMessageIndex(messages: seq<Message>): int {
    if messages == [] then -1
    else
      var front := MaxMessageIndex(messages[..|messages| - 1]);
      var last := messages[|messages| - 1].queueIndex;
      if last.Some? && last.value > front then last.value else front
  }

  /** The runs of `order` that are live and, for a known target, not beyond it. */
  function KeptByIndex(runs: map<RunId, Run>, order: seq<RunId>, target: int): seq<RunId> {
    if order == [] then []
    else
      var front := KeptByIndex(runs, order[..|order| - 1], target);
      var last := order[|order| - 1];
      if last in runs && !(target >= 0 && runs[last].queueIndex > target) then front + [last] else front
  }

  /** The queue index a message stands for: its own, or the largest of the messages up to it. */
  function IndexOfMessage(messages: seq<Message>, k: nat): int
    requires k < |messages|
  {
    var own := messages[k].queueIndex;
    if own.Some? && own.value >= 0 then own.value else MaxMessageIndex(messages[..k + 1])
  }

  /** A snapshot made up from the messages when none was stored. */
  function FallbackSnapshot(h: Hub, conv: Conv, messageId: MessageId, now: nat): Option<Snapshot> {
    match MessagePosition(conv.messages, messageId)
    case None => None
    case Some(k) =>
      if k >= |conv.messages| || !conv.messages[k].role.User? then None
      else
        var target := IndexOfMessage(conv.messages, k);
        Some(Snapshot(messageId, conv.messages[..k + 1], KeptByIndex(h.runs, conv.order, target), now))
  }

  function ChooseSnapshot(h: Hub, conv: Conv, messageId: MessageId, now: nat): Option<Snapshot> {
    match FindSnapshot(conv.snapshots, messageId)
    case Some(s) => Some(s)
    case None => FallbackSnapshot(h, conv, messageId, now)
  }

  function KeepSnapshotsUntil(items: seq<Snapshot>, limit: nat): seq<Snapshot> {
    if items == [] then []
    else
      var front := KeepSnapshotsUntil(items[..|items| - 1], limit);
      if items[|items| - 1].createdAt <= limit then front + [items[|items| - 1]] else front
  }

  /** The runs that survive a rollback of `c` to `snapshot`. */
  function SurvivingRuns(runs: map<RunId, Run>, c: ConvId, snapshot: Snapshot): map<RunId, Run> {
    map id | id in runs && (runs[id].conv != c || id in snapshot.runIds) :: runs[id]
  }

  function RestoreSnapshot(h: Hub, c: ConvId, snapshot: Snapshot): Hub
    requires c in h.convs
  {
    var conv := h.convs[c];
    var runs := SurvivingRuns(h.runs, c, snapshot);
    var order := Filter(snapshot.runIds, runs.Keys);
    var active := FirstOngoing(runs, order);
    h.(runs := runs,
       convs := h.convs[c := conv.(
         order := order,
         messages := snapshot.messages,
         snapshots := KeepSnapshotsUntil(conv.snapshots, snapshot.createdAt),
         active := active,
         queueState := DeriveQueueState(runs, order, active))])
  }

  /** `projectKnown` and `restoreOk` are what the project store and the working tree answered. */
  function Rollback(h: Hub, c: ConvId, messageId: MessageId, now: nat, projectKnown: bool, restoreOk: bool)
    : (Hub, Outcome)
  {
    if c !in h.convs then (h, ConversationNotFound)
    else
      match ChooseSnapshot(h, h.convs[c], messageId, now)
      case None => (h, SnapshotNotFound)
      case Some(snapshot) =>
        if !projectKnown then (h, ProjectNotFound)
        else if !restoreOk then (h, RestoreFailed)
        else (RestoreSnapshot(h, c, snapshot), Done)
  }

  // ---- model configuration and deletion ------------------------------------------------------

  /** One run under a new default model of `project`; `resolved` is the model it resolves to. */
  function SyncedRun(convs: map<ConvId, Conv>, id: RunId, run: Run, project: string, resolved: Option<string>): Run {
    if run.conv in convs && convs[run.conv].project == project && !Terminal(run.state) && resolved.Some?
    then
      var updated := run.(model := resolved.value);
      if convs[run.conv].active == Some(id) then updated.(state := Pending) else updated
    else run
  }

  function SyncModel(h: Hub, project: string, model: string, resolved: Option<string>): Hub {
    h.(runs := map id | id in h.runs :: SyncedRun(h.convs, id, h.runs[id], project, resolved),
       convs := map c | c in h.convs ::
         if h.convs[c].project == project then h.convs[c].(model := model) else h.convs[c])
  }

  function DeleteConversation(h: Hub, c: ConvId): Hub {
    h.(runs := map id | id in h.runs && h.runs[id].conv != c :: h.runs[id], convs := h.convs - {c})
  }

  // ---- whole runs ---------------------------------------------------------------------------

  datatype Step =
    | DoCreate(c: ConvId, project: string, model: string)
    | DoSubmit(c: ConvId, id: RunId, msg: MessageId, model: string, now: nat)
    | DoCommand(c: ConvId, userMsg: MessageId, systemMsg: MessageId, now: nat)
    | DoStop(c: ConvId)
    | DoControl(id: RunId, action: Action, answer: Answer, answerMsg: MessageId)
    | DoRollback(c: ConvId, messageId: MessageId, now: nat, projectKnown: bool, restoreOk: bool)
    | DoFail(id: RunId)
    | DoEvent(id: RunId, ev: RuntimeEvent)
    | DoSync(project: string, model: string, resolved: Option<string>)
    | DoDelete(c: ConvId)

  function Next(h: Hub, step: Step): Hub {
    match step
    case DoCreate(c, project, model) => CreateConversation(h, c, project, model)
    case DoSubmit(c, id, msg, model, now) => Submit(h, c, id, msg, model, now).0
    case DoCommand(c, u, s, now) => CommandResult(h, c, u, s, now).0
    case DoStop(c) => StopConversation(h, c).0
    case DoControl(id, action, answer, m) => Control(h, id, action, answer, m).0
    case DoRollback(c, m, now, known, ok) => Rollback(h, c, m, now, known, ok).0
    case DoFail(id) => FailRun(h, id)
    case DoEvent(id, ev) => ProjectEvent(h, id, ev)
    case DoSync(project, model, resolved) => SyncModel(h, project, model, resolved)
    case DoDelete(c) => DeleteConversation(h, c)
  }

  const EMPTY := Hub(map[], map[], map[], {})
}
