/** The metadata of a run's tasks, derived from its events. */
module TaskMetadata {
  import opened Basics
  import opened Text
  import opened Decimal
  import opened Names
  import opened Ordering

  /** A value of an event's payload. A number comes with the text it is printed as. */
  datatype Value =
    | Str(text: string)
    | Number(value: real, printed: string)
    | List(items: seq<Value>)
    | Object(fields: map<string, Value>)
    | OtherValue

  type Payload = map<string, Value>

  datatype Kind =
    | DependenciesUpdated | RetryPolicyUpdated | ArtifactEmitted
    | TaskFailed | TaskStarted | TaskCompleted | TaskCancelled
    | OtherKind

  datatype Event = Event(id: string, sequence: int, timestamp: string, runId: string, kind: Kind, payload: Payload)

  datatype Artifact = Artifact(taskId: string, kind: string, uri: string, summary: string, metadata: Payload)

  datatype Task = Task(
    dependsOn: seq<string>,
    priority: int,
    retryCount: int,
    maxRetries: int,
    state: Option<string>,
    artifact: Option<Artifact>,
    lastError: Option<string>)

  datatype Graph = Graph(maxParallelism: int, tasks: map<string, Task>)

  const NEW_TASK := Task([], 0, 0, 0, None, None, None)

  // ---- reading values --------------------------------------------------------------------------------

  function At(p: Payload, key: string): Value {
    if key in p then p[key] else OtherValue
  }

  function Scalar(v: Value): string {
    match v
    case Str(s) => s
    case Number(_, s) => s
    case _ => ""
  }

  function IntOf(v: Value): Option<int> {
    match v
    case Number(x, _) => Some(Truncate(x))
    case Str(s) => Atoi(Trim(s))
    case _ => None
  }

  function AtLeast(v: Value, least: int): Option<int> {
    match IntOf(v)
    case None => None
    case Some(n) => if n >= least then Some(n) else None
  }

  /** A started task is called "executing", but a state that is given as "executing" is taken for
      "running", and the other way round. */
  function StateOf(v: Value): Option<string> {
    var s := Lower(Trim(Scalar(v)));
    if s == "running" then Some("executing")
    else if s == "pending" || s == "executing" || s == "confirming" || s == "awaiting_input" then Some("running")
    else if s in ["queued", "blocked", "retrying", "completed", "failed", "cancelled"] then Some(s)
    else None
  }

  function SplitCommas(s: string): (parts: seq<string>)
    ensures parts != []
  {
    if s == "" then [""]
    else
      var rest := SplitCommas(s[1..]);
      if s[0] == ',' then [""] + rest else [[s[0]] + rest[0]] + rest[1..]
  }

  function Strings(items: seq<Value>): seq<string> {
    if items == [] then []
    else
      var front := Strings(items[..|items| - 1]);
      match items[|items| - 1]
      case Str(s) => front + [s]
      case _ => front
  }

  function ListOf(v: Value): Option<seq<string>> {
    match v
    case List(items) => Some(UniqueTrimmed(Strings(items)))
    case Str(s) =>
      if Trim(s) == "" then Some([])
      else if ',' !in Trim(s) then Some([Trim(s)])
      else Some(UniqueTrimmed(SplitCommas(Trim(s))))
    case _ => None
  }

  function ArtifactOf(v: Value, taskId: string): Option<Artifact> {
    match v
    case Object(fields) =>
      var id := FirstNonEmpty(Trim(Scalar(At(fields, "task_id"))), Trim(taskId));
      var kind := Trim(Scalar(At(fields, "kind")));
      var uri, summary := Trim(Scalar(At(fields, "uri"))), Trim(Scalar(At(fields, "summary")));
      var metadata := if At(fields, "metadata").Object? then At(fields, "metadata").fields else map[];
      if id == "" && kind == "" && uri == "" && summary == "" && metadata == map[] then None
      else Some(Artifact(id, kind, uri, summary, metadata))
    case _ => None
  }

  function NonBlank(s: string): Option<string> {
    if Trim(s) == "" then None else Some(Trim(s))
  }

  function Or<T>(a: Option<T>, b: Option<T>): Option<T> {
    if a.Some? then a else b
  }

  function ErrorOf(p: Payload): Option<string> {
    var nested :=
      match At(p, "error")
      case Str(s) => NonBlank(s)
      case Object(fields) => Or(NonBlank(Scalar(At(fields, "message"))), NonBlank(Scalar(At(fields, "error"))))
      case _ => None;
    Or(Or(NonBlank(Scalar(At(p, "error_message"))), NonBlank(Scalar(At(p, "last_error")))),
       Or(nested, NonBlank(Scalar(At(p, "message")))))
  }

  function Nested(p: Payload): Option<Payload> {
    match At(p, "task")
    case Object(fields) => Some(fields)
    case _ => None
  }

  /** Which run task an event is about; "" for none. */
  function TaskOf(ev: Event): string {
    var nested := match Nested(ev.payload) case Some(p) => Trim(Scalar(At(p, "task_id"))) case None => "";
    FirstNonEmpty(FirstNonEmpty(Trim(Scalar(At(ev.payload, "task_id"))), nested), Trim(ev.runId))
  }

  // ---- applying events -----------------------------------------------------------------------------------

  function Given<T>(v: Option<T>, old_: T): T {
    if v.Some? then v.value else old_
  }

  function ApplyFields(t: Task, p: Payload, taskId: string): Task {
    Task(Given(ListOf(At(p, "depends_on")), t.dependsOn),
         Given(IntOf(At(p, "priority")), t.priority),
         Given(AtLeast(At(p, "retry_count"), 0), t.retryCount),
         Given(AtLeast(At(p, "max_retries"), 0), t.maxRetries),
         Or(StateOf(At(p, "state")), t.state),
         Or(Or(ArtifactOf(At(p, "artifact"), taskId), ArtifactOf(At(p, "task_artifact"), taskId)), t.artifact),
         Or(ErrorOf(p), t.lastError))
  }

  function ApplyKind(t: Task, kind: Kind, p: Payload, taskId: string): Task {
    match kind
    case DependenciesUpdated =>
      t.(dependsOn := Given(ListOf(At(p, "depends_on")), t.dependsOn),
         priority := Given(IntOf(At(p, "priority")), t.priority))
    case RetryPolicyUpdated =>
      t.(retryCount := Given(AtLeast(At(p, "retry_count"), 0), t.retryCount),
         maxRetries := Given(AtLeast(At(p, "max_retries"), 0), t.maxRetries))
    case ArtifactEmitted =>
      t.(artifact := Or(Or(ArtifactOf(At(p, "artifact"), taskId), ArtifactOf(At(p, "task_artifact"), taskId)),
                        t.artifact))
    case TaskFailed => t.(state := Some("failed"), lastError := Or(ErrorOf(p), t.lastError))
    case TaskStarted => t.(state := Some("executing"))
    case TaskCompleted => t.(state := Some("completed"))
    case TaskCancelled => t.(state := Some("cancelled"))
    case OtherKind => t
  }

  /** One event on its run task. */
  function ApplyToTask(t: Task, ev: Event): Task {
    var id := TaskOf(ev);
    var fields := ApplyFields(t, ev.payload, id);
    match Nested(ev.payload)
    case None => ApplyKind(fields, ev.kind, ev.payload, id)
    case Some(p) => ApplyKind(ApplyKind(ApplyFields(fields, p, id), ev.kind, ev.payload, id), ev.kind, p, id)
  }

  function Parallel(events: seq<Event>): int {
    if events == [] then 1
    else Given(AtLeast(At(events[|events| - 1].payload, "max_parallelism"), 1), Parallel(events[..|events| - 1]))
  }

  function TaskAt(tasks: map<string, Task>, id: string): Task {
    if id in tasks then tasks[id] else NEW_TASK
  }

  /** All run tasks after the events; `key` names the run task of an event, `apply` is its effect. */
  function TasksWith(apply: (Task, Event) -> Task, key: Event -> string, events: seq<Event>): map<string, Task> {
    if events == [] then map[]
    else
      var tasks, last := TasksWith(apply, key, events[..|events| - 1]), events[|events| - 1];
      if key(last) == "" then tasks else tasks[key(last) := apply(TaskAt(tasks, key(last)), last)]
  }

  function Fold(events: seq<Event>): Graph {
    Graph(Parallel(events), TasksWith(ApplyToTask, TaskOf, events))
  }

  function Before(): (Event, Event) -> bool {
    (a: Event, b: Event) =>
      if a.sequence != b.sequence then a.sequence < b.sequence
      else if a.timestamp != b.timestamp then StringLess(a.timestamp, b.timestamp)
      else StringLess(a.id, b.id)
  }

  function Derived(events: seq<Event>): Graph {
    Fold(Sort(events, Before()))
  }

  // ---- the loops -------------------------------------------------------------------------------------------

  method ApplyTaskEvent(item: Task, ev: Event, id: string) returns (updated: Task)
    requires id == TaskOf(ev)
    ensures updated == ApplyToTask(item, ev)
  {
    updated := ApplyFields(item, ev.payload, id);
    var nested := Nested(ev.payload);
    if nested.Some? {
      updated := ApplyFields(updated, nested.value, id);
    }
    updated := ApplyKind(updated, ev.kind, ev.payload, id);
    if nested.Some? {
      updated := ApplyKind(updated, ev.kind, nested.value, id);
    }
  }

  method DeriveRunTaskGraphMetadata(events: seq<Event>) returns (g: Graph)
    ensures g == Derived(events)
  {
    var ordered := Sort(events, Before());
    var parallel, tasks := 1, map[];
    for i := 0 to |ordered|
      invariant parallel == Parallel(ordered[..i]) && tasks == TasksWith(ApplyToTask, TaskOf, ordered[..i])
    {
      assert ordered[..i + 1][..i] == ordered[..i];
      var ev := ordered[i];
      var given := AtLeast(At(ev.payload, "max_parallelism"), 1);
      if given.Some? {
        parallel := given.value;
      }
      var id := TaskOf(ev);
      if id == "" {
        continue;
      }
      var item := ApplyTaskEvent(TaskAt(tasks, id), ev, id);
      tasks := tasks[id := item];
    }
    assert ordered[..|ordered|] == ordered;
    g := Graph(parallel, tasks);
  }

  // ---- what the result depends on ------------------------------------------------------------------------------

  lemma BeforeOrders()
    ensures WeakOrder(Before())
  {
    var before := Before();
    forall a, b
      ensures before(a, b) ==> !before(b, a)
    {
      StringLessOrders(a.timestamp, b.timestamp, a.timestamp);
      StringLessOrders(a.id, b.id, a.id);
    }
    forall a, b, c
      ensures before(a, b) && !before(c, b) ==> before(a, c)
    {
      StringLessOrders(a.timestamp, b.timestamp, c.timestamp);
      StringLessOrders(c.timestamp, b.timestamp, c.timestamp);
      StringLessOrders(a.id, b.id, c.id);
    }
  }

  predicate SameKey(a: Event, b: Event) {
    a.sequence == b.sequence && a.timestamp == b.timestamp && a.id == b.id
  }

  /** Different events have different keys. */
  ghost predicate DistinctKeys(events: seq<Event>) {
    forall i, j :: 0 <= i < |events| && 0 <= j < |events| && SameKey(events[i], events[j]) ==> events[i] == events[j]
  }

  lemma KeysSeparate(events: seq<Event>)
    requires DistinctKeys(events)
    ensures Separates(events, Before())
  {
    var before := Before();
    forall i, j | 0 <= i < |events| && 0 <= j < |events| && events[i] != events[j]
      ensures before(events[i], events[j]) || before(events[j], events[i])
    {
      var a, b := events[i], events[j];
      StringLessOrders(a.timestamp, b.timestamp, a.timestamp);
      StringLessOrders(a.id, b.id, a.id);
      assert !SameKey(a, b);
    }
  }

  /** The metadata depends only on which events there are, not on the order they are stored in. */
  lemma {:induction false} OrderOfEventsDoesNotMatter(a: seq<Event>, b: seq<Event>)
    requires multiset(a) == multiset(b) && DistinctKeys(a)
    ensures Derived(a) == Derived(b)
  {
    BeforeOrders();
    KeysSeparate(a);
    SortIgnoresOrder(a, b, Before());
  }

  /** Events with one key are applied in the order they are stored in, so without distinct keys the
      order can matter: here, which of two states stays. */
  lemma EqualKeysKeepOrder(x: Event, y: Event)
    requires SameKey(x, y) && TaskOf(x) == TaskOf(y) != "" && x.kind == TaskStarted && y.kind == TaskCompleted
    ensures TaskAt(Derived([x, y]).tasks, TaskOf(x)).state == Some("completed")
    ensures TaskAt(Derived([y, x]).tasks, TaskOf(x)).state == Some("executing")
  {
    PairInOrder(x, y);
    PairInOrder(y, x);
    PairState(x, y);
    PairState(y, x);
  }

  lemma PairInOrder(x: Event, y: Event)
    requires SameKey(x, y)
    ensures Sort([x, y], Before()) == [x, y]
  {
    StringLessOrders(x.id, y.id, x.id);
    SortOfPair(x, y, Before());
  }

  lemma PairState(x: Event, y: Event)
    requires TaskOf(x) == TaskOf(y) != "" && KindState(y.kind).Some?
    ensures TaskAt(Fold([x, y]).tasks, TaskOf(x)).state == KindState(y.kind)
  {
    StateIsLastSet([x, y], TaskOf(x));
  }

  function About(key: Event -> string, id: string): Event -> bool {
    (ev: Event) => key(ev) == id
  }

  lemma {:induction false} TasksOfKey(apply: (Task, Event) -> Task, key: Event -> string, events: seq<Event>,
      id: string)
    requires id != ""
    ensures var all, mine := TasksWith(apply, key, events), TasksWith(apply, key, Select(events, About(key, id)));
      && (id in all <==> id in mine)
      && TaskAt(all, id) == TaskAt(mine, id)
      && (id in all <==> exists ev :: ev in events && key(ev) == id)
  {
    if events != [] {
      var front, last := events[..|events| - 1], events[|events| - 1];
      TasksOfKey(apply, key, front, id);
      assert events == front + [last];
      var mine := Select(front, About(key, id));
      assert (mine + [last])[..|mine|] == mine;
    }
  }

  /** A task's metadata comes from the events about that task alone, whatever other events there are;
      and there is metadata exactly for run tasks that some event is about. */
  lemma {:induction false} TaskDependsOnItsEvents(events: seq<Event>, id: string)
    requires id != ""
    ensures var all, mine := Derived(events).tasks, Derived(Select(events, About(TaskOf, id))).tasks;
      && (id in all <==> id in mine)
      && TaskAt(all, id) == TaskAt(mine, id)
      && (id in all <==> exists ev :: ev in events && TaskOf(ev) == id)
  {
    BeforeOrders();
    SortPermutes(events, Before());
    SortSelected(events, Before(), About(TaskOf, id));
    TasksOfKey(ApplyToTask, TaskOf, Sort(events, Before()), id);
  }

  // ---- the state of a task ----------------------------------------------------------------------------------------

  function KindState(kind: Kind): Option<string> {
    match kind
    case TaskFailed => Some("failed")
    case TaskStarted => Some("executing")
    case TaskCompleted => Some("completed")
    case TaskCancelled => Some("cancelled")
    case _ => None
  }

  /** The state an event sets on its task: by its kind, else by the nested task, else by itself. */
  function SetsState(ev: Event): Option<string> {
    var given := StateOf(At(ev.payload, "state"));
    Or(KindState(ev.kind),
       match Nested(ev.payload)
       case Some(p) => Or(StateOf(At(p, "state")), given)
       case None => given)
  }

  /** The last value set among the events of task `id`. */
  function LastSet<T>(sets: Event -> Option<T>, key: Event -> string, events: seq<Event>, id: string): Option<T> {
    if events == [] then None
    else
      var last := events[|events| - 1];
      if key(last) == id && sets(last).Some? then sets(last) else LastSet(sets, key, events[..|events| - 1], id)
  }

  lemma KindSets(t: Task, kind: Kind, p: Payload, id: string)
    ensures ApplyKind(t, kind, p, id).state == Or(KindState(kind), t.state)
  {
  }

  lemma StateStep(t: Task, ev: Event)
    ensures ApplyToTask(t, ev).state == Or(SetsState(ev), t.state)
  {
    var id, p := TaskOf(ev), ev.payload;
    var fields := ApplyFields(t, p, id);
    assert fields.state == Or(StateOf(At(p, "state")), t.state);
    match Nested(p)
    case None => KindSets(fields, ev.kind, p, id);
    case Some(n) =>
      var inner := ApplyFields(fields, n, id);
      assert inner.state == Or(StateOf(At(n, "state")), fields.state);
      KindSets(inner, ev.kind, p, id);
      KindSets(ApplyKind(inner, ev.kind, p, id), ev.kind, n, id);
  }

  lemma {:induction false} LastSetStays(apply: (Task, Event) -> Task, sets: Event -> Option<string>,
    key: Event -> string, events: seq<Event>, id: string)
    requires id != "" && forall t, ev :: apply(t, ev).state == Or(sets(ev), t.state)
    ensures TaskAt(TasksWith(apply, key, events), id).state == LastSet(sets, key, events, id)
  {
    if events != [] {
      LastSetStays(apply, sets, key, events[..|events| - 1], id);
    }
  }

  /** The state of a task is the one that the last of its events to set a state set. */
  lemma {:induction false} StateIsLastSet(events: seq<Event>, id: string)
    requires id != ""
    ensures TaskAt(Fold(events).tasks, id).state == LastSet(SetsState, TaskOf, events, id)
  {
    forall t, ev
      ensures ApplyToTask(t, ev).state == Or(SetsState(ev), t.state)
    {
      StateStep(t, ev);
    }
    LastSetStays(ApplyToTask, SetsState, TaskOf, events, id);
  }

  /** Reading a state that was read before gives it back, except that the two names of a running task
      change places each time. */
  lemma {:induction false} StateReadTwiceExactly(v: Value)
    requires StateOf(v).Some?
    ensures StateOf(Str(StateOf(v).value)) == StateOf(v) <==> StateOf(v).value !in {"running", "executing"}
    ensures StateOf(Str("running")) == Some("executing") && StateOf(Str("executing")) == Some("running")
  {
    Words();
    LowerWord(StateOf(v).value);
    LowerWord("running");
    LowerWord("executing");
  }

  ghost predicate Word(s: string) {
    forall i :: 0 <= i < |s| ==> 'a' <= s[i] <= 'z'
  }

  lemma Words()
    ensures Word("running") && Word("executing") && Word("queued") && Word("blocked")
    ensures Word("retrying") && Word("completed") && Word("failed") && Word("cancelled")
  {
  }

  lemma LowerWord(s: string)
    requires Word(s)
    ensures Lower(Trim(s)) == s
  {
    TightIsTrimmed(s);
  }
}
