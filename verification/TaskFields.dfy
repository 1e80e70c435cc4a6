/** What the events say of a task, field by field, and how the values in them are read. */
module TaskFields {
  import opened Basics
  import opened Text
  import opened Decimal
  import opened Names
  import opened Ordering
  import opened TaskMetadata

  // ---- every field is the last given ------------------------------------------------------------------

  /** What an event gives: the nested task's word, else its own. */
  function GivenBy<T>(read: Payload -> Option<T>, ev: Event): Option<T> {
    match Nested(ev.payload)
    case None => read(ev.payload)
    case Some(p) => Or(read(p), read(ev.payload))
  }

  function Gives<T>(read: Payload -> Option<T>): Event -> Option<T> {
    (ev: Event) => GivenBy(read, ev)
  }

  /** The last value given among the events of task `id`. */
  function LastGiven<T>(read: Payload -> Option<T>, events: seq<Event>, id: string): Option<T> {
    LastSet(Gives(read), TaskOf, events, id)
  }

  function DependsOnIn(p: Payload): Option<seq<string>> {
    if "depends_on" in p then ListOf(p["depends_on"]) else None
  }

  function PriorityIn(p: Payload): Option<int> {
    if "priority" in p then IntOf(p["priority"]) else None
  }

  /** Counts are not negative. */
  function CountIn(key: string): Payload -> Option<int> {
    (p: Payload) =>
      if key in p && IntOf(p[key]).Some? && IntOf(p[key]).value >= 0 then IntOf(p[key]) else None
  }

  function ArtifactIn(id: string): Payload -> Option<Artifact> {
    (p: Payload) =>
      Or(if "artifact" in p then ArtifactOf(p["artifact"], id) else None,
         if "task_artifact" in p then ArtifactOf(p["task_artifact"], id) else None)
  }

  /** What one payload does to the fields, and what the kind of an event adds. */
  lemma FieldsGive(t: Task, p: Payload, id: string)
    ensures var t' := ApplyFields(t, p, id);
      && t'.dependsOn == Given(DependsOnIn(p), t.dependsOn)
      && t'.priority == Given(PriorityIn(p), t.priority)
      && t'.retryCount == Given(CountIn("retry_count")(p), t.retryCount)
      && t'.maxRetries == Given(CountIn("max_retries")(p), t.maxRetries)
      && t'.artifact == Or(ArtifactIn(id)(p), t.artifact)
      && t'.lastError == Or(ErrorOf(p), t.lastError)
  {
    Missing();
    hide ListOf, IntOf, ArtifactOf, ErrorOf, StateOf;
  }

  lemma KindGives(t: Task, kind: Kind, p: Payload, id: string)
    ensures var t' := ApplyKind(t, kind, p, id);
      && t'.dependsOn == (if kind.DependenciesUpdated? then Given(DependsOnIn(p), t.dependsOn) else t.dependsOn)
      && t'.priority == (if kind.DependenciesUpdated? then Given(PriorityIn(p), t.priority) else t.priority)
      && t'.retryCount ==
        (if kind.RetryPolicyUpdated? then Given(CountIn("retry_count")(p), t.retryCount) else t.retryCount)
      && t'.maxRetries ==
        (if kind.RetryPolicyUpdated? then Given(CountIn("max_retries")(p), t.maxRetries) else t.maxRetries)
      && t'.artifact == (if kind.ArtifactEmitted? then Or(ArtifactIn(id)(p), t.artifact) else t.artifact)
      && t'.lastError == (if kind.TaskFailed? then Or(ErrorOf(p), t.lastError) else t.lastError)
  {
    Missing();
    hide ListOf, IntOf, ArtifactOf, ErrorOf;
  }

  /** A task's fields after an event are what the event gives, and what they were where it gives nothing. */
  lemma EventGives(t: Task, ev: Event)
    ensures var t' := ApplyToTask(t, ev);
      && t'.dependsOn == Given(GivenBy(DependsOnIn, ev), t.dependsOn)
      && t'.priority == Given(GivenBy(PriorityIn, ev), t.priority)
      && t'.retryCount == Given(GivenBy(CountIn("retry_count"), ev), t.retryCount)
      && t'.maxRetries == Given(GivenBy(CountIn("max_retries"), ev), t.maxRetries)
      && t'.artifact == Or(GivenBy(ArtifactIn(TaskOf(ev)), ev), t.artifact)
      && t'.lastError == Or(GivenBy(ErrorOf, ev), t.lastError)
  {
    hide ApplyFields, ApplyKind, ErrorOf, TaskOf, DependsOnIn, PriorityIn, CountIn, ArtifactIn, Nested;
    var id := TaskOf(ev);
    FieldsGive(t, ev.payload, id);
    var fields := ApplyFields(t, ev.payload, id);
    match Nested(ev.payload)
    case None => KindGives(fields, ev.kind, ev.payload, id);
    case Some(p) =>
      FieldsGive(fields, p, id);
      var inner := ApplyFields(fields, p, id);
      KindGives(inner, ev.kind, ev.payload, id);
      KindGives(ApplyKind(inner, ev.kind, ev.payload, id), ev.kind, p, id);
  }

  /** A field that is not there gives nothing. */
  lemma Missing()
    ensures ListOf(OtherValue).None? && IntOf(OtherValue).None?
    ensures forall id :: ArtifactOf(OtherValue, id).None?
  {
  }

  lemma {:induction false} LastGivenStays<T>(field: Task -> T, read: Event -> Option<T>, start: T, events: seq<Event>,
                                             id: string)
    requires id != "" && field(NEW_TASK) == start
    requires forall t, ev :: TaskOf(ev) == id ==> field(ApplyToTask(t, ev)) == Given(read(ev), field(t))
    ensures field(TaskAt(TasksWith(ApplyToTask, TaskOf, events), id)) == Given(LastSet(read, TaskOf, events, id), start)
  {
    if events != [] {
      LastGivenStays(field, read, start, events[..|events| - 1], id);
    }
  }

  /** Every field of a task is the last one that one of its events gave, and starts empty. */
  lemma {:induction false} FieldsAreLastGiven(events: seq<Event>, id: string)
    requires id != ""
    ensures var t := TaskAt(Fold(events).tasks, id);
      && t.dependsOn == Given(LastGiven(DependsOnIn, events, id), [])
      && t.priority == Given(LastGiven(PriorityIn, events, id), 0)
      && t.retryCount == Given(LastGiven(CountIn("retry_count"), events, id), 0)
      && t.maxRetries == Given(LastGiven(CountIn("max_retries"), events, id), 0)
      && t.artifact == LastGiven(ArtifactIn(id), events, id)
      && t.lastError == LastGiven(ErrorOf, events, id)
  {
    hide ApplyToTask, TasksWith, LastSet;
    forall t, ev
      ensures ApplyToTask(t, ev).dependsOn == Given(Gives(DependsOnIn)(ev), t.dependsOn)
      ensures ApplyToTask(t, ev).priority == Given(Gives(PriorityIn)(ev), t.priority)
      ensures ApplyToTask(t, ev).retryCount == Given(Gives(CountIn("retry_count"))(ev), t.retryCount)
      ensures ApplyToTask(t, ev).maxRetries == Given(Gives(CountIn("max_retries"))(ev), t.maxRetries)
      ensures TaskOf(ev) == id ==> ApplyToTask(t, ev).artifact == Or(Gives(ArtifactIn(id))(ev), t.artifact)
      ensures ApplyToTask(t, ev).lastError == Or(Gives(ErrorOf)(ev), t.lastError)
    {
      EventGives(t, ev);
    }
    LastGivenStays((t: Task) => t.dependsOn, Gives(DependsOnIn), [], events, id);
    LastGivenStays((t: Task) => t.priority, Gives(PriorityIn), 0, events, id);
    LastGivenStays((t: Task) => t.retryCount, Gives(CountIn("retry_count")), 0, events, id);
    LastGivenStays((t: Task) => t.maxRetries, Gives(CountIn("max_retries")), 0, events, id);
    LastOptionStays((t: Task) => t.artifact, Gives(ArtifactIn(id)), events, id);
    LastOptionStays((t: Task) => t.lastError, Gives(ErrorOf), events, id);
  }

  lemma {:induction false} LastOptionStays<T>(field: Task -> Option<T>, read: Event -> Option<T>, events: seq<Event>,
                                              id: string)
    requires id != "" && field(NEW_TASK).None?
    requires forall t, ev :: TaskOf(ev) == id ==> field(ApplyToTask(t, ev)) == Or(read(ev), field(t))
    ensures field(TaskAt(TasksWith(ApplyToTask, TaskOf, events), id)) == LastSet(read, TaskOf, events, id)
  {
    if events != [] {
      LastOptionStays(field, read, events[..|events| - 1], id);
    }
  }

  /** How many tasks may run at once is the last positive number given, at first one. */
  lemma {:induction false} ParallelIsLastGiven(events: seq<Event>, ev: Event)
    ensures Parallel([]) == 1 && Parallel(events) >= 1
    ensures Parallel(events + [ev]) ==
      if "max_parallelism" in ev.payload && IntOf(ev.payload["max_parallelism"]).Some?
         && IntOf(ev.payload["max_parallelism"]).value > 0
      then IntOf(ev.payload["max_parallelism"]).value else Parallel(events)
  {
    assert (events + [ev])[..|events|] == events;
    if events != [] {
      ParallelIsLastGiven(events[..|events| - 1], events[|events| - 1]);
      assert events == events[..|events| - 1] + [events[|events| - 1]];
    }
  }

  // ---- the order of events -------------------------------------------------------------------------------

  ghost predicate NotAfter(a: Event, b: Event) {
    a.sequence < b.sequence
    || (a.sequence == b.sequence
        && (StringLess(a.timestamp, b.timestamp)
            || (a.timestamp == b.timestamp && (StringLess(a.id, b.id) || a.id == b.id))))
  }

  /** Events are applied by sequence number, then by time stamp, then by id. */
  lemma AppliedInOrder(events: seq<Event>, i: nat, j: nat)
    requires i < j < |Sort(events, Before())|
    ensures NotAfter(Sort(events, Before())[i], Sort(events, Before())[j])
    ensures multiset(Sort(events, Before())) == multiset(events)
    ensures Derived(events) == Fold(Sort(events, Before()))
  {
    BeforeOrders();
    SortSorts(events, Before());
    SortPermutes(events, Before());
    var a, b := Sort(events, Before())[i], Sort(events, Before())[j];
    assert !Before()(b, a);
    StringLessOrders(a.timestamp, b.timestamp, a.timestamp);
    StringLessOrders(a.id, b.id, a.id);
  }

  // ---- how values are read ---------------------------------------------------------------------------------

  /** Numbers lose what is behind the point, and texts are read as decimal numbers of 64 bits. */
  lemma {:induction false} NumbersRead(x: real, printed: string, n: nat, blank: string)
    requires n <= MAX_INT && Trim(blank) == ""
    ensures var i := IntOf(Number(x, printed));
      && i.Some?
      && (x >= 0.0 ==> 0 <= i.value && i.value as real <= x < (i.value + 1) as real)
      && (x <= 0.0 ==> i.value <= 0 && (i.value - 1) as real < x <= i.value as real)
    ensures IntOf(Str(Print(n))) == Some(n)
    ensures forall items :: IntOf(List(items)).None?
    ensures IntOf(OtherValue).None? && IntOf(Str(blank)).None?
  {
    PrintParses(n);
    PrintIsTight(n);
  }

  lemma {:induction false} PrintIsTight(n: nat)
    ensures Trim(Print(n)) == Print(n)
  {
    PrintDigits(n);
    TightIsTrimmed(Print(n));
  }

  /** Every word that is a state, and what it is read as. */
  lemma StatesRead(v: Value)
    ensures var word := Lower(Trim(Scalar(v)));
      && (StateOf(v) == Some("executing") <==> word == "running")
      && (StateOf(v) == Some("running") <==>
          word == "pending" || word == "executing" || word == "confirming" || word == "awaiting_input")
      && (StateOf(v) == Some("queued") <==> word == "queued") && (StateOf(v) == Some("blocked") <==> word == "blocked")
      && (StateOf(v) == Some("retrying") <==> word == "retrying")
      && (StateOf(v) == Some("completed") <==> word == "completed")
      && (StateOf(v) == Some("failed") <==> word == "failed")
      && (StateOf(v) == Some("cancelled") <==> word == "cancelled")
      && (StateOf(v).Some? ==>
            StateOf(v).value in
              ["executing", "running", "queued", "blocked", "retrying", "completed", "failed", "cancelled"])
  {
  }

  /** Texts and numbers are scalars, the latter as they are printed; nothing else is. */
  lemma ScalarsRead(s: string, x: real)
    ensures Scalar(Str(s)) == s && Scalar(Number(x, s)) == s && Scalar(OtherValue) == ""
    ensures forall items :: Scalar(List(items)) == ""
    ensures forall fields :: Scalar(Object(fields)) == ""
  {
  }

  /** The last error is the first of these that is not blank: error_message, last_error, what error holds (a
      text, or its message or error), message. */
  lemma ErrorsRead(p: Payload)
    ensures var direct, last, plain := Trim(Field(p, "error_message")), Trim(Field(p, "last_error")),
                                       Trim(Field(p, "message"));
      var held := Trim(HeldError(p));
      ErrorOf(p) ==
        if direct != "" then Some(direct) else if last != "" then Some(last)
        else if held != "" then Some(held) else if plain != "" then Some(plain) else None
  {
    hide Trim;
    assert Trim("") == "" by {
      TightIsTrimmed("");
    }
  }

  function Field(p: Payload, key: string): string {
    if key in p then Scalar(p[key]) else ""
  }

  function HeldError(p: Payload): string {
    if "error" !in p then ""
    else
      match p["error"]
      case Str(s) => s
      case Object(fields) =>
        if Trim(Field(fields, "message")) != "" then Field(fields, "message") else Field(fields, "error")
      case _ => ""
  }

  /** An artifact names its task, or has that of the event, and what it gives, trimmed; one that says
      nothing at all is none. */
  lemma ArtifactsRead(fields: Payload, taskId: string)
    ensures var given := Trim(Field(fields, "task_id"));
      var id := if given != "" then given else Trim(taskId);
      var kind, uri, summary := Trim(Field(fields, "kind")), Trim(Field(fields, "uri")), Trim(Field(fields, "summary"));
      var metadata :=
        if "metadata" in fields && fields["metadata"].Object? then fields["metadata"].fields else map[];
      ArtifactOf(Object(fields), taskId) ==
        if id == "" && kind == "" && uri == "" && summary == "" && metadata == map[] then None
        else Some(Artifact(id, kind, uri, summary, metadata))
    ensures forall v: Value :: !v.Object? ==> ArtifactOf(v, taskId).None?
  {
    hide Trim;
  }

  /** An event is about the id it names, else the one its nested task names, else its run. */
  lemma TasksRead(ev: Event)
    ensures var own := Trim(Field(ev.payload, "task_id"));
      var nested := if "task" in ev.payload && ev.payload["task"].Object?
                    then Trim(Field(ev.payload["task"].fields, "task_id")) else "";
      TaskOf(ev) == if own != "" then own else if nested != "" then nested else Trim(ev.runId)
    ensures Nested(ev.payload).Some? <==> "task" in ev.payload && ev.payload["task"].Object?
    ensures Nested(ev.payload).Some? ==> ev.payload["task"].fields == Nested(ev.payload).value
  {
    hide Trim;
  }

  /** A list keeps its texts: trimmed, no blanks, each once. Other values are no lists. */
  lemma {:induction false} ListsRead(items: seq<Value>)
    ensures ListOf(List(items)).Some? && CleanNames(ListOf(List(items)).value)
    ensures forall name :: name in ListOf(List(items)).value <==>
      name != "" && exists v :: v in items && v.Str? && Trim(v.text) == name
    ensures forall x, printed :: ListOf(Number(x, printed)).None?
    ensures ListOf(OtherValue).None? && forall fields :: ListOf(Object(fields)).None?
  {
    hide Trim, UniqueTrimmed, Strings;
    StringsRead(items);
    UniqueTrimmedElements(Strings(items));
    forall name | name in UniqueTrimmed(Strings(items))
      ensures Tight(name) && exists v :: v in items && v.Str? && Trim(v.text) == name
    {
      var s :| s in Strings(items) && Trim(s) == name;
      TrimIsTight(s);
      assert Str(s) in items;
    }
  }

  /** A text is the list of the parts between its commas, cleaned in the same way. */
  lemma {:induction false} TextsRead(s: string)
    ensures ListOf(Str(s)).Some?
    ensures forall name :: name in ListOf(Str(s)).value <==>
      name != "" && exists part :: part in SplitCommas(Trim(s)) && Trim(part) == name
  {
    UniqueTrimmedElements(SplitCommas(Trim(s)));
    TrimTwice(s);
    if ',' !in Trim(s) {
      NoCommaSplits(Trim(s));
    }
    hide Trim, UniqueTrimmed, SplitCommas;
  }

  lemma {:induction false} StringsRead(items: seq<Value>)
    ensures forall s :: s in Strings(items) <==> Str(s) in items
  {
    if items != [] {
      StringsRead(items[..|items| - 1]);
      assert items == items[..|items| - 1] + [items[|items| - 1]];
    }
  }

  lemma {:induction false} NoCommaSplits(s: string)
    requires ',' !in s
    ensures SplitCommas(s) == [s]
  {
    if s != "" {
      NoCommaSplits(s[1..]);
      assert [s[0]] + s[1..] == s;
    }
  }

  function Commas(parts: seq<string>): string {
    if parts == [] then "" else if |parts| == 1 then parts[0] else parts[0] + "," + Commas(parts[1..])
  }

  /** The parts are what stands between the commas. */
  lemma {:induction false} SplitExactly(s: string)
    ensures Commas(SplitCommas(s)) == s
    ensures forall i :: 0 <= i < |SplitCommas(s)| ==> ',' !in SplitCommas(s)[i]
  {
    if s != "" {
      SplitExactly(s[1..]);
      var rest := SplitCommas(s[1..]);
      if s[0] == ',' {
        assert ([""] + rest)[1..] == rest;
        assert "" + "," + Commas(rest) == s;
      } else {
        var parts := [[s[0]] + rest[0]] + rest[1..];
        assert parts[1..] == rest[1..];
        assert [s[0]] + s[1..] == s;
      }
    }
  }
}
