/**
 The event log of a conversation and the clients that follow it. A client reads its backlog and
 is subscribed in one section under the lock; every later event is offered to its channel, which
 holds 32 events, without waiting.
 */
module EventStream {
  import opened Basics
  import opened Text

  type SubId = string

  const CAPACITY := 32
  const HISTORY := 2000

  datatype Event = Event(id: string, sequence: int, data: string)

  /** `closes` counts how often the channel was closed. */
  datatype Chan = Chan(buffer: seq<Event>, closes: nat)

  /** `subs` are the registered subscribers; `chans` also has the channels of former ones, from
      which what is left can still be received. */
  datatype Stream = Stream(history: seq<Event>, sequence: int, subs: set<SubId>, chans: map<SubId, Chan>)

  function LastN(s: seq<Event>, n: nat): seq<Event> {
    if |s| <= n then s else s[|s| - n..]
  }

  function Numbered(s: Stream, ev: Event): Event {
    if ev.sequence <= 0 then ev.(sequence := s.sequence + 1) else ev
  }

  function Offered(ch: Chan, ev: Event): Chan {
    if |ch.buffer| < CAPACITY then ch.(buffer := ch.buffer + [ev]) else ch
  }

  /** The event is offered to every registered subscriber. */
  function Broadcasted(chans: map<SubId, Chan>, subs: set<SubId>, e: Event): map<SubId, Chan> {
    map id | id in chans :: if id in subs then Offered(chans[id], e) else chans[id]
  }

  function AppendEvent(s: Stream, ev: Event): Stream {
    var e := Numbered(s, ev);
    Stream(LastN(s.history + [e], HISTORY), e.sequence, s.subs, Broadcasted(s.chans, s.subs, e))
  }

  /** Where the events after `lastId` begin. */
  function PositionAfter(events: seq<Event>, lastId: string): Option<nat> {
    if events == [] then None
    else if events[|events| - 1].id == lastId then Some(|events|)
    else PositionAfter(events[..|events| - 1], lastId)
  }

  /** The number of events to skip, and whether the client has to be told that it lost its place. */
  function Since(events: seq<Event>, lastId: string): (r: (nat, bool))
    ensures r.0 <= |events|
  {
    if Trim(lastId) == "" then (0, false)
    else
      match PositionAfter(events, lastId)
      case None => (0, true)
      case Some(k) => (if k <= |events| then k else 0, false)
  }

  function Subscribed(s: Stream, id: SubId): Stream {
    s.(subs := s.subs + {id}, chans := s.chans[id := Chan([], 0)])
  }

  function Unsubscribed(s: Stream, id: SubId): Stream {
    if id !in s.subs || id !in s.chans then s
    else s.(subs := s.subs - {id}, chans := s.chans[id := s.chans[id].(closes := s.chans[id].closes + 1)])
  }

  function Received(s: Stream, id: SubId): Stream {
    if id in s.chans && s.chans[id].buffer != []
    then s.(chans := s.chans[id := s.chans[id].(buffer := s.chans[id].buffer[1..])])
    else s
  }

  function ClosedAll(chans: map<SubId, Chan>, subs: set<SubId>): map<SubId, Chan> {
    map id | id in chans :: if id in subs then chans[id].(closes := chans[id].closes + 1) else chans[id]
  }

  /** Deleting the conversation forgets its history and closes every registered channel. */
  function Deleted(s: Stream): Stream {
    Stream([], 0, {}, ClosedAll(s.chans, s.subs))
  }

  // ---- whole runs -------------------------------------------------------------------------------------

  /** A client joined when the log had `from` events; its backlog began at `start`. `until` is where
      the log was when it was unregistered. `overflowed` tells that an event found its channel full. */
  datatype Client = Client(start: nat, from: nat, until: Option<nat>, delivered: seq<Event>, overflowed: bool)

  /** `log` has all events ever appended; the history window never reaches back before `base`. */
  datatype World = World(stream: Stream, log: seq<Event>, base: nat, clients: map<SubId, Client>)

  datatype Step =
    | DoAppend(ev: Event)
    | DoConnect(id: SubId, lastId: string)
    | DoReceive(id: SubId)
    | DoDisconnect(id: SubId)
    | DoDelete

  const START := World(Stream([], 0, {}, map[]), [], 0, map[])

  function Left(w: World, id: SubId, client: Client): Client {
    if id in w.stream.subs then client.(until := Some(|w.log|)) else client
  }

  function Next(w: World, step: Step): World {
    match step
    case DoAppend(ev) =>
      World(AppendEvent(w.stream, ev), w.log + [Numbered(w.stream, ev)], w.base,
            map id | id in w.clients ::
              if id in w.stream.subs && id in w.stream.chans && |w.stream.chans[id].buffer| >= CAPACITY
              then w.clients[id].(overflowed := true) else w.clients[id])
    case DoConnect(id, lastId) =>
      var n, h := |w.log|, |w.stream.history|;
      var skipped := Since(w.stream.history, lastId).0;
      var start := if n >= h then n - h + skipped else n;
      w.(stream := Subscribed(w.stream, id), clients := w.clients[id := Client(start, n, None, [], false)])
    case DoReceive(id) =>
      if id in w.stream.chans && id in w.clients && w.stream.chans[id].buffer != []
      then
        var delivered := w.clients[id].delivered + [w.stream.chans[id].buffer[0]];
        w.(stream := Received(w.stream, id), clients := w.clients[id := w.clients[id].(delivered := delivered)])
      else w
    case DoDisconnect(id) =>
      w.(stream := Unsubscribed(w.stream, id),
         clients := if id in w.clients then w.clients[id := Left(w, id, w.clients[id])] else w.clients)
    case DoDelete =>
      World(Deleted(w.stream), w.log, |w.log|, map id | id in w.clients :: Left(w, id, w.clients[id]))
  }

  function Exec(steps: seq<Step>): World {
    if steps == [] then START else Next(Exec(steps[..|steps| - 1]), steps[|steps| - 1])
  }

  /** Subscriber ids are new. */
  ghost predicate AllAllowed(steps: seq<Step>) {
    steps != [] ==>
      && AllAllowed(steps[..|steps| - 1])
      && var w, step := Exec(steps[..|steps| - 1]), steps[|steps| - 1];
         step.DoConnect? ==> step.id !in w.clients && step.id !in w.stream.chans
  }

  /** `a` is what is left of `b` when some elements are struck out. */
  predicate Subsequence<T(==)>(a: seq<T>, b: seq<T>) {
    if a == [] then true
    else if b == [] then false
    else (a[|a| - 1] == b[|b| - 1] && Subsequence(a[..|a| - 1], b[..|b| - 1])) || Subsequence(a, b[..|b| - 1])
  }

  function End(w: World, client: Client): nat {
    match client.until
    case None => |w.log|
    case Some(n) => n
  }

  /** What reached the client live, and what still waits for it, against the log since it joined. */
  ghost predicate Follows(w: World, id: SubId)
    requires id in w.clients
  {
    var c := w.clients[id];
    && id in w.stream.chans
    && c.start <= c.from <= End(w, c) <= |w.log|
    && (c.until.None? <==> id in w.stream.subs)
    && w.stream.chans[id].closes == (if id in w.stream.subs then 0 else 1)
    && |w.stream.chans[id].buffer| <= CAPACITY
    && Subsequence(c.delivered + w.stream.chans[id].buffer, w.log[c.from..End(w, c)])
    && (!c.overflowed ==> c.delivered + w.stream.chans[id].buffer == w.log[c.from..End(w, c)])
    && (c.overflowed ==> |c.delivered| + |w.stream.chans[id].buffer| < End(w, c) - c.from)
  }

  ghost predicate Sound(w: World) {
    && w.base <= |w.log|
    && w.stream.history == LastN(w.log[w.base..], HISTORY)
    && w.stream.chans.Keys == w.clients.Keys
    && w.stream.subs <= w.clients.Keys
    && (forall id :: id in w.clients ==> Follows(w, id))
  }

  lemma {:induction false} SubsequenceSelf<T>(a: seq<T>)
    ensures Subsequence(a, a)
  {
    if a != [] {
      SubsequenceSelf(a[..|a| - 1]);
    }
  }

  lemma SubsequenceGrows<T>(a: seq<T>, b: seq<T>, x: T)
    requires Subsequence(a, b)
    ensures Subsequence(a, b + [x]) && Subsequence(a + [x], b + [x])
  {
    assert (b + [x])[..|b|] == b && (a + [x])[..|a|] == a;
  }

  lemma AppendFits(w: World, ev: Event, id: SubId)
    requires id in w.clients && Follows(w, id) && id in w.stream.subs && |w.stream.chans[id].buffer| < CAPACITY
    ensures Follows(Next(w, DoAppend(ev)), id)
  {
    var c, e, buffer := w.clients[id], Numbered(w.stream, ev), w.stream.chans[id].buffer;
    var w' := Next(w, DoAppend(ev));
    SliceGrows(w.log, c.from, e);
    SubsequenceGrows(c.delivered + buffer, w.log[c.from..], e);
    hide Subsequence, Numbered;
    assert c.delivered + (buffer + [e]) == (c.delivered + buffer) + [e];
    assert w'.clients[id] == c;
    assert w'.stream.chans[id] == w.stream.chans[id].(buffer := buffer + [e]);
    assert w'.log[c.from..End(w', c)] == w.log[c.from..] + [e];
  }

  lemma AppendOverflows(w: World, ev: Event, id: SubId)
    requires id in w.clients && Follows(w, id) && id in w.stream.subs && |w.stream.chans[id].buffer| >= CAPACITY
    ensures Follows(Next(w, DoAppend(ev)), id)
  {
    var c, e, buffer := w.clients[id], Numbered(w.stream, ev), w.stream.chans[id].buffer;
    var w' := Next(w, DoAppend(ev));
    SliceGrows(w.log, c.from, e);
    SubsequenceGrows(c.delivered + buffer, w.log[c.from..], e);
    hide Subsequence, Numbered;
    assert w'.clients[id] == c.(overflowed := true) && w'.stream.chans[id] == w.stream.chans[id];
    assert w'.log[c.from..End(w', w'.clients[id])] == w.log[c.from..] + [e];
    assert !c.overflowed ==> |c.delivered + buffer| == |w.log| - c.from;
  }

  lemma AppendPasses(w: World, ev: Event, id: SubId)
    requires id in w.clients && Follows(w, id) && id !in w.stream.subs
    ensures Follows(Next(w, DoAppend(ev)), id)
  {
    var c, w' := w.clients[id], Next(w, DoAppend(ev));
    assert w'.clients[id] == c && w'.stream.chans[id] == w.stream.chans[id];
    assert w'.log[c.from..End(w, c)] == w.log[c.from..End(w, c)];
  }

  lemma AppendFollows(w: World, ev: Event, id: SubId)
    requires id in w.clients && Follows(w, id)
    ensures Follows(Next(w, DoAppend(ev)), id)
  {
    assert id in w.stream.chans;
    hide Follows, Next;
    if id !in w.stream.subs {
      AppendPasses(w, ev, id);
    } else if |w.stream.chans[id].buffer| < CAPACITY {
      AppendFits(w, ev, id);
    } else {
      AppendOverflows(w, ev, id);
    }
  }

  lemma SliceGrows(log: seq<Event>, from: nat, e: Event)
    requires from <= |log|
    ensures (log + [e])[from..|log| + 1] == log[from..|log|] + [e] && log[from..|log|] == log[from..]
  {
  }

  lemma AppendSound(w: World, ev: Event)
    requires Sound(w)
    ensures Sound(Next(w, DoAppend(ev)))
  {
    var w' := Next(w, DoAppend(ev));
    var e := Numbered(w.stream, ev);
    assert w'.log[w.base..] == w.log[w.base..] + [e];
    LastNGrows(w.log[w.base..], e, HISTORY);
    forall id | id in w'.clients
      ensures Follows(w', id)
    {
      assert Follows(w, id);
      AppendFollows(w, ev, id);
    }
  }

  lemma LastNGrows(s: seq<Event>, e: Event, n: nat)
    ensures LastN(LastN(s, n) + [e], n) == LastN(s + [e], n)
  {
    if |s| > n {
      assert s[|s| - n..] + [e] == (s + [e])[|s| - n..];
    }
  }

  lemma ConnectSound(w: World, id: SubId, lastId: string)
    requires Sound(w) && id !in w.clients
    ensures Sound(Next(w, DoConnect(id, lastId)))
  {
    var w' := Next(w, DoConnect(id, lastId));
    assert w'.log[|w.log|..|w.log|] == [];
    forall other | other in w'.clients
      ensures Follows(w', other)
    {
      if other != id {
        assert Follows(w, other);
      }
    }
  }

  lemma ReceiveFollows(w: World, id: SubId, other: SubId)
    requires id in w.clients && other in w.clients && Follows(w, id) && Follows(w, other)
    ensures other in Next(w, DoReceive(id)).clients && Follows(Next(w, DoReceive(id)), other)
  {
    var buffer, delivered := w.stream.chans[id].buffer, w.clients[id].delivered;
    if buffer != [] && other == id {
      assert delivered + [buffer[0]] + buffer[1..] == delivered + buffer;
    }
  }

  lemma ReceiveSound(w: World, id: SubId)
    requires Sound(w)
    ensures Sound(Next(w, DoReceive(id)))
  {
    if id in w.clients {
      forall other | other in w.clients
        ensures other in Next(w, DoReceive(id)).clients && Follows(Next(w, DoReceive(id)), other)
      {
        assert Follows(w, id) && Follows(w, other);
        ReceiveFollows(w, id, other);
      }
    }
  }

  lemma LeaveFollows(w: World, step: Step, id: SubId)
    requires id in w.clients && Follows(w, id) && w.stream.subs <= w.clients.Keys
    requires step.DoDisconnect? || step.DoDelete?
    ensures id in Next(w, step).clients && Follows(Next(w, step), id)
  {
    hide Subsequence;
    var c, c', w' := w.clients[id], Next(w, step).clients[id], Next(w, step);
    assert w'.log == w.log && End(w', c') == End(w, c);
    assert c'.start == c.start && c'.from == c.from && c'.delivered == c.delivered && c'.overflowed == c.overflowed;
    assert w'.stream.chans[id].buffer == w.stream.chans[id].buffer;
  }

  lemma LeaveSound(w: World, step: Step)
    requires Sound(w) && (step.DoDisconnect? || step.DoDelete?)
    ensures Sound(Next(w, step))
  {
    hide Follows;
    var w' := Next(w, step);
    assert w.log[|w.log|..] == [];
    forall id | id in w'.clients
      ensures Follows(w', id)
    {
      LeaveFollows(w, step, id);
    }
  }

  lemma {:induction false} AlwaysSound(steps: seq<Step>)
    requires AllAllowed(steps)
    ensures Sound(Exec(steps))
  {
    if steps != [] {
      var front, step := steps[..|steps| - 1], steps[|steps| - 1];
      AlwaysSound(front);
      match step
      case DoAppend(ev) => AppendSound(Exec(front), ev);
      case DoConnect(id, lastId) => ConnectSound(Exec(front), id, lastId);
      case DoReceive(id) => ReceiveSound(Exec(front), id);
      case _ => LeaveSound(Exec(front), step);
    }
  }

  // ---- the promises -----------------------------------------------------------------------------------

  /** Everything a client has, or can still get, of the log: backlog, delivered, buffered. */
  function Gets(w: World, id: SubId): seq<Event>
    requires Sound(w) && id in w.clients
  {
    assert Follows(w, id);
    var c := w.clients[id];
    w.log[c.start..c.from] + c.delivered + w.stream.chans[id].buffer
  }

  lemma {:induction false} SubsequenceAfter<T>(front: seq<T>, a: seq<T>, b: seq<T>)
    requires Subsequence(a, b)
    ensures Subsequence(front + a, front + b)
  {
    if a == [] && b == [] {
      SubsequenceSelf(front + a);
    } else if b != [] {
      assert (front + b)[..|front + b| - 1] == front + b[..|b| - 1];
      if a != [] && a[|a| - 1] == b[|b| - 1] && Subsequence(a[..|a| - 1], b[..|b| - 1]) {
        assert (front + a)[..|front + a| - 1] == front + a[..|a| - 1];
        SubsequenceAfter(front, a[..|a| - 1], b[..|b| - 1]);
      } else {
        SubsequenceAfter(front, a, b[..|b| - 1]);
      }
    }
  }

  lemma Stretch(log: seq<Event>, start: nat, from: nat, end: nat, delivered: seq<Event>, buffer: seq<Event>)
    requires start <= from <= end <= |log|
    requires Subsequence(delivered + buffer, log[from..end])
    ensures Subsequence(log[start..from] + delivered + buffer, log[start..end])
    ensures delivered + buffer == log[from..end] ==> log[start..from] + delivered + buffer == log[start..end]
  {
    SubsequenceAfter(log[start..from], delivered + buffer, log[from..end]);
    assert log[start..end] == log[start..from] + log[from..end];
    assert log[start..from] + delivered + buffer == log[start..from] + (delivered + buffer);
  }

  /** Over any interleaving of appends, connects, receives, disconnects and deletion: what a client
      gets is the log from the start of its backlog to where it left, in order, without repetition,
      with at most gaps; and without gaps exactly when its channel was never full when an event came. */
  lemma {:induction false} StreamsWithoutGaps(steps: seq<Step>, id: SubId)
    requires AllAllowed(steps) && id in Exec(steps).clients
    ensures Sound(Exec(steps))
    ensures var w := Exec(steps);
      var c := w.clients[id];
      && c.start <= End(w, c) <= |w.log|
      && Subsequence(Gets(w, id), w.log[c.start..End(w, c)])
      && (Gets(w, id) == w.log[c.start..End(w, c)] <==> !c.overflowed)
  {
    AlwaysSound(steps);
    GetsExactly(Exec(steps), id);
  }

  lemma ClosedStep(w: World, step: Step, id: SubId)
    requires id in w.stream.chans && (step.DoConnect? ==> step.id != id)
    requires w.stream.chans[id].closes == (if id in w.stream.subs then 0 else 1)
    ensures var w' := Next(w, step);
      && id in w'.stream.chans
      && w'.stream.chans[id].closes == (if id in w'.stream.subs then 0 else 1)
      && w.stream.chans[id].closes <= w'.stream.chans[id].closes
      && (w.stream.chans[id].closes == 1 ==>
            w'.stream.chans[id].buffer == w.stream.chans[id].buffer
            || (w.stream.chans[id].buffer != [] && w'.stream.chans[id].buffer == w.stream.chans[id].buffer[1..]))
  {
  }

  /** Every channel is closed at most once over any run, exactly when its subscriber has left; after
      that nothing is added to it. */
  lemma {:induction false} ClosedAtMostOnce(steps: seq<Step>, step: Step, id: SubId)
    requires AllAllowed(steps) && id in Exec(steps).stream.chans
    requires step.DoConnect? ==> step.id !in Exec(steps).stream.chans
    ensures var w, w' := Exec(steps), Next(Exec(steps), step);
      && w.stream.chans[id].closes == (if id in w.stream.subs then 0 else 1)
      && id in w'.stream.chans
      && w.stream.chans[id].closes <= w'.stream.chans[id].closes <= 1
      && (w.stream.chans[id].closes == 1 ==>
            w'.stream.chans[id].buffer == w.stream.chans[id].buffer
            || (w.stream.chans[id].buffer != [] && w'.stream.chans[id].buffer == w.stream.chans[id].buffer[1..]))
  {
    ClosesFit(steps, id);
    ClosedStep(Exec(steps), step, id);
  }

  lemma {:induction false} ClosesFit(steps: seq<Step>, id: SubId)
    requires AllAllowed(steps) && id in Exec(steps).stream.chans
    ensures Exec(steps).stream.chans[id].closes == (if id in Exec(steps).stream.subs then 0 else 1)
  {
    AlwaysSound(steps);
    assert id in Exec(steps).clients && Follows(Exec(steps), id);
  }

  ghost predicate DistinctIds(events: seq<Event>) {
    forall i, j :: 0 <= i < j < |events| ==> events[i].id != events[j].id
  }

  lemma {:induction false} PositionAfterIs(events: seq<Event>, k: nat)
    requires DistinctIds(events) && k < |events|
    ensures PositionAfter(events, events[k].id) == Some(k + 1)
  {
    if k < |events| - 1 {
      PositionAfterIs(events[..|events| - 1], k);
    }
  }

  lemma {:induction false} PositionAfterFinds(events: seq<Event>, lastId: string)
    ensures match PositionAfter(events, lastId)
      case Some(k) =>
        0 < k <= |events| && events[k - 1].id == lastId && forall i :: k <= i < |events| ==> events[i].id != lastId
      case None => forall i :: 0 <= i < |events| ==> events[i].id != lastId
  {
    if events != [] {
      PositionAfterFinds(events[..|events| - 1], lastId);
    }
  }

  /** Where a client's backlog begins: with the first event for one that names none, right behind the last event
      of the id it names, and with the first event, after a notice, when that is not there. */
  lemma SinceTells(events: seq<Event>, lastId: string)
    ensures var (k, lost) := Since(events, lastId);
      && (Blank(lastId) ==> k == 0 && !lost)
      && (lost <==> !Blank(lastId) && forall i :: 0 <= i < |events| ==> events[i].id != lastId)
      && (lost ==> k == 0)
      && (!Blank(lastId) && !lost ==>
            && 0 < k <= |events| && events[k - 1].id == lastId
            && forall i :: k <= i < |events| ==> events[i].id != lastId)
  {
    BlankExactly(lastId);
    hide Trim, Blank;
    PositionAfterFinds(events, lastId);
  }

  lemma SinceInWindow(log: seq<Event>, history: seq<Event>, j: nat)
    requires |history| <= |log| && history == log[|log| - |history|..]
    requires j < |log| && DistinctIds(log) && Trim(log[j].id) != ""
    ensures j >= |log| - |history| ==> Since(history, log[j].id) == (j + 1 - (|log| - |history|), false)
    ensures j < |log| - |history| ==> Since(history, log[j].id) == (0, true)
  {
    var first := |log| - |history|;
    assert forall i :: 0 <= i < |history| ==> history[i] == log[first + i];
    if j >= first {
      PositionAfterIs(history, j - first);
    } else {
      PositionAfterFinds(history, log[j].id);
    }
  }

  lemma HistoryIsEndOfLog(steps: seq<Step>)
    requires AllAllowed(steps)
    ensures var w := Exec(steps);
      |w.stream.history| <= |w.log| && w.stream.history == w.log[|w.log| - |w.stream.history|..]
  {
    AlwaysSound(steps);
  }

  /** A client that comes back with the id of the last event it got takes up right behind it, exactly
      when that event is still in the history; otherwise it is sent the whole history and told so. */
  lemma ReconnectTakesUp(steps: seq<Step>, id: SubId, j: nat)
    requires AllAllowed(steps) && id !in Exec(steps).clients
    requires j < |Exec(steps).log| && DistinctIds(Exec(steps).log) && Trim(Exec(steps).log[j].id) != ""
    ensures var w := Exec(steps);
      var lastId := w.log[j].id;
      var held := |w.stream.history|;
      var start := Next(w, DoConnect(id, lastId)).clients[id].start;
      && held <= |w.log|
      && (j >= |w.log| - held ==> start == j + 1 && !Since(w.stream.history, lastId).1)
      && (j < |w.log| - held ==> start == |w.log| - held && Since(w.stream.history, lastId).1)
  {
    HistoryIsEndOfLog(steps);
    SinceInWindow(Exec(steps).log, Exec(steps).stream.history, j);
  }

  /** How far the client would be if it had been given everything since it joined. */
  function GivenUpTo(c: Client): nat {
    c.from + |c.delivered|
  }

  /** What the client has been given: its backlog and what was delivered live. What is still in its channel
      when it leaves is lost to it. */
  function Given(w: World, id: SubId): seq<Event>
    requires id in w.clients
  {
    var c := w.clients[id];
    (if c.start <= c.from <= |w.log| then w.log[c.start..c.from] else []) + c.delivered
  }

  /** Nothing is missing between the events that were delivered. If the channel overflowed, the client left
      before the gap reached it. */
  ghost predicate GapFree(w: World, id: SubId)
    requires id in w.clients
  {
    var c := w.clients[id];
    c.from <= GivenUpTo(c) <= |w.log| && c.delivered == w.log[c.from..GivenUpTo(c)]
  }

  lemma NotOverflowedIsGapFree(w: World, id: SubId)
    requires Sound(w) && id in w.clients && !w.clients[id].overflowed
    ensures GapFree(w, id)
  {
    assert Follows(w, id);
    var c := w.clients[id];
    assert c.delivered == w.log[c.from..End(w, c)][..|c.delivered|];
  }

  lemma GapFreeExactly(w: World, id: SubId, end: nat)
    requires Sound(w) && id in w.clients && w.clients[id].start <= end <= |w.log|
    ensures GapFree(w, id) && end == GivenUpTo(w.clients[id]) <==> Given(w, id) == w.log[w.clients[id].start..end]
  {
    assert Follows(w, id);
    var c := w.clients[id];
    if Given(w, id) == w.log[c.start..end] {
      assert |Given(w, id)| == end - c.start;
      assert c.delivered == w.log[c.start..end][c.from - c.start..];
    }
    if GapFree(w, id) && end == GivenUpTo(c) {
      assert w.log[c.start..end] == w.log[c.start..c.from] + w.log[c.from..end];
    }
  }

  lemma {:induction false} SubsequenceShort<T>(a: seq<T>, b: seq<T>)
    requires Subsequence(a, b)
    ensures |a| <= |b| && (|a| == |b| ==> a == b)
  {
    if a != [] && b != [] {
      var front, last := b[..|b| - 1], b[|b| - 1];
      if a[|a| - 1] == last && Subsequence(a[..|a| - 1], front) {
        SubsequenceShort(a[..|a| - 1], front);
        assert a == a[..|a| - 1] + [last];
      } else {
        SubsequenceShort(a, front);
      }
    }
  }

  lemma {:induction false} SubsequencePrefix<T>(a: seq<T>, b: seq<T>, k: nat)
    requires k <= |a| && Subsequence(a, b)
    ensures Subsequence(a[..k], b)
  {
    if k == |a| {
      assert a[..k] == a;
    } else {
      var front := b[..|b| - 1];
      if a[|a| - 1] == b[|b| - 1] && Subsequence(a[..|a| - 1], front) {
        SubsequencePrefix(a[..|a| - 1], front, k);
        assert a[..|a| - 1][..k] == a[..k];
      } else {
        SubsequencePrefix(a, front, k);
      }
    }
  }

  /** The last element has a place, and the others are found before it. */
  lemma {:induction false} SubsequenceLast<T>(a: seq<T>, b: seq<T>) returns (k: nat)
    requires a != [] && Subsequence(a, b)
    ensures k < |b| && b[k] == a[|a| - 1] && Subsequence(a, b[..k + 1])
  {
    var n := |b| - 1;
    if a[|a| - 1] == b[n] && Subsequence(a[..|a| - 1], b[..n]) {
      k := n;
      assert b[..n + 1] == b;
    } else {
      k := SubsequenceLast(a, b[..n]);
      assert b[..n][..k + 1] == b[..k + 1];
    }
  }

  lemma GetsExactly(w: World, id: SubId)
    requires Sound(w) && id in w.clients
    ensures Follows(w, id)
    ensures Subsequence(Gets(w, id), w.log[w.clients[id].start..End(w, w.clients[id])])
    ensures Gets(w, id) == w.log[w.clients[id].start..End(w, w.clients[id])] <==> !w.clients[id].overflowed
  {
    assert Follows(w, id);
    var c := w.clients[id];
    Stretch(w.log, c.start, c.from, End(w, c), c.delivered, w.stream.chans[id].buffer);
    assert |Gets(w, id)| == c.from - c.start + |c.delivered| + |w.stream.chans[id].buffer|;
  }

  lemma GetsGivenFirst(w: World, id: SubId)
    requires Sound(w) && id in w.clients
    ensures Given(w, id) <= Gets(w, id)
    ensures var c := w.clients[id]; c.start <= c.from <= End(w, c) <= |w.log|
  {
    assert Follows(w, id);
  }

  lemma LastOfPart(a: seq<Event>, all: seq<Event>, log: seq<Event>, start: nat, end: nat) returns (j: nat)
    requires a != [] && a <= all && start <= end <= |log| && Subsequence(all, log[start..end])
    ensures start <= j < |log| && log[j] == a[|a| - 1] && Subsequence(a, log[start..j + 1])
  {
    hide Subsequence;
    SubsequencePrefix(all, log[start..end], |a|);
    assert all[..|a|] == a;
    var k := SubsequenceLast(a, log[start..end]);
    j := start + k;
    assert log[start..end][..k + 1] == log[start..j + 1];
  }

  /** The last event a client was given is in the log, and what it was given is a part of the log up to it. */
  lemma LastGivenIsLogged(w: World, id: SubId) returns (j: nat)
    requires Sound(w) && id in w.clients && Given(w, id) != []
    ensures w.clients[id].start <= j < |w.log| && w.log[j] == LastGiven(w, id)
    ensures Subsequence(Given(w, id), w.log[w.clients[id].start..j + 1])
  {
    GetsExactly(w, id);
    GetsGivenFirst(w, id);
    hide Sound, Follows, Subsequence, Given, Gets;
    var c := w.clients[id];
    j := LastOfPart(Given(w, id), Gets(w, id), w.log, c.start, End(w, c));
  }

  function LastGiven(w: World, id: SubId): Event
    requires id in w.clients && Given(w, id) != []
  {
    Given(w, id)[|Given(w, id)| - 1]
  }

  lemma JoinSlices(log: seq<Event>, longer: seq<Event>, start: nat, middle: nat, end: nat)
    requires log <= longer && start <= middle <= |log| && middle <= end <= |longer|
    ensures log[start..middle] + longer[middle..end] == longer[start..end]
  {
  }

  lemma JoinedExactly(log: seq<Event>, longer: seq<Event>, start: nat, middle: nat, end: nat,
                      a: seq<Event>, b: seq<Event>)
    requires log <= longer && start <= middle <= |log| && middle <= end <= |longer|
    requires Subsequence(a, log[start..middle]) && Subsequence(b, longer[middle..end])
    ensures a + b == longer[start..end] <==> a == log[start..middle] && b == longer[middle..end]
  {
    JoinSlices(log, longer, start, middle, end);
    SubsequenceShort(a, log[start..middle]);
    SubsequenceShort(b, longer[middle..end]);
    if a + b == longer[start..end] {
      assert |a + b| == end - start;
    }
  }

  /**
   Two stays of a client, the second taken up behind the last event it was given in the first (event `j` of
   the log): what it got in both is one gapless stretch of the log exactly when the first had no gap among
   what was delivered, whatever was left in its channel, and the second never overflowed. `w'` is `w` or later.
   */
  lemma {:induction false} TwoStaysAreOneExactly(w: World, w': World, a: SubId, b: SubId, j: nat)
    requires Sound(w) && Sound(w') && w.log <= w'.log && a in w.clients && b in w'.clients
    requires DistinctIds(w.log) && Given(w, a) != [] && j < |w.log| && w.log[j] == LastGiven(w, a)
    requires w'.clients[b].start == j + 1
    ensures w.clients[a].start <= j + 1 <= End(w', w'.clients[b]) <= |w'.log|
    ensures Given(w, a) + Gets(w', b) == w'.log[w.clients[a].start..End(w', w'.clients[b])]
      <==> GapFree(w, a) && !w'.clients[b].overflowed
  {
    hide Sound, Follows, Subsequence, Given, Gets, GapFree;
    var i := LastGivenIsLogged(w, a);
    assert i == j;
    var start, end := w.clients[a].start, End(w', w'.clients[b]);
    GetsGivenFirst(w', b);
    GetsExactly(w', b);
    JoinedExactly(w.log, w'.log, start, j + 1, end, Given(w, a), Gets(w', b));
    GapFreeExactly(w, a, j + 1);
    GapFreeEndsWithLast(w, a, j);
  }

  lemma GapFreeEndsWithLast(w: World, a: SubId, j: nat)
    requires Sound(w) && a in w.clients && DistinctIds(w.log) && Given(w, a) != []
    requires j < |w.log| && w.log[j] == LastGiven(w, a)
    ensures GapFree(w, a) ==> j + 1 == GivenUpTo(w.clients[a])
  {
    GetsGivenFirst(w, a);
    hide Sound, Follows, Subsequence, Gets, Given, Exec, Next, Since, LastN;
    if GapFree(w, a) {
      GapFreeExactly(w, a, GivenUpTo(w.clients[a]));
      assert LastGiven(w, a) == w.log[GivenUpTo(w.clients[a]) - 1];
    }
  }

  /** The last event the client was given has an id and is still in the history. */
  ghost predicate CanReturn(w: World, id: SubId) {
    && id in w.clients && Given(w, id) != []
    && Trim(LastGiven(w, id).id) != "" && LastGiven(w, id) in w.stream.history
  }

  lemma {:induction false} LaterKeepsClient(steps: seq<Step>, later: seq<Step>, id: SubId)
    requires AllAllowed(steps + later) && id in Exec(steps).clients
    ensures var w, w' := Exec(steps), Exec(steps + later);
      && w.log <= w'.log && id in w'.clients
      && w'.clients[id].start == w.clients[id].start && w'.clients[id].from == w.clients[id].from
  {
    if later == [] {
      assert steps + later == steps;
    } else {
      var front := later[..|later| - 1];
      assert (steps + later)[..|steps + later| - 1] == steps + front;
      LaterKeepsClient(steps, front, id);
    }
  }

  lemma {:induction false} AllowedFront(steps: seq<Step>, later: seq<Step>)
    requires AllAllowed(steps + later)
    ensures AllAllowed(steps)
  {
    if later == [] {
      assert steps + later == steps;
    } else {
      assert (steps + later)[..|steps + later| - 1] == steps + later[..|later| - 1];
      AllowedFront(steps, later[..|later| - 1]);
    }
  }

  /** A client `a` that comes back as `b` with the id of the last event it was given, while that event is
      still in the history: over any run after that, what it was given before and what it gets now are one
      gapless stretch of the log exactly when no gap had reached it before and none arises now. */
  lemma {:induction false} ReturningContinuesExactly(steps: seq<Step>, a: SubId, b: SubId, later: seq<Step>)
    requires CanReturn(Exec(steps), a) && DistinctIds(Exec(steps).log)
    requires AllAllowed(steps + [DoConnect(b, LastGiven(Exec(steps), a).id)] + later)
    ensures var w := Exec(steps);
      var w' := Exec(steps + [DoConnect(b, LastGiven(w, a).id)] + later);
      && Sound(w) && Sound(w') && b in w'.clients && w.log <= w'.log
      && w.clients[a].start <= End(w', w'.clients[b]) <= |w'.log|
      && (Given(w, a) + Gets(w', b) == w'.log[w.clients[a].start..End(w', w'.clients[b])]
          <==> GapFree(w, a) && !w'.clients[b].overflowed)
  {
    hide Sound, Follows, DistinctIds, Next;
    var w := Exec(steps);
    var back := [DoConnect(b, LastGiven(w, a).id)];
    AllowedFront(steps + back, later);
    AllowedFront(steps, back);
    AlwaysSound(steps);
    AlwaysSound(steps + back + later);
    var j := ReturnTakesUp(steps, a, b);
    LaterKeepsClient(steps + back, later, b);
    LaterKeepsLog(steps, back);
    TwoStaysAreOneExactly(w, Exec(steps + back + later), a, b, j);
  }

  lemma LaterKeepsLog(steps: seq<Step>, later: seq<Step>)
    requires |later| == 1
    ensures Exec(steps).log <= Exec(steps + later).log
  {
    assert (steps + later)[..|steps|] == steps;
  }

  lemma {:induction false} ReturnTakesUp(steps: seq<Step>, a: SubId, b: SubId) returns (j: nat)
    requires CanReturn(Exec(steps), a) && DistinctIds(Exec(steps).log)
    requires AllAllowed(steps + [DoConnect(b, LastGiven(Exec(steps), a).id)])
    ensures var w := Exec(steps);
      var w' := Exec(steps + [DoConnect(b, LastGiven(w, a).id)]);
      j < |w.log| && w.log[j] == LastGiven(w, a) && b in w'.clients && w'.clients[b].start == j + 1
  {
    var w := Exec(steps);
    var back := [DoConnect(b, LastGiven(w, a).id)];
    assert (steps + back)[..|steps|] == steps && (steps + back)[|steps|] == back[0];
    hide Sound, Follows, Subsequence, Given, Since;
    AlwaysSound(steps);
    j := LastGivenIsLogged(w, a);
    ReconnectTakesUp(steps, b, j);
    HistoryIsEndOfLog(steps);
    var k :| 0 <= k < |w.stream.history| && w.stream.history[k] == LastGiven(w, a);
    assert w.log[|w.log| - |w.stream.history| + k] == w.log[j];
  }

  /** Events get increasing sequence numbers as long as callers leave the numbering to the store. */
  lemma {:induction false} SequenceIncreases(steps: seq<Step>)
    requires forall k :: 0 <= k < |steps| ==> !steps[k].DoDelete? && (steps[k].DoAppend? ==> steps[k].ev.sequence <= 0)
    ensures var w := Exec(steps);
      && w.stream.sequence == |w.log|
      && (forall i :: 0 <= i < |w.log| ==> w.log[i].sequence == i + 1)
  {
    if steps != [] {
      SequenceIncreases(steps[..|steps| - 1]);
    }
  }

  /** The events since the last deletion. */
  function SinceDeleted(steps: seq<Step>): seq<Event> {
    if steps == [] then []
    else
      var front := steps[..|steps| - 1];
      match steps[|steps| - 1]
      case DoDelete => []
      case DoAppend(ev) => SinceDeleted(front) + [Numbered(Exec(front).stream, ev)]
      case _ => SinceDeleted(front)
  }

  /** The history is the last 2000 events since the conversation was last deleted, or all if there are fewer. */
  lemma {:induction false} HistoryExactly(steps: seq<Step>)
    ensures var events, history := SinceDeleted(steps), Exec(steps).stream.history;
      && (|events| <= 2000 ==> history == events)
      && (|events| > 2000 ==> history == events[|events| - 2000..])
  {
    if steps != [] {
      HistoryExactly(steps[..|steps| - 1]);
    }
  }

  /** Numbering starts anew after a deletion. */
  lemma {:induction false} NumberingRestarts(steps: seq<Step>)
    requires forall k :: 0 <= k < |steps| && steps[k].DoAppend? ==> steps[k].ev.sequence <= 0
    ensures var events := SinceDeleted(steps);
      && Exec(steps).stream.sequence == |events|
      && forall i :: 0 <= i < |events| ==> events[i].sequence == i + 1
  {
    if steps != [] {
      NumberingRestarts(steps[..|steps| - 1]);
    }
  }

  /** An event reaches a client whose channel has fewer than 32 events, and is lost to one whose channel is full. */
  lemma OverflowsExactly(w: World, ev: Event, id: SubId)
    requires id in w.clients && id in w.stream.subs && id in w.stream.chans && !w.clients[id].overflowed
    ensures var w' := Next(w, DoAppend(ev));
      var waiting := w.stream.chans[id].buffer;
      && id in w'.clients && id in w'.stream.chans
      && (w'.clients[id].overflowed <==> |waiting| >= 32)
      && w'.stream.chans[id].buffer == if |waiting| >= 32 then waiting else waiting + [Numbered(w.stream, ev)]
  {
  }

  /** An event keeps the number it comes with if that is positive; else it gets the next one. Either way
      counting goes on from it. */
  lemma NumbersGoOn(s: Stream, ev: Event)
    ensures var e := Numbered(s, ev);
      && e.id == ev.id && e.data == ev.data && AppendEvent(s, ev).sequence == e.sequence
      && (ev.sequence >= 1 ==> e.sequence == ev.sequence)
      && (ev.sequence <= 0 ==> e.sequence == s.sequence + 1)
  {
  }
}
