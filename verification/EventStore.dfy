/** The event store with its channels, each section proved to do what EventStream says. */
module EventStore {
  import opened Basics
  import opened Text
  import opened EventStream

  /** What a client is sent. */
  datatype Sent = Resync(lastId: string, latestId: string, windowSize: nat) | Plain(event: Event)

  function Backlog(events: seq<Event>, k: nat): seq<Sent> {
    if |events| <= k then [] else Backlog(events[..|events| - 1], k) + [Plain(events[|events| - 1])]
  }

  function Greeting(events: seq<Event>, lastId: string): seq<Sent> {
    var (k, resync) := Since(events, lastId);
    if resync
    then [Resync(lastId, if events == [] then "" else events[|events| - 1].id, |events|)] + Backlog(events, k)
    else Backlog(events, k)
  }

  function PlainAll(events: seq<Event>): seq<Sent> {
    seq(|events|, i requires 0 <= i < |events| => Plain(events[i]))
  }

  lemma {:induction false} BacklogIsRest(events: seq<Event>, k: nat)
    requires k <= |events|
    ensures Backlog(events, k) == PlainAll(events[k..])
  {
    if |events| > k {
      BacklogIsRest(events[..|events| - 1], k);
      assert PlainAll(events[k..]) == PlainAll(events[..|events| - 1][k..]) + [Plain(events[|events| - 1])];
    }
  }

  /** The notice has the id the client came with, the latest id there is and the number of events it is sent. */
  ghost predicate Notifies(sent: Sent, events: seq<Event>, lastId: string) {
    && sent.Resync? && sent.lastId == lastId && sent.windowSize == |events|
    && (events == [] ==> sent.latestId == "")
    && (events != [] ==> sent.latestId == events[|events| - 1].id)
  }

  lemma GreetingShape(events: seq<Event>, lastId: string)
    ensures var (k, resync) := Since(events, lastId);
      var greeting := Greeting(events, lastId);
      && |greeting| >= (if resync then 1 else 0) && (resync ==> Notifies(greeting[0], events, lastId))
      && greeting[if resync then 1 else 0..] == PlainAll(events[k..])
  {
    BacklogIsRest(events, Since(events, lastId).0);
  }

  /** What a client is greeted with is the stretch of the log that `EventStream.Gets` starts with: from
      the start of its backlog to the moment it joined, after a notice if it has lost its place. */
  lemma {:induction false} GreetingIsStretchOfLog(steps: seq<Step>, id: SubId, lastId: string)
    requires AllAllowed(steps) && id !in Exec(steps).clients
    ensures var w := Exec(steps);
      var c := Next(w, DoConnect(id, lastId)).clients[id];
      var greeting, resync := Greeting(w.stream.history, lastId), Since(w.stream.history, lastId).1;
      && c.start <= c.from == |w.log|
      && |greeting| >= (if resync then 1 else 0) && (resync ==> Notifies(greeting[0], w.stream.history, lastId))
      && greeting[if resync then 1 else 0..] == PlainAll(w.log[c.start..c.from])
  {
    hide Greeting, PlainAll, AllAllowed, Notifies, Since, Exec, LastN;
    HistoryIsEndOfLog(steps);
    var w := Exec(steps);
    var history, k := w.stream.history, Since(w.stream.history, lastId).0;
    GreetingShape(history, lastId);
    assert history[k..] == w.log[|w.log| - |history| + k..|w.log|];
  }

  /** A channel of the language: sending to a closed channel, or closing it again, would crash. */
  class Channel {
    var buffer: seq<Event>
    var closed: bool

    ghost function View(): Chan
      reads this
    {
      Chan(buffer, if closed then 1 else 0)
    }

    constructor ()
      ensures buffer == [] && !closed
    {
      buffer, closed := [], false;
    }

    /** A send that does not wait. */
    method TrySend(ev: Event)
      requires !closed
      modifies this
      ensures View() == Offered(old(View()), ev)
    {
      if |buffer| < CAPACITY {
        buffer := buffer + [ev];
      }
    }

    method Close()
      requires !closed
      modifies this
      ensures closed && buffer == old(buffer)
    {
      closed := true;
    }

    /** Nothing is received from an empty channel; `ended` tells that it is closed as well. */
    method Receive() returns (ev: Option<Event>, ended: bool)
      modifies this
      ensures closed == old(closed)
      ensures ev == if old(buffer) == [] then None else Some(old(buffer)[0])
      ensures buffer == if old(buffer) == [] then [] else old(buffer)[1..]
      ensures ended == (old(buffer) == [] && closed)
    {
      if buffer == [] {
        return None, closed;
      }
      ev, ended := Some(buffer[0]), false;
      buffer := buffer[1..];
    }
  }

  class EventStore {
    var history: seq<Event>
    var sequence: int
    var subs: map<SubId, Channel>
    /** Every channel ever handed out. */
    ghost var chans: map<SubId, Channel>

    /** Registered channels are open, the others closed, and no two subscribers share one. */
    ghost predicate Valid()
      reads this`subs, this`chans, chans.Values
    {
      && (forall id :: id in subs ==> id in chans && subs[id] == chans[id])
      && (forall id :: id in chans ==> (chans[id].closed <==> id !in subs))
      && (forall i, j :: i in chans && j in chans && i != j ==> chans[i] != chans[j])
    }

    ghost function Chans(): map<SubId, Chan>
      reads this`chans, chans.Values
    {
      map id | id in chans :: chans[id].View()
    }

    ghost function View(): Stream
      reads this, chans.Values
    {
      Stream(history, sequence, subs.Keys, Chans())
    }

    constructor ()
      ensures Valid() && View() == Stream([], 0, {}, map[])
    {
      history, sequence, subs, chans := [], 0, map[], map[];
    }

    /** Offers the event to every registered subscriber, in whatever order the map yields them. */
    method Broadcast(e: Event)
      requires Valid()
      modifies chans.Values
      ensures Valid() && Chans() == Broadcasted(old(Chans()), subs.Keys, e)
    {
      ghost var before := Chans();
      var todo := subs.Keys;
      while todo != {}
        invariant Valid() && todo <= subs.Keys
        invariant forall id :: id in chans ==>
          chans[id].View() == (if id in subs && id !in todo then Offered(before[id], e) else before[id])
      {
        var id :| id in todo;
        todo := todo - {id};
        assert chans[id] in chans.Values;
        subs[id].TrySend(e);
      }
    }

    /** Keeps the last events of the history. */
    method Remember(e: Event)
      modifies this`history
      ensures history == LastN(old(history) + [e], HISTORY)
    {
      history := history + [e];
      if |history| > HISTORY {
        history := history[|history| - HISTORY..];
      }
    }

    method Append(ev: Event)
      requires Valid()
      modifies this`history, this`sequence, chans.Values
      ensures Valid() && View() == AppendEvent(old(View()), ev)
    {
      ghost var before := View();
      var e := ev;
      if ev.sequence <= 0 {
        e := ev.(sequence := sequence + 1);
      }
      assert e == Numbered(before, ev);
      sequence := e.sequence;
      Remember(e);
      assert Chans() == before.chans && subs.Keys == before.subs;
      Broadcast(e);
      assert Chans() == Broadcasted(before.chans, before.subs, e);
    }

    method PositionAfterId(lastId: string) returns (position: Option<nat>)
      ensures position == PositionAfter(history, lastId)
      ensures position.Some? ==> position.value <= |history|
    {
      assert history[..|history|] == history;
      for i := |history| downto 0
        invariant PositionAfter(history, lastId) == PositionAfter(history[..i], lastId)
      {
        assert history[..i + 1][..i] == history[..i];
        if history[i].id == lastId {
          return Some(i + 1);
        }
      }
      position := None;
    }

    method ReadBacklog(lastId: string) returns (greeting: seq<Sent>)
      ensures greeting == Greeting(history, lastId)
    {
      var k, resync := 0, false;
      if Trim(lastId) != "" {
        var position := PositionAfterId(lastId);
        if position.None? {
          resync := true;
        } else {
          k := position.value;
        }
      }
      greeting := Backlog(history, k);
      if resync {
        greeting := [Resync(lastId, if history == [] then "" else history[|history| - 1].id, |history|)] + greeting;
      }
    }

    method Register(id: SubId) returns (channel: Channel)
      requires Valid() && id !in chans
      modifies this`subs, this`chans
      ensures Valid() && View() == Subscribed(old(View()), id)
      ensures fresh(channel) && chans == old(chans)[id := channel]
    {
      channel := new Channel();
      subs := subs[id := channel];
      chans := chans[id := channel];
      assert Chans() == old(Chans())[id := Chan([], 0)];
    }

    /** One section under the lock: read the backlog and register. */
    method Connect(lastId: string, id: SubId) returns (greeting: seq<Sent>, channel: Channel)
      requires Valid() && id !in chans
      modifies this`subs, this`chans
      ensures Valid() && View() == Subscribed(old(View()), id)
      ensures fresh(channel) && chans == old(chans)[id := channel]
      ensures greeting == Greeting(history, lastId)
    {
      greeting := ReadBacklog(lastId);
      channel := Register(id);
    }

    /** Unregistering closes the channel; a subscriber that is gone already is left alone. */
    method Unregister(id: SubId)
      requires Valid()
      modifies this`subs, chans.Values
      ensures Valid() && View() == Unsubscribed(old(View()), id)
      ensures subs == old(subs) - {id}
      ensures forall other :: other in chans ==> chans[other].buffer == old(chans[other].buffer)
    {
      if id !in subs {
        return;
      }
      var channel := subs[id];
      assert channel in chans.Values;
      subs := subs - {id};
      channel.Close();
    }

    /** Forgets the history and unregisters every subscriber. */
    method DeleteConversation()
      requires Valid()
      modifies this`history, this`sequence, this`subs, chans.Values
      ensures Valid() && View() == Deleted(old(View()))
    {
      history, sequence := [], 0;
      UnregisterAll();
    }

    method UnregisterAll()
      requires Valid()
      modifies this`subs, chans.Values
      ensures Valid() && subs == map[] && Chans() == ClosedAll(old(Chans()), old(subs.Keys))
    {
      ghost var before := View();
      var todo := subs.Keys;
      while todo != {}
        invariant Valid() && subs.Keys == todo <= before.subs
        invariant forall id :: id in chans ==> chans[id].buffer == before.chans[id].buffer
      {
        var id :| id in todo;
        todo := todo - {id};
        Unregister(id);
      }
      assert Chans() == ClosedAll(before.chans, before.subs);
    }
  }
}
