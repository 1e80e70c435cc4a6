/** The invariant of the run queue, and the proof that every step keeps it. */
module QueueInvariant {
  import opened Basics
  import opened QueueModel

  /** The order list names each of the conversation's live runs exactly once. */
  ghost predicate Lists(runs: map<RunId, Run>, c: ConvId, order: seq<RunId>) {
    && NoDup(order)
    && (forall id :: id in order <==> id in runs && runs[id].conv == c)
  }

  ghost predicate Increasing(runs: map<RunId, Run>, order: seq<RunId>)
    requires forall id :: id in order ==> id in runs
  {
    forall i, j {:trigger runs[order[i]].queueIndex, runs[order[j]].queueIndex} ::
      0 <= i < j < |order| ==> runs[order[i]].queueIndex < runs[order[j]].queueIndex
  }

  /** At most one run is ongoing: the active one. Everything before it is over and everything
      after it is queued or over; without an active run everything is over. */
  ghost predicate Lane(runs: map<RunId, Run>, order: seq<RunId>, active: Option<RunId>)
    requires forall id :: id in order ==> id in runs
  {
    && (forall id :: id in order ==> (Ongoing(runs[id].state) <==> active == Some(id)))
    && (forall i, j {:trigger Terminal(runs[order[i]].state), Ongoing(runs[order[j]].state)} ::
          0 <= i < j < |order| && Ongoing(runs[order[j]].state) ==> Terminal(runs[order[i]].state))
    && (active.Some? ==> active.value in order)
    && (active.None? ==> forall id :: id in order ==> Terminal(runs[id].state))
  }

  /** Whatever runs a snapshot names, the live ones among them are a prefix of the order list. */
  ghost predicate SnapshotFits(runs: map<RunId, Run>, issued: set<RunId>, order: seq<RunId>, s: Snapshot) {
    && Filter(s.runIds, runs.Keys) <= order
    && Elements(s.runIds) <= issued
  }

  ghost predicate ConvInv(runs: map<RunId, Run>, issued: set<RunId>, c: ConvId, conv: Conv) {
    && Lists(runs, c, conv.order)
    && Increasing(runs, conv.order)
    && Lane(runs, conv.order, conv.active)
    && (conv.queueState.Idle? <==> conv.active.None?)
    && (forall s :: s in conv.snapshots ==> SnapshotFits(runs, issued, conv.order, s))
  }

  ghost predicate Inv(h: Hub) {
    && h.runs.Keys <= h.issued
    && (forall id :: id in h.runs ==> h.runs[id].conv in h.convs && h.runs[id].queueIndex >= 0)
    && (forall c :: c in h.convs ==> ConvInv(h.runs, h.issued, c, h.convs[c]))
  }

  // ---- derived values under the invariant -------------------------------------------------

  lemma {:induction false} MaxIndexBounds(runs: map<RunId, Run>, order: seq<RunId>)
    requires forall id :: id in order ==> id in runs && runs[id].queueIndex >= 0
    ensures MaxIndex(runs, order) >= -1
    ensures forall id :: id in order ==> runs[id].queueIndex <= MaxIndex(runs, order)
    ensures order != [] ==> exists id :: id in order && runs[id].queueIndex == MaxIndex(runs, order)
  {
    if order != [] {
      var front := order[..|order| - 1];
      MaxIndexBounds(runs, front);
      assert order == front + [order[|order| - 1]];
      assert order[|order| - 1] in order;
    }
  }

  /** The largest queue index of the messages, -1 when none carries one. */
  lemma {:induction false} MaxMessageIndexBounds(messages: seq<Message>)
    ensures MaxMessageIndex(messages) >= -1
    ensures forall m :: m in messages && m.queueIndex.Some? ==> m.queueIndex.value <= MaxMessageIndex(messages)
    ensures MaxMessageIndex(messages) >= 0 ==>
      exists m :: m in messages && m.queueIndex == Some(MaxMessageIndex(messages))
  {
    if messages != [] {
      var front, last := messages[..|messages| - 1], messages[|messages| - 1];
      MaxMessageIndexBounds(front);
      assert messages == front + [last];
      assert last in messages;
    }
  }

  ghost predicate FirstAt(runs: map<RunId, Run>, order: seq<RunId>, want: RunState -> bool, id: RunId, k: nat) {
    && k < |order| && order[k] == id && id in runs && want(runs[id].state)
    && (forall i :: 0 <= i < k && order[i] in runs ==> !want(runs[order[i]].state))
  }

  /** What a scan of the order list finds. */
  lemma {:induction false} FirstWithFinds(runs: map<RunId, Run>, order: seq<RunId>, want: RunState -> bool)
    ensures var r := FirstWith(runs, order, want);
      match r
      case Some(id) => exists k: nat :: FirstAt(runs, order, want, id, k)
      case None => forall i :: 0 <= i < |order| && order[i] in runs ==> !want(runs[order[i]].state)
  {
    if order == [] {
    } else if order[0] in runs && want(runs[order[0]].state) {
      assert FirstAt(runs, order, want, order[0], 0);
    } else {
      FirstWithFinds(runs, order[1..], want);
      var r := FirstWith(runs, order[1..], want);
      if r.Some? {
        var k: nat :| FirstAt(runs, order[1..], want, r.value, k);
        assert FirstAt(runs, order, want, r.value, k + 1);
      } else {
        assert forall i :: 0 < i < |order| ==> order[i] == order[1..][i - 1];
      }
    }
  }

  // ---- what one step of another conversation leaves alone -----------------------------------

  /** Only runs of `c` differ, no run changes hands, and a new run has a new id. */
  ghost predicate OnlyTouches(before: map<RunId, Run>, after: map<RunId, Run>, issued: set<RunId>, c: ConvId) {
    && (forall id :: id in before && before[id].conv != c ==> id in after && after[id] == before[id])
    && (forall id :: id in after && after[id].conv != c ==> id in before)
    && (forall id :: id in after && id in before ==> after[id].conv == before[id].conv)
    && (forall id :: id in after && id !in before ==> id !in issued)
  }

  lemma OthersKeep(runs: map<RunId, Run>, after: map<RunId, Run>, issued: set<RunId>, issued': set<RunId>,
                   c: ConvId, d: ConvId, conv: Conv)
    requires ConvInv(runs, issued, d, conv) && d != c && issued <= issued'
    requires OnlyTouches(runs, after, issued, c)
    ensures ConvInv(after, issued', d, conv)
  {
    forall s | s in conv.snapshots
      ensures SnapshotFits(after, issued', conv.order, s)
    {
      FilterElements(s.runIds, runs.Keys);
      forall id | id in s.runIds
        ensures id in runs.Keys <==> id in after.Keys
      {
        assert id in Elements(s.runIds);
        if id in runs {
          assert id in Filter(s.runIds, runs.Keys);
          assert id in conv.order;
        }
      }
      FilterAgree(s.runIds, runs.Keys, after.Keys);
    }
  }

  /** A step of one conversation keeps the whole invariant if it keeps that conversation's. */
  lemma LocalStep(h: Hub, h': Hub, c: ConvId)
    requires Inv(h) && c in h'.convs
    requires h.issued <= h'.issued && h'.runs.Keys <= h'.issued
    requires h'.convs.Keys == h.convs.Keys + {c}
    requires forall d :: d in h.convs && d != c ==> h'.convs[d] == h.convs[d]
    requires OnlyTouches(h.runs, h'.runs, h.issued, c)
    requires forall id :: id in h'.runs && h'.runs[id].conv == c ==> h'.runs[id].queueIndex >= 0
    requires ConvInv(h'.runs, h'.issued, c, h'.convs[c])
    ensures Inv(h')
  {
    forall d | d in h'.convs && d != c
      ensures ConvInv(h'.runs, h'.issued, d, h'.convs[d])
    {
      OthersKeep(h.runs, h'.runs, h.issued, h'.issued, c, d, h.convs[d]);
    }
  }

  ghost predicate SamePlace(r: Run, r': Run) {
    r'.conv == r.conv && r'.queueIndex == r.queueIndex && r'.messageId == r.messageId
  }

  /** The step changes run states of `c` and its record, but neither its lists nor its snapshots. */
  ghost predicate Restated(h: Hub, h': Hub, c: ConvId) {
    && c in h.convs
    && h'.issued == h.issued && h'.runs.Keys == h.runs.Keys && h'.convs.Keys == h.convs.Keys
    && (forall id :: id in h.runs ==> SamePlace(h.runs[id], h'.runs[id]))
    && (forall id :: id in h.runs && h.runs[id].conv != c ==> h'.runs[id] == h.runs[id])
    && (forall d :: d in h.convs && d != c ==> h'.convs[d] == h.convs[d])
    && h'.convs[c].order == h.convs[c].order && h'.convs[c].snapshots == h.convs[c].snapshots
  }

  lemma RestatedConv(runs: map<RunId, Run>, runs': map<RunId, Run>, issued: set<RunId>, c: ConvId,
      conv: Conv, conv': Conv)
    requires ConvInv(runs, issued, c, conv)
    requires runs'.Keys == runs.Keys && forall id :: id in runs ==> SamePlace(runs[id], runs'[id])
    requires conv'.order == conv.order && conv'.snapshots == conv.snapshots
    requires Lane(runs', conv'.order, conv'.active)
    requires conv'.queueState.Idle? <==> conv'.active.None?
    ensures ConvInv(runs', issued, c, conv')
  {
    assert forall id :: id in conv.order ==> SamePlace(runs[id], runs'[id]);
    assert forall i :: 0 <= i < |conv.order| ==> conv.order[i] in conv.order;
    assert forall s :: s in conv.snapshots ==> SnapshotFits(runs, issued, conv.order, s);
  }

  lemma RestateKeeps(h: Hub, h': Hub, c: ConvId)
    requires Inv(h) && Restated(h, h', c)
    requires forall id :: id in h'.convs[c].order ==> id in h'.runs
    requires Lane(h'.runs, h'.convs[c].order, h'.convs[c].active)
    requires h'.convs[c].queueState.Idle? <==> h'.convs[c].active.None?
    ensures Inv(h')
  {
    RestatedConv(h.runs, h'.runs, h.issued, c, h.convs[c], h'.convs[c]);
    LocalStep(h, h', c);
  }

  // ---- the steps ------------------------------------------------------------------------------

  lemma CreateKeeps(h: Hub, c: ConvId, project: string, model: string)
    requires Inv(h) && c !in h.convs
    ensures Inv(CreateConversation(h, c, project, model))
  {
    LocalStep(h, CreateConversation(h, c, project, model), c);
  }

  lemma AppendKeepsSnapshot(runs: map<RunId, Run>, issued: set<RunId>, order: seq<RunId>, s: Snapshot,
      id: RunId, run: Run)
    requires SnapshotFits(runs, issued, order, s) && id !in issued
    ensures SnapshotFits(runs[id := run], issued + {id}, order + [id], s)
  {
    assert id !in Elements(s.runIds);
    FilterAgree(s.runIds, runs.Keys, runs[id := run].Keys);
  }

  lemma AppendLists(runs: map<RunId, Run>, c: ConvId, order: seq<RunId>, id: RunId, run: Run)
    requires Lists(runs, c, order) && id !in runs && run.conv == c
    ensures Lists(runs[id := run], c, order + [id])
  {
    assert forall x :: x in order + [id] <==> x in order || x == id;
  }

  lemma AppendIncreasing(runs: map<RunId, Run>, order: seq<RunId>, id: RunId, run: Run)
    requires id !in runs && (forall x :: x in order ==> x in runs) && Increasing(runs, order)
    requires forall x :: x in order ==> runs[x].queueIndex < run.queueIndex
    ensures Increasing(runs[id := run], order + [id])
  {
    var order' := order + [id];
    assert forall i :: 0 <= i < |order| ==> order'[i] == order[i] && order[i] in order;
  }

  lemma AppendLane(runs: map<RunId, Run>, order: seq<RunId>, active: Option<RunId>, id: RunId, run: Run)
    requires id !in runs && (forall x :: x in order ==> x in runs) && Lane(runs, order, active)
    requires run.state == if active.None? then Pending else Queued
    ensures Lane(runs[id := run], order + [id], if active.None? then Some(id) else active)
  {
    var order' := order + [id];
    assert forall i :: 0 <= i < |order| ==> order'[i] == order[i] && order[i] in order;
  }

  lemma AppendKeepsSnapshots(runs: map<RunId, Run>, issued: set<RunId>, order: seq<RunId>,
      snapshots: seq<Snapshot>, s: Snapshot, id: RunId, run: Run)
    requires forall t :: t in snapshots ==> SnapshotFits(runs, issued, order, t)
    requires runs.Keys <= issued && id !in issued && (forall x :: x in order ==> x in runs)
    requires s.runIds == order + [id]
    ensures forall t :: t in snapshots + [s] ==> SnapshotFits(runs[id := run], issued + {id}, order + [id], t)
  {
    hide SnapshotFits, Filter;
    forall t | t in snapshots
      ensures SnapshotFits(runs[id := run], issued + {id}, order + [id], t)
    {
      AppendKeepsSnapshot(runs, issued, order, t, id, run);
    }
    OwnSnapshotFits(runs[id := run], issued + {id}, order + [id], s);
  }

  lemma OwnSnapshotFits(runs: map<RunId, Run>, issued: set<RunId>, order: seq<RunId>, s: Snapshot)
    requires runs.Keys <= issued && (forall x :: x in order ==> x in runs) && s.runIds == order
    ensures SnapshotFits(runs, issued, order, s)
  {
    FilterAll(s.runIds, runs.Keys);
  }

  lemma AppendKeepsConv(runs: map<RunId, Run>, issued: set<RunId>, c: ConvId, conv: Conv,
      id: RunId, run: Run, conv': Conv)
    requires ConvInv(runs, issued, c, conv)
    requires id !in runs && id !in issued && run.conv == c
    requires forall x :: x in conv.order ==> runs[x].queueIndex < run.queueIndex
    requires run.state == if conv.active.None? then Pending else Queued
    requires conv'.order == conv.order + [id]
    requires conv'.active == if conv.active.None? then Some(id) else conv.active
    requires !conv'.queueState.Idle?
    requires exists s :: conv'.snapshots == conv.snapshots + [s] && s.runIds == conv'.order
    requires runs.Keys <= issued
    ensures ConvInv(runs[id := run], issued + {id}, c, conv')
  {
    var s :| conv'.snapshots == conv.snapshots + [s] && s.runIds == conv'.order;
    AppendLists(runs, c, conv.order, id, run);
    hide Increasing, Lane, SnapshotFits;
    AppendIncreasing(runs, conv.order, id, run);
    AppendLane(runs, conv.order, conv.active, id, run);
    AppendKeepsSnapshots(runs, issued, conv.order, conv.snapshots, s, id, run);
  }

  lemma SubmitKeeps(h: Hub, c: ConvId, id: RunId, msg: MessageId, model: string, now: nat)
    requires Inv(h) && id !in h.issued
    ensures Inv(Submit(h, c, id, msg, model, now).0)
  {
    if c in h.convs {
      var h' := Submit(h, c, id, msg, model, now).0;
      var conv := h.convs[c];
      assert ConvInv(h.runs, h.issued, c, conv);
      MaxIndexBounds(h.runs, conv.order);
      assert h'.convs[c].snapshots == conv.snapshots + [Snapshot(msg, h'.convs[c].messages, conv.order + [id], now)];
      AppendKeepsConv(h.runs, h.issued, c, conv, id, h'.runs[id], h'.convs[c]);
      LocalStep(h, h', c);
    }
  }

  lemma CommandKeeps(h: Hub, c: ConvId, userMsg: MessageId, systemMsg: MessageId, now: nat)
    requires Inv(h)
    ensures Inv(CommandResult(h, c, userMsg, systemMsg, now).0)
  {
    if c in h.convs {
      var h' := CommandResult(h, c, userMsg, systemMsg, now).0;
      forall s | s in h'.convs[c].snapshots
        ensures SnapshotFits(h'.runs, h'.issued, h'.convs[c].order, s)
      {
        if s !in h.convs[c].snapshots {
          FilterAll(s.runIds, h.runs.Keys);
        }
      }
      LocalStep(h, h', c);
    }
  }

  /** Once nothing is ongoing, starting the first queued run makes it the active one. */
  lemma AdvanceRestoresLane(runs: map<RunId, Run>, conv: Conv)
    requires NoDup(conv.order)
    requires forall id :: id in conv.order ==> id in runs
    requires forall id :: id in conv.order ==> !Ongoing(runs[id].state)
    ensures Lane(StartNext(runs, conv), conv.order, ConvAfterNext(runs, conv).active)
    ensures StartNext(runs, conv).Keys == runs.Keys
    ensures ConvAfterNext(runs, conv).queueState.Idle? <==> ConvAfterNext(runs, conv).active.None?
  {
    FirstWithFinds(runs, conv.order, (s: RunState) => s.Queued?);
  }
}
