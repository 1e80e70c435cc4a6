/** The change ledger of a conversation: one entry a path, updated by every diff event. */
module Ledger {
  import opened Basics
  import opened Text
  import opened Paths
  import opened Diffs
  import opened DiffSummary

  datatype Entry = Entry(
    messageId: string,
    runId: string,
    path: string,
    changeType: string,
    summary: string,
    added: Option<int>,
    deleted: Option<int>,
    before: string,
    after: string)

  /** One diff item as it reaches the ledger, with the run it came from and that run's message. */
  datatype Touch = Touch(runId: string, messageId: string, item: DiffItem)

  function EntryPosition(entries: seq<Entry>, path: string): Option<nat> {
    if entries == [] then None
    else
      var front := EntryPosition(entries[..|entries| - 1], path);
      if front.None? && entries[|entries| - 1].path == path then Some(|entries| - 1) else front
  }

  function NewEntry(path: string, t: Touch): Entry {
    Entry(Trim(t.messageId), Trim(t.runId), path, NormalChangeType(t.item.changeType), Trim(t.item.summary),
          NormalCount(t.item.added), NormalCount(t.item.deleted), Trim(t.item.before), Trim(t.item.after))
  }

  /** The later touch wins, but the first blob of what was there before stays. */
  function TouchEntry(e: Entry, t: Touch): Entry {
    var x := NewEntry(e.path, t);
    x.(before := if x.before != "" && Trim(e.before) == "" then x.before else e.before,
       after := if x.after != "" then x.after else e.after)
  }

  function UpsertAt(entries: seq<Entry>, path: string, t: Touch): seq<Entry> {
    match EntryPosition(entries, path)
    case None => entries + [NewEntry(path, t)]
    case Some(k) => if k < |entries| then entries[k := TouchEntry(entries[k], t)] else entries
  }

  function Upsert(entries: seq<Entry>, t: Touch): seq<Entry> {
    var path := NormalizePath(t.item.path);
    if path == "" then entries else UpsertAt(entries, path, t)
  }

  function UpsertAll(entries: seq<Entry>, touches: seq<Touch>): seq<Entry> {
    if touches == [] then entries
    else Upsert(UpsertAll(entries, touches[..|touches| - 1]), touches[|touches| - 1])
  }

  lemma {:induction false} EntryPositionFinds(entries: seq<Entry>, path: string)
    ensures match EntryPosition(entries, path)
      case Some(k) => k < |entries| && entries[k].path == path && forall i :: 0 <= i < k ==> entries[i].path != path
      case None => forall i :: 0 <= i < |entries| ==> entries[i].path != path
  {
    if entries != [] {
      EntryPositionFinds(entries[..|entries| - 1], path);
    }
  }

  lemma {:induction false} UpsertAllConcat(entries: seq<Entry>, a: seq<Touch>, b: seq<Touch>)
    ensures UpsertAll(entries, a + b) == UpsertAll(UpsertAll(entries, a), b)
  {
    hide Upsert;
    if b == [] {
      assert a + b == a;
    } else {
      UpsertAllConcat(entries, a, b[..|b| - 1]);
      assert (a + b)[..|a + b| - 1] == a + b[..|b| - 1];
    }
  }

  ghost predicate HasEntry(entries: seq<Entry>, p: string) {
    exists i :: 0 <= i < |entries| && entries[i].path == p
  }

  ghost predicate UniqueEntries(entries: seq<Entry>) {
    forall i, j :: 0 <= i < j < |entries| ==> entries[i].path != entries[j].path
  }

  lemma UpsertUnique(entries: seq<Entry>, t: Touch)
    requires UniqueEntries(entries)
    ensures UniqueEntries(Upsert(entries, t))
  {
    var path := NormalizePath(t.item.path);
    EntryPositionFinds(entries, path);
    match EntryPosition(entries, path)
    case None =>
    case Some(k) =>
      var after := entries[k := TouchEntry(entries[k], t)];
      assert forall i :: 0 <= i < |entries| ==> after[i].path == entries[i].path;
  }

  /** However the ledger is fed, it never holds two entries for one path. */
  lemma {:induction false} UpsertAllUnique(entries: seq<Entry>, touches: seq<Touch>)
    requires UniqueEntries(entries)
    ensures UniqueEntries(UpsertAll(entries, touches))
  {
    if touches != [] {
      UpsertAllUnique(entries, touches[..|touches| - 1]);
      UpsertUnique(UpsertAll(entries, touches[..|touches| - 1]), touches[|touches| - 1]);
    }
  }

  // ---- the mutable ledger -----------------------------------------------------------------------

  datatype Checkpoint = Checkpoint(id: string, message: string, createdAt: string, gitCommit: string, digest: string)

  class ChangeLedger {
    var pendingId: string
    var entries: seq<Entry>
    var checkpoint: Option<Checkpoint>

    constructor (freshId: string)
      ensures pendingId == freshId && entries == [] && checkpoint.None?
    {
      pendingId, entries, checkpoint := freshId, [], None;
    }

    /** The in-place update of one entry: a blob from before is only filled in when missing. */
    method UpdateEntry(i: nat, t: Touch)
      requires i < |entries|
      modifies this`entries
      ensures entries == old(entries)[i := TouchEntry(old(entries)[i], t)]
    {
      var e := entries[i];
      var x := NewEntry(e.path, t);
      var before, after := e.before, e.after;
      if x.before != "" && Trim(e.before) == "" {
        before := x.before;
      }
      if x.after != "" {
        after := x.after;
      }
      entries := entries[i := x.(before := before, after := after)];
    }

    /** Scans for the entry of a path. */
    method FindEntry(path: string) returns (position: Option<nat>)
      ensures position == EntryPosition(entries, path)
      ensures position.Some? ==> position.value < |entries|
    {
      EntryPositionFinds(entries, path);
      for i := 0 to |entries|
        invariant forall j :: 0 <= j < i ==> entries[j].path != path
      {
        if entries[i].path == path {
          return Some(i);
        }
      }
      position := None;
    }

    /** Updates the entry of the path in place, or appends a new one. */
    method UpsertPath(path: string, t: Touch)
      modifies this`entries
      ensures entries == UpsertAt(old(entries), path, t)
    {
      var position := FindEntry(path);
      if position.Some? {
        UpdateEntry(position.value, t);
        return;
      }
      entries := entries + [NewEntry(path, t)];
    }

    method UpsertEntry(t: Touch, freshId: string)
      modifies this`entries, this`pendingId
      ensures entries == Upsert(old(entries), t)
      ensures pendingId
            == if NormalizePath(t.item.path) != "" && Trim(old(pendingId)) == "" then freshId else old(pendingId)
    {
      var path := NormalizePath(t.item.path);
      if path == "" {
        return;
      }
      if Trim(pendingId) == "" {
        pendingId := freshId;
      }
      UpsertPath(path, t);
    }

    method UpsertEntries(touches: seq<Touch>, freshId: string)
      requires Trim(pendingId) != ""
      modifies this`entries, this`pendingId
      ensures entries == UpsertAll(old(entries), touches)
      ensures pendingId == old(pendingId)
    {
      for i := 0 to |touches|
        invariant entries == UpsertAll(old(entries), touches[..i])
        invariant pendingId == old(pendingId)
      {
        assert touches[..i + 1][..i] == touches[..i];
        UpsertEntry(touches[i], freshId);
      }
      assert touches[..|touches|] == touches;
    }
  }

  // ---- what the entries say ---------------------------------------------------------------------

  function Items(touches: seq<Touch>): seq<DiffItem> {
    seq(|touches|, i requires 0 <= i < |touches| => touches[i].item)
  }

  function LastTouch(touches: seq<Touch>, p: string): Option<Touch> {
    if touches == [] then None
    else if touches[|touches| - 1].item.path == p then Some(touches[|touches| - 1])
    else LastTouch(touches[..|touches| - 1], p)
  }

  /** A normalised item, under a path in normal form, of a run with tight ids. */
  ghost predicate Regular(t: Touch) {
    && Normal(t.item) && NormalizePath(t.item.path) == t.item.path
    && Tight(t.runId) && Tight(t.messageId)
  }

  ghost predicate AllRegular(touches: seq<Touch>) {
    forall i {:trigger Regular(touches[i])} :: 0 <= i < |touches| ==> Regular(touches[i])
  }

  lemma RegularEntry(t: Touch)
    requires Regular(t)
    ensures NewEntry(t.item.path, t)
         == Entry(t.messageId, t.runId, t.item.path, t.item.changeType, t.item.summary, t.item.added, t.item.deleted,
                  t.item.before, t.item.after)
    ensures t.item.path != ""
  {
    NormalIsFixed(t.item);
    TightIsTrimmed(t.runId);
    TightIsTrimmed(t.messageId);
    TightIsTrimmed(t.item.before);
    TightIsTrimmed(t.item.after);
    TightIsTrimmed(t.item.summary);
  }

  /** The last touch of the path, with the first blob from before and the last from after. */
  ghost predicate Describes(e: Entry, touches: seq<Touch>) {
    var last := LastTouch(touches, e.path);
    && last.Some?
    && e == Entry(last.value.messageId, last.value.runId, e.path, last.value.item.changeType, last.value.item.summary,
                  last.value.item.added, last.value.item.deleted,
                  FirstBefore(Items(touches), e.path), LastAfter(Items(touches), e.path))
    && Tight(e.before)
  }

  lemma ItemsAppend(front: seq<Touch>, t: Touch)
    ensures Items(front + [t]) == Items(front) + [t.item]
    ensures (Items(front) + [t.item])[..|front|] == Items(front)
  {
  }

  lemma DescribeStep(e: Entry, front: seq<Touch>, t: Touch)
    requires Describes(e, front) && Regular(t)
    ensures Describes(if e.path == t.item.path then TouchEntry(e, t) else e, front + [t])
  {
    RegularEntry(t);
    ItemsAppend(front, t);
    TightIsTrimmed(e.before);
    assert (front + [t])[..|front|] == front;
  }

  lemma DescribeStart(front: seq<Touch>, t: Touch)
    requires FirstOf(Items(front), t.item.path).None? && Regular(t)
    ensures Describes(NewEntry(t.item.path, t), front + [t])
  {
    RegularEntry(t);
    ItemsAppend(front, t);
    NothingBefore(Items(front), t.item.path);
    assert (front + [t])[..|front|] == front;
  }

  /** The incremental ledger in closed form: one entry a path, in first-seen order, described by
      the touches of that path. */
  lemma {:induction false} LedgerDescribes(touches: seq<Touch>)
    requires AllRegular(touches)
    ensures var entries := UpsertAll([], touches);
      && |entries| == |FirstSeen(Items(touches))|
      && forall k :: 0 <= k < |entries| ==>
        entries[k].path == FirstSeen(Items(touches))[k] && Describes(entries[k], touches)
  {
    if touches != [] {
      var front, t := touches[..|touches| - 1], touches[|touches| - 1];
      assert touches == front + [t];
      assert AllRegular(front) by {
        assert forall i :: 0 <= i < |front| ==> front[i] == touches[i];
      }
      assert Regular(touches[|touches| - 1]);
      LedgerDescribes(front);
      ItemsAppend(front, t);
      RegularEntry(t);
      FirstSeenElements(Items(front));
      LedgerDescribesStep(UpsertAll([], front), front, t);
    }
  }

  lemma LedgerDescribesStep(entries: seq<Entry>, front: seq<Touch>, t: Touch)
    requires Regular(t)
    requires |entries| == |FirstSeen(Items(front))|
    requires forall k :: 0 <= k < |entries| ==>
      entries[k].path == FirstSeen(Items(front))[k] && Describes(entries[k], front)
    ensures var entries', touches := Upsert(entries, t), front + [t];
      && |entries'| == |FirstSeen(Items(touches))|
      && forall k :: 0 <= k < |entries'| ==>
        entries'[k].path == FirstSeen(Items(touches))[k] && Describes(entries'[k], touches)
  {
    var entries', seen, p := Upsert(entries, t), FirstSeen(Items(front)), t.item.path;
    ItemsAppend(front, t);
    RegularEntry(t);
    FirstSeenElements(Items(front));
    EntryPositionFinds(entries, p);
    var position := EntryPosition(entries, p);
    forall k | 0 <= k < |entries|
      ensures entries'[k].path == seen[k] && Describes(entries'[k], front + [t])
    {
      DescribeStep(entries[k], front, t);
      assert entries[k].path == p <==> position == Some(k) by {
        if position.Some? {
          assert seen[k] == seen[position.value] <==> k == position.value;
        }
      }
    }
    if position.None? {
      assert p !in seen;
      DescribeStart(front, t);
    } else {
      assert seen[position.value] == p;
    }
  }
}
