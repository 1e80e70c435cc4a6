/** Whether discarding a change set brings back what was there when the set began. */
module Undo {
  import opened Basics
  import opened Text
  import opened Paths
  import opened Diffs
  import opened DiffSummary
  import opened Ledger
  import opened Ordering
  import opened Restore

  /** One edit of a run as the ledger hears of it, with what the file holds afterwards. */
  datatype Edit = Edit(touch: Touch, contents: Option<string>)

  function TouchesOf(edits: seq<Edit>): seq<Touch> {
    seq(|edits|, i requires 0 <= i < |edits| => edits[i].touch)
  }

  /** What the file `p` holds after the edits, when it held `start` before them. */
  function ContentsAt(start: Option<string>, edits: seq<Edit>, p: string): Option<string> {
    if edits == [] then start
    else if edits[|edits| - 1].touch.item.path == p then edits[|edits| - 1].contents
    else ContentsAt(start, edits[..|edits| - 1], p)
  }

  /** Blobs decode to what was encoded; an encoded file is never blank. */
  ghost predicate Codec(encode: string -> string, decode: string -> Option<string>) {
    forall c {:trigger encode(c)} :: c != "" ==> encode(c) != "" && Tight(encode(c)) && decode(encode(c)) == Some(c)
  }

  /** A blob from before, where an edit of `p` carries one, is the file as it was just then. */
  ghost predicate Accurate(start: Option<string>, edits: seq<Edit>, p: string, encode: string -> string) {
    forall k :: 0 <= k < |edits| && edits[k].touch.item.path == p && edits[k].touch.item.before != "" ==>
      var was := ContentsAt(start, edits[..k], p);
      was.Some? && was.value != "" && edits[k].touch.item.before == encode(was.value)
  }

  /** What the first edit of `p` that carries a blob says was there. */
  function FirstCarried(start: Option<string>, edits: seq<Edit>, p: string): Option<string> {
    if edits == [] then None
    else
      var front := edits[..|edits| - 1];
      var last := edits[|edits| - 1].touch.item;
      if FirstCarried(start, front, p).Some? then FirstCarried(start, front, p)
      else if last.path == p && last.before != "" then ContentsAt(start, front, p)
      else None
  }

  lemma AccurateFront(start: Option<string>, edits: seq<Edit>, p: string, encode: string -> string)
    requires Accurate(start, edits, p, encode) && edits != []
    ensures Accurate(start, edits[..|edits| - 1], p, encode)
  {
    var front := edits[..|edits| - 1];
    assert forall k :: 0 <= k < |front| ==> front[k] == edits[k] && front[..k] == edits[..k];
  }

  /** With accurate blobs, the first blob of the ledger is the first that was carried. */
  lemma {:induction false} FirstBlobDecodes(start: Option<string>, edits: seq<Edit>, p: string,
                                            encode: string -> string, decode: string -> Option<string>)
    requires Codec(encode, decode) && Accurate(start, edits, p, encode)
    ensures var blob := FirstBefore(Items(TouchesOf(edits)), p);
      && (blob == "" <==> FirstCarried(start, edits, p).None?)
      && (blob != "" ==> Tight(blob) && decode(blob) == FirstCarried(start, edits, p))
  {
    if edits != [] {
      var front := edits[..|edits| - 1];
      AccurateFront(start, edits, p, encode);
      FirstBlobDecodes(start, front, p, encode, decode);
      assert Items(TouchesOf(edits))[..|edits| - 1] == Items(TouchesOf(front));
      assert Items(TouchesOf(edits))[|edits| - 1] == edits[|edits| - 1].touch.item;
    }
  }

  predicate Deletes(changeType: string) {
    NormalChangeType(changeType) == "deleted"
  }

  /** What undoing its entry leaves of a file: the first blob carried; without any, nothing, or, after a
      deletion, what there is. */
  function Left(start: Option<string>, edits: seq<Edit>, e: Entry): Option<string> {
    match FirstCarried(start, edits, e.path)
    case Some(c) => Some(c)
    case None => if Deletes(e.changeType) then ContentsAt(start, edits, e.path) else None
  }

  predicate Undoes(start: Option<string>, edits: seq<Edit>, e: Entry) {
    Left(start, edits, e) == start
  }

  /** What undoing an entry comes down to, in terms of the edits. */
  function UndoAct(target: Option<Place>, start: Option<string>, edits: seq<Edit>, e: Entry): Act {
    match target
    case None => Refuse(OutsideProject)
    case Some(place) =>
      match FirstCarried(start, edits, e.path)
      case Some(c) => Write(place, c)
      case None => if Deletes(e.changeType) then Skip else Remove(place)
  }

  lemma EntryAct(root: Place, start: Option<string>, edits: seq<Edit>, e: Entry, place: Place,
                 encode: string -> string, decode: string -> Option<string>)
    requires Codec(encode, decode) && Accurate(start, edits, e.path, encode)
    requires e.before == FirstBefore(Items(TouchesOf(edits)), e.path)
    requires NormalizePath(e.path) == e.path != "" && Target(root, e.path) == Some(place)
    ensures ActOf(root, e, decode) == UndoAct(Some(place), start, edits, e)
  {
    FirstBlobDecodes(start, edits, e.path, encode, decode);
    TightIsTrimmed(e.before);
  }

  /** No other entry leads to the place or above it. */
  ghost predicate Alone(root: Place, entries: seq<Entry>, k: nat, place: Place) {
    forall i :: 0 <= i < |entries| && i != k ==>
      var other := Target(root, NormalizePath(entries[i].path));
      other.Some? ==> !(other.value <= place)
  }

  lemma ActPlace(root: Place, e: Entry, decode: string -> Option<string>)
    ensures HasPlace(ActOf(root, e, decode)) ==>
      Target(root, NormalizePath(e.path)) == Some(ActOf(root, e, decode).place)
  {
  }

  lemma OthersPassBy(root: Place, entries: seq<Entry>, decode: string -> Option<string>, k: nat, place: Place)
    requires Alone(root, entries, k, place)
    ensures forall i :: 0 <= i < |entries| && i != k ==> !Restore.Touches(Acts(root, entries, decode)[i], place)
  {
    forall i | 0 <= i < |entries| && i != k
      ensures !Restore.Touches(Acts(root, entries, decode)[i], place)
    {
      ActPlace(root, entries[i], decode);
    }
  }

  /**
   Discard, for any number of edits of any number of files: once a discard went through, the file of an
   entry of the ledger is again as it was when the set began exactly when `Undoes` says so. `t` is the
   tree after the edits. When a discard goes through is told by DiscardSucceedsExactly.
   */
  lemma {:induction false} DiscardUndoesExactly(root: Place, start: Option<string>, edits: seq<Edit>, k: nat,
                                                t: Tree, place: Place, encode: string -> string,
                                                decode: string -> Option<string>)
    requires AllRegular(TouchesOf(edits)) && k < |UpsertAll([], TouchesOf(edits))|
    requires Alone(root, UpsertAll([], TouchesOf(edits)), k, place)
    requires var e := UpsertAll([], TouchesOf(edits))[k];
      && Target(root, e.path) == Some(place)
      && Codec(encode, decode) && Accurate(start, edits, e.path, encode)
      && Look(t, place) == ContentsAt(start, edits, e.path)
    ensures var entries := UpsertAll([], TouchesOf(edits));
      var outcome := PerformAll(t, Acts(root, entries, decode));
      outcome.Restored? ==>
        && Look(outcome.tree, place) == Left(start, edits, entries[k])
        && (Look(outcome.tree, place) == start <==> Undoes(start, edits, entries[k]))
  {
    var entries := UpsertAll([], TouchesOf(edits));
    EntryFacts(TouchesOf(edits), k);
    EntryAct(root, start, edits, entries[k], place, encode, decode);
    OthersPassBy(root, entries, decode, k, place);
    SucceedsExactly(t, Acts(root, entries, decode));
    OneLeaves(t, Acts(root, entries, decode), k, place, start, edits, entries[k]);
  }

  lemma OneLeaves(t: Tree, acts: seq<Act>, k: nat, place: Place, start: Option<string>, edits: seq<Edit>, e: Entry)
    requires k < |acts| && Look(t, place) == ContentsAt(start, edits, e.path)
    requires acts[k] == UndoAct(Some(place), start, edits, e)
    requires forall i :: 0 <= i < |acts| && i != k ==> !Restore.Touches(acts[i], place)
    ensures Look(Effects(t, acts), place) == Left(start, edits, e)
  {
    if acts[k].Skip? {
      UntouchedStays(t, acts, place);
    } else {
      OneTouchDecides(t, acts, k, place);
    }
  }

  lemma EntryFacts(touches: seq<Touch>, k: nat)
    requires AllRegular(touches) && k < |UpsertAll([], touches)|
    ensures var e := UpsertAll([], touches)[k];
      && NormalizePath(e.path) == e.path != ""
      && e.before == FirstBefore(Items(touches), e.path)
  {
    LedgerDescribes(touches);
    var e := UpsertAll([], touches)[k];
    var i := LastTouchAt(touches, e.path);
    assert Regular(touches[i]);
  }

  lemma {:induction false} LastTouchAt(touches: seq<Touch>, p: string) returns (i: nat)
    requires LastTouch(touches, p).Some?
    ensures i < |touches| && touches[i].item.path == p && touches[i] == LastTouch(touches, p).value
  {
    if touches[|touches| - 1].item.path == p {
      i := |touches| - 1;
    } else {
      i := LastTouchAt(touches[..|touches| - 1], p);
    }
  }

  // ---- the whole ledger -----------------------------------------------------------------------------

  function PlaceOf(root: Place, e: Entry): Place {
    match Target(root, e.path)
    case None => []
    case Some(place) => place
  }

  /** The edits of an entry's file are told accurately, and led to what the tree holds now. */
  ghost predicate Told(root: Place, start: Tree, edits: seq<Edit>, t: Tree, encode: string -> string, e: Entry) {
    Target(root, e.path).Some? ==>
      && Accurate(Look(start, PlaceOf(root, e)), edits, e.path, encode)
      && Look(t, PlaceOf(root, e)) == ContentsAt(Look(start, PlaceOf(root, e)), edits, e.path)
  }

  ghost predicate AllTold(root: Place, start: Tree, edits: seq<Edit>, t: Tree, encode: string -> string,
    entries: seq<Entry>)
  {
    forall k :: 0 <= k < |entries| ==> Told(root, start, edits, t, encode, entries[k])
  }

  /** The pending set of `edits`, told accurately. */
  ghost predicate PendingSet(root: Place, start: Tree, edits: seq<Edit>, t: Tree, encode: string -> string,
                             decode: string -> Option<string>) {
    && AllRegular(TouchesOf(edits)) && Codec(encode, decode)
    && AllTold(root, start, edits, t, encode, UpsertAll([], TouchesOf(edits)))
  }

  /** The path stays inside the project and nothing is in the way of undoing the entry: no file above, and
      no directory where a file is to be written. */
  ghost predicate Doable(root: Place, start: Tree, edits: seq<Edit>, t: Tree, e: Entry) {
    && Target(root, e.path).Some?
    && match FirstCarried(Look(start, PlaceOf(root, e)), edits, e.path)
       case Some(_) => !Blocked(t, PlaceOf(root, e))
       case None => Deletes(e.changeType) || !UnderFile(t, PlaceOf(root, e))
  }

  lemma PossibleIsDoable(root: Place, start: Tree, edits: seq<Edit>, t: Tree, e: Entry)
    ensures Possible(t, UndoAct(Target(root, e.path), Look(start, PlaceOf(root, e)), edits, e))
      <==> Doable(root, start, edits, t, e)
  {
    hide Blocked, UnderFile, Target, FirstCarried, Look;
  }

  lemma ActOfEntry(root: Place, start: Tree, edits: seq<Edit>, t: Tree, encode: string -> string,
                   decode: string -> Option<string>, k: nat)
    requires PendingSet(root, start, edits, t, encode, decode) && k < |UpsertAll([], TouchesOf(edits))|
    ensures var e := UpsertAll([], TouchesOf(edits))[k];
      && NormalizePath(e.path) == e.path != ""
      && ActOf(root, e, decode) == UndoAct(Target(root, e.path), Look(start, PlaceOf(root, e)), edits, e)
  {
    var e := UpsertAll([], TouchesOf(edits))[k];
    EntryFacts(TouchesOf(edits), k);
    assert Told(root, start, edits, t, encode, e);
    if Target(root, e.path).Some? {
      EntryAct(root, Look(start, PlaceOf(root, e)), edits, e, PlaceOf(root, e), encode, decode);
    }
  }

  /** With accurate blobs, a discard goes through exactly when every entry is doable in its turn. */
  lemma {:induction false} DiscardSucceedsExactly(root: Place, start: Tree, edits: seq<Edit>, t: Tree,
                                                  encode: string -> string, decode: string -> Option<string>)
    requires PendingSet(root, start, edits, t, encode, decode)
    ensures var entries := UpsertAll([], TouchesOf(edits));
      var acts := Acts(root, entries, decode);
      PerformAll(t, acts).Restored?
      <==> forall k :: 0 <= k < |entries| ==> Doable(root, start, edits, Effects(t, acts[..k]), entries[k])
  {
    var entries := UpsertAll([], TouchesOf(edits));
    var acts := Acts(root, entries, decode);
    SucceedsExactly(t, acts);
    hide PendingSet, Effects, PerformAll, UpsertAll, Doable, Possible, UndoAct;
    forall k | 0 <= k < |entries|
      ensures Possible(Effects(t, acts[..k]), acts[k])
        <==> Doable(root, start, edits, Effects(t, acts[..k]), entries[k])
    {
      ActOfEntry(root, start, edits, t, encode, decode, k);
      PossibleIsDoable(root, start, edits, Effects(t, acts[..k]), entries[k]);
    }
  }

  // ---- entries that are apart, some of them undone ------------------------------------------------------

  /** No entry leads at or below the place of another. */
  ghost predicate Spread(root: Place, entries: seq<Entry>) {
    forall i, j :: 0 <= i < |entries| && 0 <= j < |entries| && i != j ==>
      var a, b := Target(root, NormalizePath(entries[i].path)), Target(root, NormalizePath(entries[j].path));
      a.Some? && b.Some? ==> !Related(a.value, b.value)
  }

  /** The acts of those entries that `undone` holds of; the others stay. */
  function SomeActs(root: Place, entries: seq<Entry>, undone: Entry -> bool, decode: string -> Option<string>)
    : seq<Act>
  {
    seq(|entries|, i requires 0 <= i < |entries| =>
      if undone(entries[i]) then ActOf(root, entries[i], decode) else Skip)
  }

  lemma {:induction false} SelectedActs(t: Tree, root: Place, entries: seq<Entry>, undone: Entry -> bool,
                                        decode: string -> Option<string>)
    ensures PerformAll(t, Acts(root, Select(entries, undone), decode))
         == PerformAll(t, SomeActs(root, entries, undone, decode))
  {
    hide ActOf;
    if entries != [] {
      var front, last := entries[..|entries| - 1], entries[|entries| - 1];
      SelectedActs(t, root, front, undone, decode);
      var some, chosen := SomeActs(root, entries, undone, decode), Select(front, undone);
      assert some[..|front|] == SomeActs(root, front, undone, decode);
      if undone(last) {
        var acts := Acts(root, chosen + [last], decode);
        assert acts[..|chosen|] == Acts(root, chosen, decode) && acts[|chosen|] == ActOf(root, last, decode);
      }
    }
  }

  lemma SpreadIsApart(root: Place, entries: seq<Entry>, undone: Entry -> bool, decode: string -> Option<string>)
    requires Spread(root, entries)
    ensures Apart(SomeActs(root, entries, undone, decode))
  {
    var acts := SomeActs(root, entries, undone, decode);
    forall i | 0 <= i < |entries|
      ensures HasPlace(acts[i]) ==> Target(root, NormalizePath(entries[i].path)) == Some(acts[i].place)
    {
      ActPlace(root, entries[i], decode);
    }
  }

  ghost predicate AllDoable(root: Place, start: Tree, edits: seq<Edit>, t: Tree, undone: Entry -> bool) {
    var entries := UpsertAll([], TouchesOf(edits));
    forall k :: 0 <= k < |entries| && undone(entries[k]) ==> Doable(root, start, edits, t, entries[k])
  }

  /** With entries apart from each other, undoing some goes through exactly when each is doable in the tree
      there is. */
  lemma UndoSucceedsExactly(root: Place, start: Tree, edits: seq<Edit>, t: Tree, undone: Entry -> bool,
                            encode: string -> string, decode: string -> Option<string>)
    requires PendingSet(root, start, edits, t, encode, decode) && Spread(root, UpsertAll([], TouchesOf(edits)))
    ensures PerformAll(t, SomeActs(root, UpsertAll([], TouchesOf(edits)), undone, decode)).Restored?
      <==> AllDoable(root, start, edits, t, undone)
  {
    var entries := UpsertAll([], TouchesOf(edits));
    var acts := SomeActs(root, entries, undone, decode);
    SpreadIsApart(root, entries, undone, decode);
    SucceedsAtOnceExactly(t, acts);
    hide PendingSet, PerformAll, UpsertAll, Spread, Apart, Doable, UndoAct, ActOf, Blocked, UnderFile;
    forall k | 0 <= k < |entries|
      ensures Possible(t, acts[k]) <==> (undone(entries[k]) ==> Doable(root, start, edits, t, entries[k]))
    {
      ActOfEntry(root, start, edits, t, encode, decode, k);
      PossibleIsDoable(root, start, edits, t, entries[k]);
    }
  }

  lemma SomeActsPass(root: Place, entries: seq<Entry>, undone: Entry -> bool, decode: string -> Option<string>,
                     k: nat, place: Place)
    requires Spread(root, entries) && k < |entries|
    requires Target(root, NormalizePath(entries[k].path)) == Some(place)
    ensures forall i :: 0 <= i < |entries| && i != k ==>
      !Restore.Touches(SomeActs(root, entries, undone, decode)[i], place)
  {
    forall i | 0 <= i < |entries| && i != k
      ensures !Restore.Touches(SomeActs(root, entries, undone, decode)[i], place)
    {
      ActPlace(root, entries[i], decode);
    }
  }

  /** What is then in the place of an entry. */
  lemma LeftAt(root: Place, start: Tree, edits: seq<Edit>, t: Tree, undone: Entry -> bool,
               encode: string -> string, decode: string -> Option<string>, k: nat)
    requires PendingSet(root, start, edits, t, encode, decode) && Spread(root, UpsertAll([], TouchesOf(edits)))
    requires k < |UpsertAll([], TouchesOf(edits))| && Target(root, UpsertAll([], TouchesOf(edits))[k].path).Some?
    ensures var entries := UpsertAll([], TouchesOf(edits));
      var place := PlaceOf(root, entries[k]);
      Look(Effects(t, SomeActs(root, entries, undone, decode)), place) ==
        if undone(entries[k]) then Left(Look(start, place), edits, entries[k]) else Look(t, place)
  {
    var entries := UpsertAll([], TouchesOf(edits));
    var place, acts := PlaceOf(root, entries[k]), SomeActs(root, entries, undone, decode);
    ActOfEntry(root, start, edits, t, encode, decode, k);
    SomeActsPass(root, entries, undone, decode, k, place);
    assert Told(root, start, edits, t, encode, entries[k]);
    hide PendingSet, UpsertAll, Spread, Told;
    if undone(entries[k]) {
      OneLeaves(t, acts, k, place, Look(start, place), edits, entries[k]);
    } else {
      UntouchedStays(t, acts, place);
    }
  }

  /** The tree differs from `target` at most where an entry is, and no file lies below an entry's place. */
  ghost predicate RestUnchanged(root: Place, target: Tree, t: Tree, entries: seq<Entry>) {
    && (forall q :: (forall k :: 0 <= k < |entries| ==> Target(root, entries[k].path) != Some(q)) ==>
          Look(t, q) == Look(target, q))
    && (forall k :: 0 <= k < |entries| && Target(root, entries[k].path).Some? ==>
          forall q :: q in t.files && PlaceOf(root, entries[k]) <= q ==> q == PlaceOf(root, entries[k]))
  }

  ghost predicate Listed(root: Place, entries: seq<Entry>, q: Place) {
    exists k :: 0 <= k < |entries| && Target(root, entries[k].path) == Some(q)
  }

  lemma UnlistedStays(root: Place, target: Tree, t: Tree, entries: seq<Entry>, undone: Entry -> bool,
                      decode: string -> Option<string>, q: Place)
    requires RestUnchanged(root, target, t, entries) && !Listed(root, entries, q)
    requires forall k :: 0 <= k < |entries| ==> NormalizePath(entries[k].path) == entries[k].path
    ensures Look(Effects(t, SomeActs(root, entries, undone, decode)), q) == Look(target, q)
  {
    var acts := SomeActs(root, entries, undone, decode);
    assert Look(t, q) == Look(target, q);
    forall i | 0 <= i < |acts| && HasPlace(acts[i])
      ensures acts[i].place != q && (q in t.files ==> !(acts[i].place <= q))
    {
      ActPlace(root, entries[i], decode);
      assert Target(root, entries[i].path) == Some(acts[i].place) && PlaceOf(root, entries[i]) == acts[i].place;
    }
    if q in t.files {
      UntouchedStays(t, acts, q);
    } else {
      StaysAbsent(t, acts, q);
    }
  }

  /** Undoing the entry is possible and leaves what `target` has in its place. */
  ghost predicate GivesBack(root: Place, start: Tree, edits: seq<Edit>, t: Tree, target: Tree, e: Entry) {
    && Doable(root, start, edits, t, e)
    && Left(Look(start, PlaceOf(root, e)), edits, e) == Look(target, PlaceOf(root, e))
  }

  ghost predicate AllGiveBack(root: Place, start: Tree, edits: seq<Edit>, t: Tree, target: Tree,
                              undone: Entry -> bool) {
    var entries := UpsertAll([], TouchesOf(edits));
    forall k :: 0 <= k < |entries| && undone(entries[k]) ==> GivesBack(root, start, edits, t, target, entries[k])
  }

  /** The files of entries that are not undone are as in `target`. */
  ghost predicate OthersAreThere(root: Place, t: Tree, target: Tree, entries: seq<Entry>, undone: Entry -> bool) {
    forall k :: 0 <= k < |entries| && !undone(entries[k]) && Target(root, entries[k].path).Some? ==>
      Look(t, PlaceOf(root, entries[k])) == Look(target, PlaceOf(root, entries[k]))
  }

  lemma SameFilesExactly(root: Place, start: Tree, edits: seq<Edit>, t: Tree, target: Tree, undone: Entry -> bool,
                         encode: string -> string, decode: string -> Option<string>)
    requires PendingSet(root, start, edits, t, encode, decode) && Spread(root, UpsertAll([], TouchesOf(edits)))
    requires RestUnchanged(root, target, t, UpsertAll([], TouchesOf(edits)))
    requires OthersAreThere(root, t, target, UpsertAll([], TouchesOf(edits)), undone)
    requires AllDoable(root, start, edits, t, undone)
    ensures Effects(t, SomeActs(root, UpsertAll([], TouchesOf(edits)), undone, decode)).files == target.files
      <==> AllGiveBack(root, start, edits, t, target, undone)
  {
    var entries := UpsertAll([], TouchesOf(edits));
    var after := Effects(t, SomeActs(root, entries, undone, decode));
    forall k | 0 <= k < |entries|
      ensures NormalizePath(entries[k].path) == entries[k].path
      ensures Target(root, entries[k].path).Some? ==>
        Look(after, PlaceOf(root, entries[k])) ==
          if undone(entries[k]) then Left(Look(start, PlaceOf(root, entries[k])), edits, entries[k])
          else Look(t, PlaceOf(root, entries[k]))
    {
      EntryFacts(TouchesOf(edits), k);
      if Target(root, entries[k].path).Some? {
        LeftAt(root, start, edits, t, undone, encode, decode, k);
      }
    }
    hide PendingSet, Spread, UpsertAll, Left, SomeActs, Effects, Target;
    if AllGiveBack(root, start, edits, t, target, undone) {
      forall q
        ensures Look(after, q) == Look(target, q)
      {
        if k :| 0 <= k < |entries| && Target(root, entries[k].path) == Some(q) {
          assert undone(entries[k]) ==> GivesBack(root, start, edits, t, target, entries[k]);
        } else {
          UnlistedStays(root, target, t, entries, undone, decode, q);
        }
      }
      SameFiles(after, target);
    }
  }

  /** With entries apart from each other: undoing some of them goes through and leaves exactly the files of
      `target` if and only if each of them is doable and gives back what `target` has in its place. */
  lemma {:induction false} UndoReachesExactly(root: Place, start: Tree, edits: seq<Edit>, t: Tree, target: Tree,
                                              undone: Entry -> bool, encode: string -> string,
                                              decode: string -> Option<string>)
    requires PendingSet(root, start, edits, t, encode, decode) && Spread(root, UpsertAll([], TouchesOf(edits)))
    requires RestUnchanged(root, target, t, UpsertAll([], TouchesOf(edits)))
    requires OthersAreThere(root, t, target, UpsertAll([], TouchesOf(edits)), undone)
    ensures var outcome := PerformAll(t, Acts(root, Select(UpsertAll([], TouchesOf(edits)), undone), decode));
      outcome.Restored? && outcome.tree.files == target.files
      <==> AllGiveBack(root, start, edits, t, target, undone)
  {
    var entries := UpsertAll([], TouchesOf(edits));
    SelectedActs(t, root, entries, undone, decode);
    UndoSucceedsExactly(root, start, edits, t, undone, encode, decode);
    SucceedsExactly(t, SomeActs(root, entries, undone, decode));
    hide PendingSet, Spread, UpsertAll, PerformAll, Acts, SomeActs, Doable, Effects;
    if AllDoable(root, start, edits, t, undone) {
      SameFilesExactly(root, start, edits, t, target, undone, encode, decode);
    }
  }

  // ---- a discard ------------------------------------------------------------------------------------

  /** No file lies below another. */
  ghost predicate Flat(t: Tree) {
    forall p, q :: p in t.files && q in t.files && p <= q ==> p == q
  }

  /** The entry undoes its file, no directory has taken the place of a file to write, and no file lies above
      one to remove. */
  ghost predicate Reverts(root: Place, start: Tree, edits: seq<Edit>, t: Tree, e: Entry) {
    && Target(root, e.path).Some?
    && Undoes(Look(start, PlaceOf(root, e)), edits, e)
    && match FirstCarried(Look(start, PlaceOf(root, e)), edits, e.path)
       case Some(_) => PlaceOf(root, e) !in t.dirs
       case None => Deletes(e.changeType) || !UnderFile(t, PlaceOf(root, e))
  }

  /** What a file is written over was there when the set began, so no file is above it. */
  lemma RevertsExactly(root: Place, start: Tree, edits: seq<Edit>, t: Tree, entries: seq<Entry>, k: nat)
    requires Flat(start) && Spread(root, entries) && RestUnchanged(root, start, t, entries) && k < |entries|
    requires forall i :: 0 <= i < |entries| ==> NormalizePath(entries[i].path) == entries[i].path
    ensures Reverts(root, start, edits, t, entries[k]) <==> GivesBack(root, start, edits, t, start, entries[k])
  {
    var place := PlaceOf(root, entries[k]);
    if Target(root, entries[k].path).Some? {
      forall q | q in t.files && q < place
        ensures q in start.files
      {
        forall j | 0 <= j < |entries|
          ensures Target(root, entries[j].path) != Some(q)
        {
          assert NormalizePath(entries[j].path) == entries[j].path && NormalizePath(entries[k].path) == entries[k].path;
          assert j != k ==> (Target(root, entries[j].path).Some? ==> !Related(PlaceOf(root, entries[j]), place));
        }
        assert Look(t, q) == Look(start, q);
      }
    }
  }

  /**
   The whole pending set, with entries apart from each other: a discard goes through and gives back exactly
   the files that were there when the set began if and only if every entry reverts its file.
   */
  lemma {:induction false} DiscardRestoresTreeExactly(root: Place, start: Tree, edits: seq<Edit>, t: Tree,
                                                      encode: string -> string, decode: string -> Option<string>)
    requires PendingSet(root, start, edits, t, encode, decode) && Flat(start)
    requires Spread(root, UpsertAll([], TouchesOf(edits)))
    requires RestUnchanged(root, start, t, UpsertAll([], TouchesOf(edits)))
    ensures var entries := UpsertAll([], TouchesOf(edits));
      var outcome := PerformAll(t, Acts(root, entries, decode));
      outcome.Restored? && outcome.tree.files == start.files
      <==> forall k :: 0 <= k < |entries| ==> Reverts(root, start, edits, t, entries[k])
  {
    var entries := UpsertAll([], TouchesOf(edits));
    var all := (e: Entry) => true;
    forall k | 0 <= k < |entries|
      ensures NormalizePath(entries[k].path) == entries[k].path
    {
      EntryFacts(TouchesOf(edits), k);
    }
    SelectAll(entries, all);
    hide PendingSet, UpsertAll, PerformAll, Acts, Reverts, GivesBack;
    UndoReachesExactly(root, start, edits, t, start, all, encode, decode);
    forall k | 0 <= k < |entries|
      ensures Reverts(root, start, edits, t, entries[k]) <==> GivesBack(root, start, edits, t, start, entries[k])
    {
      RevertsExactly(root, start, edits, t, entries, k);
    }
  }

  // ---- files and directories that take each other's place -------------------------------------------------

  /** A file that a run replaced by a directory can not be written back when no entry before it leads to its
      place or above: the discard fails, however the others are. */
  lemma {:induction false} FileBecameDirectoryFails(root: Place, start: Tree, edits: seq<Edit>, t: Tree,
                                                    encode: string -> string, decode: string -> Option<string>,
                                                    k: nat)
    requires PendingSet(root, start, edits, t, encode, decode) && k < |UpsertAll([], TouchesOf(edits))|
    requires var entries := UpsertAll([], TouchesOf(edits));
      && Target(root, entries[k].path).Some?
      && FirstCarried(Look(start, PlaceOf(root, entries[k])), edits, entries[k].path).Some?
      && PlaceOf(root, entries[k]) in t.dirs
      && PassedBy(root, entries, k, PlaceOf(root, entries[k]))
    ensures PerformAll(t, Acts(root, UpsertAll([], TouchesOf(edits)), decode)).Failed?
  {
    var entries := UpsertAll([], TouchesOf(edits));
    ActOfEntry(root, start, edits, t, encode, decode, k);
    NotTouchedBefore(root, entries, decode, k, PlaceOf(root, entries[k]));
    InTheWayFails(t, Acts(root, entries, decode), k, PlaceOf(root, entries[k]));
  }

  /** Nor can what lay in a directory be restored, or even removed, when a run replaced the directory by a
      file and no entry before leads to that file or above. */
  lemma {:induction false} DirectoryBecameFileFails(root: Place, start: Tree, edits: seq<Edit>, t: Tree,
                                                    encode: string -> string, decode: string -> Option<string>,
                                                    k: nat, q: Place)
    requires PendingSet(root, start, edits, t, encode, decode) && k < |UpsertAll([], TouchesOf(edits))|
    requires var e := UpsertAll([], TouchesOf(edits))[k];
      && Target(root, e.path).Some? && q in t.files && q < PlaceOf(root, e)
      && (FirstCarried(Look(start, PlaceOf(root, e)), edits, e.path).Some? || !Deletes(e.changeType))
      && PassedBy(root, UpsertAll([], TouchesOf(edits)), k, q)
    ensures PerformAll(t, Acts(root, UpsertAll([], TouchesOf(edits)), decode)).Failed?
  {
    var entries := UpsertAll([], TouchesOf(edits));
    ActOfEntry(root, start, edits, t, encode, decode, k);
    NotTouchedBefore(root, entries, decode, k, q);
    InTheWayFails(t, Acts(root, entries, decode), k, q);
  }

  /** No entry before entry `k` leads to `q` or above it. */
  ghost predicate PassedBy(root: Place, entries: seq<Entry>, k: nat, q: Place)
    requires k < |entries|
  {
    forall i :: 0 <= i < k ==>
      var place := Target(root, NormalizePath(entries[i].path));
      place.Some? ==> !(place.value <= q)
  }

  lemma NotTouchedBefore(root: Place, entries: seq<Entry>, decode: string -> Option<string>, k: nat, q: Place)
    requires k < |entries| && PassedBy(root, entries, k, q)
    ensures forall i :: 0 <= i < k ==> !Restore.Touches(Acts(root, entries, decode)[i], q)
  {
    forall i | 0 <= i < k
      ensures !Restore.Touches(Acts(root, entries, decode)[i], q)
    {
      ActPlace(root, entries[i], decode);
    }
  }

  // ---- consequences ---------------------------------------------------------------------------------

  ghost predicate Edits(e: Edit, p: string) {
    e.touch.item.path == p
  }

  /** A file that held something when the set began, and whose first edit carries its blob, is undone
      however often it is edited, deleted or made anew afterwards. */
  lemma {:induction false} FirstEditCarries(start: Option<string>, edits: seq<Edit>, p: string, i: nat)
    requires i < |edits| && Edits(edits[i], p) && edits[i].touch.item.before != ""
    requires forall j :: 0 <= j < i ==> !Edits(edits[j], p)
    requires start.Some?
    ensures FirstCarried(start, edits, p) == start
    decreases |edits|
  {
    var front := edits[..|edits| - 1];
    if i < |front| {
      FirstEditCarries(start, front, p, i);
    } else {
      NotEdited(start, front, p);
    }
  }

  lemma {:induction false} NotEdited(start: Option<string>, edits: seq<Edit>, p: string)
    requires forall j :: 0 <= j < |edits| ==> !Edits(edits[j], p)
    ensures FirstCarried(start, edits, p).None? && ContentsAt(start, edits, p) == start
  {
    if edits != [] {
      assert !Edits(edits[|edits| - 1], p);
      NotEdited(start, edits[..|edits| - 1], p);
    }
  }

  lemma {:induction false} NeverCarried(start: Option<string>, edits: seq<Edit>, p: string)
    requires forall j :: 0 <= j < |edits| && Edits(edits[j], p) ==> edits[j].touch.item.before == ""
    ensures FirstCarried(start, edits, p).None?
  {
    if edits != [] {
      NeverCarried(start, edits[..|edits| - 1], p);
      assert Edits(edits[|edits| - 1], p) ==> edits[|edits| - 1].touch.item.before == "";
    }
  }

  /** The first edit of `p` carries a blob. */
  ghost predicate CarriedAtOnce(edits: seq<Edit>, p: string) {
    exists i :: 0 <= i < |edits| && FirstAndCarrying(edits, p, i)
  }

  ghost predicate FirstAndCarrying(edits: seq<Edit>, p: string, i: nat)
    requires i < |edits|
  {
    && Edits(edits[i], p) && edits[i].touch.item.before != ""
    && (forall j :: 0 <= j < i ==> !Edits(edits[j], p))
  }

  lemma ExistingFilesAreUndone(start: Option<string>, edits: seq<Edit>, e: Entry)
    requires start.Some? && CarriedAtOnce(edits, e.path)
    ensures Undoes(start, edits, e)
  {
    var i :| 0 <= i < |edits| && FirstAndCarrying(edits, e.path, i);
    FirstEditCarries(start, edits, e.path, i);
  }

  lemma {:induction false} CarriedIsFound(start: Option<string>, edits: seq<Edit>, p: string,
      encode: string -> string, i: nat)
    requires Accurate(start, edits, p, encode)
    requires i < |edits| && Edits(edits[i], p) && edits[i].touch.item.before != ""
    ensures FirstCarried(start, edits, p).Some?
    decreases |edits|
  {
    var front := edits[..|edits| - 1];
    AccurateFront(start, edits, p, encode);
    if i < |front| {
      CarriedIsFound(start, front, p, encode, i);
    } else {
      assert edits[..i] == front;
    }
  }

  /** A file that the set made is removed exactly when no edit of it ever carried a blob and it is not
      left behind by a last edit that claims to delete it. A file that is made, and then modified with
      an accurate blob, stays. */
  lemma MadeFilesAreRemovedExactly(edits: seq<Edit>, e: Entry, encode: string -> string)
    requires Accurate(None, edits, e.path, encode)
    ensures Undoes(None, edits, e) <==>
      && (forall j :: 0 <= j < |edits| && Edits(edits[j], e.path) ==> edits[j].touch.item.before == "")
      && (Deletes(e.changeType) ==> ContentsAt(None, edits, e.path).None?)
  {
    if j :| 0 <= j < |edits| && Edits(edits[j], e.path) && edits[j].touch.item.before != "" {
      CarriedIsFound(None, edits, e.path, encode, j);
    } else {
      NeverCarried(None, edits, e.path);
    }
  }

  /** Nor does a discard bring back a file that held something when no edit carried its blob, unless
      nothing changed it. */
  lemma {:induction false} LostWithoutBlob(start: Option<string>, edits: seq<Edit>, e: Entry)
    requires start.Some?
    requires forall j :: 0 <= j < |edits| && Edits(edits[j], e.path) ==> edits[j].touch.item.before == ""
    ensures Undoes(start, edits, e) <==> Deletes(e.changeType) && ContentsAt(start, edits, e.path) == start
  {
    NeverCarried(start, edits, e.path);
  }
}
