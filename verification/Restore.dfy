/**
 Discarding changes in a project without version control: the entries of the change set are
 undone one after the other in the working tree. A place is where a path leads: its components
 below the project root.
 */
module Restore {
  import opened Basics
  import opened Text
  import opened Paths
  import opened Diffs
  import opened Ledger

  type Place = seq<string>

  /** The files with their contents, and the directories. */
  datatype Tree = Tree(files: map<Place, string>, dirs: set<Place>)

  function Look(t: Tree, q: Place): Option<string> {
    if q in t.files then Some(t.files[q]) else None
  }

  /** The places strictly above. */
  function Parents(p: Place): set<Place> {
    set i | 0 <= i < |p| :: p[..i]
  }

  lemma ParentsAreAbove(p: Place, d: Place)
    ensures d in Parents(p) <==> d < p
  {
    if d < p {
      assert p[..|d|] == d;
    }
  }

  predicate Related(p: Place, q: Place) {
    p <= q || q <= p
  }

  // ---- where a path leads ---------------------------------------------------------------------------

  predicate StartsWithDots(part: string) {
    |part| >= 2 && part[0] == '.' && part[1] == '.'
  }

  /** The place of a path below `root`; nothing when it leads outside, or into a first component
      that merely begins with two dots. */
  function Target(root: Place, path: string): Option<Place> {
    var full := Resolve(true, root + Split(Clean(path)));
    if !(root <= full) then None
    else
      var rest := full[|root|..];
      if rest != [] && StartsWithDots(rest[0]) then None else Some(rest)
  }

  /** No path leads outside the project: every component of a place is a plain name. */
  lemma TargetStaysInside(root: Place, path: string)
    requires Resolved(true, root) && path != "" && NoBackslash(path) && Target(root, path).Some?
    ensures forall i :: 0 <= i < |Target(root, path).value| ==>
      Plain(Target(root, path).value[i]) && Target(root, path).value[i] != ".."
  {
    CleanIsStable(path);
    SplitParts(Clean(path));
    var parts := root + Split(Clean(path));
    assert forall i :: 0 <= i < |root| ==> Plain(root[i]);
    forall i | 0 <= i < |parts|
      ensures forall j :: 0 <= j < |parts[i]| ==> parts[i][j] != '/' && parts[i][j] != '\\'
    {
      if i >= |root| {
        assert parts[i] == Split(Clean(path))[i - |root|];
      }
    }
    ResolveIsResolved(true, parts);
    var full := Resolve(true, parts);
    assert forall i :: 0 <= i < |full[|root|..]| ==> full[|root|..][i] == full[|root| + i];
  }

  lemma {:induction false} ResolveBelow(root: Place, stack: Place)
    requires Resolved(true, root) && Resolved(true, stack)
    ensures Resolve(true, root + stack) == root + stack
  {
    if stack == [] {
      assert root + stack == root;
      ResolveResolved(true, root);
    } else {
      var front, last := stack[..|stack| - 1], stack[|stack| - 1];
      ResolveBelow(root, front);
      assert (root + stack)[..|root + stack| - 1] == root + front;
      assert Plain(last) && last != "..";
      assert root + stack == (root + front) + [last];
    }
  }

  /** An ordinary relative path leads to its own components. */
  lemma TargetOfPlainPath(root: Place, stack: Place)
    requires Resolved(true, root) && Resolved(true, stack) && stack != [] && !StartsWithDots(stack[0])
    ensures Target(root, Join(stack)) == Some(stack)
  {
    CleanJoined(false, stack);
    SplitJoin(stack);
    ResolveBelow(root, stack);
    assert (root + stack)[|root|..] == stack;
  }

  function Ups(n: nat): seq<string> {
    seq(n, i => "..")
  }

  /** A cleaned path that goes up `n` directories and then down to `names`. */
  function UpAndDown(n: nat, names: Place): string {
    if Ups(n) + names == [] then "." else Join(Ups(n) + names)
  }

  /** Where that leads from the root. */
  function From(root: Place, n: nat, names: Place): Place {
    (if n >= |root| then [] else root[..|root| - n]) + names
  }

  /** A path leads to a place of the project exactly when going up and down ends below the root, and the first
      component of the place does not begin with two dots. */
  lemma {:induction false} TargetExactly(root: Place, n: nat, names: Place)
    requires Resolved(true, root) && Resolved(true, names)
    ensures var full := From(root, n, names);
      Target(root, UpAndDown(n, names)) ==
        if root <= full && !(|full| > |root| && ".." <= full[|root|]) then Some(full[|root|..]) else None
  {
    hide Resolve, Split, Clean, Join, Plain;
    FullPlace(root, n, names);
    var full := From(root, n, names);
    if root <= full && |full| > |root| {
      assert full[|root|..][0] == full[|root|];
      TwoDots(full[|root|]);
    }
  }

  lemma TwoDots(part: string)
    ensures StartsWithDots(part) <==> ".." <= part
  {
  }

  lemma FullPlace(root: Place, n: nat, names: Place)
    requires Resolved(true, root) && Resolved(true, names)
    ensures Resolve(true, root + Split(Clean(UpAndDown(n, names)))) == From(root, n, names)
  {
    hide Resolve, Split, Clean, Join, Plain;
    UpAndDownCleaned(n, names);
    ResolveUps(root, n);
    ResolveNames(root, n, names, if n >= |root| then [] else root[..|root| - n]);
  }

  lemma UpAndDownCleaned(n: nat, names: Place)
    requires Resolved(true, names)
    ensures Clean(UpAndDown(n, names)) == UpAndDown(n, names)
    ensures Split(UpAndDown(n, names)) == if n == 0 && names == [] then ["."] else Ups(n) + names
  {
    if n == 0 && names == [] {
      CleanRoot();
      SplitPart(".", "");
    } else {
      CleanJoined(false, Ups(n) + names);
      SplitJoin(Ups(n) + names);
    }
  }

  lemma {:induction false} ResolveUps(root: Place, n: nat)
    requires Resolved(true, root)
    ensures Resolve(true, root + Ups(n)) == if n >= |root| then [] else root[..|root| - n]
  {
    if n == 0 {
      assert root + Ups(0) == root == root[..|root|];
      ResolveResolved(true, root);
    } else {
      ResolveUps(root, n - 1);
      assert root + Ups(n) == (root + Ups(n - 1)) + [".."];
      ResolvePush(true, root + Ups(n - 1), "..");
    }
  }

  lemma ResolveNames(root: Place, n: nat, names: Place, above: Place)
    requires Resolved(true, names) && Resolved(true, above) && Resolve(true, root + Ups(n)) == above
    ensures Resolve(true, root + (if n == 0 && names == [] then ["."] else Ups(n) + names)) == above + names
  {
    if n == 0 && names == [] {
      assert root + Ups(0) == root && above + names == above;
      ResolvePush(true, root, ".");
    } else {
      assert root + (Ups(n) + names) == (root + Ups(n)) + names;
      ResolveResolved(true, above);
      ResolveGoesOn(true, root + Ups(n), above, names);
      ResolveBelow(above, names);
    }
  }

  // ---- undoing entries --------------------------------------------------------------------------------

  datatype RestoreError = OutsideProject | BadBlob | NotWritable | NotRemovable

  datatype Act = Skip | Remove(place: Place) | Write(place: Place, contents: string) | Refuse(error: RestoreError)

  /** What undoing one entry comes down to; `decode` decodes blobs. */
  function ActOf(root: Place, e: Entry, decode: string -> Option<string>): Act {
    var path := NormalizePath(e.path);
    if path == "" then Skip
    else
      match Target(root, path)
      case None => Refuse(OutsideProject)
      case Some(place) =>
        var before := Trim(e.before);
        if before == "" then
          if NormalChangeType(e.changeType) == "deleted" then Skip else Remove(place)
        else
          match decode(before)
          case None => Refuse(BadBlob)
          case Some(contents) => Write(place, contents)
  }

  /** Removing a file or a whole directory. */
  function RemoveAll(t: Tree, p: Place): Tree {
    Tree(map q | q in t.files && !(p <= q) :: t.files[q], set d | d in t.dirs && !(p <= d))
  }

  /** Writing a file makes the directories above it. */
  function WriteFile(t: Tree, p: Place, contents: string): Tree {
    Tree(t.files[p := contents], t.dirs + Parents(p))
  }

  /** A path below a file is no directory entry; removing it is an error, while removing what is not
      there is none. */
  predicate UnderFile(t: Tree, p: Place) {
    exists q :: q in t.files && q < p
  }

  /** A file can not be written where there is a directory, nor below another file. */
  predicate Blocked(t: Tree, p: Place) {
    p in t.dirs || UnderFile(t, p)
  }

  datatype Outcome = Restored(tree: Tree) | Failed(tree: Tree, error: RestoreError)

  function Perform(t: Tree, act: Act): Outcome {
    match act
    case Skip => Restored(t)
    case Remove(p) => if UnderFile(t, p) then Failed(t, NotRemovable) else Restored(RemoveAll(t, p))
    case Write(p, contents) => if Blocked(t, p) then Failed(t, NotWritable) else Restored(WriteFile(t, p, contents))
    case Refuse(error) => Failed(t, error)
  }

  /** One act after the other; the first failure ends it and leaves what was done so far. */
  function PerformAll(t: Tree, acts: seq<Act>): Outcome {
    if acts == [] then Restored(t)
    else
      match PerformAll(t, acts[..|acts| - 1])
      case Failed(t', error) => Failed(t', error)
      case Restored(t') => Perform(t', acts[|acts| - 1])
  }

  function Acts(root: Place, entries: seq<Entry>, decode: string -> Option<string>): seq<Act> {
    seq(|entries|, i requires 0 <= i < |entries| => ActOf(root, entries[i], decode))
  }

  lemma {:induction false} PerformStep(t: Tree, acts: seq<Act>, k: nat)
    requires k < |acts|
    ensures PerformAll(t, acts[..k + 1]) ==
      (match PerformAll(t, acts[..k])
       case Failed(t', error) => Failed(t', error)
       case Restored(t') => Perform(t', acts[k]))
  {
    assert acts[..k + 1][..k] == acts[..k];
  }

  lemma {:induction false} FailureStays(t: Tree, acts: seq<Act>, k: nat)
    requires k <= |acts| && PerformAll(t, acts[..k]).Failed?
    ensures PerformAll(t, acts) == PerformAll(t, acts[..k])
    decreases |acts| - k
  {
    if k == |acts| {
      assert acts[..k] == acts;
    } else {
      PerformStep(t, acts, k);
      FailureStays(t, acts, k + 1);
    }
  }

  class WorkingTree {
    const root: Place
    var tree: Tree

    constructor (root: Place, tree: Tree)
      ensures this.root == root && this.tree == tree
    {
      this.root, this.tree := root, tree;
    }

    method RemovePath(p: Place) returns (error: Option<RestoreError>)
      modifies this
      ensures (if error.None? then Restored(tree) else Failed(tree, error.value)) == Perform(old(tree), Remove(p))
    {
      if UnderFile(tree, p) {
        return Some(NotRemovable);
      }
      tree := RemoveAll(tree, p);
      error := None;
    }

    /** Undoes one entry; an error stops the whole discard. */
    method RestoreEntry(e: Entry, decode: string -> Option<string>) returns (error: Option<RestoreError>)
      modifies this
      ensures (if error.None? then Restored(tree) else Failed(tree, error.value))
           == Perform(old(tree), ActOf(root, e, decode))
    {
      var path := NormalizePath(e.path);
      if path == "" {
        return None;
      }
      var target := Target(root, path);
      if target.None? {
        return Some(OutsideProject);
      }
      var before := Trim(e.before);
      if NormalChangeType(e.changeType) == "added" && before == "" {
        error := RemovePath(target.value);
        return;
      }
      if before == "" {
        if NormalChangeType(e.changeType) == "deleted" {
          return None;
        }
        error := RemovePath(target.value);
        return;
      }
      var decoded := decode(before);
      if decoded.None? {
        return Some(BadBlob);
      }
      if Blocked(tree, target.value) {
        return Some(NotWritable);
      }
      tree := WriteFile(tree, target.value, decoded.value);
      error := None;
    }

    method RestorePaths(entries: seq<Entry>, decode: string -> Option<string>) returns (error: Option<RestoreError>)
      modifies this
      ensures (if error.None? then Restored(tree) else Failed(tree, error.value))
           == PerformAll(old(tree), Acts(root, entries, decode))
    {
      ghost var acts := Acts(root, entries, decode);
      for i := 0 to |entries|
        invariant PerformAll(old(tree), acts[..i]) == Restored(tree)
      {
        PerformStep(old(tree), acts, i);
        error := RestoreEntry(entries[i], decode);
        if error.Some? {
          FailureStays(old(tree), acts, i + 1);
          return;
        }
      }
      assert acts[..|entries|] == acts;
      error := None;
    }
  }

  // ---- the outcome in closed form ---------------------------------------------------------------------

  predicate HasPlace(act: Act) {
    act.Remove? || act.Write?
  }

  predicate Touches(act: Act, q: Place) {
    HasPlace(act) && act.place <= q
  }

  ghost predicate Possible(t: Tree, act: Act) {
    !act.Refuse? && (act.Write? ==> !Blocked(t, act.place)) && (act.Remove? ==> !UnderFile(t, act.place))
  }

  /** What an act that is possible does. */
  function Effect(t: Tree, act: Act): Tree {
    match act
    case Remove(p) => RemoveAll(t, p)
    case Write(p, contents) => WriteFile(t, p, contents)
    case _ => t
  }

  function Effects(t: Tree, acts: seq<Act>): Tree {
    if acts == [] then t else Effect(Effects(t, acts[..|acts| - 1]), acts[|acts| - 1])
  }

  /** Every act is possible when its turn comes. */
  ghost predicate InTurn(t: Tree, acts: seq<Act>) {
    forall k {:trigger acts[k]} :: 0 <= k < |acts| ==> Possible(Effects(t, acts[..k]), acts[k])
  }

  lemma InTurnFront(t: Tree, acts: seq<Act>)
    requires acts != []
    ensures var front := acts[..|acts| - 1];
      InTurn(t, acts) <==> InTurn(t, front) && Possible(Effects(t, front), acts[|acts| - 1])
  {
    hide Possible, Effects;
    var front := acts[..|acts| - 1];
    assert forall k :: 0 <= k < |front| ==> front[k] == acts[k] && front[..k] == acts[..k];
  }

  /** A discard succeeds exactly when every entry is possible in its turn, and then has all their effects. */
  lemma {:induction false} SucceedsExactly(t: Tree, acts: seq<Act>)
    ensures PerformAll(t, acts).Restored? <==> InTurn(t, acts)
    ensures PerformAll(t, acts).Restored? ==> PerformAll(t, acts).tree == Effects(t, acts)
  {
    if acts != [] {
      SucceedsExactly(t, acts[..|acts| - 1]);
      InTurnFront(t, acts);
    }
  }

  /** Why an act can not be done: it was refused, or something is in the way of what it writes or removes. */
  ghost predicate Explains(act: Act, error: RestoreError) {
    match act
    case Refuse(refusal) => error == refusal
    case Write(_, _) => error.NotWritable?
    case Remove(_) => error.NotRemovable?
    case Skip => false
  }

  /** A discard ends at the first act that is not possible in its turn, with its error; the effects of those
      before it stay. */
  lemma {:induction false} FailsExactly(t: Tree, acts: seq<Act>, k: nat)
    requires k < |acts| && InTurn(t, acts[..k]) && !Possible(Effects(t, acts[..k]), acts[k])
    ensures PerformAll(t, acts).Failed? && PerformAll(t, acts).tree == Effects(t, acts[..k])
    ensures Explains(acts[k], PerformAll(t, acts).error)
  {
    SucceedsExactly(t, acts[..k]);
    PerformStep(t, acts, k);
    FailureStays(t, acts, k + 1);
  }

  /** What undoing an entry comes down to. Nothing: a blank path, or a deletion without a blob. A refusal: a path
      that leads outside, or a blob that does not decode. Else the file is removed if there is no blob, and
      written back if there is one. */
  lemma ActTells(root: Place, e: Entry, decode: string -> Option<string>)
    ensures var act, path, blob := ActOf(root, e, decode), NormalizePath(e.path), Trim(e.before);
      && (act.Skip? <==>
          path == "" || (Target(root, path).Some? && blob == "" && NormalChangeType(e.changeType) == "deleted"))
      && (act == Refuse(OutsideProject) <==> path != "" && Target(root, path).None?)
      && (act == Refuse(BadBlob) <==>
          path != "" && Target(root, path).Some? && blob != "" && decode(blob).None?)
      && (act.Remove? <==>
          (path != "" && Target(root, path).Some? && blob == "" && NormalChangeType(e.changeType) != "deleted"))
      && (act.Write? <==> path != "" && Target(root, path).Some? && blob != "" && decode(blob).Some?)
      && (act.Refuse? ==> act.error.OutsideProject? || act.error.BadBlob?)
      && (act.Remove? || act.Write? ==> Some(act.place) == Target(root, path))
      && (act.Write? ==> Some(act.contents) == decode(blob))
  {
    hide NormalizePath, Target, Trim, NormalChangeType;
  }

  /** No file is a directory, and what is above a file or a directory is a directory. */
  ghost predicate Proper(t: Tree) {
    && t.files.Keys !! t.dirs
    && (forall q :: q in t.files ==> Parents(q) <= t.dirs)
    && (forall d :: d in t.dirs ==> Parents(d) <= t.dirs)
  }

  lemma PerformKeepsProper(t: Tree, act: Act)
    requires Proper(t)
    ensures Proper(Perform(t, act).tree)
  {
    var t' := Perform(t, act).tree;
    forall q, d | (q in t'.files || q in t'.dirs) && d in Parents(q)
      ensures d in t'.dirs
    {
      ParentsAreAbove(q, d);
      if act.Write? && q in Parents(act.place) {
        ParentsAreAbove(act.place, q);
        ParentsAreAbove(act.place, d);
      }
    }
    forall d | d in t'.dirs
      ensures d !in t'.files
    {
      if act.Write? {
        ParentsAreAbove(act.place, d);
      }
    }
  }

  /** A discard, also one that fails, leaves a proper tree. */
  lemma {:induction false} LeavesProper(t: Tree, acts: seq<Act>)
    requires Proper(t)
    ensures Proper(PerformAll(t, acts).tree)
  {
    if acts != [] {
      LeavesProper(t, acts[..|acts| - 1]);
      if PerformAll(t, acts[..|acts| - 1]).Restored? {
        PerformKeepsProper(PerformAll(t, acts[..|acts| - 1]).tree, acts[|acts| - 1]);
      }
    }
  }

  function Meant(act: Act, was: Option<string>, q: Place): Option<string> {
    match act
    case Remove(p) => if p <= q then None else was
    case Write(p, contents) => if p == q then Some(contents) else was
    case _ => was
  }

  lemma {:induction false} UntouchedStays(t: Tree, acts: seq<Act>, q: Place)
    requires forall i :: 0 <= i < |acts| ==> !Touches(acts[i], q)
    ensures Look(Effects(t, acts), q) == Look(t, q)
  {
    if acts != [] {
      UntouchedStays(t, acts[..|acts| - 1], q);
      assert !Touches(acts[|acts| - 1], q);
    }
  }

  lemma {:induction false} StaysAbsent(t: Tree, acts: seq<Act>, q: Place)
    requires q !in t.files && forall i :: 0 <= i < |acts| && HasPlace(acts[i]) ==> acts[i].place != q
    ensures Look(Effects(t, acts), q).None?
  {
    if acts != [] {
      StaysAbsent(t, acts[..|acts| - 1], q);
    }
  }

  /** The last act that touches a place decides what is there afterwards. */
  lemma {:induction false} LastTouchDecides(t: Tree, acts: seq<Act>, k: nat, q: Place)
    requires k < |acts| && Touches(acts[k], q)
    requires forall i :: k < i < |acts| ==> !Touches(acts[i], q)
    ensures Look(Effects(t, acts), q) == Meant(acts[k], Look(Effects(t, acts[..k]), q), q)
  {
    var front, last := acts[..|acts| - 1], acts[|acts| - 1];
    if k < |front| {
      assert front[..k] == acts[..k];
      LastTouchDecides(t, front, k, q);
      assert !Touches(last, q);
    }
  }

  /** The only act that touches a place decides alone. */
  lemma {:induction false} OneTouchDecides(t: Tree, acts: seq<Act>, k: nat, q: Place)
    requires k < |acts| && Touches(acts[k], q)
    requires forall i :: 0 <= i < |acts| && i != k ==> !Touches(acts[i], q)
    ensures Look(Effects(t, acts), q) == Meant(acts[k], Look(t, q), q)
  {
    LastTouchDecides(t, acts, k, q);
    UntouchedStays(t, acts[..k], q);
  }

  // ---- acts on places apart from each other -----------------------------------------------------------

  /** No act's place lies at or below another's. */
  ghost predicate Apart(acts: seq<Act>) {
    forall i, j :: 0 <= i < |acts| && 0 <= j < |acts| && i != j && HasPlace(acts[i]) && HasPlace(acts[j]) ==>
      !Related(acts[i].place, acts[j].place)
  }

  lemma OneTouches(acts: seq<Act>, k: nat, q: Place)
    requires Apart(acts) && k < |acts| && Touches(acts[k], q)
    ensures forall i :: 0 <= i < |acts| && i != k ==> !Touches(acts[i], q)
  {
    forall i | 0 <= i < |acts| && i != k
      ensures !Touches(acts[i], q)
    {
      assert HasPlace(acts[i]) ==> !Related(acts[i].place, acts[k].place);
      if Touches(acts[i], q) {
        PrefixesRelated(acts[i].place, acts[k].place, q);
      }
    }
  }

  lemma PrefixesRelated(a: Place, b: Place, q: Place)
    requires a <= q && b <= q
    ensures Related(a, b)
  {
  }

  lemma ApartFront(acts: seq<Act>)
    requires Apart(acts) && acts != []
    ensures Apart(acts[..|acts| - 1])
    ensures forall i :: 0 <= i < |acts| - 1 && HasPlace(acts[i]) && HasPlace(acts[|acts| - 1]) ==>
      !Related(acts[i].place, acts[|acts| - 1].place)
  {
    assert forall i :: 0 <= i < |acts| - 1 ==> acts[..|acts| - 1][i] == acts[i];
  }

  ghost predicate AllUnrelated(acts: seq<Act>, p: Place) {
    forall i :: 0 <= i < |acts| && HasPlace(acts[i]) ==> !Related(acts[i].place, p)
  }

  /** What is in the way at a place was there from the start. */
  lemma BlockedFromStart(t: Tree, acts: seq<Act>, p: Place)
    requires AllUnrelated(acts, p)
    ensures UnderFile(Effects(t, acts), p) <==> UnderFile(t, p)
    ensures Blocked(Effects(t, acts), p) <==> Blocked(t, p)
  {
    var after := Effects(t, acts);
    DirsFromStart(t, acts, p);
    forall q | q < p
      ensures Look(after, q) == Look(t, q)
    {
      forall i | 0 <= i < |acts|
        ensures !Touches(acts[i], q)
      {
        assert HasPlace(acts[i]) ==> !Related(acts[i].place, p);
      }
      UntouchedStays(t, acts, q);
    }
    if q :| q in after.files && q < p {
      assert Look(after, q) == Look(t, q);
    }
    if q :| q in t.files && q < p {
      assert Look(after, q) == Look(t, q);
    }
  }

  lemma {:induction false} DirsFromStart(t: Tree, acts: seq<Act>, p: Place)
    requires AllUnrelated(acts, p)
    ensures p in Effects(t, acts).dirs <==> p in t.dirs
  {
    if acts != [] {
      var front, last := acts[..|acts| - 1], acts[|acts| - 1];
      assert forall i :: 0 <= i < |front| ==> front[i] == acts[i];
      DirsFromStart(t, front, p);
      if last.Write? {
        ParentsAreAbove(last.place, p);
      }
    }
  }

  ghost predicate AllPossible(t: Tree, acts: seq<Act>) {
    forall i :: 0 <= i < |acts| ==> Possible(t, acts[i])
  }

  /** Acts apart from each other succeed exactly when every one by itself is possible in the tree there is. */
  lemma {:induction false} SucceedsAtOnceExactly(t: Tree, acts: seq<Act>)
    requires Apart(acts)
    ensures PerformAll(t, acts).Restored? <==> AllPossible(t, acts)
  {
    if acts != [] {
      var front, last := acts[..|acts| - 1], acts[|acts| - 1];
      ApartFront(acts);
      SucceedsAtOnceExactly(t, front);
      SucceedsExactly(t, front);
      assert forall i :: 0 <= i < |front| ==> front[i] == acts[i];
      if HasPlace(last) {
        BlockedFromStart(t, front, last.place);
      }
      assert AllPossible(t, acts) <==> AllPossible(t, front) && Possible(t, last);
    }
  }

  /** Where there are directories after acts apart from each other. */
  ghost predicate StaysDir(t: Tree, acts: seq<Act>, d: Place) {
    d in t.dirs && forall i :: 0 <= i < |acts| && acts[i].Remove? ==> !(acts[i].place <= d)
  }

  ghost predicate BecomesDir(acts: seq<Act>, d: Place) {
    exists i :: 0 <= i < |acts| && acts[i].Write? && d < acts[i].place
  }

  lemma {:induction false} DirsAfter(t: Tree, acts: seq<Act>, d: Place)
    requires Apart(acts)
    ensures d in Effects(t, acts).dirs <==> StaysDir(t, acts, d) || BecomesDir(acts, d)
  {
    if acts != [] {
      var front, last := acts[..|acts| - 1], acts[|acts| - 1];
      ApartFront(acts);
      DirsAfter(t, front, d);
      assert forall i :: 0 <= i < |front| ==> front[i] == acts[i];
      assert StaysDir(t, acts, d) <==> StaysDir(t, front, d) && (last.Remove? ==> !(last.place <= d));
      assert BecomesDir(acts, d) <==> BecomesDir(front, d) || (last.Write? && d < last.place) by {
        assert acts[|front|] == last;
      }
      if last.Write? {
        ParentsAreAbove(last.place, d);
      }
      forall i | 0 <= i < |front| && front[i].Write? && HasPlace(last)
        ensures !Related(front[i].place, last.place)
      {
        assert acts[i] == front[i];
      }
    }
  }

  /** The order of such entries does not matter, neither for success nor for the result. */
  lemma OrderDoesNotMatter(t: Tree, a: seq<Act>, b: seq<Act>)
    requires Apart(a) && Apart(b) && forall act :: act in a <==> act in b
    ensures PerformAll(t, a).Restored? <==> PerformAll(t, b).Restored?
    ensures PerformAll(t, a).Restored? ==> PerformAll(t, a) == PerformAll(t, b)
  {
    SucceedsAtOnceExactly(t, a);
    SucceedsAtOnceExactly(t, b);
    SucceedsExactly(t, a);
    SucceedsExactly(t, b);
    SamePossible(t, a, b);
    SamePossible(t, b, a);
    forall q
      ensures Look(Effects(t, a), q) == Look(Effects(t, b), q)
    {
      SameAt(t, a, b, q);
    }
    SameFiles(Effects(t, a), Effects(t, b));
    forall d
      ensures d in Effects(t, a).dirs <==> d in Effects(t, b).dirs
    {
      SameDirAt(t, a, b, d);
    }
  }

  lemma SamePossible(t: Tree, a: seq<Act>, b: seq<Act>)
    requires forall act :: act in a <==> act in b
    ensures AllPossible(t, a) ==> AllPossible(t, b)
  {
    forall i | 0 <= i < |b| && AllPossible(t, a)
      ensures Possible(t, b[i])
    {
      assert b[i] in a;
    }
  }

  lemma SameDirAt(t: Tree, a: seq<Act>, b: seq<Act>, d: Place)
    requires Apart(a) && Apart(b) && forall act :: act in a <==> act in b
    ensures d in Effects(t, a).dirs <==> d in Effects(t, b).dirs
  {
    DirsAfter(t, a, d);
    DirsAfter(t, b, d);
    DirActs(t, a, b, d);
    DirActs(t, b, a, d);
  }

  lemma DirActs(t: Tree, a: seq<Act>, b: seq<Act>, d: Place)
    requires forall act :: act in a <==> act in b
    ensures StaysDir(t, a, d) ==> StaysDir(t, b, d)
    ensures BecomesDir(a, d) ==> BecomesDir(b, d)
  {
    forall i | 0 <= i < |b| && StaysDir(t, a, d) && b[i].Remove?
      ensures !(b[i].place <= d)
    {
      assert b[i] in a;
    }
    if i :| 0 <= i < |a| && a[i].Write? && d < a[i].place {
      assert a[i] in b;
    }
  }

  lemma SameAt(t: Tree, a: seq<Act>, b: seq<Act>, q: Place)
    requires Apart(a) && Apart(b) && forall act :: act in a <==> act in b
    ensures Look(Effects(t, a), q) == Look(Effects(t, b), q)
  {
    if i :| 0 <= i < |a| && Touches(a[i], q) {
      assert a[i] in b;
      var j :| 0 <= j < |b| && b[j] == a[i];
      OneTouches(a, i, q);
      OneTouches(b, j, q);
      OneTouchDecides(t, a, i, q);
      OneTouchDecides(t, b, j, q);
    } else {
      forall j | 0 <= j < |b|
        ensures !Touches(b[j], q)
      {
        assert b[j] in a;
      }
      UntouchedStays(t, a, q);
      UntouchedStays(t, b, q);
    }
  }

  lemma SameFiles(a: Tree, b: Tree)
    requires forall q :: Look(a, q) == Look(b, q)
    ensures a.files == b.files
  {
    forall q
      ensures q in a.files <==> q in b.files
      ensures q in a.files ==> a.files[q] == b.files[q]
    {
      assert Look(a, q) == Look(b, q);
    }
  }

  // ---- what stands in the way ---------------------------------------------------------------------------

  lemma {:induction false} DirStays(t: Tree, acts: seq<Act>, d: Place)
    requires d in t.dirs && forall i :: 0 <= i < |acts| ==> !Touches(acts[i], d)
    ensures d in Effects(t, acts).dirs
  {
    if acts != [] {
      DirStays(t, acts[..|acts| - 1], d);
      assert !Touches(acts[|acts| - 1], d);
    }
  }

  /** A file above the place of an act, or a directory at one to write, that no earlier act touches makes
      the discard fail, whatever else is in the list. */
  lemma InTheWayFails(t: Tree, acts: seq<Act>, k: nat, q: Place)
    requires k < |acts| && HasPlace(acts[k])
    requires (q in t.files && q < acts[k].place) || (q in t.dirs && q == acts[k].place && acts[k].Write?)
    requires forall i :: 0 <= i < k ==> !Touches(acts[i], q)
    ensures PerformAll(t, acts).Failed?
  {
    var before := Effects(t, acts[..k]);
    SucceedsExactly(t, acts);
    if q in t.files && q < acts[k].place {
      UntouchedStays(t, acts[..k], q);
      assert Look(before, q).Some?;
    } else {
      DirStays(t, acts[..k], q);
    }
    assert !Possible(before, acts[k]);
  }
}
