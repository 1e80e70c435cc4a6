/** Checking the capabilities a prompt selects against the ones it mentions. */
module Selection {
  import opened Basics
  import opened Text
  import opened Names
  import opened Ordering

  datatype Kind = Model | Rule | Skill | Mcp | File

  const KINDS: seq<Kind> := [Model, Rule, Skill, Mcp, File]

  /** A mention of a kind that is not known here is passed over. */
  datatype Mention = Mention(kind: Option<Kind>, id: string)

  function KindName(kind: Kind): string {
    match kind
    case Model => "model"
    case Rule => "rule"
    case Skill => "skill"
    case Mcp => "mcp"
    case File => "file"
  }

  function ParseKind(raw: string): Option<Kind> {
    var s := Lower(Trim(raw));
    if s == "model" then Some(Model)
    else if s == "rule" then Some(Rule)
    else if s == "skill" then Some(Skill)
    else if s == "mcp" then Some(Mcp)
    else if s == "file" then Some(File)
    else None
  }

  function Colon(s: string): Option<nat> {
    if s == "" then None
    else if s[0] == ':' then Some(0)
    else
      match Colon(s[1..])
      case None => None
      case Some(k) => Some(k + 1)
  }

  /** Kind and id of a capability id `kind:id`. */
  function SplitId(raw: string): Option<(Kind, string)> {
    var s := Trim(raw);
    match Colon(s)
    case None => None
    case Some(k) =>
      if k >= |s| || ParseKind(s[..k]).None? || Trim(s[k + 1..]) == "" then None
      else Some((ParseKind(s[..k]).value, Trim(s[k + 1..])))
  }

  function BuildId(kind: Kind, rawId: string): string {
    if Trim(rawId) == "" then "" else KindName(kind) + ":" + Trim(rawId)
  }

  function AppendUnique(values: seq<string>, raw: string): seq<string> {
    if Trim(raw) == "" || Trim(raw) in values then values else values + [Trim(raw)]
  }

  function Mentioned(mentions: seq<Mention>, kind: Kind): seq<string> {
    if mentions == [] then []
    else
      var front, last := Mentioned(mentions[..|mentions| - 1], kind), mentions[|mentions| - 1];
      if last.kind == Some(kind) then AppendUnique(front, last.id) else front
  }

  /** Kinds and ids of the entries; nothing if one is no capability id. */
  function Pairs(selected: seq<string>): Option<seq<(Kind, string)>> {
    if selected == [] then Some([])
    else
      match Pairs(selected[..|selected| - 1])
      case None => None
      case Some(front) =>
        match SplitId(selected[|selected| - 1])
        case None => None
        case Some(pair) => Some(front + [pair])
  }

  function OfKind(pairs: seq<(Kind, string)>, kind: Kind): seq<string> {
    if pairs == [] then []
    else
      var front, last := OfKind(pairs[..|pairs| - 1], kind), pairs[|pairs| - 1];
      if last.0 == kind then AppendUnique(front, last.1) else front
  }

  function SortUnique(values: seq<string>): seq<string> {
    Sort(UniqueTrimmed(values), StringLess)
  }

  predicate Agree(mentions: seq<Mention>, pairs: seq<(Kind, string)>, kind: Kind) {
    SortUnique(Mentioned(mentions, kind)) == SortUnique(OfKind(pairs, kind))
  }

  function Grouped(mentions: seq<Mention>): map<Kind, seq<string>> {
    map[Model := SortUnique(Mentioned(mentions, Model)), Rule := SortUnique(Mentioned(mentions, Rule)),
        Skill := SortUnique(Mentioned(mentions, Skill)), Mcp := SortUnique(Mentioned(mentions, Mcp)),
        File := SortUnique(Mentioned(mentions, File))]
  }

  /** The mentioned ids of every kind, sorted, if the selection matches them. */
  function Validate(mentions: seq<Mention>, selected: seq<string>): Option<map<Kind, seq<string>>> {
    match Pairs(selected)
    case None => None
    case Some(pairs) => if forall k :: k in KINDS ==> Agree(mentions, pairs, k) then Some(Grouped(mentions)) else None
  }

  // ---- the loops ------------------------------------------------------------------------------------------

  method SortUniqueStrings(values: seq<string>) returns (out: seq<string>)
    ensures out == SortUnique(values)
  {
    if |values| == 0 {
      return [];
    }
    out := UniqueTrimmedStrings(values);
    out := Sort(out, StringLess);
  }

  method SameStrings(left: seq<string>, right: seq<string>) returns (same: bool)
    ensures same <==> left == right
  {
    if |left| != |right| {
      return false;
    }
    for i := 0 to |left|
      invariant left[..i] == right[..i]
    {
      if left[i] != right[i] {
        return false;
      }
      assert left[..i + 1] == left[..i] + [left[i]] && right[..i + 1] == right[..i] + [right[i]];
    }
    assert left[..|left|] == left && right[..|right|] == right;
    same := true;
  }

  function IdsIn(byKind: map<Kind, seq<string>>, kind: Kind): seq<string> {
    if kind in byKind then byKind[kind] else []
  }

  method GroupMentions(mentions: seq<Mention>) returns (byKind: map<Kind, seq<string>>)
    ensures forall k :: IdsIn(byKind, k) == Mentioned(mentions, k)
  {
    byKind := map[];
    for i := 0 to |mentions|
      invariant forall k :: IdsIn(byKind, k) == Mentioned(mentions[..i], k)
    {
      assert mentions[..i + 1][..i] == mentions[..i];
      var kind := mentions[i].kind;
      if kind.Some? {
        byKind := byKind[kind.value := AppendUnique(IdsIn(byKind, kind.value), mentions[i].id)];
      }
    }
    assert mentions[..|mentions|] == mentions;
  }

  method AddId(byKind: map<Kind, seq<string>>, kind: Kind, id: string) returns (after: map<Kind, seq<string>>)
    ensures forall k :: IdsIn(after, k) == if k == kind then AppendUnique(IdsIn(byKind, k), id) else IdsIn(byKind, k)
  {
    after := byKind[kind := AppendUnique(IdsIn(byKind, kind), id)];
  }

  lemma PairsStep(selected: seq<string>, i: nat)
    requires i < |selected| && Pairs(selected[..i]).Some?
    ensures Pairs(selected[..i + 1]) ==
      (match SplitId(selected[i]) case None => None case Some(pair) => Some(Pairs(selected[..i]).value + [pair]))
  {
    assert selected[..i + 1][..i] == selected[..i];
  }

  lemma {:induction false} PairsFail(selected: seq<string>, i: nat)
    requires i <= |selected| && Pairs(selected[..i]).None?
    ensures Pairs(selected).None?
  {
    if i == |selected| {
      assert selected[..i] == selected;
    } else {
      assert selected[..|selected| - 1][..i] == selected[..i];
      PairsFail(selected[..|selected| - 1], i);
    }
  }

  method GroupSelected(selected: seq<string>) returns (byKind: Option<map<Kind, seq<string>>>)
    ensures byKind.Some? <==> Pairs(selected).Some?
    ensures byKind.Some? ==> forall k :: IdsIn(byKind.value, k) == OfKind(Pairs(selected).value, k)
  {
    var ids: map<Kind, seq<string>> := map[];
    ghost var pairs := [];
    for i := 0 to |selected|
      invariant Pairs(selected[..i]) == Some(pairs) && forall k :: IdsIn(ids, k) == OfKind(pairs, k)
    {
      var parts := SplitId(selected[i]);
      PairsStep(selected, i);
      if parts.None? {
        PairsFail(selected, i + 1);
        return None;
      }
      ids := AddId(ids, parts.value.0, parts.value.1);
      assert (pairs + [parts.value])[..|pairs|] == pairs;
      pairs := pairs + [parts.value];
    }
    assert selected[..|selected|] == selected;
    byKind := Some(ids);
  }

  method AgreeOn(mentioned: seq<string>, selected: seq<string>) returns (agree: bool)
    ensures agree <==> SortUnique(mentioned) == SortUnique(selected)
  {
    var a := SortUniqueStrings(mentioned);
    var b := SortUniqueStrings(selected);
    agree := SameStrings(a, b);
  }

  method AgreeOnAll(mentioned: map<Kind, seq<string>>, selected: map<Kind, seq<string>>) returns (agree: bool)
    ensures agree <==> forall k :: k in KINDS ==> SortUnique(IdsIn(mentioned, k)) == SortUnique(IdsIn(selected, k))
  {
    for i := 0 to |KINDS|
      invariant forall k :: k in KINDS[..i] ==> SortUnique(IdsIn(mentioned, k)) == SortUnique(IdsIn(selected, k))
    {
      var kind := KINDS[i];
      assert kind in KINDS;
      agree := AgreeOn(IdsIn(mentioned, kind), IdsIn(selected, kind));
      if !agree {
        return;
      }
      assert KINDS[..i + 1] == KINDS[..i] + [kind];
    }
    assert KINDS[..|KINDS|] == KINDS;
    agree := true;
  }

  method ValidateSelected(mentions: seq<Mention>, selected: seq<string>)
    returns (result: Option<map<Kind, seq<string>>>)
    ensures result == Validate(mentions, selected)
  {
    var mentioned := GroupMentions(mentions);
    var grouped := GroupSelected(selected);
    if grouped.None? {
      return None;
    }
    var agree := AgreeOnAll(mentioned, grouped.value);
    if !agree {
      return None;
    }
    var models := SortUniqueStrings(IdsIn(mentioned, Model));
    var rules := SortUniqueStrings(IdsIn(mentioned, Rule));
    var skills := SortUniqueStrings(IdsIn(mentioned, Skill));
    var mcps := SortUniqueStrings(IdsIn(mentioned, Mcp));
    var files := SortUniqueStrings(IdsIn(mentioned, File));
    result := Some(map[Model := models, Rule := rules, Skill := skills, Mcp := mcps, File := files]);
  }

  // ---- when a selection is accepted ---------------------------------------------------------------------------

  lemma AllKinds(kind: Kind)
    ensures kind in KINDS
  {
    assert KINDS[0] == Model && KINDS[1] == Rule && KINDS[2] == Skill && KINDS[3] == Mcp && KINDS[4] == File;
  }

  /** The ids of a kind that are mentioned, and those that are selected, as sets. */
  ghost predicate IsMentioned(mentions: seq<Mention>, kind: Kind, id: string) {
    id != "" && exists m :: m in mentions && m.kind == Some(kind) && Trim(m.id) == id
  }

  ghost predicate IsSelected(selected: seq<string>, kind: Kind, id: string) {
    exists s :: s in selected && SplitId(s) == Some((kind, id))
  }

  lemma {:induction false} MentionedElements(mentions: seq<Mention>, kind: Kind)
    ensures CleanNames(Mentioned(mentions, kind))
    ensures forall id :: id in Mentioned(mentions, kind) <==> IsMentioned(mentions, kind, id)
  {
    if mentions != [] {
      MentionedElements(mentions[..|mentions| - 1], kind);
      assert mentions == mentions[..|mentions| - 1] + [mentions[|mentions| - 1]];
      TrimIsTight(mentions[|mentions| - 1].id);
    }
  }

  ghost predicate CleanPairs(pairs: seq<(Kind, string)>) {
    forall p :: p in pairs ==> p.1 != "" && Tight(p.1)
  }

  ghost predicate AllIds(selected: seq<string>) {
    forall s :: s in selected ==> SplitId(s).Some?
  }

  lemma {:induction false} PairsElements(selected: seq<string>)
    ensures Pairs(selected).Some? <==> AllIds(selected)
    ensures Pairs(selected).Some? ==> CleanPairs(Pairs(selected).value)
    ensures Pairs(selected).Some? ==>
      forall p :: p in Pairs(selected).value <==> exists s :: s in selected && SplitId(s) == Some(p)
  {
    if selected != [] {
      var front, last := selected[..|selected| - 1], selected[|selected| - 1];
      PairsElements(front);
      assert selected == front + [last];
      SplitIdIsTight(last);
    }
  }

  lemma {:induction false} OfKindElements(pairs: seq<(Kind, string)>, kind: Kind)
    requires CleanPairs(pairs)
    ensures CleanNames(OfKind(pairs, kind))
    ensures forall id :: id in OfKind(pairs, kind) <==> (kind, id) in pairs
  {
    if pairs != [] {
      var front, last := pairs[..|pairs| - 1], pairs[|pairs| - 1];
      assert pairs == front + [last];
      assert forall p :: p in front ==> p in pairs;
      OfKindElements(front, kind);
      assert last in pairs;
      TightIsTrimmed(last.1);
    }
  }

  lemma SplitIdIsTight(raw: string)
    ensures SplitId(raw).Some? ==>
      SplitId(raw).value.1 != "" && Tight(SplitId(raw).value.1) && Trim(SplitId(raw).value.1) == SplitId(raw).value.1
  {
    var s := Trim(raw);
    if Colon(s).Some? && Colon(s).value < |s| {
      TrimIsTight(s[Colon(s).value + 1..]);
      TrimTwice(s[Colon(s).value + 1..]);
    }
  }

  lemma {:induction false} SameMultiset(a: seq<string>, b: seq<string>)
    requires NoDup(a) && NoDup(b) && forall x :: x in a <==> x in b
    ensures multiset(a) == multiset(b)
  {
    forall x
      ensures multiset(a)[x] == multiset(b)[x]
    {
      OnceEach(a, x);
      OnceEach(b, x);
    }
  }

  lemma {:induction false} OnceEach(a: seq<string>, x: string)
    requires NoDup(a)
    ensures multiset(a)[x] == if x in a then 1 else 0
  {
    if a != [] {
      OnceEach(a[..|a| - 1], x);
      assert a == a[..|a| - 1] + [a[|a| - 1]];
    }
  }

  lemma StringsSeparate(a: seq<string>)
    ensures Separates(a, StringLess)
  {
    forall i, j | 0 <= i < |a| && 0 <= j < |a| && a[i] != a[j]
      ensures StringLess(a[i], a[j]) || StringLess(a[j], a[i])
    {
      StringLessOrders(a[i], a[j], a[i]);
    }
  }

  /** Cleaned lists sort to the same list exactly when they have the same elements. */
  lemma SortsAlikeExactly(a: seq<string>, b: seq<string>)
    requires CleanNames(a) && CleanNames(b)
    ensures SortUnique(a) == SortUnique(b) <==> forall x :: x in a <==> x in b
  {
    UniqueTrimmedFixed(a);
    UniqueTrimmedFixed(b);
    SortPermutes(a, StringLess);
    SortPermutes(b, StringLess);
    if forall x :: x in a <==> x in b {
      SameMultiset(a, b);
      StringsSeparate(a);
      StringLessIsWeakOrder();
      SortIgnoresOrder(a, b, StringLess);
    }
  }

  /** The mentioned and the selected ids of a kind are the same, as sets. */
  ghost predicate SameIds(mentions: seq<Mention>, selected: seq<string>, kind: Kind) {
    forall id :: IsMentioned(mentions, kind, id) <==> IsSelected(selected, kind, id)
  }

  /** A selection is accepted exactly when every entry is a capability id and, kind by kind, the
      selected ids are the mentioned ones, as sets. */
  lemma {:induction false} AcceptedExactly(mentions: seq<Mention>, selected: seq<string>)
    ensures Validate(mentions, selected).Some? <==> AllIds(selected) && forall kind :: SameIds(mentions, selected, kind)
  {
    PairsElements(selected);
    if Pairs(selected).Some? {
      forall kind
        ensures Agree(mentions, Pairs(selected).value, kind) <==> SameIds(mentions, selected, kind)
        ensures kind in KINDS
      {
        SameKindExactly(mentions, selected, kind);
        AllKinds(kind);
      }
    }
  }

  lemma SameKindExactly(mentions: seq<Mention>, selected: seq<string>, kind: Kind)
    requires Pairs(selected).Some?
    ensures Agree(mentions, Pairs(selected).value, kind) <==> SameIds(mentions, selected, kind)
  {
    MentionedElements(mentions, kind);
    PairsElements(selected);
    var pairs := Pairs(selected).value;
    OfKindElements(pairs, kind);
    SortsAlikeExactly(Mentioned(mentions, kind), OfKind(pairs, kind));
    assert forall id :: IsSelected(selected, kind, id) <==> (kind, id) in pairs;
  }

  /** What is returned for a kind: every mentioned id of that kind, once, in increasing order. */
  lemma AcceptedIds(mentions: seq<Mention>, selected: seq<string>, kind: Kind)
    requires Validate(mentions, selected).Some?
    ensures kind in Validate(mentions, selected).value
    ensures var ids := Validate(mentions, selected).value[kind];
      && (forall id :: id in ids <==> IsMentioned(mentions, kind, id))
      && (forall i, j :: 0 <= i < j < |ids| ==> StringLess(ids[i], ids[j]))
  {
    AllKinds(kind);
    MentionedElements(mentions, kind);
    var m := Mentioned(mentions, kind);
    UniqueTrimmedFixed(m);
    SortPermutes(m, StringLess);
    StringLessIsWeakOrder();
    SortSorts(m, StringLess);
    SortedStrictly(m);
  }

  lemma SortedStrictly(m: seq<string>)
    requires NoDup(m) && Sorted(Sort(m, StringLess), StringLess)
    ensures forall i, j :: 0 <= i < j < |Sort(m, StringLess)| ==>
      StringLess(Sort(m, StringLess)[i], Sort(m, StringLess)[j])
  {
    var s := Sort(m, StringLess);
    SortPermutes(m, StringLess);
    forall i, j | 0 <= i < j < |s|
      ensures StringLess(s[i], s[j])
    {
      StringLessOrders(s[i], s[j], s[i]);
      OnceEach(m, s[i]);
      assert s[i] != s[j] by {
        if s[i] == s[j] {
          Twice(s, i, j);
        }
      }
    }
  }

  lemma Twice(s: seq<string>, i: nat, j: nat)
    requires i < j < |s| && s[i] == s[j]
    ensures multiset(s)[s[i]] >= 2
  {
    assert s == s[..j] + [s[j]] + s[j + 1..];
    assert s[i] in s[..j];
  }

  // ---- capability ids ----------------------------------------------------------------------------------------------

  lemma {:induction false} ColonIs(s: string, k: nat)
    requires k < |s| && s[k] == ':' && forall i :: 0 <= i < k ==> s[i] != ':'
    ensures Colon(s) == Some(k)
  {
    if k > 0 {
      ColonIs(s[1..], k - 1);
    }
  }

  lemma KindNameParses(kind: Kind)
    ensures ParseKind(KindName(kind)) == Some(kind)
    ensures KindName(kind) != "" && forall i :: 0 <= i < |KindName(kind)| ==> 'a' <= KindName(kind)[i] <= 'z'
  {
    TightIsTrimmed(KindName(kind));
    assert Lower(KindName(kind)) == KindName(kind);
  }

  lemma SplitsAtColon(name: string, id: string)
    requires name != "" && (forall i :: 0 <= i < |name| ==> 'a' <= name[i] <= 'z')
    requires id != "" && Tight(id) && ParseKind(name).Some?
    ensures SplitId(name + ":" + id) == Some((ParseKind(name).value, id))
  {
    var s := name + ":" + id;
    TightIsTrimmed(s);
    ColonIs(s, |name|);
    assert s[..|name|] == name && s[|name| + 1..] == id;
    TightIsTrimmed(id);
  }

  /** An id that was built splits into what it was built from, exactly when it was not blank. */
  lemma IdRoundTripExactly(kind: Kind, rawId: string)
    ensures SplitId(BuildId(kind, rawId)) == (if Trim(rawId) == "" then None else Some((kind, Trim(rawId))))
  {
    if Trim(rawId) != "" {
      KindNameParses(kind);
      TrimIsTight(rawId);
      SplitsAtColon(KindName(kind), Trim(rawId));
    }
  }

  lemma {:induction false} ColonFound(s: string)
    ensures match Colon(s)
      case None => ':' !in s
      case Some(k) => k < |s| && s[k] == ':' && forall i :: 0 <= i < k ==> s[i] != ':'
  {
    if s != "" && s[0] != ':' {
      ColonFound(s[1..]);
      assert forall i :: 1 <= i < |s| ==> s[i] == s[1..][i - 1];
    }
  }

  /** The text is a kind's name, in whatever case. */
  ghost predicate IsNameOf(text: string, kind: Kind) {
    Lower(Trim(text)) ==
      match kind
      case Model => "model"
      case Rule => "rule"
      case Skill => "skill"
      case Mcp => "mcp"
      case File => "file"
  }

  lemma KindsExactly(text: string, kind: Kind)
    ensures ParseKind(text) == Some(kind) <==> IsNameOf(text, kind)
  {
  }

  /** A capability id is the name of a kind, a colon and an id that is not blank; blanks are passed over, and a
      further colon is part of the id. */
  lemma {:induction false} SplitIdExactly(raw: string, kind: Kind, id: string)
    ensures SplitId(raw) == Some((kind, id)) <==>
      id != "" && exists name: string, rest: string ::
        Trim(raw) == name + ":" + rest && ':' !in name && IsNameOf(name, kind) && Trim(rest) == id
  {
    hide IsNameOf, Trim, Lower, ParseKind;
    var s := Trim(raw);
    ColonFound(s);
    if SplitId(raw) == Some((kind, id)) {
      var k := Colon(s).value;
      var name, rest := s[..k], s[k + 1..];
      assert s == name + ":" + rest;
      KindsExactly(name, kind);
    }
    if name: string, rest: string :|
      id != "" && s == name + ":" + rest && ':' !in name && IsNameOf(name, kind) && Trim(rest) == id {
      ColonIs(s, |name|);
      assert s[..|name|] == name && s[|name| + 1..] == rest;
      KindsExactly(name, kind);
    }
  }
}
