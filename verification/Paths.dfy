/** Normal form of the paths in a diff: forward slashes, no blanks around, lexically cleaned. */
module Paths {
  import opened Text

  function Slashed(s: string): string {
    seq(|s|, i requires 0 <= i < |s| => if s[i] == '\\' then '/' else s[i])
  }

  /** The components between slashes; never empty. */
  function Split(s: string): (parts: seq<string>)
    ensures parts != []
  {
    if s == "" then [""]
    else
      var rest := Split(s[1..]);
      if s[0] == '/' then [""] + rest else [[s[0]] + rest[0]] + rest[1..]
  }

  function Join(parts: seq<string>): string {
    if parts == [] then ""
    else if |parts| == 1 then parts[0]
    else parts[0] + "/" + Join(parts[1..])
  }

  /** One component on top of the cleaned ones so far. */
  function Push(rooted: bool, stack: seq<string>, part: string): seq<string> {
    if part == "" || part == "." then stack
    else if part == ".." then
      if stack != [] && stack[|stack| - 1] != ".." then stack[..|stack| - 1]
      else if rooted then stack
      else stack + [part]
    else stack + [part]
  }

  function Resolve(rooted: bool, parts: seq<string>): seq<string> {
    if parts == [] then []
    else Push(rooted, Resolve(rooted, parts[..|parts| - 1]), parts[|parts| - 1])
  }

  /** Lexical cleaning: the shortest equivalent path, "." for the empty one. */
  function Clean(s: string): string {
    var rooted := s != "" && s[0] == '/';
    var stack := Resolve(rooted, Split(s));
    if rooted then "/" + Join(stack)
    else if stack == [] then "."
    else Join(stack)
  }

  function DropDotSlash(s: string): string {
    if |s| >= 2 && s[0] == '.' && s[1] == '/' then s[2..] else s
  }

  function NormalizePath(raw: string): string {
    var trimmed := Trim(Slashed(raw));
    if trimmed == "" then "" else DropDotSlash(Clean(trimmed))
  }

  // ---- cleaned paths -----------------------------------------------------------------------

  ghost predicate Plain(part: string) {
    part != "" && part != "." && forall i :: 0 <= i < |part| ==> part[i] != '/' && part[i] != '\\'
  }

  /** What `Resolve` leaves: plain components, with ".." only in front and never below a root. */
  ghost predicate Resolved(rooted: bool, stack: seq<string>) {
    && (forall i :: 0 <= i < |stack| ==> Plain(stack[i]))
    && (forall i :: 0 < i < |stack| && stack[i] == ".." ==> stack[i - 1] == "..")
    && (rooted ==> forall i :: 0 <= i < |stack| ==> stack[i] != "..")
  }

  ghost predicate NoBackslash(s: string) {
    forall i :: 0 <= i < |s| ==> s[i] != '\\'
  }

  lemma {:induction false} SplitParts(s: string)
    requires NoBackslash(s)
    ensures forall i :: 0 <= i < |Split(s)| ==>
      forall j :: 0 <= j < |Split(s)[i]| ==> Split(s)[i][j] != '/' && Split(s)[i][j] != '\\'
  {
    if s != "" {
      SplitParts(s[1..]);
    }
  }

  lemma {:induction false} ResolveIsResolved(rooted: bool, parts: seq<string>)
    requires forall i :: 0 <= i < |parts| ==>
      forall j :: 0 <= j < |parts[i]| ==> parts[i][j] != '/' && parts[i][j] != '\\'
    ensures Resolved(rooted, Resolve(rooted, parts))
  {
    if parts != [] {
      ResolveIsResolved(rooted, parts[..|parts| - 1]);
    }
  }

  lemma {:induction false} ResolveResolved(rooted: bool, stack: seq<string>)
    requires Resolved(rooted, stack)
    ensures Resolve(rooted, stack) == stack
  {
    if stack != [] {
      var front, last := stack[..|stack| - 1], stack[|stack| - 1];
      ResolveResolved(rooted, front);
      assert Plain(last) && (last == ".." && front != [] ==> front[|front| - 1] == "..");
      assert Push(rooted, front, last) == front + [last] == stack;
    }
  }

  lemma {:induction false} SplitPart(part: string, rest: string)
    requires forall j :: 0 <= j < |part| ==> part[j] != '/'
    ensures Split(part) == [part]
    ensures Split(part + "/" + rest) == [part] + Split(rest)
  {
    if part == "" {
      assert ("" + "/" + rest)[1..] == rest;
    } else {
      SplitPart(part[1..], rest);
      assert (part + "/" + rest)[1..] == part[1..] + "/" + rest;
      assert [part[0]] + part[1..] == part;
    }
  }

  lemma {:induction false} SplitJoin(stack: seq<string>)
    requires stack != [] && forall i :: 0 <= i < |stack| ==> Plain(stack[i])
    ensures Split(Join(stack)) == stack
    ensures Join(stack) != "" && Join(stack)[0] != '/' && NoBackslash(Join(stack))
    ensures !(|Join(stack)| >= 2 && Join(stack)[0] == '.' && Join(stack)[1] == '/')
  {
    if |stack| == 1 {
      SplitPart(stack[0], "");
    } else {
      SplitJoin(stack[1..]);
      SplitPart(stack[0], Join(stack[1..]));
      assert stack == [stack[0]] + stack[1..];
    }
  }

  lemma {:induction false} ResolveSkipsEmpty(rooted: bool, parts: seq<string>)
    ensures Resolve(rooted, [""] + parts) == Resolve(rooted, parts)
  {
    if parts != [] {
      ResolveSkipsEmpty(rooted, parts[..|parts| - 1]);
      assert ([""] + parts)[..|[""] + parts| - 1] == [""] + parts[..|parts| - 1];
    } else {
      assert [""] + parts == [""];
      assert Resolve(rooted, [""]) == Push(rooted, Resolve(rooted, [""][..0]), "");
    }
  }

  /** Cleaned components, put together again, clean to themselves. */
  lemma CleanJoined(rooted: bool, stack: seq<string>)
    requires Resolved(rooted, stack) && stack != []
    ensures var s := if rooted then "/" + Join(stack) else Join(stack);
      && Clean(s) == s && s != "" && NoBackslash(s) && DropDotSlash(s) == s
  {
    SplitJoin(stack);
    ResolveResolved(rooted, stack);
    if rooted {
      SplitPart("", Join(stack));
      assert "" + "/" + Join(stack) == "/" + Join(stack);
      ResolveSkipsEmpty(rooted, stack);
    }
  }

  lemma CleanRoot()
    ensures Clean("/") == "/" && Clean(".") == "."
  {
    SplitPart("", "");
    assert "" + "/" + "" == "/" && [""] + [""] == ["", ""];
    ResolveSkipsEmpty(true, [""]);
    ResolveSkipsEmpty(true, []);
    assert [""] + [] == [""];
    SplitPart(".", "");
    assert Resolve(false, ["."]) == Push(false, Resolve(false, ["."][..0]), ".");
  }

  lemma CleanIsStable(s: string)
    requires NoBackslash(s) && s != ""
    ensures Clean(Clean(s)) == Clean(s)
    ensures Clean(s) != "" && NoBackslash(Clean(s)) && DropDotSlash(Clean(s)) == Clean(s)
  {
    var rooted := s[0] == '/';
    SplitParts(s);
    ResolveIsResolved(rooted, Split(s));
    var stack := Resolve(rooted, Split(s));
    if stack != [] {
      CleanJoined(rooted, stack);
    } else {
      CleanRoot();
      assert Clean(s) == if rooted then "/" else ".";
    }
  }

  lemma {:induction false} TrimKeepsNoBackslash(s: string)
    requires NoBackslash(s)
    ensures NoBackslash(Trim(s))
  {
    TrimLeftKeeps(s);
    TrimRightEnds(TrimLeft(s));
  }

  lemma {:induction false} TrimLeftKeeps(s: string)
    requires NoBackslash(s)
    ensures NoBackslash(TrimLeft(s))
  {
    if s != "" && IsSpace(s[0]) {
      TrimLeftKeeps(s[1..]);
    }
  }

  lemma SlashedHasNone(s: string)
    ensures NoBackslash(Slashed(s))
  {
  }

  lemma SlashedIsPlain(s: string)
    requires NoBackslash(s)
    ensures Slashed(s) == s
  {
  }

  predicate StartsBlank(s: string) {
    s != "" && IsSpace(s[0])
  }

  predicate EndsBlank(s: string) {
    s != "" && IsSpace(s[|s| - 1])
  }

  /** The components that are left of a path once "." and ".." are resolved, and whether a slash
      stands before them. */
  function Components(raw: string): (bool, seq<string>) {
    var trimmed := Trim(Slashed(raw));
    var rooted := trimmed != "" && trimmed[0] == '/';
    (rooted, Resolve(rooted, Split(trimmed)))
  }

  /** No blank comes to stand at an end: not in front of the first component left, unless a slash
      is in front of it, and not behind the last one. */
  predicate NoBlankSurfaces(raw: string) {
    var (rooted, stack) := Components(raw);
    stack != [] ==> (rooted || !StartsBlank(stack[0])) && !EndsBlank(stack[|stack| - 1])
  }

  lemma {:induction false} JoinEnds(stack: seq<string>)
    requires stack != [] && forall i :: 0 <= i < |stack| ==> stack[i] != ""
    ensures Join(stack) != ""
    ensures StartsBlank(Join(stack)) == StartsBlank(stack[0])
    ensures EndsBlank(Join(stack)) == EndsBlank(stack[|stack| - 1])
  {
    if |stack| > 1 {
      JoinEnds(stack[1..]);
    }
  }

  lemma ResolveNothing()
    ensures Resolve(false, Split("")) == []
  {
    assert Resolve(false, [""]) == Push(false, Resolve(false, [""][..0]), "");
  }

  lemma CleanEnds(s: string)
    requires NoBackslash(s) && s != ""
    ensures var rooted := s[0] == '/'; var stack := Resolve(rooted, Split(s));
      && (stack == [] ==> Tight(Clean(s)))
      && (stack != [] ==>
        (Tight(Clean(s)) <==> (rooted || !StartsBlank(stack[0])) && !EndsBlank(stack[|stack| - 1])))
  {
    var rooted := s[0] == '/';
    SplitParts(s);
    ResolveIsResolved(rooted, Split(s));
    assert !IsSpace('/') && !IsSpace('.');
    hide Resolve, Split, Join, IsSpace;
    if Resolve(rooted, Split(s)) != [] {
      JoinEnds(Resolve(rooted, Split(s)));
    }
  }

  lemma NormalizedEnds(raw: string)
    ensures Tight(NormalizePath(raw)) <==> NoBlankSurfaces(raw)
  {
    hide Resolve, Split, Clean, Trim, Slashed, DropDotSlash, IsSpace;
    var trimmed := Trim(Slashed(raw));
    if trimmed == "" {
      ResolveNothing();
    } else {
      SlashedHasNone(raw);
      TrimKeepsNoBackslash(Slashed(raw));
      CleanIsStable(trimmed);
      CleanEnds(trimmed);
    }
  }

  /** Normalising is stable exactly when no blank inside the path comes to stand at an end; one
      can, because blanks are trimmed before the path is cleaned. */
  lemma NormalizePathStableExactly(raw: string)
    ensures NormalizePath(NormalizePath(raw)) == NormalizePath(raw) <==> NoBlankSurfaces(raw)
  {
    NormalizedEnds(raw);
    var trimmed := Trim(Slashed(raw));
    var once := NormalizePath(raw);
    if trimmed != "" {
      TrimKeepsNoBackslash(Slashed(raw));
      CleanIsStable(trimmed);
      SlashedIsPlain(once);
      if Tight(once) {
        TightIsTrimmed(once);
      } else {
        TrimKeepsNoBackslash(once);
        NotTightShrinks(once);
      }
    }
  }

  // ---- cleaning never lengthens a path -------------------------------------------------------

  function Size(parts: seq<string>): nat {
    if parts == [] then 0 else Size(parts[..|parts| - 1]) + |parts[|parts| - 1]| + 1
  }

  lemma {:induction false} SizeFront(part: string, rest: seq<string>)
    ensures Size([part] + rest) == |part| + 1 + Size(rest)
  {
    if rest == [] {
      assert [part] + rest == [part];
      assert [part][..0] == [];
    } else {
      SizeFront(part, rest[..|rest| - 1]);
      assert ([part] + rest)[..|rest|] == [part] + rest[..|rest| - 1];
    }
  }

  lemma {:induction false} SplitSize(s: string)
    ensures Size(Split(s)) == |s| + 1
  {
    if s == "" {
      SizeFront("", []);
      assert [""] + [] == [""];
    } else {
      SplitSize(s[1..]);
      var rest := Split(s[1..]);
      assert rest == [rest[0]] + rest[1..];
      SizeFront(rest[0], rest[1..]);
      if s[0] == '/' {
        SizeFront("", rest);
      } else {
        SizeFront([s[0]] + rest[0], rest[1..]);
      }
    }
  }

  lemma {:induction false} JoinSize(parts: seq<string>)
    ensures parts != [] ==> |Join(parts)| + 1 == Size(parts)
  {
    if parts != [] {
      assert parts == [parts[0]] + parts[1..];
      SizeFront(parts[0], parts[1..]);
      JoinSize(parts[1..]);
      if |parts| == 1 {
        assert parts[1..] == [];
      }
    }
  }

  lemma {:induction false} ResolveSize(rooted: bool, parts: seq<string>)
    ensures Size(Resolve(rooted, parts)) <= Size(parts)
  {
    if parts != [] {
      ResolveSize(rooted, parts[..|parts| - 1]);
      var stack, part := Resolve(rooted, parts[..|parts| - 1]), parts[|parts| - 1];
      assert (stack + [part])[..|stack|] == stack;
    }
  }

  lemma CleanSize(s: string)
    requires s != ""
    ensures |Clean(s)| <= |s|
  {
    var rooted := s[0] == '/';
    var stack := Resolve(rooted, Split(s));
    SplitSize(s);
    JoinSize(stack);
    if rooted {
      SplitSize(s[1..]);
      ResolveSkipsEmpty(rooted, Split(s[1..]));
      ResolveSize(rooted, Split(s[1..]));
    } else {
      ResolveSize(rooted, Split(s));
    }
  }

  /** Cleaning a trimmed path cannot give back an untrimmed one. */
  lemma NotTightShrinks(once: string)
    requires !Tight(once) && NoBackslash(once)
    ensures NormalizePath(once) != once
  {
    SlashedIsPlain(once);
    TrimShrinks(once);
    if Trim(once) != "" {
      CleanSize(Trim(once));
    }
  }

  lemma TrimShrinks(s: string)
    requires !Tight(s)
    ensures |Trim(s)| < |s|
  {
    TrimLeftStart(s);
    if s != "" && IsSpace(s[0]) {
      TrimLeftStart(s[1..]);
    }
    TrimRightEnds(TrimLeft(s));
  }

  lemma ResolveLast(parts: seq<string>, part: string)
    ensures Resolve(false, parts + [part]) == Push(false, Resolve(false, parts), part)
  {
    assert (parts + [part])[..|parts|] == parts;
  }

  /** A parent step removes the component before it, and what follows is taken as it is. */
  lemma ParentStep(dir: string, file: string)
    requires Plain(dir) && Plain(file) && dir != ".." && file != ".."
    ensures Clean(dir + "/" + (".." + "/" + file)) == file
  {
    SplitPart(dir, ".." + "/" + file);
    SplitPart("..", file);
    SplitPart(file, "");
    var parts := [dir, "..", file];
    assert Split(dir + "/" + (".." + "/" + file)) == parts;
    assert parts == [] + [dir] + [".."] + [file];
    ResolveLast([], dir);
    ResolveLast([] + [dir], "..");
    ResolveLast([] + [dir] + [".."], file);
  }

  /** Normalising `a/../ b` gives ` b`, which has a blank in front. */
  lemma NormalizePathNotStable(raw: string)
    requires raw == "a" + "/" + (".." + "/" + " b")
    ensures NormalizePath(raw) == " b" && NormalizePath(" b") != " b"
  {
    SlashedIsPlain(raw);
    TightIsTrimmed(raw);
    ParentStep("a", " b");
    NormalizedEnds(raw);
    NormalizePathStableExactly(raw);
  }

  // ---- the rules of cleaning ------------------------------------------------------------------------

  lemma {:induction false} ResolveGoesOn(rooted: bool, a: seq<string>, b: seq<string>, c: seq<string>)
    requires Resolve(rooted, a) == Resolve(rooted, b)
    ensures Resolve(rooted, a + c) == Resolve(rooted, b + c)
  {
    if c == [] {
      assert a + c == a && b + c == b;
    } else {
      ResolveGoesOn(rooted, a, b, c[..|c| - 1]);
      assert (a + c)[..|a + c| - 1] == a + c[..|c| - 1] && (b + c)[..|b + c| - 1] == b + c[..|c| - 1];
    }
  }

  /** The rules, anywhere in a path: empty components and "." say nothing, ".." takes back the component before
      it, and at a root it says nothing. What no rule shortens stays as it is. */
  lemma {:induction false} RulesOfCleaning(rooted: bool, front: seq<string>, part: string, rest: seq<string>)
    ensures Resolve(rooted, front + [""] + rest) == Resolve(rooted, front + rest)
    ensures Resolve(rooted, front + ["."] + rest) == Resolve(rooted, front + rest)
    ensures part != "" && part != "." && part != ".." ==>
      Resolve(rooted, front + [part, ".."] + rest) == Resolve(rooted, front + rest)
    ensures Resolve(true, [".."] + rest) == Resolve(true, rest)
    ensures Resolved(rooted, rest) ==> Resolve(rooted, rest) == rest
  {
    ResolvePush(rooted, front, "");
    ResolvePush(rooted, front, ".");
    ResolveGoesOn(rooted, front + [""], front, rest);
    ResolveGoesOn(rooted, front + ["."], front, rest);
    ResolvePush(rooted, front, part);
    ResolvePush(rooted, front + [part], "..");
    assert front + [part] + [".."] == front + [part, ".."];
    if part != "" && part != "." && part != ".." {
      ResolveGoesOn(rooted, front + [part, ".."], front, rest);
    }
    ResolvePush(true, [], "..");
    assert [] + [".."] == [".."] && [] + rest == rest;
    ResolveGoesOn(true, [".."], [], rest);
    if Resolved(rooted, rest) {
      ResolveResolved(rooted, rest);
    }
  }

  lemma ResolvePush(rooted: bool, parts: seq<string>, part: string)
    ensures Resolve(rooted, parts + [part]) == Push(rooted, Resolve(rooted, parts), part)
  {
    assert (parts + [part])[..|parts|] == parts;
  }

  /** The components of a path joined by slashes are its components, blank and dotted ones too. */
  lemma {:induction false} SplitsWhereJoined(parts: seq<string>)
    requires parts != [] && forall i :: 0 <= i < |parts| ==> '/' !in parts[i]
    ensures Split(Join(parts)) == parts
  {
    if |parts| == 1 {
      SplitPart(parts[0], "");
    } else {
      SplitsWhereJoined(parts[1..]);
      SplitPart(parts[0], Join(parts[1..]));
    }
  }

  /** What a normalised path is: blanks around are dropped, backslashes are slashes, and the components are
      resolved; a path that begins with a slash still does, and nothing left is ".". */
  lemma {:induction false} NormalizedExactly(left: string, raw: string, right: string)
    requires Blank(left) && Blank(right) && Tight(raw) && raw != ""
    ensures var s := Slashed(raw);
      var stack := Resolve(s[0] == '/', Split(s));
      NormalizePath(left + raw + right) ==
        if s[0] == '/' then "/" + Join(stack) else if stack == [] then "." else Join(stack)
  {
    var s := Slashed(raw);
    SlashedHasNone(raw);
    assert IsSpace('/') == IsSpace('\\') == false;
    SlashedConcat(left, raw, right);
    hide Resolve, Split, Join, Trim;
    TrimExactly(Slashed(left), s, Slashed(right));
    CleanIsStable(s);
  }

  lemma SlashedConcat(left: string, s: string, right: string)
    ensures Slashed(left + s + right) == Slashed(left) + Slashed(s) + Slashed(right)
    ensures Slashed("\\") == "/"
    ensures forall i :: 0 <= i < |s| && s[i] != '\\' ==> Slashed(s)[i] == s[i]
  {
  }
}
