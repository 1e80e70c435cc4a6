/** Cursor pagination: a cursor is the printed index of the next item. */
module Paging {
  import opened Basics
  import opened Text
  import opened Decimal

  const DEFAULT_LIMIT := 20
  const MAX_LIMIT := 100

  /** Where a page begins; anything but a number from 0 on means the beginning. */
  function StartOf(raw: string): int {
    match Atoi(Trim(raw))
    case None => 0
    case Some(n) => if n >= 0 then n else 0
  }

  function LimitOf(raw: string): int {
    var asked := match Atoi(Trim(raw)) case None => DEFAULT_LIMIT case Some(n) => if n > 0 then n else DEFAULT_LIMIT;
    if asked > MAX_LIMIT then MAX_LIMIT else asked
  }

  method ParseCursorLimit(rawCursor: string, rawLimit: string) returns (start: int, limit: int)
    ensures start == StartOf(rawCursor) && limit == LimitOf(rawLimit)
  {
    start := 0;
    var cursor := Trim(rawCursor);
    if cursor != "" {
      var parsed := Atoi(cursor);
      if parsed.Some? && parsed.value >= 0 {
        start := parsed.value;
      }
    }
    limit := DEFAULT_LIMIT;
    var asked := Trim(rawLimit);
    if asked != "" {
      var parsed := Atoi(asked);
      if parsed.Some? && parsed.value > 0 {
        limit := parsed.value;
      }
    }
    if limit > MAX_LIMIT {
      limit := MAX_LIMIT;
    }
  }

  function End<T>(items: seq<T>, start: nat, limit: nat): nat {
    if start >= |items| then |items| else if start + limit > |items| then |items| else start + limit
  }

  function Page<T>(items: seq<T>, start: nat, limit: nat): seq<T> {
    if start >= |items| then [] else items[start..End(items, start, limit)]
  }

  /** The cursor of the next page, if there is one. */
  function NextCursor<T>(items: seq<T>, start: nat, limit: nat): Option<string> {
    if End(items, start, limit) >= |items| then None else Some(Print(End(items, start, limit)))
  }

  /** Copies a page into a buffer of its own. */
  method PaginateAny<T>(items: seq<T>, start: nat, limit: nat) returns (page: array<T>, cursor: Option<string>)
    ensures fresh(page) && page[..] == Page(items, start, limit) && cursor == NextCursor(items, start, limit)
  {
    if start >= |items| {
      page := new T[] [];
      return page, None;
    }
    var end := start + limit;
    if end > |items| {
      end := |items|;
    }
    page := new T[end - start](i requires 0 <= i < end - start => items[start + i]);
    cursor := if end >= |items| then None else Some(Print(end));
  }

  /** All that a client sees that starts at `start` and follows the cursors. */
  function Follow<T>(items: seq<T>, start: nat, limit: nat): seq<T>
    requires limit > 0 && |items| <= MAX_INT
    decreases |items| - start
  {
    match NextCursor(items, start, limit)
    case None => Page(items, start, limit)
    case Some(cursor) =>
      CursorAdvances(items, start, limit);
      Page(items, start, limit) + Follow(items, StartOf(cursor), limit)
  }

  /** A cursor reads back as the index it was made from, which is beyond the page. */
  lemma CursorAdvances<T>(items: seq<T>, start: nat, limit: nat)
    requires limit > 0 && |items| <= MAX_INT
    ensures NextCursor(items, start, limit).Some? ==>
      && StartOf(NextCursor(items, start, limit).value) == End(items, start, limit)
      && start < End(items, start, limit) < |items|
  {
    var end := End(items, start, limit);
    PrintParses(end);
    PrintDigits(end);
    TightIsTrimmed(Print(end));
  }

  /** Following the cursors from anywhere ends, and shows exactly the items from there on: from the
      beginning, the whole list, each item once and in order. */
  lemma {:induction false} FollowShowsAll<T>(items: seq<T>, start: nat, limit: nat)
    requires limit > 0 && |items| <= MAX_INT
    ensures Follow(items, start, limit) == if start <= |items| then items[start..] else []
    decreases |items| - start
  {
    CursorAdvances(items, start, limit);
    if NextCursor(items, start, limit).Some? {
      FollowShowsAll(items, End(items, start, limit), limit);
    }
  }

  /** Whatever a client asks for, a page has between 1 and 100 items, unless the list ends before. */
  lemma PageSize<T>(items: seq<T>, start: nat, raw: string)
    ensures 1 <= LimitOf(raw) <= MAX_LIMIT
    ensures |Page(items, start, LimitOf(raw))| <= LimitOf(raw)
    ensures start < |items| ==> |Page(items, start, LimitOf(raw))| >= 1
    ensures NextCursor(items, start, LimitOf(raw)).Some? ==> |Page(items, start, LimitOf(raw))| == LimitOf(raw)
  {
  }

  /** A start is a number from 0 on; a limit is a number from 1 to 100, where more than 100 is cut, and 20 if
      none is asked for. Blanks around either are passed over. */
  lemma AskedFor(n: nat, blank: string)
    requires n <= MAX_INT && Blank(blank)
    ensures var raw := blank + Print(n) + blank;
      StartOf(raw) == n && LimitOf(raw) == if n == 0 then 20 else if n <= 100 then n else 100
  {
    PrintDigits(n);
    SignsAndZeros(n);
    hide Atoi, Digits, Trim, Print;
    TrimExactly(blank, Print(n), blank);
  }

  lemma NegativeAsked(n: nat, blank: string)
    requires n <= MAX_INT && Blank(blank)
    ensures StartOf(blank + ("-" + Print(n)) + blank) == 0 && LimitOf(blank + ("-" + Print(n)) + blank) == 20
  {
    PrintDigits(n);
    SignsAndZeros(n);
    hide Atoi, Digits, Trim, Print;
    TrimExactly(blank, "-" + Print(n), blank);
  }

  lemma NothingAsked(blank: string)
    requires Blank(blank)
    ensures StartOf(blank) == 0 && LimitOf(blank) == 20
  {
    hide Trim;
    TrimExactly(blank, "", "");
    assert blank + "" + "" == blank;
  }

  /** What is no number is not asked for. */
  lemma NoNumberAsked(raw: string)
    requires exists i :: 0 < i < |Trim(raw)| && !IsDigit(Trim(raw)[i])
    ensures StartOf(raw) == 0 && LimitOf(raw) == 20
  {
    AtoiExactly(Trim(raw));
  }
}
