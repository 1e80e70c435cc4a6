/** Printing and parsing decimal integers as Go's fmt and strconv packages do. */
module Decimal {
  import opened Basics

  const MAX_INT := 0x7FFF_FFFF_FFFF_FFFF

  function Digit(d: nat): char
    requires d < 10
  {
    d as char + '0'
  }

  function Print(n: nat): string {
    if n < 10 then [Digit(n)] else Print(n / 10) + [Digit(n % 10)]
  }

  /** Towards zero, as a conversion to an integer does. */
  function Truncate(x: real): int {
    if x >= 0.0 then x.Floor else -(-x).Floor
  }

  predicate IsDigit(c: char) {
    '0' <= c <= '9'
  }

  /** The value of a run of digits; nothing for the empty string or any other character. */
  function Digits(s: string): Option<nat> {
    if s == "" || !IsDigit(s[|s| - 1]) then None
    else
      var last := (s[|s| - 1] - '0') as nat;
      if |s| == 1 then Some(last)
      else
        match Digits(s[..|s| - 1])
        case None => None
        case Some(front) => Some(10 * front + last)
  }

  /** An optional sign and digits, within 64 bits. */
  function Atoi(s: string): Option<int> {
    var signed := s != "" && (s[0] == '-' || s[0] == '+');
    match Digits(if signed then s[1..] else s)
    case None => None
    case Some(n) =>
      var value: int := if s != "" && s[0] == '-' then 0 - n else n;
      if -MAX_INT - 1 <= value <= MAX_INT then Some(value) else None
  }

  lemma {:induction false} PrintDigits(n: nat)
    ensures Print(n) != "" && (forall i :: 0 <= i < |Print(n)| ==> IsDigit(Print(n)[i]))
    ensures Digits(Print(n)) == Some(n)
  {
    if n >= 10 {
      PrintDigits(n / 10);
      var front := Print(n / 10);
      assert Print(n)[..|front|] == front;
    }
  }

  /** What was printed parses to itself, exactly when it fits 64 bits. */
  lemma {:induction false} PrintParses(n: nat)
    ensures Atoi(Print(n)) == if n <= MAX_INT then Some(n) else None
  {
    PrintDigits(n);
    assert IsDigit(Print(n)[0]);
  }

  /** A text is a number exactly when it has a digit and nothing else. */
  lemma {:induction false} DigitsExactly(s: string)
    ensures Digits(s).Some? <==> s != "" && forall i :: 0 <= i < |s| ==> IsDigit(s[i])
  {
    if s != "" && |s| > 1 {
      DigitsExactly(s[..|s| - 1]);
    }
  }

  /** Signs are read, leading zeros are skipped, and what is beyond 64 bits is no number. */
  lemma {:induction false} SignsAndZeros(n: nat)
    ensures Atoi("-" + Print(n)) == if n <= 9223372036854775808 then Some(0 - n) else None
    ensures Atoi("+" + Print(n)) == Atoi(Print(n)) == if n <= 9223372036854775807 then Some(n) else None
    ensures Digits("0" + Print(n)) == Some(n)
  {
    PrintDigits(n);
    PrintParses(n);
    hide Print, Digits;
    assert ("-" + Print(n))[1..] == Print(n) && ("+" + Print(n))[1..] == Print(n);
    ZeroInFront(Print(n));
  }

  lemma {:induction false} ZeroInFront(s: string)
    requires Digits(s).Some?
    ensures Digits("0" + s) == Digits(s)
  {
    assert ("0" + s)[|s|] == s[|s| - 1] && ("0" + s)[..|s|] == "0" + s[..|s| - 1];
    if |s| == 1 {
      assert "0" + s[..0] == "0";
    } else {
      ZeroInFront(s[..|s| - 1]);
    }
  }

  /** Nothing but an optional sign and digits is a number. */
  lemma AtoiExactly(s: string)
    ensures Atoi(s).Some? ==> s != "" && (IsDigit(s[0]) || ((s[0] == '-' || s[0] == '+') && |s| > 1))
    ensures Atoi(s).Some? ==> forall i :: 0 < i < |s| ==> IsDigit(s[i])
  {
    DigitsExactly(s);
    if s != "" {
      DigitsExactly(s[1..]);
      assert forall i :: 0 < i < |s| ==> s[i] == s[1..][i - 1];
    }
  }

  /** What is behind the point is dropped, on either side of zero. */
  lemma TruncateDrops(n: nat, fraction: real)
    requires 0.0 <= fraction < 1.0
    ensures Truncate(n as real + fraction) == n && Truncate(0.0 - (n as real + fraction)) == 0 - n
  {
    assert (n as real + fraction).Floor == n;
  }
}
