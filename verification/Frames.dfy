/** Frames with a Content-Length header on a byte stream, and the search for a response by its id. */
module Frames {
  import opened Basics
  import opened Decimal
  import Text

  /** One character stands for one byte. */
  type Bytes = string

  const MAX_BODY := 1_048_576

  predicate IsBlank(c: char) {
    c == ' ' || '\t' <= c <= '\r'
  }

  function StripLeft(s: Bytes): Bytes {
    if s != "" && IsBlank(s[0]) then StripLeft(s[1..]) else s
  }

  function StripRight(s: Bytes): Bytes {
    if s != "" && IsBlank(s[|s| - 1]) then StripRight(s[..|s| - 1]) else s
  }

  function Strip(s: Bytes): Bytes {
    StripRight(StripLeft(s))
  }

  function LowerByte(c: char): char {
    if 'A' <= c <= 'Z' then c - 'A' + 'a' else c
  }

  function LowerBytes(s: Bytes): Bytes {
    seq(|s|, i requires 0 <= i < |s| => LowerByte(s[i]))
  }

  const NAME: Bytes := "content-length:"

  /** The length a header line gives: nothing for another header, None inside for a bad length. */
  function LengthOf(line: Bytes): Option<Option<nat>> {
    var lower := LowerBytes(line);
    if !(NAME <= lower) then None
    else
      match Atoi(Strip(lower[|NAME|..]))
      case None => Some(None)
      case Some(n) => if n <= 0 || n > MAX_BODY then Some(None) else Some(Some(n))
  }

  // ---- reading ----------------------------------------------------------------------------------------

  datatype ReadError = EndOfInput | InvalidLength | MissingLength

  datatype FrameResult =
    | Frame(body: Bytes, rest: Bytes)
    | NoFrame(error: ReadError, rest: Bytes)

  datatype HeaderResult =
    | Header(length: nat, rest: Bytes)
    | NoHeader(error: ReadError, rest: Bytes)

  /** The length of the first line with its newline. */
  function LineLength(s: Bytes): Option<nat> {
    if s == "" then None
    else if s[0] == '\n' then Some(1)
    else
      match LineLength(s[1..])
      case None => None
      case Some(k) => Some(k + 1)
  }

  lemma {:induction false} LineLengthBounds(s: Bytes)
    ensures LineLength(s).Some? ==> 0 < LineLength(s).value <= |s|
  {
    if s != "" && s[0] != '\n' {
      LineLengthBounds(s[1..]);
    }
  }

  /** Header lines up to a blank one; the last length given counts. */
  function ReadHeader(s: Bytes, length: nat): (r: HeaderResult)
    ensures |r.rest| <= |s| && (r.Header? ==> |r.rest| < |s|)
    decreases |s|
  {
    LineLengthBounds(s);
    match LineLength(s)
    case None => NoHeader(EndOfInput, "")
    case Some(k) =>
      var line, rest := Strip(s[..k]), s[k..];
      if line == "" then Header(length, rest)
      else
        match LengthOf(line)
        case None => ReadHeader(rest, length)
        case Some(None) => NoHeader(InvalidLength, rest)
        case Some(Some(n)) => ReadHeader(rest, n)
  }

  function ReadFrame(s: Bytes): (r: FrameResult)
    ensures |r.rest| <= |s| && (r.Frame? ==> |r.rest| < |s|)
  {
    match ReadHeader(s, 0)
    case NoHeader(error, rest) => NoFrame(error, rest)
    case Header(length, rest) =>
      if length == 0 then NoFrame(MissingLength, rest)
      else if |rest| < length then NoFrame(EndOfInput, "")
      else Frame(rest[..length], rest[length..])
  }

  function HeaderFor(n: nat): Bytes {
    "Content-Length: " + Print(n) + "\r\n\r\n"
  }

  function WriteFrame(body: Bytes): Bytes {
    HeaderFor(|body|) + body
  }

  /** The frames of all bodies, one after the other. */
  function WriteAll(bodies: seq<Bytes>): Bytes {
    if bodies == [] then "" else WriteFrame(bodies[0]) + WriteAll(bodies[1..])
  }

  /** The id of a response as JSON has it. */
  datatype JsonId = NoId | Number(value: real) | Text(text: string) | OtherId

  /** The parts of a response that are looked at. */
  datatype Response = Response(id: JsonId, error: Option<string>, result: string)

  function IdNumber(id: JsonId): int {
    match id
    case Number(x) => Truncate(x)
    case Text(s) => (match Atoi(s) case Some(n) => n case None => -1)
    case _ => -1
  }

  /** Whether the body is the response looked for. */
  predicate Answers(body: Bytes, expected: int, decode: Bytes -> Option<Response>) {
    match decode(body)
    case None => false
    case Some(r) => !r.id.NoId? && IdNumber(r.id) == expected
  }

  datatype Reply =
    | Result(result: string, rest: Bytes)
    | Rejected(message: string, rest: Bytes)
    | NoReply(error: ReadError, rest: Bytes)

  function ReplyOf(r: Response, rest: Bytes): Reply {
    match r.error
    case Some(message) => Rejected(Text.Trim(message), rest)
    case None => Result(r.result, rest)
  }

  /** Frames are read and dropped until one is the response. */
  function ReadResponse(s: Bytes, expected: int, decode: Bytes -> Option<Response>): Reply
    decreases |s|
  {
    match ReadFrame(s)
    case NoFrame(error, rest) => NoReply(error, rest)
    case Frame(body, rest) =>
      if Answers(body, expected, decode) then ReplyOf(decode(body).value, rest)
      else ReadResponse(rest, expected, decode)
  }

  // ---- the pipe ---------------------------------------------------------------------------------------

  /** Bytes that were written and not read yet. */
  class Pipe {
    var bytes: Bytes

    constructor (bytes: Bytes)
      ensures this.bytes == bytes
    {
      this.bytes := bytes;
    }

    method Write(body: Bytes)
      modifies this
      ensures bytes == old(bytes) + WriteFrame(body)
    {
      bytes := bytes + HeaderFor(|body|);
      bytes := bytes + body;
      assert bytes == old(bytes) + WriteFrame(body);
    }

    /** A line with its newline; without one, the input is used up. */
    method ReadLine() returns (line: Option<Bytes>)
      modifies this
      ensures match LineLength(old(bytes))
        case None => line.None? && bytes == ""
        case Some(k) => k <= |old(bytes)| && line == Some(old(bytes)[..k]) && bytes == old(bytes)[k..]
    {
      LineLengthBounds(bytes);
      for i := 0 to |bytes|
        invariant bytes == old(bytes)
        invariant var more := LineLength(bytes[i..]);
          LineLength(bytes) == if more.None? then None else Some(more.value + i)
      {
        if bytes[i] == '\n' {
          line := Some(bytes[..i + 1]);
          bytes := bytes[i + 1..];
          return;
        }
        assert bytes[i..][1..] == bytes[i + 1..];
      }
      bytes := "";
      line := None;
    }

    method ReadLength() returns (length: nat, error: Option<ReadError>)
      modifies this
      ensures (if error.None? then Header(length, bytes) else NoHeader(error.value, bytes)) == ReadHeader(old(bytes), 0)
    {
      length := 0;
      while true
        invariant ReadHeader(old(bytes), 0) == ReadHeader(bytes, length)
        decreases |bytes|
      {
        LineLengthBounds(bytes);
        var line := ReadLine();
        if line.None? {
          return length, Some(EndOfInput);
        }
        var trimmed := Strip(line.value);
        if trimmed == "" {
          return length, None;
        }
        var given := LengthOf(trimmed);
        if given.Some? {
          if given.value.None? {
            return length, Some(InvalidLength);
          }
          length := given.value.value;
        }
      }
    }

    method ReadBody() returns (body: Bytes, error: Option<ReadError>)
      modifies this
      ensures (if error.None? then Frame(body, bytes) else NoFrame(error.value, bytes)) == ReadFrame(old(bytes))
    {
      var length;
      body := "";
      length, error := ReadLength();
      if error.Some? {
        return;
      }
      if length <= 0 {
        return "", Some(MissingLength);
      }
      if |bytes| < length {
        bytes := "";
        return "", Some(EndOfInput);
      }
      body := bytes[..length];
      bytes := bytes[length..];
    }

    method ReadResponseById(expected: int, decode: Bytes -> Option<Response>) returns (reply: Reply)
      modifies this
      ensures reply == ReadResponse(old(bytes), expected, decode) && bytes == reply.rest
    {
      while true
        invariant ReadResponse(old(bytes), expected, decode) == ReadResponse(bytes, expected, decode)
        decreases |bytes|
      {
        var body, error := ReadBody();
        if error.Some? {
          return NoReply(error.value, bytes);
        }
        var decoded := decode(body);
        if decoded.Some? {
          var id := decoded.value.id;
          if !id.NoId? && IdNumber(id) == expected {
            reply := ReplyOf(decoded.value, bytes);
            return;
          }
        }
      }
    }
  }

  // ---- round trips ------------------------------------------------------------------------------------

  lemma {:induction false} LineLengthOf(line: Bytes, rest: Bytes)
    requires forall i :: 0 <= i < |line| ==> line[i] != '\n'
    ensures LineLength(line + "\n" + rest) == Some(|line| + 1)
  {
    if line != "" {
      LineLengthOf(line[1..], rest);
      assert (line + "\n" + rest)[1..] == line[1..] + "\n" + rest;
    }
  }

  lemma StripPlain(s: Bytes)
    requires s != "" && !IsBlank(s[0]) && !IsBlank(s[|s| - 1])
    ensures Strip(s + "\r\n") == s
    ensures Strip(" " + s) == s && Strip(s) == s
  {
    assert StripLeft(s) == s && StripRight(s) == s;
    assert StripLeft(s + "\r\n") == s + "\r\n";
    assert (s + "\r\n")[..|s| + 1] == s + "\r" && (s + "\r")[..|s|] == s;
    assert StripRight(s + "\r") == s;
    assert StripRight(s + "\r\n") == StripRight(s + "\r");
    assert (" " + s)[1..] == s;
  }

  lemma LowerOfHeader(digits: Bytes)
    requires forall i :: 0 <= i < |digits| ==> IsDigit(digits[i])
    ensures LowerBytes("Content-Length: " + digits) == NAME + (" " + digits)
  {
    var line := "Content-Length: " + digits;
    assert LowerBytes(line)[..|NAME|] == NAME;
    assert LowerBytes(line)[|NAME|..] == " " + digits;
  }

  lemma LengthOfDigits(digits: Bytes)
    requires digits != "" && forall i :: 0 <= i < |digits| ==> IsDigit(digits[i])
    ensures LengthOf("Content-Length: " + digits) ==
      (match Atoi(digits)
       case None => Some(None)
       case Some(n) => if n <= 0 || n > MAX_BODY then Some(None) else Some(Some(n)))
  {
    StripPlain(digits);
    LowerOfHeader(digits);
    assert (NAME + (" " + digits))[|NAME|..] == " " + digits;
  }

  /** The header line that is written gives the length, exactly when it is in range. */
  lemma WrittenLength(n: nat)
    ensures LengthOf("Content-Length: " + Print(n)) == Some(if 1 <= n <= MAX_BODY then Some(n) else None)
  {
    PrintDigits(n);
    PrintParses(n);
    LengthOfDigits(Print(n));
  }

  lemma WrittenLine(n: nat)
    ensures var line := "Content-Length: " + Print(n);
      && Strip(line + "\r\n") == line
      && (forall i :: 0 <= i < |line| ==> line[i] != '\n')
  {
    PrintDigits(n);
    var line := "Content-Length: " + Print(n);
    assert line[|line| - 1] == Print(n)[|Print(n)| - 1];
    StripPlain(line);
  }

  lemma HeaderRead(n: nat, rest: Bytes)
    ensures ReadHeader(HeaderFor(n) + rest, 0) ==
      (if 1 <= n <= MAX_BODY then Header(n, rest) else NoHeader(InvalidLength, "\r\n" + rest))
  {
    var line := "Content-Length: " + Print(n);
    var s := HeaderFor(n) + rest;
    WrittenLength(n);
    WrittenLine(n);
    LineLengthOf(line + "\r", "\r\n" + rest);
    assert s == line + "\r" + "\n" + ("\r\n" + rest);
    assert s[..|line| + 2] == line + "\r\n";
    assert s[|line| + 2..] == "\r\n" + rest;
    if 1 <= n <= MAX_BODY {
      BlankLine(rest, n);
    }
  }

  lemma BlankLine(rest: Bytes, n: nat)
    ensures ReadHeader("\r\n" + rest, n) == Header(n, rest)
  {
    LineLengthOf("\r", rest);
    assert "\r\n" + rest == "\r" + "\n" + rest;
    assert ("\r\n" + rest)[..2] == "\r\n" && ("\r\n" + rest)[2..] == rest;
    assert Strip("\r\n") == "" by {
      assert "\r\n"[1..] == "\n" && "\n"[1..] == "";
    }
  }

  /** A body comes back as it was written, whatever bytes it holds, and nothing past it is touched,
      exactly when it has between 1 and 1048576 bytes. */
  lemma FrameRoundTripExactly(body: Bytes, more: Bytes)
    ensures ReadFrame(WriteFrame(body) + more) == Frame(body, more) <==> 1 <= |body| <= MAX_BODY
    ensures !(1 <= |body| <= MAX_BODY) ==>
      ReadFrame(WriteFrame(body) + more) == NoFrame(InvalidLength, "\r\n" + body + more)
  {
    HeaderRead(|body|, body + more);
    WrittenThen(body, more);
    assert (body + more)[..|body|] == body && (body + more)[|body|..] == more;
  }

  lemma WrittenThen(body: Bytes, more: Bytes)
    ensures WriteFrame(body) + more == HeaderFor(|body|) + (body + more)
    ensures "\r\n" + (body + more) == "\r\n" + body + more
  {
  }

  predicate Sendable(body: Bytes) {
    1 <= |body| <= MAX_BODY
  }

  /** Reads `n` frames. */
  function ReadMany(s: Bytes, n: nat): (seq<Bytes>, Bytes)
    decreases n
  {
    if n == 0 then ([], s)
    else
      match ReadFrame(s)
      case NoFrame(_, rest) => ([], rest)
      case Frame(body, rest) =>
        var (bodies, end) := ReadMany(rest, n - 1);
        ([body] + bodies, end)
  }

  /** Many frames written one after the other are read back in order. */
  lemma {:induction false} FramesRoundTrip(bodies: seq<Bytes>, more: Bytes)
    requires forall i :: 0 <= i < |bodies| ==> Sendable(bodies[i])
    ensures ReadMany(WriteAll(bodies) + more, |bodies|) == (bodies, more)
  {
    if bodies == [] {
      assert WriteAll(bodies) + more == more;
    } else {
      FramesRoundTrip(bodies[1..], more);
      FrameRoundTripExactly(bodies[0], WriteAll(bodies[1..]) + more);
      assert WriteAll(bodies) + more == WriteFrame(bodies[0]) + (WriteAll(bodies[1..]) + more);
      assert [bodies[0]] + bodies[1..] == bodies;
    }
  }

  lemma OtherBodyIsSkipped(body: Bytes, rest: Bytes, expected: int, decode: Bytes -> Option<Response>)
    requires Sendable(body) && !Answers(body, expected, decode)
    ensures ReadResponse(WriteFrame(body) + rest, expected, decode) == ReadResponse(rest, expected, decode)
  {
    FrameRoundTripExactly(body, rest);
  }

  /** Bodies that do not answer are read and dropped. */
  lemma {:induction false} OthersAreSkipped(bodies: seq<Bytes>, more: Bytes, expected: int,
      decode: Bytes -> Option<Response>)
    requires forall i :: 0 <= i < |bodies| ==> Sendable(bodies[i]) && !Answers(bodies[i], expected, decode)
    ensures ReadResponse(WriteAll(bodies) + more, expected, decode) == ReadResponse(more, expected, decode)
    decreases |bodies|
  {
    if bodies == [] {
      assert WriteAll(bodies) + more == more;
    } else {
      OthersAreSkipped(bodies[1..], more, expected, decode);
      OtherBodyIsSkipped(bodies[0], WriteAll(bodies[1..]) + more, expected, decode);
      assert WriteAll(bodies) + more == WriteFrame(bodies[0]) + (WriteAll(bodies[1..]) + more);
    }
  }

  /** Whatever is sent before it, the first body that answers is the reply, and the stream is left at
      the next frame. */
  lemma {:induction false} FirstAnswerIsRead(before: seq<Bytes>, answer: Bytes, more: Bytes, expected: int,
      decode: Bytes -> Option<Response>)
    requires forall i :: 0 <= i < |before| ==> Sendable(before[i]) && !Answers(before[i], expected, decode)
    requires Sendable(answer) && Answers(answer, expected, decode)
    ensures var reply := ReadResponse(WriteAll(before) + (WriteFrame(answer) + more), expected, decode);
      var r := decode(answer).value;
      && reply.rest == more
      && (r.error.None? ==> reply == Result(r.result, more))
      && (r.error.Some? ==> reply == Rejected(Text.Trim(r.error.value), more))
  {
    OthersAreSkipped(before, WriteFrame(answer) + more, expected, decode);
    FrameRoundTripExactly(answer, more);
  }

  /** Whatever the headers look like, a frame that is read is a stretch of the input right before the
      rest, and its length is in range. */
  lemma FrameIsStretchOfInput(s: Bytes)
    requires ReadFrame(s).Frame?
    ensures var body, rest := ReadFrame(s).body, ReadFrame(s).rest;
      && Sendable(body)
      && |body| + |rest| < |s| && s[|s| - |rest| - |body|..] == body + rest
  {
    HeaderIsFront(s, 0);
    var h := ReadHeader(s, 0);
    assert h.rest == h.rest[..h.length] + h.rest[h.length..];
  }

  lemma {:induction false} HeaderIsFront(s: Bytes, length: nat)
    requires length <= MAX_BODY
    ensures |ReadHeader(s, length).rest| <= |s|
    ensures ReadHeader(s, length).Header? ==>
      ReadHeader(s, length).length <= MAX_BODY && s[|s| - |ReadHeader(s, length).rest|..] == ReadHeader(s, length).rest
    decreases |s|
  {
    LineLengthBounds(s);
    if LineLength(s).Some? {
      var k := LineLength(s).value;
      var given := LengthOf(Strip(s[..k]));
      if Strip(s[..k]) != "" && given != Some(None) {
        HeaderIsFront(s[k..], if given.None? then length else given.value.value);
      }
    }
  }

  /** A fractional id counts as the integer next to it towards zero, and a text of digits as its
      number. */
  lemma LooseIds(n: nat, fraction: real)
    requires 0.0 <= fraction < 1.0 && n <= MAX_INT
    ensures IdNumber(Number(n as real + fraction)) == n == IdNumber(Text(Print(n)))
  {
    PrintParses(n);
  }

  /** Which bodies answer: those that decode and have an id that is the number, up to a fraction, or its text.
      Ids of any other kind, and texts that are no number, count as -1. */
  lemma AnswersExactly(body: Bytes, expected: int, decode: Bytes -> Option<Response>)
    ensures Answers(body, expected, decode) <==>
      decode(body).Some? &&
      match decode(body).value.id
      case NoId => false
      case Number(x) =>
        if x >= 0.0 then expected >= 0 && expected as real <= x < (expected + 1) as real
        else expected <= 0 && (expected - 1) as real < x <= expected as real
      case Text(s) => Atoi(s) == Some(expected) || (Atoi(s).None? && expected == -1)
      case OtherId => expected == -1
  {
  }

  // ---- headers as others write them ---------------------------------------------------------------------

  /** Input that ends before a line does, and a body that is cut off, end the stream; headers without a length
      are refused. */
  lemma {:induction false} BrokenFrames(s: Bytes, n: nat, part: Bytes)
    ensures '\n' !in s ==> ReadFrame(s) == NoFrame(EndOfInput, "")
    ensures |part| < n <= MAX_BODY ==> ReadFrame(HeaderFor(n) + part) == NoFrame(EndOfInput, "")
    ensures ReadFrame("\r\n" + part) == NoFrame(MissingLength, part)
  {
    NoLine(s);
    HeaderRead(n, part);
    BlankLine(part, 0);
  }

  lemma {:induction false} NoLine(s: Bytes)
    ensures LineLength(s).None? <==> '\n' !in s
  {
    if s != "" {
      NoLine(s[1..]);
    }
  }

  /** A line with a header, whatever its case and blanks. */
  ghost predicate HeaderLine(line: Bytes) {
    '\n' !in line && Strip(line + "\n") != ""
  }

  /** A header that is not the length is passed over, a later length replaces an earlier one, and a bad one
      refuses the frame. */
  lemma {:induction false} OneHeader(line: Bytes, more: Bytes, length: nat)
    requires HeaderLine(line)
    ensures ReadHeader(line + "\n" + more, length) ==
      (match LengthOf(Strip(line + "\n"))
       case None => ReadHeader(more, length)
       case Some(None) => NoHeader(InvalidLength, more)
       case Some(Some(n)) => ReadHeader(more, n))
  {
    LineLengthOf(line, more);
    var s := line + "\n" + more;
    assert s[..|line| + 1] == line + "\n" && s[|line| + 1..] == more;
  }

  /** The name of the header is read in any case, and blanks around the number do not matter; the number has to
      be from 1 to 1048576. */
  lemma {:induction false} LengthsRead(name: Bytes, blanks: Bytes, n: nat)
    requires |name| == |NAME| && forall i :: 0 <= i < |name| ==> LowerByte(name[i]) == "content-length:"[i]
    requires forall i :: 0 <= i < |blanks| ==> blanks[i] == ' ' || blanks[i] == '\t'
    ensures LengthOf(name + blanks + Print(n)) == Some(if 1 <= n <= 1048576 then Some(n) else None)
    ensures LengthOf(name + blanks) == Some(None) && LengthOf(name + blanks + "-" + Print(n)) == Some(None)
  {
    PrintDigits(n);
    PrintParses(n);
    LowerConcat(name, blanks, Print(n));
    LowerConcat(name, blanks, "-" + Print(n));
    LowerConcat(name, blanks, "");
    BlanksStripped(blanks, Print(n));
    BlanksStripped(blanks, "-" + Print(n));
    BlanksAlone(blanks);
    assert name + blanks + "-" + Print(n) == name + blanks + ("-" + Print(n));
    assert name + blanks + "" == name + blanks && blanks + "" == blanks;
    NegativeParses(n);
  }

  lemma NegativeParses(n: nat)
    ensures Atoi("-" + Print(n)).Some? ==> Atoi("-" + Print(n)).value <= 0
  {
    PrintDigits(n);
  }

  lemma LowerConcat(name: Bytes, blanks: Bytes, number: Bytes)
    requires |name| == |NAME| && forall i :: 0 <= i < |name| ==> LowerByte(name[i]) == "content-length:"[i]
    requires forall i :: 0 <= i < |blanks| ==> blanks[i] == ' ' || blanks[i] == '\t'
    requires forall i :: 0 <= i < |number| ==> IsDigit(number[i]) || number[i] == '-'
    ensures var lower := LowerBytes(name + blanks + number);
      NAME <= lower && lower[|NAME|..] == blanks + number
  {
    var line := name + blanks + number;
    assert LowerBytes(line)[..|NAME|] == NAME;
    assert LowerBytes(line)[|NAME|..] == blanks + number;
  }

  lemma {:induction false} BlanksStripped(blanks: Bytes, s: Bytes)
    requires forall i :: 0 <= i < |blanks| ==> IsBlank(blanks[i])
    requires s != "" && !IsBlank(s[0]) && !IsBlank(s[|s| - 1])
    ensures Strip(blanks + s) == s
  {
    if blanks == "" {
      assert blanks + s == s;
      StripPlain(s);
    } else {
      BlanksStripped(blanks[1..], s);
      assert (blanks + s)[1..] == blanks[1..] + s;
    }
  }

  lemma {:induction false} BlanksAlone(blanks: Bytes)
    requires forall i :: 0 <= i < |blanks| ==> IsBlank(blanks[i])
    ensures Strip(blanks) == ""
  {
    if blanks != "" {
      BlanksAlone(blanks[1..]);
    }
  }

  /** A line that does not begin with the name is no length. */
  lemma OtherHeaders(line: Bytes)
    requires LengthOf(line).Some?
    ensures |line| >= 15 && forall i :: 0 <= i < 15 ==> LowerByte(line[i]) == "content-length:"[i]
  {
    assert LowerBytes(line)[..15] == NAME;
  }
}
