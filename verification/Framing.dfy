/** Length-prefixed messages on a byte stream (LSP 3.17, Base Protocol, Header Part). A char
    stands for one byte. */
module Framing {
  import opened Collections
  import opened Results
  import opened Strings

  const HEADER := "Content-Length: "
  const SEPARATOR := "\r" + "\n\r\n"
  const TWO_64 := 0x1_0000_0000_0000_0000

  // ---- 64-bit unsigned arithmetic ----

  /** n as a 64-bit unsigned integer holds it. */
  function Wrap64(n: nat): (w: nat)
    ensures w < TWO_64 && w <= n
  {
    if n < TWO_64 then n else Wrap64(n - TWO_64)
  }

  lemma {:induction false} WrapIsMod(n: nat)
    ensures Wrap64(n) == n % TWO_64
  {
    if n < TWO_64 {
    } else {
      WrapIsMod(n - TWO_64);
    }
  }

  lemma {:induction false} WrapAdd(n: nat, k: nat)
    ensures Wrap64(n + k * TWO_64) == Wrap64(n)
  {
    if k == 0 {
    } else {
      WrapAdd(n, k - 1);
    }
  }

  /** Wrapping before a step of the length loop or only after it comes to the same. */
  lemma {:induction false} WrapStep(v: nat, d: nat)
    ensures Wrap64(Wrap64(v) * 10 + d) == Wrap64(v * 10 + d)
  {
    if v < TWO_64 {
    } else {
      WrapStep(v - TWO_64, d);
      WrapAdd((v - TWO_64) * 10 + d, 10);
    }
  }

  lemma NextDigit(digits: string, c: char)
    requires AllDigits(digits) && IsDigit(c)
    ensures AllDigits(digits + [c])
    ensures Wrap64(ValueOf(digits + [c])) == Wrap64(Wrap64(ValueOf(digits)) * 10 + DigitOf(c))
  {
    assert (digits + [c])[..|digits|] == digits;
    WrapStep(ValueOf(digits), DigitOf(c));
  }

  // ---- Streams ----

  /** The outcome of a read, and the bytes it leaves. */
  datatype Parse = Parse(result: Result<string>, rest: string)

  function Take(s: string, len: nat): Parse {
    if len <= |s| then Parse(Success(s[..len]), s[len..]) else Parse(Failure("EOF"), "")
  }

  /** A reader over a buffer: a cursor that only advances. */
  class BufferReader {
    const data: string
    var pos: nat
    var remaining: nat

    ghost predicate Valid() reads this { pos + remaining == |data| }

    /** The bytes not read yet. */
    ghost function Rest(): string
      reads this
      requires Valid()
    {
      data[pos..]
    }

    constructor (data: string)
      ensures Valid() && Rest() == data
    {
      this.data := data;
      pos, remaining := 0, |data|;
    }

    /** Reads as many bytes as there are, at most count. */
    method Read(count: nat) returns (bytes: string)
      requires Valid()
      modifies this
      ensures Valid()
      ensures |bytes| == if count <= |old(Rest())| then count else |old(Rest())|
      ensures old(Rest()) == bytes + Rest()
    {
      var n := if count < remaining then count else remaining;
      bytes := data[pos..pos + n];
      pos := pos + n;
      remaining := remaining - n;
    }

    /** Reads exactly len bytes, or takes whatever is left and fails. */
    method String(len: nat) returns (r: Result<string>)
      requires Valid()
      modifies this
      ensures Valid() && Parse(r, Rest()) == Take(old(Rest()), len)
    {
      ghost var rest := Rest();
      var out := Read(len);
      if |out| != len {
        return Failure("EOF");
      }
      assert out == rest[..len] && Rest() == rest[len..];
      return Success(out);
    }
  }

  /** A writer that appends to a buffer. */
  class BufferWriter {
    var buffer: string

    constructor ()
      ensures buffer == ""
    {
      buffer := "";
    }

    method Write(bytes: string)
      modifies this
      ensures buffer == old(buffer) + bytes
    {
      buffer := buffer + bytes;
    }
  }

  // ---- What reading a frame means ----

  datatype LengthParse = LengthParse(result: Result<nat>, rest: string)

  /** How many digits s starts with. */
  function DigitRun(s: string): (n: nat)
    ensures n <= |s| && AllDigits(s[..n]) && (n < |s| ==> !IsDigit(s[n]))
  {
    if s == "" || !IsDigit(s[0]) then 0 else 1 + DigitRun(s[1..])
  }

  lemma {:induction false} DigitRunOf(digits: string, rest: string)
    requires AllDigits(digits) && (rest != "" ==> !IsDigit(rest[0]))
    ensures DigitRun(digits + rest) == |digits|
  {
    if digits == "" {
      assert digits + rest == rest;
    } else {
      DigitRunOf(digits[1..], rest);
      assert (digits + rest)[1..] == digits[1..] + rest;
    }
  }

  /** The numeral that s starts with, ended by a carriage return. */
  function Length(s: string): LengthParse {
    var n := DigitRun(s);
    if n == |s| then LengthParse(Failure("end of stream while parsing content length"), "")
    else if s[n] != '\r' then LengthParse(Failure("invalid content length value"), s[n + 1..])
    else LengthParse(Success(Wrap64(ValueOf(s[..n]))), s[n + 1..])
  }

  lemma LengthOf(digits: string, rest: string)
    requires AllDigits(digits) && (rest != "" ==> !IsDigit(rest[0]))
    ensures Length(digits + rest) ==
            if rest == "" then LengthParse(Failure("end of stream while parsing content length"), "")
            else if rest[0] == '\r' then LengthParse(Success(Wrap64(ValueOf(digits))), rest[1..])
            else LengthParse(Failure("invalid content length value"), rest[1..])
  {
    var s, n := digits + rest, |digits|;
    DigitRunOf(digits, rest);
    assert s[..n] == digits;
    if rest != "" {
      assert s[n] == rest[0] && s[n + 1..] == rest[1..];
    }
  }

  /** What a header read that is not the expected text reports. */
  ghost predicate HeaderMismatch(got: string, reason: string) {
    reason == "expected '" + HEADER + "' got '" + got + "'"
  }

  // The symbols for line feed and carriage return, three bytes each in UTF-8.
  const LF_SYMBOL := "\U{E2}\U{90}\U{8A}"
  const CR_SYMBOL := "\U{E2}\U{90}\U{8D}"

  /** The report about a separator whose bytes, made visible, are t. */
  function SeparatorReport(t: string): string {
    "expected '" + CR_SYMBOL + LF_SYMBOL + CR_SYMBOL + LF_SYMBOL + "' got '" + CR_SYMBOL + t + "'"
  }

  /** What a separator read that is not the expected bytes reports. */
  ghost predicate SeparatorMismatch(got: string, reason: string) {
    exists s, t ::
      Replaced(got, "\n", LF_SYMBOL, s) && Replaced(s, "\r", CR_SYMBOL, t) && reason == SeparatorReport(t)
  }

  ghost predicate ReadsBody(s: string, len: nat, p: Parse) {
    var separator := Take(s, 3);
    if separator.result.Failure? then p == separator
    else if separator.result.value != "\n\r\n" then
      p.rest == separator.rest && p.result.Failure? && SeparatorMismatch(separator.result.value, p.result.reason)
    else p == Take(separator.rest, len)
  }

  ghost predicate ReadsLength(s: string, p: Parse) {
    var length := Length(s);
    match length.result
    case Failure(_) => p == Parse(Failure(length.result.reason), length.rest)
    case Success(len) => ReadsBody(length.rest, len, p)
  }

  /** A frame is the header, a numeral, the separator, and as many bytes as the numeral says,
      counted modulo 2^64. p is the outcome of reading one frame from s. */
  ghost predicate Reads(s: string, p: Parse) {
    var header := Take(s, |HEADER|);
    if header.result.Failure? then p == header
    else if header.result.value != HEADER then
      p.rest == header.rest && p.result.Failure? && HeaderMismatch(header.result.value, p.result.reason)
    else ReadsLength(header.rest, p)
  }

  /** The bytes of one frame. */
  function Frame(content: string): string {
    HEADER + Decimal(|content|) + SEPARATOR + content
  }

  /** The bytes are the header, the length of the content as it is printed, two line ends, and the
      content. */
  ghost predicate IsFrame(bytes: string, content: string) {
    exists numeral ::
      PrintedAs(|content|, numeral) && bytes == "Content-Length: " + numeral + ("\r" + "\n\r\n") + content
  }

  lemma FrameBytes(bytes: string, content: string)
    ensures bytes == Frame(content) <==> IsFrame(bytes, content)
  {
    DecimalIsPrinted(|content|, Decimal(|content|));
    if IsFrame(bytes, content) {
      var numeral :| PrintedAs(|content|, numeral) &&
        bytes == "Content-Length: " + numeral + ("\r" + "\n\r\n") + content;
      DecimalIsPrinted(|content|, numeral);
    }
  }

  // ---- The operations ----

  method Match(reader: BufferReader, str: string) returns (r: Result<string>)
    requires reader.Valid()
    modifies reader
    ensures reader.Valid()
    ensures var got := Take(old(reader.Rest()), |str|);
            && reader.Rest() == got.rest
            && (got.result.Failure? ==> r == got.result)
            && (got.result.Success? ==>
                 if got.result.value == str then r.Success?
                 else r == Failure("expected '" + str + "' got '" + got.result.value + "'"))
  {
    r := reader.String(|str|);
    if r.Success? && r.value != str {
      return Failure("expected '" + str + "' got '" + r.value + "'");
    }
  }

  /** The loop over the digits, in 64-bit arithmetic. */
  method ReadLength(reader: BufferReader) returns (r: Result<nat>)
    requires reader.Valid()
    modifies reader
    ensures reader.Valid() && LengthParse(r, reader.Rest()) == Length(old(reader.Rest()))
  {
    ghost var s, digits := reader.Rest(), "";
    var len := 0;
    while true
      invariant reader.Valid() && s == digits + reader.Rest() && AllDigits(digits)
      invariant len == Wrap64(ValueOf(digits))
      decreases |reader.Rest()|
    {
      ghost var rest := reader.Rest();
      var read := reader.Read(1);
      if |read| != 1 {
        LengthOf(digits, rest);
        return Failure("end of stream while parsing content length");
      }
      var c := read[0];
      assert read == [c];
      if '0' <= c <= '9' {
        NextDigit(digits, c);
        len := Wrap64(len * 10 + (c as int - '0' as int));
        AssociateThree(digits, [c], reader.Rest());
        digits := digits + [c];
        continue;
      }
      LengthOf(digits, rest);
      if c == '\r' {
        return Success(len);
      }
      return Failure("invalid content length value");
    }
  }

  method ReadBody(reader: BufferReader, len: nat) returns (r: Result<string>)
    requires reader.Valid()
    modifies reader
    ensures reader.Valid() && ReadsBody(old(reader.Rest()), len, Parse(r, reader.Rest()))
  {
    var got := reader.String(3);
    if got.Failure? {
      return got;
    }
    if got.value != "\n\r\n" {
      var fmt := ReplaceAll(got.value, "\n", LF_SYMBOL);
      fmt := ReplaceAll(fmt, "\r", CR_SYMBOL);
      return Failure(SeparatorReport(fmt));
    }
    r := reader.String(len);
  }

  method ReadContent(reader: BufferReader) returns (r: Result<string>)
    requires reader.Valid()
    modifies reader
    ensures reader.Valid() && Reads(old(reader.Rest()), Parse(r, reader.Rest()))
  {
    var matched := Match(reader, HEADER);
    if matched.Failure? {
      return matched;
    }
    var len := ReadLength(reader);
    if len.Failure? {
      return Failure(len.reason);
    }
    r := ReadBody(reader, len.value);
  }

  method WriteContent(writer: BufferWriter, content: string)
    modifies writer
    ensures writer.buffer == old(writer.buffer) + Frame(content)
    ensures exists bytes :: writer.buffer == old(writer.buffer) + bytes && IsFrame(bytes, content)
  {
    assert "\r\n\r\n" == SEPARATOR;
    var ss := HEADER + Decimal(|content|) + "\r\n\r\n" + content;
    FrameBytes(ss, content);
    writer.Write(ss);
  }

  // ---- Frames ----

  /** Any numeral, with leading zeros or with no digits at all, is read as the number it denotes
      exactly when that number fits 64 bits. */
  lemma NumeralReadExactly(digits: string, rest: string)
    requires AllDigits(digits)
    ensures Length(digits + "\r" + rest) == LengthParse(Success(ValueOf(digits)), rest) <==> ValueOf(digits) < TWO_64
  {
    assert digits + "\r" + rest == digits + ("\r" + rest);
    LengthOf(digits, "\r" + rest);
    assert ("\r" + rest)[1..] == rest;
  }

  lemma MismatchIsUnique(got: string, a: string, b: string)
    requires SeparatorMismatch(got, a) && SeparatorMismatch(got, b)
    ensures a == b
  {
    var s, t :| Replaced(got, "\n", LF_SYMBOL, s) && Replaced(s, "\r", CR_SYMBOL, t) &&
      a == SeparatorReport(t);
    var u, v :| Replaced(got, "\n", LF_SYMBOL, u) && Replaced(u, "\r", CR_SYMBOL, v) &&
      b == SeparatorReport(v);
    ReplacedIsUnique(got, "\n", LF_SYMBOL, s, u);
    ReplacedIsUnique(s, "\r", CR_SYMBOL, t, v);
  }

  /** Reading has one outcome. */
  lemma ReadsOneOutcome(s: string, p: Parse, q: Parse)
    requires Reads(s, p) && Reads(s, q)
    ensures p == q
  {
    var header := Take(s, |HEADER|);
    if header.result.Success? && header.result.value == HEADER && Length(header.rest).result.Success? {
      var separator := Take(Length(header.rest).rest, 3);
      if separator.result.Success? && separator.result.value != "\n\r\n" {
        MismatchIsUnique(separator.result.value, p.result.reason, q.result.reason);
      }
    }
  }

  /** What reading does after the header of a frame. */
  lemma ReadsAfterHeader(s: string, p: Parse)
    ensures Reads(HEADER + s, p) <==> ReadsLength(s, p)
  {
    assert (HEADER + s)[..|HEADER|] == HEADER && (HEADER + s)[|HEADER|..] == s;
  }

  /** What reading does after the header and numeral of a frame. */
  lemma ReadsAfterNumeral(n: nat, s: string, p: Parse)
    ensures Reads(HEADER + Decimal(n) + "\r" + s, p) <==> ReadsBody(s, Wrap64(n), p)
  {
    var t := Decimal(n) + ("\r" + s);
    assert HEADER + Decimal(n) + "\r" + s == HEADER + t;
    ReadsAfterHeader(t, p);
    LengthOf(Decimal(n), "\r" + s);
    assert ("\r" + s)[1..] == s;
  }

  lemma ReadsAfterSeparator(s: string, len: nat, p: Parse)
    ensures ReadsBody("\n\r\n" + s, len, p) <==> p == Take(s, len)
  {
    assert ("\n\r\n" + s)[..3] == "\n\r\n" && ("\n\r\n" + s)[3..] == s;
  }

  lemma SplitPrefix(a: string, b: string, s: string)
    requires s < a + b && |a| <= |s|
    ensures s == a + s[|a|..] && s[|a|..] == b[..|s| - |a|] && |s| - |a| < |b|
  {
  }

  lemma FrameParts(content: string, rest: string)
    ensures Frame(content) + rest == HEADER + Decimal(|content|) + "\r" + ("\n\r\n" + (content + rest))
  {
    AssociateFive(HEADER + Decimal(|content|), "\r", "\n\r\n", content, rest);
  }

  lemma TakeExactly(content: string, rest: string, len: nat)
    ensures Take(content + rest, len) == Parse(Success(content), rest) <==> len == |content|
  {
    var s := content + rest;
    assert s[..|content|] == content && s[|content|..] == rest;
    assert len <= |s| ==> |s[..len]| == len;
  }

  /** A frame is read back, and the reader left right behind it, exactly when the length of its
      content fits 64 bits. */
  lemma FrameRoundTripIff(content: string, rest: string)
    ensures Reads(Frame(content) + rest, Parse(Success(content), rest)) <==> |content| < TWO_64
  {
    var n := |content|;
    var p := Parse(Success(content), rest);
    var body := content + rest;
    FrameParts(content, rest);
    ReadsAfterNumeral(n, "\n\r\n" + body, p);
    ReadsAfterSeparator(body, Wrap64(n), p);
    TakeExactly(content, rest, Wrap64(n));
  }

  function Frames(messages: seq<string>): string {
    if messages == [] then "" else Frame(messages[0]) + Frames(messages[1..])
  }

  /** Reading |messages| frames from s in turn yields the messages and leaves rest. */
  ghost predicate ReadsAll(s: string, messages: seq<string>, rest: string) {
    if messages == [] then s == rest
    else exists next :: Reads(s, Parse(Success(messages[0]), next)) && ReadsAll(next, messages[1..], rest)
  }

  ghost predicate Fit(messages: seq<string>) {
    forall i :: 0 <= i < |messages| ==> |messages[i]| < TWO_64
  }

  /** Messages written one after the other are read back one by one, with nothing lost. */
  lemma {:induction false} FramesRoundTrip(messages: seq<string>, rest: string)
    requires Fit(messages)
    ensures ReadsAll(Frames(messages) + rest, messages, rest)
  {
    if messages == [] {
      assert Frames(messages) + rest == rest;
    } else {
      var tail := Frames(messages[1..]) + rest;
      FrameRoundTripIff(messages[0], tail);
      FramesRoundTrip(messages[1..], rest);
      AssociateThree(Frame(messages[0]), Frames(messages[1..]), rest);
    }
  }

  /** Reading a given number of frames has one outcome. */
  lemma {:induction false} ReadsAllOneOutcome(s: string, a: seq<string>, b: seq<string>, x: string, y: string)
    requires |a| == |b| && ReadsAll(s, a, x) && ReadsAll(s, b, y)
    ensures a == b && x == y
  {
    if a == [] {
    } else {
      var n :| Reads(s, Parse(Success(a[0]), n)) && ReadsAll(n, a[1..], x);
      var m :| Reads(s, Parse(Success(b[0]), m)) && ReadsAll(m, b[1..], y);
      ReadsOneOutcome(s, Parse(Success(a[0]), n), Parse(Success(b[0]), m));
      ReadsAllOneOutcome(n, a[1..], b[1..], x, y);
    }
  }

  lemma BodyNeedsAll(content: string, body: string, p: Parse)
    requires body < "\n\r\n" + content && ReadsBody(body, |content|, p)
    ensures p.result.Failure?
  {
    if |body| >= 3 {
      SplitPrefix("\n\r\n", content, body);
      ReadsAfterSeparator(body[3..], |content|, p);
    }
  }

  lemma CutBodyFails(content: string, body: string, p: Parse)
    requires |content| < TWO_64 && body < "\n\r\n" + content
    requires Reads(HEADER + Decimal(|content|) + "\r" + body, p)
    ensures p.result.Failure?
  {
    ReadsAfterNumeral(|content|, body, p);
    BodyNeedsAll(content, body, p);
  }

  lemma CutNumeralFails(digits: string, p: Parse)
    requires AllDigits(digits) && Reads(HEADER + digits, p)
    ensures p.result.Failure?
  {
    ReadsAfterHeader(digits, p);
    LengthOf(digits, "");
    assert digits + "" == digits;
  }

  /** A frame that is cut short anywhere is not read. */
  lemma CutFrameFails(content: string, cut: string, p: Parse)
    requires |content| < TWO_64 && cut < Frame(content) && Reads(cut, p)
    ensures p.result.Failure?
  {
    var head := HEADER + Decimal(|content|) + "\r";
    var tail := "\n\r\n" + content;
    FrameParts(content, "");
    assert content + "" == content && Frame(content) + "" == Frame(content);
    if |cut| >= |head| {
      SplitPrefix(head, tail, cut);
      CutBodyFails(content, cut[|head|..], p);
    } else if |cut| >= |HEADER| {
      AssociateFour(HEADER, Decimal(|content|), "\r", tail);
      SplitPrefix(HEADER, Decimal(|content|) + ("\r" + tail), cut);
      CutNumeralFails(cut[|HEADER|..], p);
    }
  }

  lemma FramesNotEmpty(messages: seq<string>)
    ensures Frames(messages) == "" <==> messages == []
  {
    if messages != [] {
      FrameBytes(Frame(messages[0]), messages[0]);
    }
  }

  /** Lists of messages that are written as the same bytes are the same. */
  lemma {:induction false} FramesAreUnique(a: seq<string>, b: seq<string>)
    requires Fit(a) && Fit(b) && Frames(a) == Frames(b)
    ensures a == b
  {
    hide Reads, Frame;
    FramesNotEmpty(a);
    FramesNotEmpty(b);
    if a == [] || b == [] {
    } else {
      FrameRoundTripIff(a[0], Frames(a[1..]));
      FrameRoundTripIff(b[0], Frames(b[1..]));
      ReadsOneOutcome(Frames(a), Parse(Success(a[0]), Frames(a[1..])), Parse(Success(b[0]), Frames(b[1..])));
      FramesAreUnique(a[1..], b[1..]);
    }
  }
}
