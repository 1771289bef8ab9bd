/** The Content-Length framing of the Debug Adapter Protocol's base protocol, byte for byte. Bodies are opaque. */
module Framing {
  import opened Wrappers
  import opened Bytes
  import opened UnicodeText

  /** The largest length honoured, 64 MiB. A length that overflows the machine word is refused alike. */
  const MAX_CONTENT_LENGTH: nat := 64 * 1024 * 1024

  const LF: byte := 0x0A

  datatype WireError =
    | Eof
    | UnexpectedEof
    | InvalidUtf8
    | MissingContentLength
    | InvalidContentLength(value: string)

  // --- text ---

  predicate Continuation(b: byte, low: byte, high: byte) {
    low <= b <= high
  }

  function Scalar(n: int): Option<string> {
    if 0 <= n < 0xD800 || 0xE000 <= n < 0x11_0000 then Some([n as char]) else None
  }

  /** The length of the well-formed UTF-8 sequence at the front, 0 if there is none. */
  function Unit(s: seq<byte>): nat
    requires s != []
  {
    var b := s[0];
    if b < 0x80 then 1
    else if 0xC2 <= b <= 0xDF && |s| >= 2 && Continuation(s[1], 0x80, 0xBF) then 2
    else if 0xE0 <= b <= 0xEF && |s| >= 3
            && Continuation(s[1], if b == 0xE0 then 0xA0 else 0x80, if b == 0xED then 0x9F else 0xBF)
            && Continuation(s[2], 0x80, 0xBF) then 3
    else if 0xF0 <= b <= 0xF4 && |s| >= 4
            && Continuation(s[1], if b == 0xF0 then 0x90 else 0x80, if b == 0xF4 then 0x8F else 0xBF)
            && Continuation(s[2], 0x80, 0xBF) && Continuation(s[3], 0x80, 0xBF) then 4
    else 0
  }

  function Value(s: seq<byte>): int
    requires s != []
  {
    var n := Unit(s);
    if n == 1 then s[0] as int
    else if n == 2 && |s| >= 2 then (s[0] as int - 0xC0) * 0x40 + (s[1] as int - 0x80)
    else if n == 3 && |s| >= 3 then (s[0] as int - 0xE0) * 0x1000 + (s[1] as int - 0x80) * 0x40 + (s[2] as int - 0x80)
    else if n == 4 && |s| >= 4 then
      (s[0] as int - 0xF0) * 0x4_0000 + (s[1] as int - 0x80) * 0x1000 + (s[2] as int - 0x80) * 0x40
          + (s[3] as int - 0x80)
    else -1
  }

  function Utf8(s: seq<byte>): Option<string> {
    if s == [] then Some("")
    else
      var (n, first) := (Unit(s), Scalar(Value(s)));
      if n == 0 || n > |s| || first.None? then None
      else
        var rest := Utf8(s[n..]);
        if rest.None? then None else Some(first.value + rest.value)
  }

  lemma {:induction false} AsciiIsUtf8(s: string)
    requires IsAscii(s)
    ensures Utf8(Ascii(s)) == Some(s)
  {
    if s != "" {
      AsciiIsUtf8(s[1..]);
      assert Ascii(s)[1..] == Ascii(s[1..]);
      assert Scalar(Value(Ascii(s))) == Some([s[0]]);
      assert s == [s[0]] + s[1..];
    }
  }

  /** The encoding of one scalar value, as RFC 3629 lays out its bits in section 3. */
  function Encode(c: char): (bytes: seq<byte>)
    ensures bytes != []
  {
    var n := c as int;
    if n < 0x80 then [n as byte]
    else if n < 0x800 then [(0xC0 + n / 0x40) as byte, (0x80 + n % 0x40) as byte]
    else if n < 0x1_0000 then
      [(0xE0 + n / 0x1000) as byte, (0x80 + n / 0x40 % 0x40) as byte, (0x80 + n % 0x40) as byte]
    else
      [(0xF0 + n / 0x4_0000) as byte, (0x80 + n / 0x1000 % 0x40) as byte, (0x80 + n / 0x40 % 0x40) as byte,
       (0x80 + n % 0x40) as byte]
  }

  function Encoded(s: string): seq<byte> {
    if s == "" then [] else Encode(s[0]) + Encoded(s[1..])
  }

  /** What is encoded is found as one unit, with its value. */
  lemma UnitOfEncoded(c: char, rest: seq<byte>)
    ensures Unit(Encode(c) + rest) == |Encode(c)| && Value(Encode(c) + rest) == c as int
  {
    var n := c as int;
    if 0x80 <= n < 0x800 {
      UnitOfTwo(c, rest);
    } else if 0x800 <= n < 0x1_0000 {
      UnitOfThree(c, rest);
    } else if 0x1_0000 <= n {
      UnitOfFour(c, rest);
    }
  }

  lemma UnitOfTwo(c: char, rest: seq<byte>)
    requires 0x80 <= c as int < 0x800
    ensures |Encode(c)| == 2 && Unit(Encode(c) + rest) == 2 && Value(Encode(c) + rest) == c as int
  {
  }

  lemma UnitOfThree(c: char, rest: seq<byte>)
    requires 0x800 <= c as int < 0x1_0000
    ensures |Encode(c)| == 3 && Unit(Encode(c) + rest) == 3 && Value(Encode(c) + rest) == c as int
  {
    assert c as int / 0x1000 == c as int / 0x40 / 0x40;
  }

  lemma UnitOfFour(c: char, rest: seq<byte>)
    requires 0x1_0000 <= c as int
    ensures |Encode(c)| == 4 && Unit(Encode(c) + rest) == 4 && Value(Encode(c) + rest) == c as int
  {
    assert c as int / 0x1000 == c as int / 0x40 / 0x40;
    assert c as int / 0x4_0000 == c as int / 0x1000 / 0x40;
  }

  lemma SixBits(high: nat, low: nat)
    requires low < 0x40
    ensures (high * 0x40 + low) / 0x40 == high && (high * 0x40 + low) % 0x40 == low
  {
  }

  lemma TwoUnits(s: seq<byte>)
    requires s != [] && Unit(s) == 2
    ensures 2 <= |s| && 0x80 <= Value(s) < 0x800 && Encode(Value(s) as char) == s[..2]
  {
    SixBits(s[0] as nat - 0xC0, s[1] as nat - 0x80);
  }

  lemma ThreeUnits(s: seq<byte>)
    requires s != [] && Unit(s) == 3
    ensures 3 <= |s| && 0x800 <= Value(s) < 0x1_0000 && !(0xD800 <= Value(s) < 0xE000)
    ensures Encode(Value(s) as char) == s[..3]
  {
    var high := (s[0] as nat - 0xE0) * 0x40 + (s[1] as nat - 0x80);
    assert Value(s) == high * 0x40 + (s[2] as nat - 0x80);
    SixBits(high, s[2] as nat - 0x80);
    SixBits(s[0] as nat - 0xE0, s[1] as nat - 0x80);
    assert Value(s) / 0x1000 == high / 0x40;
  }

  lemma FourUnits(s: seq<byte>)
    requires s != [] && Unit(s) == 4
    ensures 4 <= |s| && 0x1_0000 <= Value(s) < 0x11_0000
    ensures Encode(Value(s) as char) == s[..4]
  {
    var top := (s[0] as nat - 0xF0) * 0x40 + (s[1] as nat - 0x80);
    var high := top * 0x40 + (s[2] as nat - 0x80);
    assert Value(s) == high * 0x40 + (s[3] as nat - 0x80);
    SixBits(high, s[3] as nat - 0x80);
    SixBits(top, s[2] as nat - 0x80);
    SixBits(s[0] as nat - 0xF0, s[1] as nat - 0x80);
    assert Value(s) / 0x1000 == high / 0x40 && Value(s) / 0x4_0000 == top / 0x40;
  }

  /** What is found as one unit is the encoding of its value: no overlong form, surrogate or larger value is. */
  lemma UnitIsEncoded(s: seq<byte>)
    requires s != [] && Unit(s) > 0
    ensures Unit(s) <= |s| && Scalar(Value(s)).Some? && Encode(Scalar(Value(s)).value[0]) == s[..Unit(s)]
  {
    match Unit(s)
    case 2 => TwoUnits(s);
    case 3 => ThreeUnits(s);
    case 4 => FourUnits(s);
    case _ =>
  }

  lemma {:induction false} DecodesEncoded(text: string)
    ensures Utf8(Encoded(text)) == Some(text)
  {
    if text != "" {
      var rest := Encoded(text[1..]);
      UnitOfEncoded(text[0], rest);
      DecodesEncoded(text[1..]);
      assert (Encode(text[0]) + rest)[|Encode(text[0])|..] == rest;
      assert text == [text[0]] + text[1..];
    }
  }

  lemma EncodesOneMore(bytes: seq<byte>, n: nat, first: string, rest: string)
    requires n <= |bytes| && |first| == 1 && bytes[..n] == Encode(first[0]) && bytes[n..] == Encoded(rest)
    ensures bytes == Encoded(first + rest)
  {
    assert (first + rest)[1..] == rest;
    assert bytes == bytes[..n] + bytes[n..];
  }

  lemma {:induction false} EncodesDecoded(bytes: seq<byte>)
    ensures Utf8(bytes).Some? ==> bytes == Encoded(Utf8(bytes).value)
  {
    if bytes != [] && Utf8(bytes).Some? {
      DecodesOne(bytes);
      EncodesDecoded(bytes[Unit(bytes)..]);
      EncodesOneMore(bytes, Unit(bytes), Scalar(Value(bytes)).value, Utf8(bytes[Unit(bytes)..]).value);
    }
  }

  /** Decoding accepts exactly the encodings of texts, and yields that text. */
  lemma Utf8Exactly(bytes: seq<byte>, text: string)
    ensures Utf8(bytes) == Some(text) <==> bytes == Encoded(text)
  {
    DecodesEncoded(text);
    EncodesDecoded(bytes);
  }

  lemma DecodesOne(bytes: seq<byte>)
    requires bytes != []
    ensures Utf8(bytes).Some? ==> Unit(bytes) > 0
    ensures Unit(bytes) > 0 ==>
              && Unit(bytes) <= |bytes| && Scalar(Value(bytes)).Some?
              && bytes[..Unit(bytes)] == Encode(Scalar(Value(bytes)).value[0])
              && (Utf8(bytes).Some? <==> Utf8(bytes[Unit(bytes)..]).Some?)
              && (Utf8(bytes).Some? ==>
                    Utf8(bytes).value == Scalar(Value(bytes)).value + Utf8(bytes[Unit(bytes)..]).value)
  {
    if Unit(bytes) > 0 {
      UnitIsEncoded(bytes);
    }
  }

  function TrimEnd(s: string): string {
    if s == [] || !IsWhitespace(s[|s| - 1]) then s else TrimEnd(s[..|s| - 1])
  }

  /** Strip every trailing carriage return and line feed. */
  function TrimLineEnd(s: string): string {
    if s == [] || (s[|s| - 1] != '\r' && s[|s| - 1] != '\n') then s else TrimLineEnd(s[..|s| - 1])
  }

  // --- numbers ---

  function Digit(d: nat): char
    requires d < 10
  {
    '0' + d as char
  }

  function Decimal(n: nat): string {
    if n < 10 then [Digit(n)] else Decimal(n / 10) + [Digit(n % 10)]
  }

  function Digits(s: string): Option<nat> {
    if s == "" then Some(0)
    else
      var front := Digits(s[..|s| - 1]);
      if front.None? || !('0' <= s[|s| - 1] <= '9') then None
      else Some(10 * front.value + (s[|s| - 1] - '0') as nat)
  }

  lemma {:induction false} DigitsExactly(s: string)
    ensures Digits(s).Some? <==> forall i | 0 <= i < |s| :: '0' <= s[i] <= '9'
  {
    if s != "" {
      var n := |s| - 1;
      DigitsExactly(s[..n]);
      assert s == s[..n] + [s[n]];
    }
  }

  /** One optional plus sign, then at least one digit. */
  function ParseLength(s: string): Option<nat> {
    var digits := if s != "" && s[0] == '+' then s[1..] else s;
    if digits == "" then None else Digits(digits)
  }

  predicate IsNumber(s: string) {
    s != "" && forall i | 0 <= i < |s| :: '0' <= s[i] <= '9'
  }

  /** Exactly the texts that a length may have. */
  lemma ParsesExactly(s: string)
    ensures ParseLength(s).Some? <==> IsNumber(s) || (s != "" && s[0] == '+' && IsNumber(s[1..]))
  {
    DigitsExactly(s);
    if s != "" {
      DigitsExactly(s[1..]);
    }
  }

  lemma {:induction false} DecimalParses(n: nat)
    ensures Digits(Decimal(n)) == Some(n)
    ensures Decimal(n) != "" && forall i | 0 <= i < |Decimal(n)| :: '0' <= Decimal(n)[i] <= '9'
  {
    if n >= 10 {
      DecimalParses(n / 10);
      assert Decimal(n)[..|Decimal(n)| - 1] == Decimal(n / 10);
    } else {
      assert Decimal(n)[..0] == "";
    }
  }

  // --- the reader ---

  const FIELD := "Content-Length:"

  datatype Field = Blank | Length(n: nat) | BadLength(value: string) | Other

  /** What one decoded header line says, if lengths are announced by `name`. */
  function FieldIn(name: string, line: string): Field {
    var trimmed := TrimLineEnd(line);
    if trimmed == "" then Blank
    else if name <= trimmed then
      var value := TrimEnd(TrimStart(trimmed[|name|..]));
      var parsed := ParseLength(value);
      if parsed.Some? && parsed.value <= MAX_CONTENT_LENGTH then Length(parsed.value) else BadLength(value)
    else Other
  }

  function FieldOf(line: string): Field {
    FieldIn(FIELD, line)
  }

  /** How many bytes a line read takes: through the first line feed, or all there is. */
  function LineLength(input: seq<byte>): (n: nat)
    ensures n <= |input|
    ensures n == 0 <==> input == []
  {
    if input == [] then 0 else if input[0] == LF then 1 else 1 + LineLength(input[1..])
  }

  /** The header block: the length it declares and what follows it. */
  function Header(input: seq<byte>, length: Option<nat>, first: bool): (r: Result<(nat, seq<byte>), WireError>)
    ensures r.Success? ==> |r.value.1| < |input|
    decreases |input|
  {
    if input == [] then Failure(if first then Eof else UnexpectedEof)
    else
      var (n, line) := (LineLength(input), Utf8(input[..LineLength(input)]));
      if line.None? then Failure(InvalidUtf8)
      else
        match FieldOf(line.value)
        case Blank => if length.Some? then Success((length.value, input[n..])) else Failure(MissingContentLength)
        case Length(m) => Header(input[n..], Some(m), false)
        case BadLength(value) => Failure(InvalidContentLength(value))
        case Other => Header(input[n..], length, false)
  }

  /** One frame: its body and what follows it. */
  function ReadFrame(input: seq<byte>): Result<(seq<byte>, seq<byte>), WireError> {
    match Header(input, None, true)
    case Failure(error) => Failure(error)
    case Success((n, rest)) => if n > |rest| then Failure(UnexpectedEof) else Success((rest[..n], rest[n..]))
  }

  /** A buffered reader over a stream that ends after `input`. */
  class Reader {
    var input: seq<byte>

    constructor (input: seq<byte>)
      ensures this.input == input
    {
      this.input := input;
    }

    /** Consume a line and decode it. The bytes are gone even when they do not decode. */
    method ReadLine() returns (n: nat, line: Option<string>)
      modifies this
      ensures n == LineLength(old(input)) && line == Utf8(old(input)[..n]) && input == old(input)[n..]
    {
      n := 0;
      while n < |input| && (n == 0 || input[n - 1] != LF)
        invariant n <= |input| && input == old(input)
        invariant LineLength(input) == n + (if n > 0 && input[n - 1] == LF then 0 else LineLength(input[n..]))
      {
        assert input[n..][1..] == input[n + 1..];
        n := n + 1;
      }
      line := Utf8(input[..n]);
      input := input[n..];
    }

    method ReadHeader() returns (r: Result<nat, WireError>)
      modifies this
      ensures match Header(old(input), None, true)
              case Success((n, rest)) => r == Success(n) && input == rest
              case Failure(error) => r == Failure(error)
    {
      var contentLength: Option<nat> := None;
      var firstLine := true;
      while true
        invariant Header(input, contentLength, firstLine) == Header(old(input), None, true)
        decreases |input|
      {
        var n, line := ReadLine();
        if n == 0 {
          return Failure(if firstLine then Eof else UnexpectedEof);
        }
        if line.None? {
          return Failure(InvalidUtf8);
        }
        firstLine := false;
        var trimmed := TrimLineEnd(line.value);
        if trimmed == "" {
          break;
        }
        if FIELD <= trimmed {
          var value := TrimEnd(TrimStart(trimmed[|FIELD|..]));
          var parsed := ParseLength(value);
          if parsed.None? || parsed.value > MAX_CONTENT_LENGTH {
            return Failure(InvalidContentLength(value));
          }
          contentLength := parsed;
        }
      }
      return if contentLength.Some? then Success(contentLength.value) else Failure(MissingContentLength);
    }

    method ReadMessage() returns (r: Result<seq<byte>, WireError>)
      modifies this
      ensures match ReadFrame(old(input))
              case Success((body, rest)) => r == Success(body) && input == rest
              case Failure(error) => r == Failure(error)
    {
      var header := ReadHeader();
      if header.Failure? {
        return Failure(header.error);
      }
      if header.value > |input| {
        input := [];
        return Failure(UnexpectedEof);
      }
      r := Success(input[..header.value]);
      input := input[header.value..];
    }
  }

  // --- the writer ---

  function LengthLine(n: nat): string {
    FIELD + " " + Decimal(n) + "\r\n"
  }

  lemma LengthLineIsAscii(n: nat)
    ensures IsAscii(LengthLine(n)) && |LengthLine(n)| > 2
  {
    DecimalParses(n);
    assert IsAscii(FIELD) && IsAscii(" ") && IsAscii("\r\n") && IsAscii(Decimal(n));
  }

  function Framed(body: seq<byte>): seq<byte> {
    LengthLineIsAscii(|body|);
    Ascii(LengthLine(|body|)) + Ascii("\r\n") + body
  }

  lemma FieldText()
    ensures IsAscii(FIELD) && IsAscii(" ") && FIELD + " " == "Content-Length: "
  {
  }

  lemma EndText()
    ensures IsAscii("\r\n") && "\r\n" + "\r\n" == "\r\n\r\n"
  {
  }

  /** A frame, spelled out. */
  lemma FrameIs(body: seq<byte>)
    ensures IsAscii("Content-Length: ") && IsAscii(Decimal(|body|)) && IsAscii("\r\n\r\n")
    ensures Framed(body) == Ascii("Content-Length: ") + Ascii(Decimal(|body|)) + Ascii("\r\n\r\n") + body
  {
    var digits := Decimal(|body|);
    DecimalParses(|body|);
    FieldText();
    EndText();
    TwoLines(FIELD, " ", digits, "\r\n");
    LengthLineIsAscii(|body|);
  }

  lemma TwoLines(name: string, gap: string, digits: string, end: string)
    requires IsAscii(name) && IsAscii(gap) && IsAscii(digits) && IsAscii(end)
    ensures IsAscii(name + gap + digits + end) && IsAscii(name + gap) && IsAscii(end + end)
    ensures Ascii(name + gap + digits + end) + Ascii(end) == Ascii(name + gap) + Ascii(digits) + Ascii(end + end)
  {
  }

  class Writer {
    var output: seq<byte>

    constructor ()
      ensures output == []
    {
      output := [];
    }

    /** Write all of it, or fail with any part of it written. */
    method WriteAll(bytes: seq<byte>) returns (ok: bool)
      modifies this
      ensures ok ==> output == old(output) + bytes
      ensures !ok ==> exists part :: part <= bytes && output == old(output) + part
    {
      var written: int := *;
      if 0 <= written < |bytes| {
        output := output + bytes[..written];
        return false;
      }
      ok := *;
      output := output + bytes;
    }

    /**
     * The body is serialised first, so that the length in the header is exact. A write can fail, in
     * either half or when flushing, and then the peer has seen a part of the frame, or all of it.
     */
    method WriteMessage(body: seq<byte>) returns (ok: bool)
      modifies this
      ensures ok ==> output == old(output) + Framed(body)
      ensures !ok ==> exists part :: part <= Framed(body) && output == old(output) + part
    {
      LengthLineIsAscii(|body|);
      var header := Ascii(LengthLine(|body|)) + Ascii("\r\n");
      ok := WriteAll(header);
      if !ok {
        ghost var part :| part <= header && output == old(output) + part;
        assert part <= Framed(body);
        return;
      }
      ok := WriteAll(body);
      if !ok {
        ghost var part :| part <= body && output == old(output) + header + part;
        assert header + part <= Framed(body) && output == old(output) + (header + part);
        return;
      }
      assert output == old(output) + Framed(body);
      var flushed: bool := *;
      ok := flushed;
      assert Framed(body) <= Framed(body);
    }
  }

  // --- reading back what was written ---

  predicate IsLine(line: seq<byte>) {
    line != [] && line[|line| - 1] == LF && forall i | 0 <= i < |line| - 1 :: line[i] != LF
  }

  lemma {:induction false} LineIsRead(line: seq<byte>, rest: seq<byte>)
    requires IsLine(line)
    ensures LineLength(line + rest) == |line|
  {
    if |line| > 1 {
      LineIsRead(line[1..], rest);
      assert (line + rest)[1..] == line[1..] + rest;
    }
  }

  lemma {:induction false} PartialLineIsRead(part: seq<byte>)
    requires LF !in part
    ensures LineLength(part) == |part|
  {
    if part != [] {
      PartialLineIsRead(part[1..]);
    }
  }

  /** A complete line at the front is taken off, and its field decides how to go on. */
  lemma HeaderLine(line: seq<byte>, text: string, rest: seq<byte>, length: Option<nat>, first: bool)
    requires IsLine(line) && Utf8(line) == Some(text)
    ensures Header(line + rest, length, first) ==
            match FieldOf(text)
            case Blank => if length.Some? then Success((length.value, rest)) else Failure(MissingContentLength)
            case Length(m) => Header(rest, Some(m), false)
            case BadLength(value) => Failure(InvalidContentLength(value))
            case Other => Header(rest, length, false)
  {
    LineIsRead(line, rest);
    assert (line + rest)[..|line|] == line && (line + rest)[|line|..] == rest;
  }

  lemma BlankLineIsBlank()
    ensures IsAscii("\r\n") && IsLine(Ascii("\r\n")) && Utf8(Ascii("\r\n")) == Some("\r\n") && FieldOf("\r\n") == Blank
  {
    AsciiIsUtf8("\r\n");
    assert "\r\n"[..1] == "\r" && "\r"[..0] == "";
  }

  lemma TrimsLineEnd(text: string)
    requires text != "" && text[|text| - 1] != '\r' && text[|text| - 1] != '\n'
    ensures TrimLineEnd(text + "\r\n") == text
  {
    TrimsOne(text + "\r", '\n');
    TrimsOne(text, '\r');
    assert text + "\r" + "\n" == text + "\r\n";
  }

  lemma TrimsOne(text: string, c: char)
    requires c == '\r' || c == '\n'
    ensures TrimLineEnd(text + [c]) == TrimLineEnd(text)
  {
    assert (text + [c])[..|text|] == text;
  }

  lemma TrimsSpace(value: string)
    requires value != "" && !IsWhitespace(value[0]) && !IsWhitespace(value[|value| - 1])
    ensures TrimEnd(TrimStart(" " + value)) == value
  {
    assert (" " + value)[1..] == value;
  }

  lemma FieldOfTrimmed(name: string, rest: string, value: string, line: string)
    requires TrimLineEnd(line) == name + rest && rest != "" && TrimEnd(TrimStart(rest)) == value
    ensures FieldIn(name, line) ==
            var parsed := ParseLength(value);
            if parsed.Some? && parsed.value <= MAX_CONTENT_LENGTH then Length(parsed.value) else BadLength(value)
  {
    assert (name + rest)[|name|..] == rest;
  }

  lemma DigitsParse(digits: string, n: nat)
    requires digits != "" && Digits(digits) == Some(n) && '0' <= digits[0] <= '9'
    ensures ParseLength(digits) == Some(n)
  {
  }

  lemma FieldOfLength(name: string, digits: string, n: nat)
    requires digits != "" && Digits(digits) == Some(n) && forall i | 0 <= i < |digits| :: '0' <= digits[i] <= '9'
    ensures FieldIn(name, name + " " + digits + "\r\n") ==
            if n <= MAX_CONTENT_LENGTH then Length(n) else BadLength(digits)
  {
    var text := name + " " + digits;
    SpacedEnd(name, digits);
    TrimsSpace(digits);
    TrimsLineEnd(text);
    DigitsParse(digits, n);
    FieldOfTrimmed(name, " " + digits, digits, text + "\r\n");
  }

  lemma SpacedEnd(name: string, digits: string)
    requires digits != ""
    ensures name + " " + digits == name + (" " + digits)
    ensures (name + " " + digits)[|name + " " + digits| - 1] == digits[|digits| - 1]
  {
  }

  lemma LengthLineIsRead(n: nat)
    ensures IsAscii(LengthLine(n)) && IsLine(Ascii(LengthLine(n))) && Utf8(Ascii(LengthLine(n))) == Some(LengthLine(n))
    ensures FieldOf(LengthLine(n)) == if n <= MAX_CONTENT_LENGTH then Length(n) else BadLength(Decimal(n))
  {
    LengthLineIsAscii(n);
    LengthLineDeclares(n);
    FieldHasNoLineFeed(n);
    AsciiLine(LengthLine(n));
  }

  lemma LengthLineDeclares(n: nat)
    ensures FieldOf(LengthLine(n)) == if n <= MAX_CONTENT_LENGTH then Length(n) else BadLength(Decimal(n))
  {
    DecimalParses(n);
    FieldOfLength(FIELD, Decimal(n), n);
  }

  lemma AsciiLine(line: string)
    requires IsAscii(line) && |line| > 0 && line[|line| - 1] == '\n'
    requires forall i | 0 <= i < |line| - 1 :: line[i] != '\n'
    ensures IsLine(Ascii(line)) && Utf8(Ascii(line)) == Some(line)
  {
    AsciiIsUtf8(line);
  }

  lemma FieldHasNoLineFeed(n: nat)
    ensures var line := LengthLine(n);
            |line| > 0 && line[|line| - 1] == '\n' && forall i | 0 <= i < |line| - 1 :: line[i] != '\n'
  {
    DecimalParses(n);
    assert '\n' !in FIELD && '\n' !in " ";
  }

  /** A written frame reads back exactly, unless its body is over the limit. */
  lemma FrameRoundTrip(body: seq<byte>, rest: seq<byte>)
    ensures ReadFrame(Framed(body) + rest) ==
            if |body| <= MAX_CONTENT_LENGTH then Success((body, rest))
            else Failure(InvalidContentLength(Decimal(|body|)))
  {
    LengthLineIsRead(|body|);
    BlankLineIsBlank();
    FramedShape(body, rest);
    HeaderLine(Ascii(LengthLine(|body|)), LengthLine(|body|), Ascii("\r\n") + (body + rest), None, true);
    if |body| <= MAX_CONTENT_LENGTH {
      HeaderLine(Ascii("\r\n"), "\r\n", body + rest, Some(|body|), false);
      assert (body + rest)[..|body|] == body && (body + rest)[|body|..] == rest;
    }
  }

  lemma FramedShape(body: seq<byte>, rest: seq<byte>)
    ensures IsAscii(LengthLine(|body|))
    ensures Framed(body) + rest == Ascii(LengthLine(|body|)) + (Ascii("\r\n") + (body + rest))
  {
    LengthLineIsAscii(|body|);
  }

  /** Read until something fails: the bodies, and the error that ended it. */
  function ReadAll(input: seq<byte>): (seq<seq<byte>>, WireError)
    decreases |input|
  {
    match ReadFrame(input)
    case Failure(error) => ([], error)
    case Success((body, rest)) => var (bodies, error) := ReadAll(rest); ([body] + bodies, error)
  }

  function FramedAll(bodies: seq<seq<byte>>): seq<byte> {
    if bodies == [] then [] else Framed(bodies[0]) + FramedAll(bodies[1..])
  }

  /** The bodies before the first that is over the limit. */
  function Honoured(bodies: seq<seq<byte>>): seq<seq<byte>> {
    if bodies == [] || |bodies[0]| > MAX_CONTENT_LENGTH then [] else [bodies[0]] + Honoured(bodies[1..])
  }

  /**
   * Reading a stream of written frames gives back exactly the bodies, in order, and then a clean
   * end of file; it stops early exactly at the first body over the limit.
   */
  lemma {:induction false} StreamRoundTrip(bodies: seq<seq<byte>>)
    ensures ReadAll(FramedAll(bodies)).0 == Honoured(bodies)
    ensures Honoured(bodies) <= bodies
    ensures Honoured(bodies) == bodies <==> forall b <- bodies :: |b| <= MAX_CONTENT_LENGTH
    ensures ReadAll(FramedAll(bodies)).1 ==
            if Honoured(bodies) == bodies then Eof else InvalidContentLength(Decimal(|bodies[|Honoured(bodies)|]|))
  {
    HonouredIsPrefix(bodies);
    StreamReads(bodies);
    EndsAtFirstOver(bodies);
  }

  /** The error that ends the reading of some frames. */
  function EndOf(bodies: seq<seq<byte>>): WireError {
    if bodies == [] then Eof
    else if |bodies[0]| > MAX_CONTENT_LENGTH then InvalidContentLength(Decimal(|bodies[0]|))
    else EndOf(bodies[1..])
  }

  lemma {:induction false} EndsAtFirstOver(bodies: seq<seq<byte>>)
    ensures Honoured(bodies) <= bodies
    ensures EndOf(bodies) ==
            if Honoured(bodies) == bodies then Eof else InvalidContentLength(Decimal(|bodies[|Honoured(bodies)|]|))
  {
    HonouredIsPrefix(bodies);
    if bodies != [] && |bodies[0]| <= MAX_CONTENT_LENGTH {
      EndsAtFirstOver(bodies[1..]);
      HonouredIsPrefix(bodies[1..]);
      assert bodies == [bodies[0]] + bodies[1..];
      assert |Honoured(bodies)| == |Honoured(bodies[1..])| + 1;
    }
  }

  lemma {:induction false} StreamReads(bodies: seq<seq<byte>>)
    ensures ReadAll(FramedAll(bodies)) == (Honoured(bodies), EndOf(bodies))
  {
    if bodies != [] {
      ReadAllStep(bodies[0], FramedAll(bodies[1..]));
      if |bodies[0]| <= MAX_CONTENT_LENGTH {
        StreamReads(bodies[1..]);
      }
    }
  }

  lemma ReadAllStep(body: seq<byte>, rest: seq<byte>)
    ensures ReadAll(Framed(body) + rest) ==
            if |body| <= MAX_CONTENT_LENGTH then ([body] + ReadAll(rest).0, ReadAll(rest).1)
            else ([], InvalidContentLength(Decimal(|body|)))
  {
    FrameRoundTrip(body, rest);
  }

  lemma {:induction false} HonouredIsPrefix(bodies: seq<seq<byte>>)
    ensures Honoured(bodies) <= bodies
    ensures Honoured(bodies) == bodies <==> forall b <- bodies :: |b| <= MAX_CONTENT_LENGTH
    ensures Honoured(bodies) != bodies ==> |bodies[|Honoured(bodies)|]| > MAX_CONTENT_LENGTH
  {
    if bodies != [] {
      HonouredIsPrefix(bodies[1..]);
      assert bodies == [bodies[0]] + bodies[1..];
    }
  }

  // --- truncation ---

  lemma AsciiPrefix(s: string, k: nat)
    requires IsAscii(s) && k <= |s|
    ensures IsAscii(s[..k]) && Ascii(s)[..k] == Ascii(s[..k])
  {
  }

  lemma HeaderStep(input: seq<byte>, n: nat, text: string, length: Option<nat>, first: bool)
    requires input != [] && n == LineLength(input) && Utf8(input[..n]) == Some(text)
    ensures Header(input, length, first) ==
            match FieldOf(text)
            case Blank => if length.Some? then Success((length.value, input[n..])) else Failure(MissingContentLength)
            case Length(m) => Header(input[n..], Some(m), false)
            case BadLength(value) => Failure(InvalidContentLength(value))
            case Other => Header(input[n..], length, false)
  {
  }

  lemma EndsWithLine(field: Field, rest: seq<byte>, r: Result<(nat, seq<byte>), WireError>)
    requires field != Blank && rest == []
    requires field.Length? ==> r == Header(rest, Some(field.n), false)
    requires field.BadLength? ==> r == Failure(InvalidContentLength(field.value))
    requires field.Other? ==> r == Header(rest, None, false)
    ensures r.Failure? && r.error != Eof
  {
  }

  lemma WholeAndNothing(part: seq<byte>)
    ensures part[..|part|] == part && part[|part|..] == []
  {
  }

  /** Where the stream ends within its first line, the header ends there too. */
  lemma UnfinishedLine(part: seq<byte>, text: string)
    requires part != [] && LineLength(part) == |part| && Utf8(part) == Some(text) && FieldOf(text) != Blank
    ensures Header(part, None, true).Failure? && Header(part, None, true).error != Eof
  {
    WholeAndNothing(part);
    HeaderStep(part, |part|, text, None, true);
    EndsWithLine(FieldOf(text), part[|part|..], Header(part, None, true));
  }

  /** A length line cut short is never blank, so the header that ends there never reads. */
  lemma CutLengthLine(n: nat, k: nat)
    requires 0 < k <= |LengthLine(n)|
    ensures IsAscii(LengthLine(n))
    ensures Header(Ascii(LengthLine(n))[..k], None, true).Failure?
    ensures Header(Ascii(LengthLine(n))[..k], None, true).error != Eof
  {
    LengthLineIsRead(n);
    var (line, part) := (Ascii(LengthLine(n)), LengthLine(n)[..k]);
    AsciiPrefix(LengthLine(n), k);
    AsciiIsUtf8(part);
    CutLine(line, k);
    StartsWithC(n, k);
    TrimLineEndKeepsFirst(part);
    UnfinishedLine(line[..k], part);
  }

  lemma CutLine(line: seq<byte>, k: nat)
    requires IsLine(line) && 0 < k <= |line|
    ensures LineLength(line[..k]) == k
  {
    if k < |line| {
      PartialLineIsRead(line[..k]);
    } else {
      LineIsRead(line, []);
      assert line[..k] == line + [];
    }
  }

  lemma StartsWithC(n: nat, k: nat)
    requires 0 < k <= |LengthLine(n)|
    ensures LengthLine(n)[..k] != "" && LengthLine(n)[..k][0] == 'C'
  {
  }

  lemma {:induction false} TrimLineEndKeepsFirst(s: string)
    requires s != "" && s[0] == 'C'
    ensures TrimLineEnd(s) != ""
  {
    if |s| > 1 {
      TrimLineEndKeepsFirst(s[..|s| - 1]);
    }
  }

  /** A carriage return at the very end of the stream counts as the blank line. */
  lemma LoneReturnEndsHeader(n: nat)
    ensures IsAscii("\r") && Header(Ascii("\r"), Some(n), false) == Success((n, []))
  {
    AsciiIsUtf8("\r");
    PartialLineIsRead(Ascii("\r"));
    assert Ascii("\r")[..1] == Ascii("\r") && "\r"[..0] == "";
  }

  /**
   * No proper prefix of a frame reads as a body, with one exception: an empty body whose blank line
   * lacks only its line feed. The error is `Eof` exactly for the empty prefix.
   */
  lemma TruncatedFrame(body: seq<byte>, k: nat)
    requires |body| <= MAX_CONTENT_LENGTH && k < |Framed(body)|
    ensures ReadFrame(Framed(body)[..k]).Success? <==> body == [] && k == |Framed(body)| - 1
    ensures ReadFrame(Framed(body)[..k]).Failure? ==> (ReadFrame(Framed(body)[..k]).error == Eof <==> k == 0)
  {
    LengthLineIsAscii(|body|);
    var line := Ascii(LengthLine(|body|));
    if 0 < k <= |line| {
      CutLengthLine(|body|, k);
      assert Framed(body)[..k] == line[..k];
    } else if k == |line| + 1 {
      CutBlankLine(|body|);
      assert Framed(body)[..k] == line + Ascii("\r");
    } else if k > 0 {
      var part := body[..k - |line| - 2];
      CutBody(|body|, part);
      assert Framed(body)[..k] == line + (Ascii("\r\n") + part);
    }
  }

  lemma CutBlankLine(n: nat)
    requires n <= MAX_CONTENT_LENGTH
    ensures IsAscii(LengthLine(n)) && IsAscii("\r")
    ensures ReadFrame(Ascii(LengthLine(n)) + Ascii("\r")) ==
            if n == 0 then Success(([], [])) else Failure(UnexpectedEof)
  {
    LengthLineIsRead(n);
    HeaderLine(Ascii(LengthLine(n)), LengthLine(n), Ascii("\r"), None, true);
    LoneReturnEndsHeader(n);
  }

  lemma CutBody(n: nat, part: seq<byte>)
    requires |part| < n <= MAX_CONTENT_LENGTH
    ensures IsAscii(LengthLine(n)) && IsAscii("\r\n")
    ensures ReadFrame(Ascii(LengthLine(n)) + (Ascii("\r\n") + part)) == Failure(UnexpectedEof)
  {
    LengthLineIsRead(n);
    BlankLineIsBlank();
    HeaderLine(Ascii(LengthLine(n)), LengthLine(n), Ascii("\r\n") + part, None, true);
    HeaderLine(Ascii("\r\n"), "\r\n", part, Some(n), false);
  }

  // --- other header fields ---

  function Joined(lines: seq<seq<byte>>): seq<byte> {
    if lines == [] then [] else lines[0] + Joined(lines[1..])
  }

  /** A complete, decodable header line that does not end the block. */
  predicate IsHeaderLine(line: seq<byte>) {
    IsLine(line) && Utf8(line).Some? && FieldOf(Utf8(line).value) != Blank
  }

  /** One that says nothing about the length either. */
  predicate IsOtherLine(line: seq<byte>) {
    IsHeaderLine(line) && FieldOf(Utf8(line).value) == Other
  }

  /** The length known after a header line. */
  function LengthAfter(head: seq<byte>, length: Option<nat>): Option<nat>
    requires IsHeaderLine(head)
  {
    var field := FieldOf(Utf8(head).value);
    if field.Length? then Some(field.n) else length
  }

  /** Two inputs that start with the same line read alike if what follows it does. */
  lemma SameAfterLine(head: seq<byte>, a: seq<byte>, b: seq<byte>, length: Option<nat>, first: bool)
    requires IsHeaderLine(head)
    requires Header(a, LengthAfter(head, length), false) == Header(b, LengthAfter(head, length), false)
    ensures Header(head + a, length, first) == Header(head + b, length, first)
  {
    HeaderLine(head, Utf8(head).value, a, length, first);
    HeaderLine(head, Utf8(head).value, b, length, first);
  }

  lemma JoinedStep(before: seq<seq<byte>>, x: seq<byte>) returns (whole: seq<byte>, after: seq<byte>)
    requires before != []
    ensures whole == Joined(before) + x && after == Joined(before[1..]) + x && whole == before[0] + after
  {
    whole, after := Joined(before) + x, Joined(before[1..]) + x;
  }

  lemma OtherLineFirst(line: seq<byte>, rest: seq<byte>, length: Option<nat>, first: bool)
    requires IsOtherLine(line) && (rest != [] || !first)
    ensures Header(line + rest, length, first) == Header(rest, length, first)
  {
    HeaderLine(line, Utf8(line).value, rest, length, first);
  }

  lemma {:induction false} OtherLineIsSkipped(before: seq<seq<byte>>, line: seq<byte>, rest: seq<byte>,
                                              length: Option<nat>, first: bool)
    requires (forall l <- before :: IsHeaderLine(l)) && IsOtherLine(line)
    requires before != [] || rest != [] || !first
    ensures Header(Joined(before) + (line + rest), length, first) == Header(Joined(before) + rest, length, first)
  {
    if before == [] {
      assert Joined(before) + (line + rest) == line + rest && Joined(before) + rest == rest;
      OtherLineFirst(line, rest, length, first);
    } else {
      assert before[0] in before;
      var _, with := JoinedStep(before, line + rest);
      var _, without := JoinedStep(before, rest);
      OtherLineIsSkipped(before[1..], line, rest, LengthAfter(before[0], length), false);
      SameAfterLine(before[0], with, without, length, first);
    }
  }

  /**
   * Another header line anywhere in the block changes neither the body read nor what follows it:
   * the only difference is that a stream of nothing else no longer ends cleanly.
   */
  lemma OtherFieldsDoNotMatter(before: seq<seq<byte>>, line: seq<byte>, rest: seq<byte>)
    requires (forall l <- before :: IsHeaderLine(l)) && IsOtherLine(line)
    ensures ReadFrame(Joined(before) + (line + rest)) ==
            if before == [] && rest == [] then Failure(UnexpectedEof) else ReadFrame(Joined(before) + rest)
  {
    if before == [] && rest == [] {
      assert Joined(before) + (line + rest) == line + [];
      HeaderLine(line, Utf8(line).value, [], None, true);
    } else {
      OtherLineIsSkipped(before, line, rest, None, true);
    }
  }
}
