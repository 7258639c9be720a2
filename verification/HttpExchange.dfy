// One HTTP response on the wire: how the radio writes it and how the adapter reads it
// (sections 4 and 6.2 of RFC 9112).
module HttpExchange {
  import opened Basics
  import opened Text

  const CRLF := "\r\n"

  const STATUS_OK := "HTTP/1.1 200 OK"
  const CLOSE := "Connection: close"

  function ContentType(contentType: string): string {
    "Content-Type: " + contentType
  }

  function ContentLength(n: nat): string {
    "Content-Length: " + NatText(n)
  }

  // The radio's side.
  function MakeHttpResponse(body: string, contentType: string): string {
    (STATUS_OK + CRLF) + (ContentType(contentType) + CRLF) + (ContentLength(|body|) + CRLF) + (CLOSE + CRLF)
    + CRLF + body
  }

  // ---- the adapter's side ----

  datatype Line = NoLine | Line(text: string, rest: string)

  // std::getline: nothing at the end of the stream, otherwise up to the next newline or the end.
  function GetLine(stream: string): (l: Line)
    ensures l.Line? ==> |l.rest| < |stream|
  {
    if stream == "" then NoLine
    else
      var k := IndexOf(stream, '\n');
      if k == |stream| then Line(stream, "") else Line(stream[..k], stream[k + 1..])
  }

  function DropCr(line: string): string {
    if line != "" && line[|line| - 1] == '\r' then line[..|line| - 1] else line
  }

  // Space as a C++ stream and std::stoull skip it.
  predicate IsBlank(c: char) {
    c == ' ' || 9 <= c as int <= 13
  }

  function SkipBlanks(t: string): string {
    if t != "" && IsBlank(t[0]) then SkipBlanks(t[1..]) else t
  }

  function SkipWord(t: string): string {
    if t != "" && !IsBlank(t[0]) then SkipWord(t[1..]) else t
  }

  function LeadingDigits(t: string): (d: string)
    ensures AllDigits(d)
  {
    if t != "" && IsDigit(t[0]) then [t[0]] + LeadingDigits(t[1..]) else ""
  }

  // An optionally signed number at the start of t; none without a digit.
  function LeadingNumber(t: string): Option<int> {
    var signed := t != "" && (t[0] == '-' || t[0] == '+');
    var digits := LeadingDigits(if signed then t[1..] else t);
    if digits == "" then None
    else Some(if signed && t[0] == '-' then -(DigitsValue(digits) as int) else DigitsValue(digits))
  }

  // stream >> version >> code: the number after the first word, 0 when there is none.
  function StatusCode(line: string): int {
    match LeadingNumber(SkipBlanks(SkipWord(SkipBlanks(line))))
    case Some(n) => n
    case None => 0
  }

  const ULL_MODULUS: nat := 0x1_0000_0000_0000_0000

  // std::stoull, 0 standing for its exceptions; a minus sign wraps around.
  function ParseLength(value: string): nat {
    match LeadingNumber(SkipBlanks(value))
    case None => 0
    case Some(n) =>
      if n >= ULL_MODULUS || -n >= ULL_MODULUS then 0
      else if n < 0 then ULL_MODULUS + n
      else n
  }

  const CONTENT_LENGTH := "content-length:"

  // What one header line does to the length known so far.
  function LengthAfter(line: string, length: nat): nat {
    if CONTENT_LENGTH <= Lower(line) then ParseLength(line[15..]) else length
  }

  datatype Headers = Headers(length: nat, rest: string)

  function ReadHeaders(stream: string, length: nat): Headers
    decreases |stream|
  {
    match GetLine(stream)
    case NoLine => Headers(length, stream)
    case Line(header, rest) =>
      if header == "\r" then Headers(length, rest) else ReadHeaders(rest, LengthAfter(DropCr(header), length))
  }

  datatype Received = Body(text: string) | ReadFailed | BodyReadFailed | HttpError(status: int)

  function Receive(stream: string): Received {
    match GetLine(stream)
    case NoLine => ReadFailed
    case Line(statusLine, rest) =>
      var status := StatusCode(DropCr(statusLine));
      var headers := ReadHeaders(rest, 0);
      if headers.length > 0 && |headers.rest| < headers.length then BodyReadFailed
      else if status != 200 then HttpError(status)
      else Body(if headers.length > 0 then headers.rest[..headers.length] else headers.rest)
  }

  // The reading half of sendHttpPost, over what arrives on the connection.
  method ReadResponse(received: string) returns (r: Received)
    ensures r == Receive(received)
  {
    hide StatusCode, LengthAfter, DropCr, GetLine;
    var line := GetLine(received);
    if line.NoLine? {
      return ReadFailed;
    }
    var statusCode := StatusCode(DropCr(line.text));
    var stream := line.rest;
    ghost var headers := stream;
    var contentLength: nat := 0;
    line := GetLine(stream);
    while line.Line? && line.text != "\r"
      invariant line == GetLine(stream)
      invariant ReadHeaders(stream, contentLength) == ReadHeaders(headers, 0)
      decreases |stream|
    {
      contentLength := LengthAfter(DropCr(line.text), contentLength);
      stream := line.rest;
      line := GetLine(stream);
    }
    if line.Line? {
      stream := line.rest;
    }
    var body := stream;
    if contentLength > 0 {
      if |stream| < contentLength {
        return BodyReadFailed;
      }
      body := stream[..contentLength];
    }
    if statusCode != 200 {
      return HttpError(statusCode);
    }
    return Body(body);
  }

  // ---- header blocks in general ----

  predicate HeaderLine(line: string) {
    line != "" && '\n' !in line
  }

  function HeaderBlock(lines: seq<string>): string {
    if lines == [] then "" else lines[0] + CRLF + HeaderBlock(lines[1..])
  }

  function LengthOf(lines: seq<string>, length: nat): nat {
    if lines == [] then length else LengthOf(lines[1..], LengthAfter(lines[0], length))
  }

  lemma GetLineOf(line: string, rest: string)
    requires '\n' !in line
    ensures GetLine(line + CRLF + rest) == Line(line + "\r", rest) && DropCr(line + "\r") == line
  {
    var t := (line + "\r") + ['\n'] + rest;
    assert line + CRLF + rest == t;
    IndexOfPrefix(line + "\r", '\n', rest);
    assert t[..|line| + 1] == line + "\r" && t[|line| + 2..] == rest;
  }

  // Any block of non-empty header lines is read to its end, whatever their order; the last
  // content-length line in any spelling decides, and what follows the blank line is the body,
  // untouched.
  lemma {:induction false} ReadHeaderBlock(lines: seq<string>, body: string, length: nat)
    requires forall line | line in lines :: HeaderLine(line)
    ensures ReadHeaders(HeaderBlock(lines) + CRLF + body, length) == Headers(LengthOf(lines, length), body)
  {
    hide GetLine, DropCr, LengthAfter;
    if lines == [] {
      assert HeaderBlock(lines) + CRLF + body == "" + CRLF + body;
      GetLineOf("", body);
      assert "" + "\r" == "\r";
    } else {
      assert lines[0] in lines;
      var rest := HeaderBlock(lines[1..]) + CRLF + body;
      assert HeaderBlock(lines) + CRLF + body == lines[0] + CRLF + rest;
      GetLineOf(lines[0], rest);
      assert lines[0] + "\r" != "\r";
      ReadHeaderBlock(lines[1..], body, LengthAfter(lines[0], length));
    }
  }

  // ---- the round trip ----

  lemma {:induction false} LeadingDigitsAll(t: string)
    requires AllDigits(t)
    ensures LeadingDigits(t) == t
  {
    if t != "" {
      LeadingDigitsAll(t[1..]);
      assert t == [t[0]] + t[1..];
    }
  }

  lemma ParsePrintedLength(n: nat)
    ensures ParseLength(" " + NatText(n)) == if n < ULL_MODULUS then n else 0
  {
    hide NatText, DigitsValue;
    var t := NatText(n);
    assert (" " + t)[1..] == t && !IsBlank(t[0]);
    assert SkipBlanks(t) == t && SkipBlanks(" " + t) == t;
    LeadingDigitsAll(t);
    NatTextValue(n);
    assert LeadingNumber(t) == Some(n);
  }

  lemma ContentLengthLine(n: nat, length: nat)
    ensures LengthAfter("Content-Length: " + NatText(n), length) == if n < ULL_MODULUS then n else 0
  {
    hide ParseLength, NatText;
    var line := "Content-Length: " + NatText(n);
    assert Lower(line)[..15] == CONTENT_LENGTH by {
      assert line[..15] == "Content-Length:";
    }
    assert line[15..] == " " + NatText(n);
    ParsePrintedLength(n);
  }

  lemma OtherLine(line: string, length: nat)
    requires |line| >= 9 && (line[8] == 'T' || line[8] == 'o')
    ensures LengthAfter(line, length) == length
  {
    assert CONTENT_LENGTH[8] == 'l';
    assert Lower(line)[8] != 'l';
  }

  lemma StatusOk()
    ensures StatusCode("HTTP/1.1 200 OK") == 200
  {
    hide DigitsValue, SkipWord, LeadingDigits, SkipBlanks;
    var line, word, rest := "HTTP/1.1 200 OK", "HTTP/1.1", " 200 OK";
    assert line == word + rest;
    NoBlanks(line);
    NoBlanks("200 OK");
    SkipWordOver(word, rest);
    OneBlank("200 OK");
    assert rest == " " + "200 OK";
    assert "200 OK" == "200" + " OK";
    DigitsOver("200", " OK");
    TwoHundred();
  }

  lemma NoBlanks(t: string)
    requires t != "" && !IsBlank(t[0])
    ensures SkipBlanks(t) == t
  {
  }

  lemma OneBlank(t: string)
    requires t != "" && !IsBlank(t[0])
    ensures SkipBlanks(" " + t) == t
  {
    assert (" " + t)[1..] == t;
  }

  lemma {:induction false} SkipWordOver(word: string, rest: string)
    requires (forall c | c in word :: !IsBlank(c)) && rest != "" && IsBlank(rest[0])
    ensures SkipWord(word + rest) == rest
  {
    if word == "" {
      assert word + rest == rest;
    } else {
      assert (word + rest)[1..] == word[1..] + rest;
      SkipWordOver(word[1..], rest);
    }
  }

  lemma {:induction false} DigitsOver(digits: string, rest: string)
    requires AllDigits(digits) && rest != "" && !IsDigit(rest[0])
    ensures LeadingDigits(digits + rest) == digits
  {
    if digits == "" {
      assert digits + rest == rest;
    } else {
      assert (digits + rest)[1..] == digits[1..] + rest;
      DigitsOver(digits[1..], rest);
      assert digits == [digits[0]] + digits[1..];
    }
  }

  lemma TwoHundred()
    ensures DigitsValue("200") == 200
  {
    assert "200"[..2] == "20" && "20"[..1] == "2" && "2"[..0] == "";
    assert DigitsValue("2") == 2;
    assert DigitsValue("20") == 20;
  }

  // Whatever the body, empty, or full of line breaks and header look-alikes, the adapter reads back
  // exactly what the radio wrote.
  lemma ResponseRoundTrip(body: string, contentType: string)
    requires '\n' !in contentType
    ensures Receive(MakeHttpResponse(body, contentType)) == Body(body)
  {
    hide GetLine, DropCr, StatusCode, LengthAfter, NatText, HeaderBlock, ReadHeaders;
    var lines := [ContentType(contentType), ContentLength(|body|), CLOSE];
    var rest := HeaderBlock(lines) + CRLF + body;
    ResponseParts(body, contentType);
    GetLineOf(STATUS_OK, rest);
    StatusOk();
    forall line | line in lines ensures HeaderLine(line) {
      assert AllDigits(NatText(|body|));
      assert '\n' !in NatText(|body|);
    }
    ReadHeaderBlock(lines, body, 0);
    OtherLine(lines[0], 0);
    ContentLengthLine(|body|, 0);
    OtherLine(lines[2], LengthAfter(lines[1], 0));
    LengthOfThree(lines[0], lines[1], lines[2]);
    assert body[..|body|] == body;
  }

  lemma LengthOfThree(a: string, b: string, c: string)
    ensures LengthOf([a, b, c], 0) == LengthAfter(c, LengthAfter(b, LengthAfter(a, 0)))
  {
    hide LengthAfter;
    assert [a, b, c][1..] == [b, c] && [b, c][1..] == [c] && [c][1..] == [];
    assert LengthOf([c], LengthAfter(b, LengthAfter(a, 0))) == LengthAfter(c, LengthAfter(b, LengthAfter(a, 0)));
  }

  lemma ResponseParts(body: string, contentType: string)
    ensures MakeHttpResponse(body, contentType)
         == STATUS_OK + CRLF +
            (HeaderBlock([ContentType(contentType), ContentLength(|body|), CLOSE]) + CRLF + body)
  {
    hide ContentType, ContentLength, HeaderBlock;
    var a, b, c := ContentType(contentType), ContentLength(|body|), CLOSE;
    BlockOfThree(a, b, c);
    Regroup(STATUS_OK + CRLF, a + CRLF, b + CRLF, c + CRLF, CRLF, body);
  }

  lemma BlockOfThree(a: string, b: string, c: string)
    ensures HeaderBlock([a, b, c]) == (a + CRLF) + ((b + CRLF) + (c + CRLF))
  {
    assert [a, b, c][1..] == [b, c] && [b, c][1..] == [c] && [c][1..] == [];
    assert HeaderBlock([c]) == c + CRLF + "";
    assert HeaderBlock([b, c]) == b + CRLF + HeaderBlock([c]);
  }

  lemma Regroup(s: string, x: string, y: string, z: string, w: string, body: string)
    ensures s + x + y + z + w + body == s + ((x + (y + z)) + w + body)
  {
  }

  // ---- any response ----

  function StatusLine(version: string, status: nat, reason: string): string {
    version + " " + NatText(status) + " " + reason
  }

  lemma StatusRead(version: string, status: nat, reason: string)
    requires version != "" && forall c | c in version :: !IsBlank(c)
    ensures StatusCode(StatusLine(version, status, reason)) == status
  {
    hide SkipWord, SkipBlanks, LeadingDigits, NatText, DigitsValue;
    var digits, rest := NatText(status), " " + reason;
    var line := version + (" " + (digits + rest));
    assert StatusLine(version, status, reason) == line;
    assert line[0] == version[0] && version[0] in version;
    NoBlanks(line);
    SkipWordOver(version, " " + (digits + rest));
    assert (digits + rest)[0] == digits[0];
    OneBlank(digits + rest);
    NoBlanks(digits + rest);
    DigitsOver(digits, rest);
    NatTextValue(status);
  }

  // What the reader makes of a response with any status, any header lines and any body: too short a body
  // is a failed read, any other status than 200 an error, and otherwise the body ends where the length
  // says, or with the stream when none is given.
  lemma AnyResponse(version: string, status: nat, reason: string, lines: seq<string>, body: string)
    requires version != "" && (forall c | c in version :: !IsBlank(c)) && '\n' !in reason
    requires forall line | line in lines :: HeaderLine(line)
    ensures var length := LengthOf(lines, 0);
            Receive(StatusLine(version, status, reason) + CRLF + (HeaderBlock(lines) + CRLF + body))
            == if 0 < length && |body| < length then BodyReadFailed
               else if status != 200 then HttpError(status)
               else Body(if length > 0 then body[..length] else body)
  {
    hide GetLine, DropCr, StatusCode, HeaderBlock, ReadHeaders, NatText, LengthOf;
    var line := StatusLine(version, status, reason);
    var rest := HeaderBlock(lines) + CRLF + body;
    StatusRead(version, status, reason);
    assert '\n' !in NatText(status) && '\n' !in version;
    GetLineOf(line, rest);
    ReadHeaderBlock(lines, body, 0);
  }

  // A content-length line in any spelling of its name and with any blanks before the number.
  lemma LengthLine(name: string, blanks: string, n: nat, length: nat)
    requires Lower(name) == "content-length" && forall c | c in blanks :: IsBlank(c)
    ensures LengthAfter(name + ":" + blanks + NatText(n), length) == if n < ULL_MODULUS then n else 0
  {
    hide ParseLength, NatText;
    var line := name + ":" + blanks + NatText(n);
    assert |name| == 14;
    assert line[..15] == name + ":";
    assert Lower(line)[..15] == Lower(name) + ":" == CONTENT_LENGTH;
    assert line[15..] == blanks + NatText(n);
    BlanksSkipped(blanks, n);
  }

  lemma BlanksSkipped(blanks: string, n: nat)
    requires forall c | c in blanks :: IsBlank(c)
    ensures ParseLength(blanks + NatText(n)) == if n < ULL_MODULUS then n else 0
  {
    hide NatText, DigitsValue, SkipBlanks;
    SkipAll(blanks, NatText(n));
    LeadingDigitsAll(NatText(n));
    NatTextValue(n);
  }

  lemma {:induction false} SkipAll(blanks: string, t: string)
    requires (forall c | c in blanks :: IsBlank(c)) && t != "" && !IsBlank(t[0])
    ensures SkipBlanks(blanks + t) == t
  {
    if blanks == "" {
      assert blanks + t == t;
    } else {
      assert blanks[0] in blanks;
      assert (blanks + t)[1..] == blanks[1..] + t;
      SkipAll(blanks[1..], t);
    }
  }

  // A negative length wraps around the machine word, as std::stoull does, and is never met by a body.
  lemma NegativeLength(blanks: string, n: nat)
    requires (forall c | c in blanks :: IsBlank(c)) && 0 < n < ULL_MODULUS
    ensures ParseLength(blanks + ("-" + NatText(n))) == ULL_MODULUS - n
  {
    hide NatText, DigitsValue, SkipBlanks;
    var t := "-" + NatText(n);
    SkipAll(blanks, t);
    assert t[1..] == NatText(n);
    LeadingDigitsAll(NatText(n));
    NatTextValue(n);
  }

  // The last length decides.
  lemma {:induction false} LastLength(lines: seq<string>, line: string, length: nat)
    ensures LengthOf(lines + [line], length) == LengthAfter(line, LengthOf(lines, length))
  {
    hide LengthAfter;
    if lines == [] {
      assert lines + [line] == [line] && [line][1..] == [];
      assert LengthOf([line], length) == LengthOf([], LengthAfter(line, length));
    } else {
      assert (lines + [line])[1..] == lines[1..] + [line];
      LastLength(lines[1..], line, LengthAfter(lines[0], length));
    }
  }

  // A response of the radio that is cut off inside its body is a failed read, not a shorter body.
  lemma CutResponse(body: string, contentType: string, kept: nat)
    requires '\n' !in contentType && kept < |body| < ULL_MODULUS
    ensures var whole := MakeHttpResponse(body, contentType);
            Receive(whole[..|whole| - (|body| - kept)]) == BodyReadFailed
  {
    hide MakeHttpResponse, HeaderBlock, NatText, LengthAfter, LengthOf, Receive;
    var lines := [ContentType(contentType), ContentLength(|body|), CLOSE];
    var head := STATUS_OK + CRLF + (HeaderBlock(lines) + CRLF);
    var whole := MakeHttpResponse(body, contentType);
    ResponseParts(body, contentType);
    assert whole == head + body;
    assert whole[..|whole| - (|body| - kept)] == head + body[..kept];
    forall line | line in lines ensures HeaderLine(line) {
      assert '\n' !in NatText(|body|);
    }
    OtherLine(lines[0], 0);
    ContentLengthLine(|body|, 0);
    OtherLine(lines[2], LengthAfter(lines[1], 0));
    LengthOfThree(lines[0], lines[1], lines[2]);
    OkLine();
    AnyResponse("HTTP/1.1", 200, "OK", lines, body[..kept]);
    assert head + body[..kept] == STATUS_OK + CRLF + (HeaderBlock(lines) + CRLF + body[..kept]);
  }

  lemma OkLine()
    ensures StatusLine("HTTP/1.1", 200, "OK") == STATUS_OK
  {
    assert NatText(2) == "2" && NatText(20) == "20" && NatText(200) == "200";
  }
}
