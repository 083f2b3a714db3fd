/**
 * A client's view of a response: the framing of section 2.1 of RFC 9112, the status line of section 4,
 * header fields, and a body whose length is announced.  Field names are compared as they are written.
 */
module HttpReader {
  import opened Numerals

  datatype Header = Header(name: string, value: string)

  datatype Headers = Unended | Headers(list: seq<Header>, rest: string)

  /** `rest` is what follows the body on the connection. */
  datatype Response = Broken | Response(status: nat, reason: string, headers: seq<Header>, body: string, rest: string)

  /** Where the first line ends; the length stands for "nowhere". */
  function LineEnd(s: string): (n: nat)
    ensures n <= |s|
    ensures n < |s| ==> n + 2 <= |s| && s[n] == '\r' && s[n + 1] == '\n'
  {
    if |s| < 2 then |s| else if s[0] == '\r' && s[1] == '\n' then 0 else 1 + LineEnd(s[1..])
  }

  /** The first colon; the length stands for "none". */
  function Colon(s: string): (n: nat)
    ensures n <= |s|
  {
    if s == "" || s[0] == ':' then 0 else 1 + Colon(s[1..])
  }

  function SkipBlanks(s: string): string {
    if s != "" && (s[0] == ' ' || s[0] == '\t') then SkipBlanks(s[1..]) else s
  }

  /** Header fields up to the first empty line. */
  function ReadHeaders(s: string): Headers
    decreases |s|
  {
    var n := LineEnd(s);
    if n == |s| then Unended
    else if n == 0 then Headers([], s[2..])
    else
      var line := s[..n];
      var colon := Colon(line);
      if colon == |line| then Unended
      else
        match ReadHeaders(s[n + 2..])
        case Unended => Unended
        case Headers(list, rest) => Headers([Header(line[..colon], SkipBlanks(line[colon + 1..]))] + list, rest)
  }

  /** The announced length, or -1. */
  function AnnouncedLength(headers: seq<Header>): int {
    if headers == [] then -1
    else if headers[0].name != "Content-Length" then AnnouncedLength(headers[1..])
    else if headers[0].value == "" || !AllDigits(headers[0].value) then -1
    else NatValue(headers[0].value)
  }

  predicate IsStatusLine(line: string) {
    && |line| >= 13 && line[..9] == "HTTP/1.1 " && line[12] == ' '
    && IsDigit(line[9]) && IsDigit(line[10]) && IsDigit(line[11])
  }

  function StatusOf(line: string): nat
    requires IsStatusLine(line)
  {
    100 * (line[9] as int - '0' as int) + 10 * (line[10] as int - '0' as int) + (line[11] as int - '0' as int)
  }

  function ReadResponse(s: string): Response {
    var n := LineEnd(s);
    if n == |s| || !IsStatusLine(s[..n]) then Broken
    else
      match ReadHeaders(s[n + 2..])
      case Unended => Broken
      case Headers(list, rest) =>
        var length := AnnouncedLength(list);
        if length < 0 || length > |rest| then Broken
        else Response(StatusOf(s[..n]), s[..n][13..], list, rest[..length], rest[length..])
  }

  // ----- Reading what was put together -----

  lemma {:induction false} LineRead(line: string, rest: string)
    requires '\r' !in line
    ensures LineEnd(line + ("\r\n" + rest)) == |line|
  {
    var s := line + ("\r\n" + rest);
    if line != "" {
      assert s[1..] == line[1..] + ("\r\n" + rest);
      LineRead(line[1..], rest);
    }
  }

  lemma {:induction false} ColonRead(name: string, rest: string)
    requires ':' !in name
    ensures Colon(name + (":" + rest)) == |name|
  {
    var s := name + (":" + rest);
    if name != "" {
      assert s[1..] == name[1..] + (":" + rest);
      ColonRead(name[1..], rest);
    }
  }

  /** Nothing in the two texts is mistaken for a separator. */
  predicate IsField(name: string, value: string) {
    ':' !in name && '\r' !in name && '\r' !in value && value != "" && value[0] != ' ' && value[0] != '\t'
  }

  /** One header line, cut off. */
  lemma HeaderStep(s: string, line: string, more: string, list: seq<Header>, rest: string)
    requires LineEnd(s) == |line| && 0 < |line| < |s| && s[..|line|] == line && s[|line| + 2..] == more
    requires Colon(line) < |line| && ReadHeaders(more) == Headers(list, rest)
    ensures ReadHeaders(s) == Headers([Header(line[..Colon(line)], SkipBlanks(line[Colon(line) + 1..]))] + list, rest)
  {
    hide LineEnd, Colon, SkipBlanks;
  }

  lemma HeaderRead(name: string, value: string, more: string)
    requires IsField(name, value) && ReadHeaders(more).Headers?
    ensures ReadHeaders((name + (":" + (" " + value))) + ("\r\n" + more))
         == Headers([Header(name, value)] + ReadHeaders(more).list, ReadHeaders(more).rest)
  {
    hide ReadHeaders, LineEnd, Colon;
    var line := name + (":" + (" " + value));
    ColonRead(name, " " + value);
    assert line[..|name|] == name && line[|name| + 1..] == " " + value;
    assert SkipBlanks(" " + value) == value by {
      assert (" " + value)[1..] == value;
      assert SkipBlanks(value) == value;
    }
    var s := line + ("\r\n" + more);
    LineRead(line, more);
    assert s[..|line|] == line && s[|line| + 2..] == more;
    HeaderStep(s, line, more, ReadHeaders(more).list, ReadHeaders(more).rest);
  }

  lemma EndRead(rest: string)
    ensures ReadHeaders("\r\n" + rest) == Headers([], rest)
  {
    assert ("\r\n" + rest)[2..] == rest;
  }

  lemma StatusRead(line: string, more: string, list: seq<Header>, body: string, rest: string)
    requires '\r' !in line && IsStatusLine(line)
    requires ReadHeaders(more) == Headers(list, body + rest) && AnnouncedLength(list) == |body|
    ensures ReadResponse(line + ("\r\n" + more)) == Response(StatusOf(line), line[13..], list, body, rest)
  {
    hide ReadHeaders, AnnouncedLength, IsStatusLine, LineEnd;
    LineRead(line, more);
    var s := line + ("\r\n" + more);
    assert s[..|line|] == line && s[|line| + 2..] == more;
    assert (body + rest)[..|body|] == body && (body + rest)[|body|..] == rest;
  }
}
