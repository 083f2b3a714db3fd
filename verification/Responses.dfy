/** What a response line means: header, then rows of fields, as the client's cursor reads them. */
module Responses {
  import opened Bytes
  import opened Escape
  import opened Fields

  /** `skip_one`: past one byte unless at the end. */
  function Skipped(s: seq<Byte>): seq<Byte> {
    if s == [] then s else s[1..]
  }

  /** `read_token`: up to the next tab or the end. */
  function Head(s: seq<Byte>): seq<Byte> {
    s[..Find(s, TAB)]
  }

  function After(s: seq<Byte>): seq<Byte> {
    s[Find(s, TAB)..]
  }

  /** Code, field count, and what is left of the line. */
  datatype Header = Header(code: nat, numFlds: nat, rest: seq<Byte>)

  function ReadHeader(body: seq<Byte>): (h: Header)
    ensures |h.rest| <= |body| && h.rest == body[|body| - |h.rest|..]
    ensures h.code < TWO32 && h.numFlds < TWO32
  {
    var second := Skipped(After(body));
    Header(DigitsValue(Head(body)), DigitsValue(Head(second)), After(second))
  }

  /** The fields of one row and how many bytes they took. */
  datatype Row = Row(fields: seq<Value>, consumed: nat)

  function ReadRow(s: seq<Byte>, n: nat): (r: Row)
    ensures |r.fields| == n && r.consumed <= |s|
    ensures n > 0 && s != [] ==> r.consumed > 0
  {
    if n == 0 then Row([], 0)
    else
      var token := Head(Skipped(s));
      var rest := ReadRow(After(Skipped(s)), n - 1);
      Row([FieldOf(token)] + rest.fields, |s| - |After(Skipped(s))| + rest.consumed)
  }

  /** All rows of `n` fields, until the cursor reaches the end of the line. */
  function ReadRows(s: seq<Byte>, n: nat): seq<seq<Value>>
    decreases |s|
  {
    if n == 0 || s == [] then []
    else
      var row := ReadRow(s, n);
      [row.fields] + ReadRows(s[row.consumed..], n)
  }

  /** One response as the caller sees it: rows after code 0, a message otherwise. */
  datatype Response =
    | Table(numFlds: nat, rows: seq<seq<Value>>)
    | Failure(code: nat, numFlds: nat, message: seq<Byte>)

  const UNKNOWN_ERROR: seq<Byte> :=
    [0x75, 0x6E, 0x6B, 0x6E, 0x6F, 0x77, 0x6E, 0x5F, 0x65, 0x72, 0x72, 0x6F, 0x72]

  function Message(h: Header): seq<Byte> {
    var text := Head(Skipped(h.rest));
    if text == [] then UNKNOWN_ERROR else text
  }

  function ReadResponse(body: seq<Byte>): Response {
    var h := ReadHeader(body);
    if h.code == 0 then Table(h.numFlds, ReadRows(h.rest, h.numFlds)) else Failure(h.code, h.numFlds, Message(h))
  }

  // ----- Encoding, as the server writes it -----

  function RowTokens(rows: seq<seq<Value>>): seq<seq<Byte>> {
    if rows == [] then [] else Tokens(rows[0]) + RowTokens(rows[1..])
  }

  function TableBody(n: nat, rows: seq<seq<Value>>): seq<Byte> {
    Decimal(0) + Tabbed([Decimal(n)] + RowTokens(rows))
  }

  function FailureBody(code: nat, message: seq<Byte>): seq<Byte> {
    Decimal(code) + Tabbed([Decimal(1), message])
  }

  ghost predicate AtTab(s: seq<Byte>) {
    s == [] || s[0] == TAB
  }

  lemma TabbedAtTab(tokens: seq<seq<Byte>>)
    ensures AtTab(Tabbed(tokens))
  {
  }

  /** A tab-free token followed by a tab or the end is read whole. */
  lemma TokenRead(token: seq<Byte>, rest: seq<Byte>)
    requires TAB !in token && AtTab(rest)
    ensures Head(token + rest) == token && After(token + rest) == rest
  {
    FindAfter(token, rest, TAB);
  }

  lemma FieldRead(token: seq<Byte>, tail: seq<Byte>, n: nat)
    requires TAB !in token && AtTab(tail) && n > 0
    ensures var rest := ReadRow(tail, n - 1);
            ReadRow([TAB] + token + tail, n) == Row([FieldOf(token)] + rest.fields, 1 + |token| + rest.consumed)
  {
    hide Find, Head, After, FieldOf;
    var s := [TAB] + token + tail;
    assert s[1..] == token + tail;
    TokenRead(token, tail);
  }

  lemma {:induction false} RowRead(row: seq<Value>, rest: seq<Byte>)
    requires AtTab(rest)
    ensures ReadRow(Tabbed(Tokens(row)) + rest, |row|) == Row(row, |Tabbed(Tokens(row))|)
  {
    hide Find, FieldOf, Token, Escaped;
    if row != [] {
      var token := Token(row[0]);
      var tail := Tabbed(Tokens(row[1..])) + rest;
      assert Tokens(row)[1..] == Tokens(row[1..]);
      assert Tabbed(Tokens(row)) + rest == [TAB] + token + tail;
      TabbedAtTab(Tokens(row[1..]));
      FieldRoundTrip(row[0]);
      FieldRead(token, tail, |row|);
      RowRead(row[1..], rest);
      assert [row[0]] + row[1..] == row;
    }
  }

  lemma {:induction false} RowsRead(n: nat, rows: seq<seq<Value>>)
    requires n > 0 && forall i :: 0 <= i < |rows| ==> |rows[i]| == n
    ensures ReadRows(Tabbed(RowTokens(rows)), n) == rows
    decreases |rows|
  {
    if rows != [] {
      var first := Tabbed(Tokens(rows[0]));
      var rest := Tabbed(RowTokens(rows[1..]));
      TabbedAppend(Tokens(rows[0]), RowTokens(rows[1..]));
      TabbedAtTab(RowTokens(rows[1..]));
      RowRead(rows[0], rest);
      assert Tabbed(RowTokens(rows)) == first + rest;
      assert first != [] by {
        assert Tokens(rows[0]) != [];
      }
      assert (first + rest)[|first|..] == rest;
      RowsRead(n, rows[1..]);
    }
  }

  lemma HeaderRead(code: nat, n: nat, tokens: seq<seq<Byte>>)
    requires code < TWO32 && n < TWO32
    ensures ReadHeader(Decimal(code) + Tabbed([Decimal(n)] + tokens)) == Header(code, n, Tabbed(tokens))
  {
    var second := Decimal(n) + Tabbed(tokens);
    assert ([Decimal(n)] + tokens)[1..] == tokens;
    assert Tabbed([Decimal(n)] + tokens) == [TAB] + second;
    DecimalClean(code);
    DecimalClean(n);
    DecimalValue(code);
    DecimalValue(n);
    TokenRead(Decimal(code), [TAB] + second);
    TabbedAtTab(tokens);
    TokenRead(Decimal(n), Tabbed(tokens));
    assert Skipped([TAB] + second) == second;
  }

  /** Every table of nullable byte strings is read back exactly, for any number of rows. */
  lemma TableRoundTrip(n: nat, rows: seq<seq<Value>>)
    requires 0 < n < TWO32 && forall i :: 0 <= i < |rows| ==> |rows[i]| == n
    ensures ReadResponse(TableBody(n, rows)) == Table(n, rows)
  {
    HeaderRead(0, n, RowTokens(rows));
    RowsRead(n, rows);
  }

  /** An error response is read back with its message, an empty one as the stock text. */
  lemma FailureRoundTrip(code: nat, message: seq<Byte>)
    requires 0 < code < TWO32 && TAB !in message
    ensures ReadResponse(FailureBody(code, message))
         == Failure(code, 1, if message != [] then message
                             else [0x75, 0x6E, 0x6B, 0x6E, 0x6F, 0x77, 0x6E, 0x5F, 0x65, 0x72, 0x72, 0x6F, 0x72])
  {
    HeaderRead(code, 1, [message]);
    assert [Decimal(1), message] == [Decimal(1)] + [message];
    assert Tabbed([message]) == [TAB] + message;
    assert message + [] == message;
    TokenRead(message, []);
  }

  /** No encoded table holds a newline, so the terminating one is the first. */
  lemma TableIsOneLine(n: nat, rows: seq<seq<Value>>)
    ensures NEWLINE !in TableBody(n, rows)
  {
    var tokens := [Decimal(n)] + RowTokens(rows);
    RowTokensNewlineFree(rows);
    DecimalClean(0);
    DecimalClean(n);
    TabbedNewlineFree(tokens);
  }

  lemma {:induction false} RowTokensNewlineFree(rows: seq<seq<Value>>)
    ensures forall i :: 0 <= i < |RowTokens(rows)| ==> NEWLINE !in RowTokens(rows)[i]
  {
    if rows != [] {
      RowTokensNewlineFree(rows[1..]);
      FieldsRoundTrip(rows[0]);
    }
  }

  // ----- Lines of a byte stream -----

  function LineBody(stream: seq<Byte>): seq<Byte> {
    stream[..Find(stream, NEWLINE)]
  }

  function Beyond(stream: seq<Byte>): seq<Byte>
    requires Find(stream, NEWLINE) < |stream|
  {
    stream[Find(stream, NEWLINE) + 1..]
  }

  /** The first `k` lines of a stream. */
  ghost predicate HasLines(stream: seq<Byte>, k: nat) {
    k == 0 || (Find(stream, NEWLINE) < |stream| && HasLines(Beyond(stream), k - 1))
  }

  /** The responses the first `k` lines of a stream stand for. */
  ghost function ReadResponses(stream: seq<Byte>, k: nat): (r: seq<Response>)
    requires HasLines(stream, k)
    ensures |r| == k
  {
    if k == 0 then [] else [ReadResponse(LineBody(stream))] + ReadResponses(Beyond(stream), k - 1)
  }

  ghost function Remainder(stream: seq<Byte>, k: nat): seq<Byte>
    requires HasLines(stream, k)
  {
    if k == 0 then stream else Remainder(Beyond(stream), k - 1)
  }

  ghost predicate Encodes(bodies: seq<seq<Byte>>) {
    forall i :: 0 <= i < |bodies| ==> NEWLINE !in bodies[i]
  }

  function Lines(bodies: seq<seq<Byte>>): seq<Byte> {
    if bodies == [] then [] else bodies[0] + [NEWLINE] + Lines(bodies[1..])
  }

  function Readings(bodies: seq<seq<Byte>>): (r: seq<Response>)
    ensures |r| == |bodies|
    ensures forall i :: 0 <= i < |r| ==> r[i] == ReadResponse(bodies[i])
  {
    if bodies == [] then [] else [ReadResponse(bodies[0])] + Readings(bodies[1..])
  }

  /** Pipelined lines are told apart and read one by one; what follows them is left over. */
  lemma {:induction false} LinesRead(bodies: seq<seq<Byte>>, rest: seq<Byte>)
    requires Encodes(bodies)
    ensures HasLines(Lines(bodies) + rest, |bodies|)
    ensures ReadResponses(Lines(bodies) + rest, |bodies|) == Readings(bodies)
    ensures Remainder(Lines(bodies) + rest, |bodies|) == rest
    decreases |bodies|
  {
    if bodies == [] {
      assert Lines(bodies) + rest == rest;
    } else {
      var tail := Lines(bodies[1..]) + rest;
      var stream := Lines(bodies) + rest;
      assert stream == bodies[0] + ([NEWLINE] + tail);
      FindAfter(bodies[0], [NEWLINE] + tail, NEWLINE);
      assert LineBody(stream) == bodies[0] && Beyond(stream) == tail;
      LinesRead(bodies[1..], rest);
    }
  }
}
