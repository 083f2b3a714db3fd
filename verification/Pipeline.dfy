/** Rounds of receive, iterate, remove: what a caller gets does not depend on how the bytes arrived. */
module Pipeline {
  import opened Bytes
  import opened Client
  import opened Fields
  import opened Responses
  import opened StringBuffer

  /** Iterates the rows of the response received, copying each before the next overwrites its memory. */
  method ReadAllRows(c: Client) returns (rows: seq<seq<Value>>)
    requires c.Valid() && c.responseEndOffset > 0
    modifies c`flds, c`curRowOffset, c.readbuf`Contents, c.readbuf.buffer
    ensures c.Valid() && rows == ReadRows(old(c.Unread()), c.numFlds)
    ensures c.Behind() == old(c.Behind())
  {
    hide Flatten, Chunks, IsCapacity, ReadRow, Find, c.Fields, c.Unread, c.Behind, c.Valid;
    rows := [];
    ghost var n := c.numFlds;
    ghost var all := ReadRows(c.Unread(), n);
    ghost var unread := c.Unread();
    ghost var behind := c.Behind();
    var more := true;
    while more
      invariant c.Valid() && unread == c.Unread()
      invariant rows + ReadRows(unread, n) == all
      invariant !more ==> ReadRows(unread, n) == []
      invariant c.Behind() == behind
      decreases more, |unread|
    {
      more := c.GetNextRow();
      if more {
        NextRow(rows, unread, n);
        rows := rows + [c.Fields()];
        unread := c.Unread();
      }
    }
  }

  lemma NextRow(rows: seq<seq<Value>>, unread: seq<Byte>, n: nat)
    requires n > 0 && unread != []
    ensures var row := ReadRow(unread, n);
            && rows + ReadRows(unread, n) == rows + [row.fields] + ReadRows(unread[row.consumed..], n)
            && row.consumed > 0
  {
  }

  /** The client is between rounds, with `outstanding` replies still to come on `stream`. */
  ghost predicate Awaiting(c: Client, stream: seq<Byte>, outstanding: nat)
    reads c, c.readbuf, c.readbuf.buffer, c.writebuf, c.writebuf.buffer
  {
    && c.Valid() && c.ReadFits() && c.isOpen && c.Stream() == stream
    && c.CurrentPhase() == (if outstanding > 0 then Sent(outstanding) else Idle)
  }

  /** The error code a response leaves in the client. */
  function ErrorOf(r: Response): int {
    match r
    case Table(_, _) => 0
    case Failure(code, _, _) => ToInt(code)
  }

  /** What the received line `body` says, as the caller reads it. */
  method ReadOut(c: Client, e: int, n: nat, ghost body: seq<Byte>) returns (r: Response)
    requires c.Valid() && c.HoldsResponse(body) && e == c.errorCode && n == c.numFlds
    modifies c`flds, c`curRowOffset, c.readbuf`Contents, c.readbuf.buffer
    ensures c.Valid() && r == ReadResponse(body)
    ensures c.Behind() == old(c.Behind())
    ensures ErrorOf(r) == e
  {
    hide Flatten, Chunks, IsCapacity, ReadRow, ReadRows, Message, Find;
    if e == 0 {
      UnreadRest(c.readbuf.Contents, body, c.curRowOffset);
      var rows := ReadAllRows(c);
      r := Table(n, rows);
    } else {
      r := Failure(if e < 0 then e + TWO32 else e, n, c.errorText.message);
    }
  }

  /** Receive one response, read it out, remove it. */
  method ReceiveRound(c: Client) returns (r: Response)
    requires c.CurrentPhase().Sent? && Awaiting(c, c.Stream(), c.numReqSent) && c.errorCode >= 0
    requires Find(c.Stream(), NEWLINE) < |c.Stream()|
    modifies c, c.readbuf, c.readbuf.buffer, c.writebuf
    ensures r == ReadResponse(LineBody(old(c.Stream())))
    ensures Awaiting(c, Beyond(old(c.Stream())), old(c.numReqSent) - 1) && c.errorCode == ErrorOf(r)
    ensures c.outgoing == old(c.outgoing)
    ensures c.readbuf.buffer == old(c.readbuf.buffer) || fresh(c.readbuf.buffer)
  {
    hide Flatten, Chunks, IsCapacity, ReadResponse, ErrorOf, ReadHeader;
    ghost var stream := c.Stream();
    var e, n := c.ResponseRecv(0);
    StreamBeyond(c.readbuf.Contents, Flatten(c.incoming), c.responseEndOffset, stream);
    r := ReadOut(c, e, n, LineBody(stream));
    c.ResponseBufRemove();
  }

  lemma UnreadRest(contents: seq<Byte>, body: seq<Byte>, cursor: nat)
    requires |body| <= |contents| && contents[..|body|] == body && cursor <= |body|
    ensures contents[cursor..|body|] == body[cursor..]
  {
    assert contents[..|body|][cursor..] == contents[cursor..|body|];
  }

  /** Past the first line there is what the buffer holds behind it, and what is still to come. */
  lemma StreamBeyond(contents: seq<Byte>, coming: seq<Byte>, end: nat, stream: seq<Byte>)
    requires contents + coming == stream && end == Find(stream, NEWLINE) + 1 <= |contents|
    ensures contents[end..] + coming == Beyond(stream)
  {
    assert (contents + coming)[end..] == contents[end..] + coming;
  }

  /** No response but the last leaves a negative error behind. */
  ghost predicate Proceeds(responses: seq<Response>) {
    forall i :: 0 <= i < |responses| - 1 ==> ErrorOf(responses[i]) >= 0
  }

  /** No response but the last has a code of 2^31 or more. */
  ghost predicate Benign(responses: seq<Response>) {
    forall i :: 0 <= i < |responses| - 1 ==> responses[i].Table? || responses[i].code < 0x8000_0000
  }

  lemma CodeBound(body: seq<Byte>)
    ensures ReadResponse(body).Failure? ==> ReadResponse(body).code < 0x1_0000_0000
  {
    hide ReadHeader, ReadRows, Message;
  }

  lemma {:induction false} CodesOnStream(stream: seq<Byte>, k: nat, i: nat)
    requires HasLines(stream, k) && i < k
    ensures var r := ReadResponses(stream, k)[i]; r.Failure? ==> r.code < 0x1_0000_0000
    decreases k
  {
    hide ReadResponse, LineBody, Beyond, Find;
    CodeBound(LineBody(stream));
    if i > 0 {
      CodesOnStream(Beyond(stream), k - 1, i - 1);
    }
  }

  /** An `int` is negative exactly for the codes from 2^31 on. */
  lemma BenignProceeds(stream: seq<Byte>, k: nat)
    requires HasLines(stream, k)
    ensures Proceeds(ReadResponses(stream, k)) <==> Benign(ReadResponses(stream, k))
  {
    hide ReadResponses;
    var all := ReadResponses(stream, k);
    forall i | 0 <= i < |all| - 1 ensures ErrorOf(all[i]) >= 0 <==> all[i].Table? || all[i].code < 0x8000_0000 {
      CodesOnStream(stream, k, i);
    }
  }

  /**
   * Up to `k` rounds.  The responses and what is left of the stream are functions of the stream, not
   * of its split into reads.  All `k` arrive exactly when no earlier one carries a code of 2^31 or
   * more: such a code reads as a negative error, and only a reconnect clears that.
   */
  method ReceivePipelined(c: Client, k: nat) returns (responses: seq<Response>)
    requires Awaiting(c, c.Stream(), c.numReqSent) && c.errorCode >= 0 && k <= c.numReqSent
    requires HasLines(c.Stream(), k)
    modifies c, c.readbuf, c.readbuf.buffer, c.writebuf
    ensures responses <= ReadResponses(old(c.Stream()), k) && Proceeds(responses)
    ensures |responses| == k <==> Proceeds(ReadResponses(old(c.Stream()), k))
    ensures |responses| == k <==> Benign(ReadResponses(old(c.Stream()), k))
    ensures HasLines(old(c.Stream()), |responses|)
    ensures Awaiting(c, Remainder(old(c.Stream()), |responses|), old(c.numReqSent) - |responses|)
    ensures c.outgoing == old(c.outgoing)
  {
    hide Awaiting, Flatten, Chunks, IsCapacity, Find, LineBody, ReadResponse, ErrorOf, Benign;
    responses := [];
    ghost var stream, sent := c.Stream(), c.numReqSent;
    while |responses| < k && c.errorCode >= 0
      invariant |responses| <= k && Taken(stream, k, responses)
      invariant Awaiting(c, Remainder(stream, |responses|), sent - |responses|)
      invariant responses == [] ==> c.errorCode >= 0
      invariant responses != [] ==> c.errorCode == ErrorOf(responses[|responses| - 1])
      invariant c.outgoing == old(c.outgoing)
      invariant c.readbuf.buffer == old(c.readbuf.buffer) || fresh(c.readbuf.buffer)
    {
      ghost var n := |responses|;
      AwaitingMeans(c, Remainder(stream, n), sent - n);
      NextLine(stream, k, n);
      var r := ReceiveRound(c);
      TakenNext(stream, k, responses, r);
      responses := responses + [r];
    }
    AwaitingMeans(c, Remainder(stream, |responses|), sent - |responses|);
    BenignProceeds(stream, k);
    if |responses| < k {
      StoppedEarly(ReadResponses(stream, k), responses);
    }
  }

  /** The responses so far are the first of those on the stream, none but the last an error that stops. */
  ghost predicate Taken(stream: seq<Byte>, k: nat, responses: seq<Response>) {
    && HasLines(stream, k) && HasLines(stream, |responses|)
    && responses <= ReadResponses(stream, k) && Proceeds(responses)
  }

  lemma AwaitingMeans(c: Client, stream: seq<Byte>, outstanding: nat)
    requires Awaiting(c, stream, outstanding)
    ensures c.Stream() == stream && c.numReqSent == outstanding
    ensures outstanding > 0 ==> c.CurrentPhase() == Sent(outstanding)
  {
  }

  lemma FirstLine(stream: seq<Byte>)
    requires Find(stream, NEWLINE) < |stream|
    ensures HasLines(stream, 1) && Remainder(stream, 1) == Beyond(stream)
  {
    hide Find, Beyond;
    assert HasLines(Beyond(stream), 0) && Remainder(Beyond(stream), 0) == Beyond(stream);
  }

  /** Line number `n` of a stream is the first line of what the first `n` leave. */
  lemma {:induction false} NextLine(stream: seq<Byte>, k: nat, n: nat)
    requires HasLines(stream, k) && n < k
    ensures HasLines(stream, n) && HasLines(stream, n + 1)
    ensures var rest := Remainder(stream, n);
            && Find(rest, NEWLINE) < |rest| && Remainder(stream, n + 1) == Beyond(rest)
            && ReadResponses(stream, k)[n] == ReadResponse(LineBody(rest))
    decreases n
  {
    hide Find, LineBody, Beyond, ReadResponse;
    if n == 0 {
      FirstLine(stream);
    } else {
      NextLine(Beyond(stream), k - 1, n - 1);
      assert ReadResponses(stream, k)[n] == ReadResponses(Beyond(stream), k - 1)[n - 1];
    }
  }

  lemma TakenNext(stream: seq<Byte>, k: nat, responses: seq<Response>, r: Response)
    requires Taken(stream, k, responses) && |responses| < k
    requires HasLines(stream, |responses|) && r == ReadResponse(LineBody(Remainder(stream, |responses|)))
    requires responses != [] ==> ErrorOf(responses[|responses| - 1]) >= 0
    ensures Taken(stream, k, responses + [r])
  {
    hide Find, LineBody, Beyond, ReadResponse, ErrorOf, HasLines, ReadResponses, Remainder;
    NextLine(stream, k, |responses|);
    var longer := responses + [r];
    forall i | 0 <= i < |longer| - 1 ensures ErrorOf(longer[i]) >= 0 {
      assert longer[i] == responses[i];
    }
  }

  lemma StoppedEarly(all: seq<Response>, responses: seq<Response>)
    requires responses <= all && responses != [] && |responses| < |all|
    requires ErrorOf(responses[|responses| - 1]) < 0
    ensures !Proceeds(all)
  {
    assert all[|responses| - 1] == responses[|responses| - 1];
  }

  // ----- From the server's tables to the caller's rows -----

  /** A table as the server holds it: every row of the stated, positive width. */
  predicate Tabular(t: Response) {
    t.Table? && 0 < t.numFlds < TWO32 && forall i :: 0 <= i < |t.rows| ==> |t.rows[i]| == t.numFlds
  }

  ghost predicate AllTabular(tables: seq<Response>) {
    forall i :: 0 <= i < |tables| ==> Tabular(tables[i])
  }

  function BodyOf(t: Response): seq<Byte>
    requires Tabular(t)
  {
    TableBody(t.numFlds, t.rows)
  }

  ghost function Bodies(tables: seq<Response>): (b: seq<seq<Byte>>)
    requires AllTabular(tables)
    ensures |b| == |tables|
    ensures forall i :: 0 <= i < |b| ==> Tabular(tables[i]) && b[i] == BodyOf(tables[i])
  {
    if tables == [] then []
    else
      assert Tabular(tables[0]);
      [BodyOf(tables[0])] + Bodies(tables[1..])
  }

  lemma BodyRead(t: Response)
    requires Tabular(t)
    ensures NEWLINE !in BodyOf(t) && ReadResponse(BodyOf(t)) == t
  {
    TableIsOneLine(t.numFlds, t.rows);
    TableRoundTrip(t.numFlds, t.rows);
  }

  lemma TablesRead(tables: seq<Response>, rest: seq<Byte>)
    requires AllTabular(tables)
    ensures var stream := Lines(Bodies(tables)) + rest;
            && HasLines(stream, |tables|)
            && ReadResponses(stream, |tables|) == tables
            && Remainder(stream, |tables|) == rest
    ensures Proceeds(tables)
  {
    hide ReadResponse, BodyOf, Lines, Bodies, HasLines, ReadResponses, Remainder, Readings;
    var bodies := Bodies(tables);
    forall i | 0 <= i < |bodies| ensures NEWLINE !in bodies[i] && ReadResponse(bodies[i]) == tables[i] {
      assert Tabular(tables[i]);
      BodyRead(tables[i]);
    }
    LinesRead(bodies, rest);
    assert Readings(bodies) == tables;
    assert forall i :: 0 <= i < |tables| ==> Tabular(tables[i]);
  }

  /**
   * However the encoding of any list of tables is cut into reads, the caller gets exactly those
   * tables, row by row, and what follows them on the stream is still there.
   */
  method ReceiveTables(c: Client, ghost tables: seq<Response>, ghost rest: seq<Byte>) returns (responses: seq<Response>)
    requires AllTabular(tables)
    requires Awaiting(c, Lines(Bodies(tables)) + rest, |tables|) && c.errorCode >= 0
    modifies c, c.readbuf, c.readbuf.buffer, c.writebuf
    ensures responses == tables
    ensures Awaiting(c, rest, 0)
  {
    TablesRead(tables, rest);
    AwaitingMeans(c, Lines(Bodies(tables)) + rest, |tables|);
    responses := ReceivePipelined(c, c.numReqSent);
  }
}
