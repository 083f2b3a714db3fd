/** The pipelining HandlerSocket client over its two byte buffers. */
module Client {
  import opened Bytes
  import opened Fields
  import opened LineParser
  import opened Requests
  import opened RequestWriter
  import opened Responses
  import opened StringBuffer

  const BLOCK_SIZE := 4096
  const TWO31 := 0x8000_0000

  /** The last error: a text of the client's own, or the server's message. */
  datatype ErrorText = None | Own(text: string) | Server(message: seq<Byte>)

  function Flatten(chunks: seq<seq<Byte>>): seq<Byte> {
    if chunks == [] then [] else chunks[0] + Flatten(chunks[1..])
  }

  lemma {:induction false} FlattenAppend(chunks: seq<seq<Byte>>, last: seq<Byte>)
    ensures Flatten(chunks + [last]) == Flatten(chunks) + last
  {
    if chunks == [] {
      assert chunks + [last] == [last];
      assert Flatten([last]) == last + Flatten([]);
    } else {
      assert (chunks + [last])[1..] == chunks[1..] + [last];
      FlattenAppend(chunks[1..], last);
    }
  }

  ghost predicate AllOneLine(lines: seq<seq<Byte>>) {
    forall i :: 0 <= i < |lines| ==> OneLine(lines[i])
  }

  /** The lines without their newlines. */
  ghost function Trimmed(lines: seq<seq<Byte>>): (bodies: seq<seq<Byte>>)
    requires AllOneLine(lines)
    ensures |bodies| == |lines|
    ensures forall i :: 0 <= i < |lines| ==> lines[i] == bodies[i] + [NEWLINE] && NEWLINE !in bodies[i]
  {
    if lines == [] then []
    else
      var first := lines[0];
      assert OneLine(first) && first == first[..|first| - 1] + [NEWLINE];
      [first[..|first| - 1]] + Trimmed(lines[1..])
  }

  /**
   * When every request is one line, the newlines in the write buffer count the requests, and
   * splitting at them gives the requests back.
   */
  lemma {:induction false} LinesCounted(lines: seq<seq<Byte>>)
    requires AllOneLine(lines)
    ensures multiset(Flatten(lines))[NEWLINE] == |lines|
    ensures Split(Flatten(lines), NEWLINE) == Trimmed(lines) + [[]]
  {
    hide Split, Find;
    if lines == [] {
      SplitLast([], NEWLINE);
    } else {
      var body, rest := Trimmed(lines)[0], Flatten(lines[1..]);
      LinesCounted(lines[1..]);
      SplitFirst(body, rest, NEWLINE);
      assert lines[0] == body + [NEWLINE];
      assert Trimmed(lines) + [[]] == [body] + (Trimmed(lines[1..]) + [[]]);
      NewlinesAdd(body, rest);
    }
  }

  lemma NewlinesAdd(body: seq<Byte>, rest: seq<Byte>)
    requires NEWLINE !in body
    ensures multiset(body + [NEWLINE] + rest)[NEWLINE] == 1 + multiset(rest)[NEWLINE]
  {
    assert NEWLINE !in multiset(body);
  }

  lemma NextChunk(received: seq<Byte>, chunks: seq<seq<Byte>>)
    requires chunks != []
    ensures received + Flatten(chunks) == received + chunks[0] + Flatten(chunks[1..])
  {
  }

  /** What successive `read` calls will deliver: any split of the stream into non-empty blocks. */
  predicate Chunks(incoming: seq<seq<Byte>>) {
    forall i :: 0 <= i < |incoming| ==> 0 < |incoming[i]| <= BLOCK_SIZE
  }

  /** A `size_t` stored into an `int`. */
  function ToInt(code: nat): (i: int)
    ensures code < 0x1_0000_0000 ==> -0x8000_0000 <= i < 0x8000_0000 && (i == code || i == code - 0x1_0000_0000)
  {
    if code < TWO31 then code else code - TWO32
  }

  /** The four phases of a connection. */
  datatype Phase = Idle | Buffered(requests: nat) | Sent(outstanding: nat) | Received(outstanding: nat)

  lemma SameBeyond(before: seq<Byte>, after: seq<Byte>, cursor: nat, end: nat)
    requires |before| == |after| && cursor <= end <= |before| && before[cursor..] == after[cursor..]
    ensures before[end..] == after[end..]
  {
    assert before[end..] == before[cursor..][end - cursor..];
    assert after[end..] == after[cursor..][end - cursor..];
  }

  class Client {
    var isOpen: bool
    const readbuf: Buffer
    const writebuf: Buffer
    var responseEndOffset: nat
    var curRowOffset: nat
    var numFlds: nat
    var numReqBufd: nat
    var numReqSent: nat
    var numReqRcvd: nat
    var errorCode: int
    var errorText: ErrorText
    var flds: seq<FieldRef>

    /** The network: what the peer will deliver, and the requests sent whole; a partial send gives the connection up. */
    var incoming: seq<seq<Byte>>
    ghost var outgoing: seq<Byte>

    /** The request lines buffered and not yet sent. */
    ghost var lines: seq<seq<Byte>>

    ghost predicate Separate()
      reads this, readbuf, writebuf
    {
      readbuf != writebuf && readbuf.buffer != writebuf.buffer
    }

    /** The counters, independently of the buffers' contents. */
    ghost predicate Counters()
      reads this
    {
      && numReqRcvd <= 1
      && (numReqRcvd == 1 <==> responseEndOffset > 0)
      && (numReqBufd > 0 ==> numReqSent == 0 && numReqRcvd == 0)
      && (numReqSent > 0 || numReqRcvd > 0 ==> isOpen)
      && (responseEndOffset == 0 ==> curRowOffset == 0 && numFlds == 0 && flds == [])
      && (responseEndOffset > 0 ==> curRowOffset < responseEndOffset)
      && |lines| == numReqBufd
      && Chunks(incoming)
      && numFlds < TWO32
    }

    ghost predicate Valid()
      reads this, readbuf, writebuf, readbuf.buffer, writebuf.buffer
    {
      && Separate() && readbuf.Valid() && writebuf.Valid() && Counters()
      && writebuf.Contents == Flatten(lines)
      && responseEndOffset <= |readbuf.Contents|
      && (responseEndOffset > 0 ==> readbuf.Contents[responseEndOffset - 1] == NEWLINE)
      && (|flds| == 0 || |flds| == numFlds)
    }

    /** The bytes received and not consumed, then everything still on its way. */
    ghost function Stream(): seq<Byte>
      reads this, readbuf
    {
      readbuf.Contents + Flatten(incoming)
    }

    /** Reading all that is on its way never needs more memory than there is. */
    ghost predicate ReadFits()
      reads this, readbuf
    {
      readbuf.endOffset + BLOCK_SIZE * (|incoming| + 1) <= HALF
    }

    function CurrentPhase(): Phase
      reads this
    {
      if numReqBufd > 0 then Buffered(numReqBufd)
      else if numReqRcvd > 0 then Received(numReqSent)
      else if numReqSent > 0 then Sent(numReqSent)
      else Idle
    }

    /**
     * The counters never stray from the four phases; a response is held exactly between receiving and
     * removing it, and outstanding requests mean an open connection.
     */
    lemma PhaseDecides()
      requires Valid()
      ensures match CurrentPhase()
              case Idle => numReqBufd == 0 && numReqSent == 0 && numReqRcvd == 0 && responseEndOffset == 0 && writebuf.Contents == []
              case Buffered(k) => numReqBufd == k > 0 && numReqSent == 0 && numReqRcvd == 0 && responseEndOffset == 0
              case Sent(k) => numReqSent == k > 0 && numReqBufd == 0 && numReqRcvd == 0 && responseEndOffset == 0 && isOpen
              case Received(k) => numReqSent == k && numReqRcvd == 1 && numReqBufd == 0 && responseEndOffset > 0 && isOpen
    {
      assert |lines| == 0 ==> Flatten(lines) == [];
    }

    constructor (connected: bool, chunks: seq<seq<Byte>>)
      requires Chunks(chunks)
      ensures Valid() && CurrentPhase() == Idle && isOpen == connected && errorCode == (if connected then 0 else -1)
      ensures incoming == (if connected then chunks else []) && outgoing == [] && Stream() == Flatten(incoming)
      ensures fresh(readbuf) && fresh(writebuf) && fresh(readbuf.buffer) && fresh(writebuf.buffer)
      ensures readbuf.endOffset == 0 == writebuf.endOffset
    {
      readbuf := new Buffer();
      writebuf := new Buffer();
      responseEndOffset, curRowOffset, numFlds, numReqBufd, numReqSent, numReqRcvd := 0, 0, 0, 0, 0, 0;
      flds, lines, outgoing := [], [], [];
      isOpen := connected;
      incoming := if connected then chunks else [];
      errorCode := if connected then 0 else -1;
      errorText := if connected then None else Own("connect");
    }

    method Close()
      requires Separate() && readbuf.Valid() && writebuf.Valid()
      modifies this, readbuf, writebuf
      ensures Valid() && CurrentPhase() == Idle && !isOpen
      ensures readbuf.Contents == [] == writebuf.Contents && incoming == []
      ensures errorCode == old(errorCode) && outgoing == old(outgoing)
      ensures readbuf.buffer == old(readbuf.buffer) && writebuf.buffer == old(writebuf.buffer)
      ensures readbuf.endOffset == 0 == writebuf.endOffset
    {
      readbuf.Clear();
      writebuf.Clear();
      Reset();
    }

    method Reset()
      modifies this
      ensures !isOpen && incoming == [] && flds == [] && lines == []
      ensures responseEndOffset == 0 && curRowOffset == 0 && numFlds == 0
      ensures numReqBufd == 0 && numReqSent == 0 && numReqRcvd == 0
      ensures errorCode == old(errorCode) && errorText == old(errorText) && outgoing == old(outgoing)
    {
      hide IsCapacity;
      isOpen := false;
      incoming := [];
      flds, lines := [], [];
      responseEndOffset := 0;
      curRowOffset := 0;
      numFlds := 0;
      numReqBufd := 0;
      numReqSent := 0;
      numReqRcvd := 0;
    }

    /** Closes the connection and records the error. */
    method Fail(text: string)
      requires Separate() && readbuf.Valid() && writebuf.Valid()
      modifies this, readbuf, writebuf
      ensures Valid() && CurrentPhase() == Idle && !isOpen && errorCode == -1 && errorText == Own(text)
      ensures readbuf.Contents == [] == writebuf.Contents && incoming == [] && outgoing == old(outgoing)
      ensures readbuf.buffer == old(readbuf.buffer) && writebuf.buffer == old(writebuf.buffer)
      ensures readbuf.endOffset == 0 == writebuf.endOffset
    {
      Close();
      errorCode, errorText := -1, Own(text);
    }

    /** The only way out of a negative error: every other public operation leaves a negative error negative. */
    method Reconnect(connected: bool, chunks: seq<seq<Byte>>) returns (e: int)
      requires Valid() && Chunks(chunks)
      modifies this, readbuf, writebuf
      ensures Valid() && CurrentPhase() == Idle && isOpen == connected
      ensures e == errorCode == (if connected then 0 else -1)
      ensures readbuf.Contents == [] && incoming == (if connected then chunks else [])
    {
      hide Flatten, IsCapacity;
      errorCode, errorText := 0, None;
      Close();
      if connected {
        isOpen, incoming := true, chunks;
      } else {
        errorCode, errorText := -1, Own("connect");
      }
      e := errorCode;
    }

    /** A new request may be sent exactly when the connection is open and idle. */
    method StablePoint() returns (stable: bool)
      requires Valid()
      ensures stable <==> isOpen && CurrentPhase() == Idle
    {
      stable := isOpen && numReqBufd == 0 && numReqSent == 0 && numReqRcvd == 0 && responseEndOffset == 0;
    }

    // ----- Buffering requests -----

    /** Another line is in the write buffer; nothing else changed. */
    twostate predicate LineBuffered(line: seq<Byte>)
      reads this, readbuf, writebuf, readbuf.buffer, writebuf.buffer
    {
      && old(Valid()) && Valid()
      && lines == old(lines) + [line]
      && writebuf.Contents == old(writebuf.Contents) + line
      && CurrentPhase() == Buffered(old(numReqBufd) + 1)
      && isOpen == old(isOpen) && errorCode == old(errorCode)
      && incoming == old(incoming) && outgoing == old(outgoing) && readbuf.Contents == old(readbuf.Contents)
      && SameReadBlock()
    }

    /** The read buffer's block is the same and has not filled further. */
    twostate predicate SameReadBlock()
      reads this, readbuf
    {
      readbuf.buffer == old(readbuf.buffer) && readbuf.endOffset <= old(readbuf.endOffset) && |incoming| <= |old(incoming)|
    }

    /** The call came while replies were outstanding: the connection is given up. */
    twostate predicate OutOfSync()
      reads this, readbuf, writebuf, readbuf.buffer, writebuf.buffer
    {
      && Valid() && CurrentPhase() == Idle && !isOpen && errorCode == -1 && outgoing == old(outgoing)
      && SameReadBlock()
    }

    method RequestBufExecGeneric(r: Exec)
      requires Valid() && writebuf.Fits(ExecRoom(r))
      modifies this, readbuf, writebuf, writebuf.buffer
      ensures if old(numReqSent) > 0 || old(numReqRcvd) > 0 then OutOfSync() else LineBuffered(ExecLine(r))
      ensures writebuf.buffer == old(writebuf.buffer) || fresh(writebuf.buffer)
      ensures old(errorCode) < 0 ==> errorCode < 0
    {
      if numReqSent > 0 || numReqRcvd > 0 {
        Fail("request_buf_exec_generic: protocol out of sync");
        return;
      }
      AppendExec(writebuf, r);
      LineAppended(ExecLine(r));
    }

    method RequestBufOpenIndex(handle: nat, db: seq<Byte>, table: seq<Byte>, index: seq<Byte>,
                               columns: seq<Byte>, filterColumns: Value)
      requires Valid() && writebuf.Fits(OpenIndexRoom(db, table, index, columns, filterColumns))
      modifies this, readbuf, writebuf, writebuf.buffer
      ensures if old(numReqSent) > 0 || old(numReqRcvd) > 0 then OutOfSync()
              else LineBuffered(OpenIndexLine(handle, db, table, index, columns, filterColumns))
      ensures writebuf.buffer == old(writebuf.buffer) || fresh(writebuf.buffer)
      ensures old(errorCode) < 0 ==> errorCode < 0
    {
      if numReqSent > 0 || numReqRcvd > 0 {
        Fail("request_buf_open_index: protocol out of sync");
        return;
      }
      AppendOpenIndex(writebuf, handle, db, table, index, columns, filterColumns);
      LineAppended(OpenIndexLine(handle, db, table, index, columns, filterColumns));
    }

    method RequestBufAuth(secret: seq<Byte>, kind: Value)
      requires Valid() && writebuf.Fits(5 + |secret| + OptionalRoom(kind))
      modifies this, readbuf, writebuf, writebuf.buffer
      ensures if old(numReqSent) > 0 || old(numReqRcvd) > 0 then OutOfSync() else LineBuffered(AuthLine(secret, kind))
      ensures writebuf.buffer == old(writebuf.buffer) || fresh(writebuf.buffer)
      ensures old(errorCode) < 0 ==> errorCode < 0
    {
      if numReqSent > 0 || numReqRcvd > 0 {
        Fail("request_buf_auth: protocol out of sync");
        return;
      }
      AppendAuth(writebuf, secret, kind);
      LineAppended(AuthLine(secret, kind));
    }

    method LineAppended(ghost line: seq<Byte>)
      requires Separate() && readbuf.Valid() && writebuf.Valid() && Counters()
      requires numReqSent == 0 && numReqRcvd == 0
      requires writebuf.Contents == Flatten(lines) + line
      modifies this`numReqBufd, this`lines
      ensures Valid() && numReqBufd == old(numReqBufd) + 1 && lines == old(lines) + [line]
    {
      FlattenAppend(lines, line);
      numReqBufd := numReqBufd + 1;
      lines := lines + [line];
    }

    // ----- Sending -----

    /**
     * `sent` is what `send` returned.  A complete send moves every buffered request to the
     * outstanding ones and leaves the write buffer empty; anything else gives the connection up.
     */
    method RequestSend(sent: int) returns (e: int)
      requires Valid() && sent <= |writebuf.Contents|
      modifies this, readbuf, writebuf
      ensures Valid() && e == errorCode
      ensures old(errorCode) < 0 ==> e == old(errorCode) && CurrentPhase() == old(CurrentPhase()) && lines == old(lines)
      ensures e != 0 ==> outgoing == old(outgoing)
      ensures old(errorCode) >= 0 ==>
                (e == 0 <==> old(isOpen) && old(CurrentPhase()).Buffered? && sent == |old(writebuf.Contents)| > 0)
      ensures old(errorCode) >= 0 && e == 0 ==>
                && CurrentPhase() == Sent(old(numReqBufd)) && isOpen
                && writebuf.Contents == [] && lines == []
                && readbuf.Contents == old(readbuf.Contents) && incoming == old(incoming)
                && outgoing == old(outgoing) + old(Flatten(lines))
      ensures old(errorCode) >= 0 && e != 0 ==> e == -1 && CurrentPhase() == Idle && !isOpen
      ensures SameReadBlock()
      ensures writebuf.buffer == old(writebuf.buffer)
      ensures old(errorCode) < 0 ==> errorCode < 0
    {
      hide Flatten, Chunks, IsCapacity;
      if errorCode < 0 {
        return errorCode;
      }
      errorCode, errorText := 0, None;
      if !isOpen {
        Fail("write: closed");
      } else if numReqBufd == 0 || numReqSent > 0 || numReqRcvd > 0 {
        Fail("request_send: protocol out of sync");
      } else {
        Transmit(sent);
      }
      return errorCode;
    }

    /** The part of sending that reaches the network. */
    method Transmit(sent: int)
      requires Valid() && isOpen && numReqBufd > 0 && errorCode == 0 && sent <= |writebuf.Contents|
      modifies this, readbuf, writebuf
      ensures Valid()
      ensures sent == |old(writebuf.Contents)| > 0 ==>
                && errorCode == 0 && CurrentPhase() == Sent(old(numReqBufd)) && isOpen
                && writebuf.Contents == [] && lines == []
                && readbuf.Contents == old(readbuf.Contents) && incoming == old(incoming)
                && outgoing == old(outgoing) + old(Flatten(lines))
      ensures !(sent == |old(writebuf.Contents)| > 0) ==>
                errorCode == -1 && CurrentPhase() == Idle && !isOpen && outgoing == old(outgoing)
      ensures SameReadBlock()
      ensures writebuf.buffer == old(writebuf.buffer)
    {
      hide Chunks, IsCapacity;
      var wrlen := writebuf.Size();
      if sent <= 0 {
        Fail(if sent < 0 then "write: failed" else "write: eof");
        return;
      }
      ghost var content := writebuf.Contents;
      writebuf.EraseFront(sent);
      if sent != wrlen {
        Fail("write: incomplete");
      } else {
        MarkSent(content);
      }
    }

    method MarkSent(ghost content: seq<Byte>)
      modifies this`outgoing, this`numReqSent, this`numReqBufd, this`lines
      ensures outgoing == old(outgoing) + content && lines == []
      ensures numReqSent == old(numReqBufd) && numReqBufd == 0
    {
      outgoing := outgoing + content;
      numReqSent := numReqBufd;
      numReqBufd := 0;
      lines := [];
    }

    // ----- Receiving responses -----

    /** One read.  `failed` is how a read ends when nothing more is on its way: in an error or at the end of the stream. */
    method ReadMore(failed: bool) returns (rlen: int)
      requires Valid() && ReadFits() && responseEndOffset == 0
      modifies this`incoming, this`errorText, readbuf, readbuf.buffer
      ensures Valid() && ReadFits() && Stream() == old(Stream())
      ensures rlen <= 4096 && (rlen <= 0 <==> old(incoming) == [])
      ensures rlen <= 0 ==> incoming == [] && readbuf.Contents == old(readbuf.Contents)
      ensures rlen <= 0 ==> if failed then rlen < 0 && errorText == Own("read: failed") else rlen == 0 && errorText == Own("read: eof")
      ensures rlen > 0 ==> |incoming| < |old(incoming)| && old(readbuf.Contents) <= readbuf.Contents
      ensures readbuf.buffer == old(readbuf.buffer) || fresh(readbuf.buffer)
    {
      hide IsCapacity;
      var wp := readbuf.MakeSpace(BLOCK_SIZE);
      if incoming == [] {
        errorText := Own(if failed then "read: failed" else "read: eof");
        return if failed then -1 else 0;
      }
      var chunk := incoming[0];
      ghost var before := readbuf.Contents;
      readbuf.Fill(chunk);
      readbuf.SpaceWrote(|chunk|);
      NextChunk(before, incoming);
      incoming := incoming[1..];
      rlen := |chunk|;
    }

    /** Reads until a newline has arrived; the split of the stream into reads makes no difference. */
    method ReadLine() returns (found: bool, offset: nat)
      requires Valid() && ReadFits() && responseEndOffset == 0
      modifies this`incoming, this`errorText, readbuf, readbuf.buffer
      ensures Valid() && ReadFits() && Stream() == old(Stream())
      ensures found <==> Find(Stream(), NEWLINE) < |Stream()|
      ensures found ==> 0 < offset <= |readbuf.Contents|
      ensures found ==> readbuf.Contents[..offset - 1] == LineBody(Stream()) && readbuf.Contents[offset - 1] == NEWLINE
      ensures readbuf.buffer == old(readbuf.buffer) || fresh(readbuf.buffer)
    {
      offset := 0;
      while true
        invariant Valid() && ReadFits() && Stream() == old(Stream())
        invariant old(readbuf.Contents) <= readbuf.Contents
        invariant readbuf.buffer == old(readbuf.buffer) || fresh(readbuf.buffer)
        decreases |incoming|
      {
        var nl := MemChr(readbuf.buffer, readbuf.beginOffset, readbuf.endOffset, NEWLINE);
        FindInPrefix(readbuf.Contents, Flatten(incoming), NEWLINE);
        if nl != -1 {
          offset := nl + 1 - readbuf.beginOffset;
          ReceivedPrefix(readbuf.Contents, Flatten(incoming), offset);
          return true, offset;
        }
        var failed: bool := *;
        var rlen := ReadMore(failed);
        if rlen <= 0 {
          assert Stream() == readbuf.Contents;
          return false, offset;
        }
      }
    }

    /** The header fields hold what a line body's header says. */
    ghost predicate HoldsHeader(body: seq<Byte>)
      reads this
    {
      var h := ReadHeader(body);
      && numFlds == h.numFlds && errorCode == ToInt(h.code)
      && curRowOffset == (if h.code == 0 then |body| - |h.rest| else 0)
      && (h.code != 0 ==> errorText == Server(Message(h)))
    }

    /** Decodes the header of the line received, and says where in the line the rows begin. */
    method DecodeHeader() returns (code: nat, n: nat, offset: nat, message: seq<Byte>)
      requires readbuf.Valid() && 0 < responseEndOffset <= |readbuf.Contents|
      ensures var body := readbuf.Contents[..responseEndOffset - 1];
              var h := ReadHeader(body);
              && code == h.code && n == h.numFlds && offset == |body| - |h.rest|
              && (h.code != 0 ==> message == Message(h))
    {
      var begin := readbuf.beginOffset;
      var finish := begin + responseEndOffset - 1;
      var next;
      code, n, next, message := ParseHeader(readbuf.buffer, begin, finish);
      assert readbuf.buffer[begin..finish] == readbuf.Contents[..responseEndOffset - 1];
      offset := next - begin;
    }

    /** Sets the row cursor after the header, or the error the header reports. */
    method TakeHeader()
      requires Valid() && responseEndOffset > 0
      requires curRowOffset == 0 && flds == [] && errorCode == 0
      modifies this`numFlds, this`curRowOffset, this`errorCode, this`errorText
      ensures Valid() && HoldsHeader(readbuf.Contents[..responseEndOffset - 1])
    {
      hide Flatten, Chunks, IsCapacity, ReadHeader, Message;
      var code, n, offset, message := DecodeHeader();
      SetHeader(code, n, offset, message);
    }

    method SetHeader(code: nat, n: nat, offset: nat, message: seq<Byte>)
      requires code < TWO32 && curRowOffset == 0 && errorCode == 0
      modifies this`numFlds, this`curRowOffset, this`errorCode, this`errorText
      ensures numFlds == n && errorCode == ToInt(code)
      ensures curRowOffset == if code == 0 then offset else 0
      ensures code != 0 ==> errorText == Server(message)
    {
      numFlds := n;
      if code != 0 {
        errorCode, errorText := ToInt(code), Server(message);
      } else {
        curRowOffset := offset;
      }
    }

    /** The next line of the stream has been received and its header decoded. */
    ghost predicate HoldsResponse(body: seq<Byte>)
      reads this, readbuf
    {
      && responseEndOffset == |body| + 1 <= |readbuf.Contents|
      && readbuf.Contents[..|body|] == body
      && HoldsHeader(body)
    }

    method MarkReceived(offset: nat)
      requires Separate() && readbuf.Valid() && writebuf.Valid() && Counters()
      requires writebuf.Contents == Flatten(lines)
      requires numReqSent > 0 && numReqRcvd == 0 && responseEndOffset == 0
      requires 0 < offset <= |readbuf.Contents| && readbuf.Contents[offset - 1] == NEWLINE
      modifies this`responseEndOffset, this`numReqSent, this`numReqRcvd
      ensures Valid() && responseEndOffset == offset
      ensures numReqSent == old(numReqSent) - 1 && numReqRcvd == 1
    {
      responseEndOffset := offset;
      numReqSent := numReqSent - 1;
      numReqRcvd := numReqRcvd + 1;
    }

    /** The part of receiving that reaches the network. */
    method ReceiveLine()
      requires Valid() && ReadFits() && CurrentPhase().Sent? && errorCode == 0
      modifies this, readbuf, readbuf.buffer, writebuf
      ensures Valid() && ReadFits() && outgoing == old(outgoing)
      ensures readbuf.buffer == old(readbuf.buffer) || fresh(readbuf.buffer)
      ensures writebuf.buffer == old(writebuf.buffer)
      ensures if Find(old(Stream()), NEWLINE) < |old(Stream())|
              then Delivered(old(Stream()), old(numReqSent))
              else errorCode == -1 && CurrentPhase() == Idle && !isOpen && numFlds == 0
    {
      hide Flatten, ReadHeader, Message, Chunks, IsCapacity;
      ghost var stream := Stream();
      var found, offset := ReadLine();
      if found {
        ghost var body := readbuf.Contents[..offset - 1];
        assert |body| == offset - 1;
        AcceptLine(offset);
        assert HoldsHeader(body);
        assert HoldsResponse(LineBody(stream));
      } else {
        Fail("read: eof");
      }
    }

    /** The line up to `offset` becomes the response being read. */
    method AcceptLine(offset: nat)
      requires Valid() && CurrentPhase().Sent? && errorCode == 0
      requires 0 < offset <= |readbuf.Contents| && readbuf.Contents[offset - 1] == NEWLINE
      modifies this`responseEndOffset, this`numReqSent, this`numReqRcvd
      modifies this`numFlds, this`curRowOffset, this`errorCode, this`errorText
      ensures Valid() && CurrentPhase() == Received(old(numReqSent) - 1)
      ensures responseEndOffset == offset && HoldsHeader(readbuf.Contents[..offset - 1])
    {
      hide Flatten, Chunks, IsCapacity, ReadHeader, Message;
      MarkReceived(offset);
      TakeHeader();
    }

    /** One response of `stream` has been taken in, out of `outstanding`. */
    ghost predicate Delivered(stream: seq<Byte>, outstanding: nat)
      requires outstanding > 0
      reads this, readbuf
    {
      CurrentPhase() == Received(outstanding - 1) && isOpen && Stream() == stream && HoldsResponse(LineBody(stream))
    }

    /**
     * Receives one response.  In the phase `Sent` the outcome is a function of the stream alone: the
     * first line of it, or, when it holds no newline, the end of the connection.  `was` is the
     * caller's field count, which the early exits leave as it is.
     */
    method ResponseRecv(was: nat) returns (e: int, numFldsR: nat)
      requires Valid() && ReadFits()
      modifies this, readbuf, readbuf.buffer, writebuf
      ensures Valid() && ReadFits() && e == errorCode && outgoing == old(outgoing)
      ensures readbuf.buffer == old(readbuf.buffer) || fresh(readbuf.buffer)
      ensures writebuf.buffer == old(writebuf.buffer)
      ensures old(errorCode) < 0 ==>
                e == old(errorCode) && CurrentPhase() == old(CurrentPhase()) && Stream() == old(Stream()) && numFldsR == was
      ensures old(errorCode) >= 0 && !old(CurrentPhase()).Sent? ==>
                e == -1 && CurrentPhase() == Idle && !isOpen && numFldsR == was
      ensures old(errorCode) >= 0 && old(CurrentPhase()).Sent? ==>
                && numFldsR == numFlds
                && if Find(old(Stream()), NEWLINE) < |old(Stream())|
                   then Delivered(old(Stream()), old(numReqSent))
                   else e == -1 && CurrentPhase() == Idle && !isOpen
      ensures old(errorCode) < 0 ==> errorCode < 0
    {
      hide Flatten, Chunks, IsCapacity;
      numFldsR := was;
      if errorCode < 0 {
        return errorCode, numFldsR;
      }
      errorCode, errorText := 0, None;
      if numReqBufd > 0 || numReqSent == 0 || numReqRcvd > 0 || responseEndOffset != 0 {
        Fail("response_recv: protocol out of sync");
        return errorCode, numFldsR;
      }
      // An outstanding request implies an open connection, so "read: closed" cannot happen.
      if !isOpen {
        assert false;
      }
      ReceiveLine();
      return errorCode, numFlds;
    }

    // ----- Rows -----

    /** What is left of the response line for the row cursor; nothing without a response. */
    ghost function Unread(): seq<Byte>
      requires Valid()
      reads this, readbuf, writebuf, readbuf.buffer, writebuf.buffer
    {
      if responseEndOffset == 0 then [] else readbuf.Contents[curRowOffset..responseEndOffset - 1]
    }

    /** What the buffer holds behind the response being read. */
    ghost function Behind(): seq<Byte>
      requires Valid()
      reads this, readbuf, writebuf, readbuf.buffer, writebuf.buffer
    {
      readbuf.Contents[responseEndOffset..]
    }

    /** The row the references denote, read from memory as it now is. */
    function Fields(): seq<Value>
      reads this, readbuf, readbuf.buffer
    {
      var memory := readbuf.buffer[..];
      var refs := flds;
      seq(|refs|, i requires 0 <= i < |refs| => Deref(memory, refs[i]))
    }

    /**
     * Parses one row in place.  The references denote exactly the row's values, everything from the
     * new cursor on is as it was, and so is everything before the old one.
     */
    method GetNextRow() returns (row: bool)
      requires Valid()
      modifies this`flds, this`curRowOffset, readbuf`Contents, readbuf.buffer
      ensures Valid()
      ensures row <==> numFlds > 0 && old(Unread()) != []
      ensures !row ==> curRowOffset == old(curRowOffset) && readbuf.Contents == old(readbuf.Contents) && Unread() == old(Unread())
      ensures row ==>
                var r := ReadRow(old(Unread()), numFlds);
                && Fields() == r.fields
                && curRowOffset == old(curRowOffset) + r.consumed
                && Unread() == old(Unread())[r.consumed..]
      ensures |readbuf.Contents| == |old(readbuf.Contents)|
      ensures readbuf.Contents[..old(curRowOffset)] == old(readbuf.Contents)[..old(curRowOffset)]
      ensures readbuf.Contents[curRowOffset..] == old(readbuf.Contents)[curRowOffset..]
      ensures Behind() == old(Behind())
    {
      hide Flatten, ReadRow, Chunks, IsCapacity, Deref, Find;
      if numFlds == 0 {
        return false;
      }
      var begin := readbuf.beginOffset;
      var start := begin + curRowOffset;
      var finish := begin + responseEndOffset - 1;
      if start >= finish {
        return false;
      }
      ghost var before := readbuf.Contents;
      ParseRow(start, finish);
      SameBeyond(before, readbuf.Contents, curRowOffset, responseEndOffset);
      return true;
    }

    method ParseRow(start: nat, finish: nat)
      requires Valid() && responseEndOffset > 0 && numFlds > 0
      requires start == readbuf.beginOffset + curRowOffset < finish == readbuf.beginOffset + responseEndOffset - 1
      modifies this`flds, this`curRowOffset, readbuf`Contents, readbuf.buffer
      ensures Valid()
      ensures var r := ReadRow(old(Unread()), numFlds);
              && Fields() == r.fields
              && curRowOffset == old(curRowOffset) + r.consumed
              && Unread() == old(Unread())[r.consumed..]
      ensures |readbuf.Contents| == |old(readbuf.Contents)|
      ensures readbuf.Contents[..old(curRowOffset)] == old(readbuf.Contents)[..old(curRowOffset)]
      ensures readbuf.Contents[curRowOffset..] == old(readbuf.Contents)[curRowOffset..]
    {
      hide Flatten, ReadRow, Chunks, IsCapacity, Deref, Find;
      var begin := readbuf.beginOffset;
      ghost var memory := readbuf.buffer[..];
      ContentsSlice(memory, begin, readbuf.endOffset, curRowOffset, responseEndOffset - 1);
      assert readbuf.buffer[start..finish] == memory[start..finish] == Unread();
      var refs, end := ReadRowInPlace(readbuf.buffer, start, finish, numFlds);
      RowParsed(memory, readbuf.buffer[..], begin, readbuf.endOffset, start, end, finish);
      SetRow(refs, end - begin);
    }

    method SetRow(refs: seq<FieldRef>, offset: nat)
      requires readbuf.beginOffset <= readbuf.endOffset <= readbuf.buffer.Length
      modifies this`flds, this`curRowOffset, readbuf`Contents
      ensures flds == refs && curRowOffset == offset
      ensures readbuf.Contents == readbuf.buffer[..][readbuf.beginOffset..readbuf.endOffset]
    {
      flds := refs;
      curRowOffset := offset;
      readbuf.Contents := readbuf.buffer[..][readbuf.beginOffset..readbuf.endOffset];
    }

    method ResponseBufRemove()
      requires Valid()
      modifies this, readbuf, writebuf
      ensures Valid()
      ensures old(responseEndOffset) == 0 ==> CurrentPhase() == Idle && !isOpen && errorCode == -1
      ensures old(responseEndOffset) > 0 ==>
                && CurrentPhase() == (if old(numReqSent) > 0 then Sent(old(numReqSent)) else Idle)
                && readbuf.Contents == old(readbuf.Contents)[old(responseEndOffset)..]
                && incoming == old(incoming) && errorCode == old(errorCode) && isOpen == old(isOpen)
                && outgoing == old(outgoing)
      ensures readbuf.buffer == old(readbuf.buffer) && readbuf.endOffset <= old(readbuf.endOffset)
      ensures writebuf.buffer == old(writebuf.buffer)
      ensures old(errorCode) < 0 ==> errorCode < 0
    {
      hide Flatten, Chunks, IsCapacity;
      if responseEndOffset == 0 {
        Fail("response_buf_remove: protocol out of sync");
        return;
      }
      readbuf.EraseFront(responseEndOffset);
      responseEndOffset := 0;
      numReqRcvd := numReqRcvd - 1;
      curRowOffset := 0;
      numFlds := 0;
      flds := [];
    }
  }

  lemma ContentsSlice(memory: seq<Byte>, begin: nat, end: nat, i: nat, j: nat)
    requires begin <= end <= |memory| && i <= j <= end - begin
    ensures memory[begin..end][i..j] == memory[begin + i..begin + j]
  {
    var part := memory[begin..end];
    assert forall k :: i <= k < j ==> part[k] == memory[begin + k];
  }

  /** What rewriting `start..end` does to the buffer's contents `begin..limit`. */
  lemma RowParsed(memory: seq<Byte>, now: seq<Byte>, begin: nat, limit: nat, start: nat, end: nat, finish: nat)
    requires SameOutside(memory, now, start, end)
    requires begin <= start && end <= finish < limit <= |memory|
    ensures var before := memory[begin..limit]; var after := now[begin..limit];
            && after[..start - begin] == before[..start - begin]
            && after[end - begin..] == before[end - begin..]
            && after[finish - begin] == before[finish - begin]
            && after[end - begin..finish - begin] == memory[start..finish][end - start..]
  {
    SlicesAgree(memory, now, start, end, end, limit);
    assert forall k :: 0 <= k < start ==> now[k] == now[..start][k] == memory[..start][k] == memory[k];
    ContentsSlice(now, begin, limit, end - begin, limit - begin);
    ContentsSlice(memory, begin, limit, end - begin, limit - begin);
    assert now[end..limit][finish - end] == memory[end..limit][finish - end];
    ContentsSlice(now, begin, limit, end - begin, finish - begin);
    assert now[end..finish] == now[end..limit][..finish - end];
    assert memory[end..finish] == memory[end..limit][..finish - end];
  }

  lemma ReceivedPrefix(received: seq<Byte>, coming: seq<Byte>, offset: nat)
    requires offset == Find(received + coming, NEWLINE) + 1 <= |received|
    ensures received[..offset - 1] == LineBody(received + coming)
    ensures received[offset - 1] == NEWLINE
    ensures NEWLINE !in received[..offset - 1]
  {
  }

  /** The first newline of a prefix is the first newline of the whole. */
  lemma FindInPrefix(s: seq<Byte>, rest: seq<Byte>, c: Byte)
    ensures Find(s, c) < |s| ==> Find(s + rest, c) == Find(s, c)
  {
    var i := Find(s, c);
    if i < |s| {
      assert (s + rest)[..i] == s[..i];
      FindUnique(s + rest, c, i);
    }
  }
}
