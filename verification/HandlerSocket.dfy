/** The versioned read and the conditional write, built on the client. */
module HandlerSocket {
  import opened Bytes
  import opened Client
  import opened Fields
  import Ledger
  import opened Pipeline
  import opened Requests
  import opened RequestWriter
  import opened Responses
  import opened Server
  import opened StringBuffer

  const EQUALS: seq<Byte> := [0x3D]
  const UPDATE: seq<Byte> := [0x55]

  /** Rows are keyed from zero: one less than the id in a request. */
  predicate IsKey(id: int) {
    0 <= id < Ledger.CUSTOMERS
  }

  function IdField(id: nat): Value
    requires IsKey(id)
  {
    Text([ZERO + id])
  }

  function ReadRequest(handle: nat, id: nat): Exec
    requires IsKey(id)
  {
    Exec(handle, EQUALS, [IdField(id)], 0, 0, [], [], [], -1, [])
  }

  function WriteRequest(handle: nat, id: nat, data: seq<Byte>, version: nat): Exec
    requires IsKey(id)
  {
    Exec(handle, EQUALS, [IdField(id), Text(Decimal(version))], 0, 0,
         UPDATE, [IdField(id), Text(data), Text(Decimal(version + 1))], [], -1, [])
  }

  // ----- std::stoi -----

  datatype Parsed = Threw | Int(value: int)

  predicate IsSpace(b: Byte) {
    b == 0x20 || 0x09 <= b <= 0x0D
  }

  /** The value of a run of digits, without any wrap. */
  function Plain(digits: seq<Byte>): nat
    requires forall i :: 0 <= i < |digits| ==> IsDigit(digits[i])
  {
    if digits == [] then 0
    else
      var last: int := digits[|digits| - 1];
      assert IsDigit(digits[|digits| - 1]);
      10 * Plain(digits[..|digits| - 1]) + (last - ZERO)
  }

  /** White space, a sign, digits; no digits or a value outside 32 bits is an exception. */
  function Stoi(s: seq<Byte>): Parsed {
    if s != [] && IsSpace(s[0]) then Stoi(s[1..])
    else
      var signed := s != [] && (s[0] == 0x2B || s[0] == 0x2D);
      var t := if signed then s[1..] else s;
      var magnitude: int := Plain(t[..DigitRun(t)]);
      var v := if signed && s[0] == 0x2D then -magnitude else magnitude;
      if DigitRun(t) == 0 || !(-TWO31 <= v < TWO31) then Threw else Int(v)
  }

  lemma {:induction false} PlainDecimal(n: nat)
    ensures Plain(Decimal(n)) == n
    decreases n
  {
    if n >= 10 {
      assert Decimal(n)[..|Decimal(n)| - 1] == Decimal(n / 10);
      PlainDecimal(n / 10);
    }
  }

  lemma {:induction false} AllDigits(s: seq<Byte>)
    requires forall i :: 0 <= i < |s| ==> IsDigit(s[i])
    ensures DigitRun(s) == |s|
  {
    if s != [] {
      AllDigits(s[1..]);
    }
  }

  /** `std::stoi` undoes `std::to_string`. */
  lemma StoiDecimal(n: nat)
    requires n < TWO31
    ensures Stoi(Decimal(n)) == Int(n)
  {
    var s := Decimal(n);
    assert IsDigit(s[0]);
    AllDigits(s);
    assert s[..|s|] == s;
    PlainDecimal(n);
  }

  // ----- What the callers make of a reply's rows -----

  datatype Written = Aborted | Returned(modified: bool)

  /** A write counts as done when any number in the reply is positive. */
  function ModifiedBy(fields: seq<Value>, so: Written): Written {
    if fields == [] || so.Aborted? then so
    else
      var next := match fields[0]
        case Null => so
        case Text(bytes) =>
          match Stoi(bytes)
          case Threw => Aborted
          case Int(k) => Returned(so.modified || k > 0);
      ModifiedBy(fields[1..], next)
  }

  function ModifiedByRows(rows: seq<seq<Value>>, so: Written): Written {
    if rows == [] || so.Aborted? then so else ModifiedByRows(rows[1..], ModifiedBy(rows[0], so))
  }

  /** The data and version fields of the rows, each row's over the one before; anything but a null counts. */
  datatype Fetched = Crashed | Fetched(data: Value, version: int)

  /** The fields of a row from number `i` on. */
  function FetchedFrom(fields: seq<Value>, i: nat, so: Fetched): Fetched {
    if fields == [] || so.Crashed? then so
    else
      var next := match fields[0]
        case Null => so
        case Text(bytes) =>
          if i == 1 then so.(data := fields[0])
          else if i == 2 then
            match Stoi(bytes)
            case Threw => Crashed
            case Int(v) => so.(version := v)
          else so;
      FetchedFrom(fields[1..], i + 1, next)
  }

  function FetchedByRows(rows: seq<seq<Value>>, so: Fetched): Fetched {
    if rows == [] || so.Crashed? then so else FetchedByRows(rows[1..], FetchedFrom(rows[0], 0, so))
  }

  // ----- What that means, for any reply -----

  predicate Numeric(fields: seq<Value>) {
    forall i :: 0 <= i < |fields| && fields[i].Text? ==> Stoi(fields[i].bytes).Int?
  }

  ghost predicate HasPositive(fields: seq<Value>) {
    exists i :: 0 <= i < |fields| && fields[i].Text? && Stoi(fields[i].bytes).Int? && Stoi(fields[i].bytes).value > 0
  }

  lemma {:induction false} FieldsModify(fields: seq<Value>, modified: bool)
    requires Numeric(fields)
    ensures ModifiedBy(fields, Returned(modified)) == Returned(modified || HasPositive(fields))
  {
    hide Stoi;
    if fields != [] {
      var rest := fields[1..];
      var positive := fields[0].Text? && Stoi(fields[0].bytes).value > 0;
      FieldsModify(rest, modified || positive);
      assert forall i :: 0 <= i < |rest| ==> rest[i] == fields[i + 1];
      if HasPositive(fields) && !positive {
        var i :| 0 <= i < |fields| && fields[i].Text? && Stoi(fields[i].bytes).Int? && Stoi(fields[i].bytes).value > 0;
        assert rest[i - 1] == fields[i];
      }
    }
  }

  /** A write is taken for done exactly when some field of some row of the reply is a positive number. */
  lemma {:induction false} ModifiedExactly(rows: seq<seq<Value>>, modified: bool)
    requires forall r <- rows :: Numeric(r)
    ensures ModifiedByRows(rows, Returned(modified)) == Returned(modified || exists r <- rows :: HasPositive(r))
  {
    hide ModifiedBy, Numeric, HasPositive;
    if rows != [] {
      FieldsModify(rows[0], modified);
      ModifiedExactly(rows[1..], modified || HasPositive(rows[0]));
      assert forall r :: r in rows <==> r == rows[0] || r in rows[1..];
    }
  }

  /** Of a row's three fields the second is the data and the third the version; a null leaves the value as it was. */
  lemma FieldsFetch(id: Value, data: Value, version: Value, so: Fetched)
    requires so.Fetched?
    ensures FetchedFrom([id, data, version], 0, so)
         == if version.Text? && Stoi(version.bytes).Threw? then Crashed
            else Fetched(if data.Text? then data else so.data,
                         if version.Text? then Stoi(version.bytes).value else so.version)
  {
    hide Stoi;
    var fields := [id, data, version];
    var two, one := fields[1..], fields[2..];
    assert two[1..] == one && one[1..] == [];
    var read := if data.Text? then so.(data := data) else so;
    assert FetchedFrom(fields, 0, so) == FetchedFrom(two, 1, so);
    assert FetchedFrom(two, 1, so) == FetchedFrom(one, 2, read);
    assert one[0] == version;
    var last := if version.Null? then read
                else match Stoi(version.bytes) { case Threw => Crashed case Int(v) => read.(version := v) };
    assert FetchedFrom(one, 2, read) == FetchedFrom([], 3, last) == last;
  }

  /** White space, a sign, digits, and whatever follows: the signed value, if it is an `int`. */
  lemma {:induction false} StoiSigned(spaces: seq<Byte>, sign: seq<Byte>, digits: seq<Byte>, rest: seq<Byte>)
    requires forall i :: 0 <= i < |spaces| ==> spaces[i] == 0x20 || 0x09 <= spaces[i] <= 0x0D
    requires sign in {[], [0x2B], [0x2D]}
    requires forall i :: 0 <= i < |digits| ==> 0x30 <= digits[i] <= 0x39
    requires rest == [] || rest[0] < 0x30 || rest[0] > 0x39
    requires digits == [] && sign == [] ==> rest == [] || !(rest[0] in {0x20, 0x2B, 0x2D} || 0x09 <= rest[0] <= 0x0D)
    ensures var v: int := if sign == [0x2D] then 0 - Plain(digits) else Plain(digits);
            Stoi(spaces + sign + digits + rest)
              == if digits == [] || v < -0x8000_0000 || v > 0x7FFF_FFFF then Threw else Int(v)
    decreases |spaces|
  {
    hide Plain;
    var s := spaces + sign + digits + rest;
    if spaces != [] {
      assert s[1..] == spaces[1..] + sign + digits + rest;
      StoiSigned(spaces[1..], sign, digits, rest);
    } else {
      assert s == sign + (digits + rest);
      StoiUnspaced(sign, digits, rest);
    }
  }

  lemma StoiUnspaced(sign: seq<Byte>, digits: seq<Byte>, rest: seq<Byte>)
    requires sign in {[], [0x2B], [0x2D]}
    requires forall i :: 0 <= i < |digits| ==> 0x30 <= digits[i] <= 0x39
    requires rest == [] || rest[0] < 0x30 || rest[0] > 0x39
    requires digits == [] && sign == [] ==> rest == [] || !(rest[0] in {0x20, 0x2B, 0x2D} || 0x09 <= rest[0] <= 0x0D)
    ensures var v: int := if sign == [0x2D] then 0 - Plain(digits) else Plain(digits);
            Stoi(sign + (digits + rest))
              == if digits == [] || v < -0x8000_0000 || v > 0x7FFF_FFFF then Threw else Int(v)
  {
    hide Plain;
    var t := digits + rest;
    var s := sign + t;
    RunOfDigits(digits, rest);
    assert t[..|digits|] == digits;
    if sign == [] {
      assert s == t;
    } else {
      assert s[0] == sign[0] && s[1..] == t;
    }
  }

  lemma {:induction false} RunOfDigits(digits: seq<Byte>, rest: seq<Byte>)
    requires forall i :: 0 <= i < |digits| ==> 0x30 <= digits[i] <= 0x39
    requires rest == [] || rest[0] < 0x30 || rest[0] > 0x39
    ensures DigitRun(digits + rest) == |digits|
  {
    if digits == [] {
      assert digits + rest == rest;
    } else {
      assert (digits + rest)[1..] == digits[1..] + rest;
      RunOfDigits(digits[1..], rest);
    }
  }

  // ----- The loops over a reply -----

  method ScanWritten(fields: seq<Value>, so: Written) returns (r: Written)
    requires so.Returned?
    ensures r == ModifiedBy(fields, so)
  {
    r := so;
    for i := 0 to |fields|
      invariant r.Returned? && ModifiedBy(fields, so) == ModifiedBy(fields[i..], r)
    {
      assert fields[i..][1..] == fields[i + 1..];
      if fields[i].Text? {
        var n := Stoi(fields[i].bytes);
        if n.Threw? {
          return Aborted;
        }
        if n.value > 0 {
          r := Returned(true);
        }
      }
    }
  }

  method ScanFetched(fields: seq<Value>, so: Fetched) returns (r: Fetched)
    requires so.Fetched?
    ensures r == FetchedFrom(fields, 0, so)
  {
    r := so;
    for i := 0 to |fields|
      invariant r.Fetched? && FetchedFrom(fields, 0, so) == FetchedFrom(fields[i..], i, r)
    {
      assert fields[i..][1..] == fields[i + 1..];
      if fields[i].Text? {
        if i == 1 {
          r := r.(data := fields[i]);
        }
        if i == 2 {
          var n := Stoi(fields[i].bytes);
          if n.Threw? {
            return Crashed;
          }
          r := r.(version := n.value);
        }
      }
    }
  }

  method ReadWritten(c: Client) returns (r: Written)
    requires c.Valid() && c.responseEndOffset > 0
    modifies c`flds, c`curRowOffset, c.readbuf`Contents, c.readbuf.buffer
    ensures c.Valid() && r == ModifiedByRows(ReadRows(old(c.Unread()), c.numFlds), Returned(false))
    ensures c.Behind() == old(c.Behind())
  {
    hide Flatten, Chunks, IsCapacity, ReadRow, ReadRows, ModifiedByRows, ModifiedBy, Stoi, Find, c.Fields, c.Unread, c.Behind, c.Valid;
    r := Returned(false);
    ghost var n := c.numFlds;
    ghost var all := ModifiedByRows(ReadRows(c.Unread(), n), r);
    ghost var unread := c.Unread();
    ghost var behind := c.Behind();
    var more := true;
    while more
      invariant c.Valid() && unread == c.Unread() && r.Returned?
      invariant ModifiedByRows(ReadRows(unread, n), r) == all
      invariant !more ==> all == r
      invariant c.Behind() == behind
      decreases more, |unread|
    {
      more := c.GetNextRow();
      WrittenFrom(unread, n, r);
      if more {
        unread := c.Unread();
        r := ScanWritten(c.Fields(), r);
        if r.Aborted? {
          return;
        }
      }
    }
  }

  method ReadFetched(c: Client, so: Fetched) returns (r: Fetched)
    requires c.Valid() && c.responseEndOffset > 0 && so.Fetched?
    modifies c`flds, c`curRowOffset, c.readbuf`Contents, c.readbuf.buffer
    ensures c.Valid() && r == FetchedByRows(ReadRows(old(c.Unread()), c.numFlds), so)
    ensures c.Behind() == old(c.Behind())
  {
    hide Flatten, Chunks, IsCapacity, ReadRow, ReadRows, FetchedByRows, FetchedFrom, Stoi, Find, c.Fields, c.Unread, c.Behind, c.Valid;
    r := so;
    ghost var n := c.numFlds;
    ghost var all := FetchedByRows(ReadRows(c.Unread(), n), r);
    ghost var unread := c.Unread();
    ghost var behind := c.Behind();
    var more := true;
    while more
      invariant c.Valid() && unread == c.Unread() && r.Fetched?
      invariant FetchedByRows(ReadRows(unread, n), r) == all
      invariant !more ==> all == r
      invariant c.Behind() == behind
      decreases more, |unread|
    {
      more := c.GetNextRow();
      FetchedNext(unread, n, r);
      if more {
        unread := c.Unread();
        r := ScanFetched(c.Fields(), r);
        if r.Crashed? {
          return;
        }
      }
    }
  }

  lemma WrittenFrom(unread: seq<Byte>, n: nat, so: Written)
    requires so.Returned?
    ensures n == 0 || unread == [] ==> ModifiedByRows(ReadRows(unread, n), so) == so
    ensures n > 0 && unread != [] ==>
              var row := ReadRow(unread, n);
              var next := ModifiedBy(row.fields, so);
              && row.consumed > 0
              && ModifiedByRows(ReadRows(unread, n), so) == ModifiedByRows(ReadRows(unread[row.consumed..], n), next)
              && (next.Aborted? ==> ModifiedByRows(ReadRows(unread, n), so) == Aborted)
  {
  }

  lemma FetchedNext(unread: seq<Byte>, n: nat, so: Fetched)
    requires so.Fetched?
    ensures n == 0 || unread == [] ==> FetchedByRows(ReadRows(unread, n), so) == so
    ensures n > 0 && unread != [] ==>
              var row := ReadRow(unread, n);
              var next := FetchedFrom(row.fields, 0, so);
              && row.consumed > 0
              && FetchedByRows(ReadRows(unread, n), so) == FetchedByRows(ReadRows(unread[row.consumed..], n), next)
              && (next.Crashed? ==> FetchedByRows(ReadRows(unread, n), so) == Crashed)
  {
  }

  // ----- One exchange -----

  /** The connection is up and nothing is under way. */
  ghost predicate Ready(c: Client)
    reads c
  {
    c.isOpen && c.CurrentPhase() == Idle && c.errorCode >= 0
  }

  /** Nothing can be sent any more until somebody reconnects: an old error, or a reply left in place. */
  ghost predicate Stuck(c: Client)
    reads c
  {
    c.errorCode < 0 || c.CurrentPhase().Received?
  }

  lemma NothingBuffered(c: Client)
    requires c.Valid()
    ensures c.CurrentPhase() == Idle ==> c.writebuf.Contents == [] && c.numReqBufd == 0
  {
  }

  lemma NotEmpty(request: Exec)
    ensures ExecLine(request) != []
  {
  }

  /** Buffers one request and sends it; `missing` bytes are not accepted by the network. */
  method Send(c: Client, request: Exec, missing: nat) returns (e: int)
    requires c.Valid() && c.ReadFits() && c.writebuf.Fits(ExecRoom(request))
    modifies c, c.readbuf, c.writebuf, c.writebuf.buffer
    ensures c.Valid() && c.ReadFits()
    ensures old(Stuck(c)) ==> e != 0 && c.outgoing == old(c.outgoing) && c.errorCode < 0
    ensures old(Ready(c)) && missing == 0 ==>
              e == 0 && c.outgoing == old(c.outgoing) + ExecLine(request) && c.Stream() == old(c.Stream())
    ensures old(Ready(c)) && missing > 0 ==> e != 0 && c.outgoing == old(c.outgoing) && !c.isOpen && c.errorCode == -1
    ensures e == 0 ==> c.errorCode == 0 && c.CurrentPhase().Sent?
    ensures old(Ready(c)) && e == 0 ==> c.CurrentPhase() == Sent(1)
    ensures c.readbuf.buffer == old(c.readbuf.buffer)
    ensures c.writebuf.buffer == old(c.writebuf.buffer) || fresh(c.writebuf.buffer)
  {
    hide Flatten, Chunks, IsCapacity, ExecLine;
    NothingBuffered(c);
    NotEmpty(request);
    c.RequestBufExecGeneric(request);
    var size := c.writebuf.Size();
    e := c.RequestSend(size - missing);
  }

  /** Sends one request and waits for its reply. */
  method Exchange(c: Client, request: Exec, missing: nat) returns (replied: bool, n: nat)
    requires c.Valid() && c.ReadFits() && c.writebuf.Fits(ExecRoom(request))
    modifies c, c.readbuf, c.readbuf.buffer, c.writebuf, c.writebuf.buffer
    ensures c.Valid() && c.ReadFits()
    ensures old(Stuck(c)) ==> !replied && c.outgoing == old(c.outgoing) && c.errorCode < 0
    ensures old(Ready(c)) && missing == 0 && Find(old(c.Stream()), NEWLINE) < |old(c.Stream())| ==>
              && replied && n == c.numFlds && c.outgoing == old(c.outgoing) + ExecLine(request)
              && c.Delivered(old(c.Stream()), 1)
    ensures old(Ready(c)) && missing == 0 && Find(old(c.Stream()), NEWLINE) == |old(c.Stream())| ==>
              && replied && c.outgoing == old(c.outgoing) + ExecLine(request)
              && !c.isOpen && c.errorCode == -1
    ensures old(Ready(c)) && missing > 0 ==> !replied && c.outgoing == old(c.outgoing) && !c.isOpen && c.errorCode == -1
    ensures replied && c.errorCode == 0 ==> c.CurrentPhase().Received?
    ensures c.readbuf.buffer == old(c.readbuf.buffer) || fresh(c.readbuf.buffer)
    ensures c.writebuf.buffer == old(c.writebuf.buffer) || fresh(c.writebuf.buffer)
  {
    hide Flatten, Chunks, IsCapacity, Find, ExecLine, ReadHeader;
    n := 0;
    var sent := Send(c, request, missing);
    if sent != 0 {
      return false, n;
    }
    var e;
    e, n := c.ResponseRecv(n);
    replied := true;
  }

  // ----- The conditional write -----

  /**
   * A table says whether a row was modified, and the connection is ready for the next exchange.  An
   * error reply counts as modified, and its line is never removed.
   */
  ghost predicate WriteOutcome(c: Client, stream: seq<Byte>, r: Written)
    requires Find(stream, NEWLINE) < |stream|
    reads c, c.readbuf, c.readbuf.buffer, c.writebuf, c.writebuf.buffer
  {
    match ReadResponse(LineBody(stream))
    case Table(_, rows) =>
      && r == ModifiedByRows(rows, Returned(false))
      && (r.Returned? ==> Awaiting(c, Beyond(stream), 0) && c.errorCode == 0)
    case Failure(_, _, _) => r == Returned(true) && Stuck(c)
  }

  method WriteCustomerHs(c: Client, handle: nat, id: nat, data: seq<Byte>, version: nat, missing: nat) returns (r: Written)
    requires c.Valid() && c.ReadFits() && IsKey(id)
    requires c.writebuf.Fits(ExecRoom(WriteRequest(handle, id, data, version)))
    modifies c, c.readbuf, c.readbuf.buffer, c.writebuf, c.writebuf.buffer
    ensures c.Valid() && c.ReadFits()
    ensures old(Stuck(c)) ==> r == Returned(false) && c.outgoing == old(c.outgoing) && Stuck(c)
    ensures old(Ready(c)) && missing == 0 && Find(old(c.Stream()), NEWLINE) < |old(c.Stream())| ==>
              && c.outgoing == old(c.outgoing) + ExecLine(WriteRequest(handle, id, data, version))
              && WriteOutcome(c, old(c.Stream()), r)
    // the request went out and no reply came
    ensures old(Ready(c)) && missing == 0 && Find(old(c.Stream()), NEWLINE) == |old(c.Stream())| ==>
              && r == Returned(true) && !c.isOpen && Stuck(c)
              && c.outgoing == old(c.outgoing) + ExecLine(WriteRequest(handle, id, data, version))
    // the request never went out whole
    ensures old(Ready(c)) && missing > 0 ==>
              r == Returned(false) && !c.isOpen && Stuck(c) && c.outgoing == old(c.outgoing)
  {
    hide Flatten, Chunks, IsCapacity, Find, ExecLine, ReadHeader, ReadRows, ModifiedByRows, WriteRequest, ExecRoom, Message;
    ghost var stream := c.Stream();
    var replied, n := Exchange(c, WriteRequest(handle, id, data, version), missing);
    if !replied {
      return Returned(false);
    }
    if c.errorCode != 0 {
      return Returned(true);
    }
    r := FinishWrite(c, stream);
  }

  method FinishWrite(c: Client, ghost stream: seq<Byte>) returns (r: Written)
    requires c.Valid() && c.ReadFits() && c.CurrentPhase().Received? && c.errorCode == 0
    modifies c, c.readbuf, c.readbuf.buffer, c.writebuf
    ensures c.Valid() && c.ReadFits() && c.outgoing == old(c.outgoing)
    ensures Find(stream, NEWLINE) < |stream| && old(c.Delivered(stream, 1)) ==> WriteOutcome(c, stream, r)
  {
    hide Flatten, Chunks, IsCapacity, Find, ReadHeader, ReadRows, ModifiedByRows, Message;
    ghost var delivered := Find(stream, NEWLINE) < |stream| && c.Delivered(stream, 1);
    if delivered {
      UnreadRest(c.readbuf.Contents, LineBody(stream), c.curRowOffset);
      StreamBeyond(c.readbuf.Contents, Flatten(c.incoming), c.responseEndOffset, stream);
    }
    r := ReadWritten(c);
    if r.Returned? {
      c.ResponseBufRemove();
    }
  }

  // ----- The versioned read -----

  /** A table's rows are taken in one after the other; after an error reply the line is never removed. */
  ghost predicate ReadOutcome(c: Client, stream: seq<Byte>, so: Fetched, found: bool, r: Fetched)
    requires Find(stream, NEWLINE) < |stream|
    reads c, c.readbuf, c.readbuf.buffer, c.writebuf, c.writebuf.buffer
  {
    match ReadResponse(LineBody(stream))
    case Table(_, rows) =>
      && r == FetchedByRows(rows, so)
      && (r.Fetched? ==> found && Awaiting(c, Beyond(stream), 0) && c.errorCode == 0)
    case Failure(_, _, _) => !found && r == so && Stuck(c)
  }

  method ReadCustomerHs(c: Client, handle: nat, id: nat, so: Fetched, missing: nat) returns (found: bool, r: Fetched)
    requires c.Valid() && c.ReadFits() && IsKey(id) && so.Fetched?
    requires c.writebuf.Fits(ExecRoom(ReadRequest(handle, id)))
    modifies c, c.readbuf, c.readbuf.buffer, c.writebuf, c.writebuf.buffer
    ensures c.Valid() && c.ReadFits()
    ensures old(Stuck(c)) ==> !found && r == so && c.outgoing == old(c.outgoing) && Stuck(c)
    ensures old(Ready(c)) && missing == 0 && Find(old(c.Stream()), NEWLINE) < |old(c.Stream())| ==>
              && c.outgoing == old(c.outgoing) + ExecLine(ReadRequest(handle, id))
              && ReadOutcome(c, old(c.Stream()), so, found, r)
    ensures old(Ready(c)) && (missing > 0 || Find(old(c.Stream()), NEWLINE) == |old(c.Stream())|) ==>
              !found && r == so && !c.isOpen && Stuck(c)
  {
    hide Flatten, Chunks, IsCapacity, Find, ExecLine, ReadHeader, ReadRows, FetchedByRows, ReadRequest, ExecRoom, Message;
    ghost var stream := c.Stream();
    var replied, n := Exchange(c, ReadRequest(handle, id), missing);
    if !replied || c.errorCode != 0 {
      return false, so;
    }
    r := FinishRead(c, so, stream);
    found := true;
  }

  method FinishRead(c: Client, so: Fetched, ghost stream: seq<Byte>) returns (r: Fetched)
    requires c.Valid() && c.ReadFits() && c.CurrentPhase().Received? && c.errorCode == 0 && so.Fetched?
    modifies c, c.readbuf, c.readbuf.buffer, c.writebuf
    ensures c.Valid() && c.ReadFits() && c.outgoing == old(c.outgoing)
    ensures Find(stream, NEWLINE) < |stream| && old(c.Delivered(stream, 1)) ==> ReadOutcome(c, stream, so, true, r)
  {
    hide Flatten, Chunks, IsCapacity, Find, ReadHeader, ReadRows, FetchedByRows, Message;
    ghost var delivered := Find(stream, NEWLINE) < |stream| && c.Delivered(stream, 1);
    if delivered {
      UnreadRest(c.readbuf.Contents, LineBody(stream), c.curRowOffset);
      StreamBeyond(c.readbuf.Contents, Flatten(c.incoming), c.responseEndOffset, stream);
    }
    r := ReadFetched(c, so);
    if r.Fetched? {
      c.ResponseBufRemove();
    }
  }

  // ----- Against a server that holds the rows -----

  /** The row table the clients' handles are for. */
  predicate Serves(s: Store, handle: nat, index: Index) {
    handle < TWO32 && handle in s.handles && s.handles[handle] == index
  }

  lemma WriteTokens(handle: nat, id: nat, data: seq<Byte>, version: nat)
    requires IsKey(id)
    ensures [Number(handle)] + ExecTokens(WriteRequest(handle, id, data, version))
         == [Number(handle), [0x3D], [0x32], Token(IdField(id)), Token(Text(Decimal(version))), [0x30], [0x30], [0x55],
             Token(IdField(id)), Token(Text(data)), Token(Text(Decimal(version + 1)))]
  {
    hide Token, Decimal, Number, IdField, Tokens;
    SmallNumbers();
    var r := WriteRequest(handle, id, data, version);
    ThreeTokens(IdField(id), Text(data), Text(Decimal(version + 1)));
    WriteOptions(r, Token(IdField(id)), Token(Text(data)), Token(Text(Decimal(version + 1))));
    TwoTokens(IdField(id), Text(Decimal(version)));
    var keys := [Token(IdField(id)), Token(Text(Decimal(version)))];
    assert Tokens(r.keys) == keys;
  }

  lemma WriteOptions(r: Exec, a: seq<Byte>, b: seq<Byte>, c: seq<Byte>)
    requires r.limit == 0 == r.skip && r.inKeypart < 0 && r.filters == [] && r.modOp == [0x55] && Tokens(r.mods) == [a, b, c]
    ensures OptionTokens(r) == [[0x30], [0x30], [0x55], a, b, c]
  {
    hide Decimal, Number, Tokens;
    SmallNumbers();
    assert FilterTokens(r.filters) + ModTokens(r) == [[0x55]] + Tokens(r.mods);
    assert InTokens(r) == [];
  }

  lemma TwoTokens(a: Value, b: Value)
    ensures Tokens([a, b]) == [Token(a), Token(b)]
  {
  }

  lemma ThreeTokens(a: Value, b: Value, c: Value)
    ensures Tokens([a, b, c]) == [Token(a), Token(b), Token(c)]
  {
  }

  lemma ReadTokens(handle: nat, id: nat)
    requires IsKey(id)
    ensures [Number(handle)] + ExecTokens(ReadRequest(handle, id)) == [Number(handle), [0x3D], [0x31], Token(IdField(id))]
  {
    hide Token, Decimal;
    SmallNumbers();
    var r := ReadRequest(handle, id);
    assert Tokens(r.keys) == [Token(IdField(id))];
  }

  lemma SmallNumbers()
    ensures Number(0) == [0x30] && Number(1) == [0x31] && Number(2) == [0x32]
  {
  }

  lemma IdRead(id: nat)
    requires IsKey(id)
    ensures NumberIn(Token(IdField(id))) == id && Token(IdField(id)) != [0x00]
  {
    assert Decimal(id) == [ZERO + id];
    NumberRead(id);
  }

  /** The line of a versioned read, in bytes: no option is written out. */
  lemma ReadLineInBytes(handle: nat, id: nat)
    requires IsKey(id) && handle < TWO32
    ensures ExecLine(ReadRequest(handle, id)) == Decimal(handle) + [0x09, 0x3D, 0x09, 0x31, 0x09, 0x30 + id, 0x0A]
  {
    hide Decimal, ExecTokens, Tabbed, IdField, Token;
    IdInBytes(id);
    ReadTokens(handle, id);
    var three := [[0x3D], [0x31], [0x30 + id]];
    var tokens := ExecTokens(ReadRequest(handle, id));
    assert tokens == ([Number(handle)] + tokens)[1..] == three;
    ThreeTabbed([0x3D], [0x31], [0x30 + id]);
    TailInBytes([0x30 + id]);
  }

  lemma TailInBytes(last: seq<Byte>)
    requires |last| == 1
    ensures ([0x09] + [0x3D]) + ([0x09] + [0x31]) + ([0x09] + last) + [0x0A] == [0x09, 0x3D, 0x09, 0x31, 0x09, last[0], 0x0A]
  {
  }

  lemma IdInBytes(id: nat)
    requires IsKey(id)
    ensures Token(IdField(id)) == [0x30 + id]
  {
    PlainUncoded([ZERO + id]);
  }

  lemma EncodableRequests(handle: nat, id: nat, data: seq<Byte>, version: nat)
    requires IsKey(id) && handle < TWO32
    ensures Encodable(ReadRequest(handle, id)) && Encodable(WriteRequest(handle, id, data, version))
  {
  }

  /**
   * On the wire a write is a compare-and-swap on the version, whatever bytes the record is made of: the
   * row keeps its id and gets the new data and the next version, if it is there with the version given,
   * and no other row changes.
   */
  lemma WriteIsCompareAndSwap(s: Store, handle: nat, id: nat, data: seq<Byte>, version: nat)
    requires Serves(s, handle, ByIdAndVersion) && IsKey(id)
    ensures Serve(s, ExecLine(WriteRequest(handle, id, data, version)))
         == if id in s.rows && s.rows[id].version == version
            then (s.(rows := s.rows[id := Record(data, version + 1)]), CountLine(1))
            else (s, CountLine(0))
  {
    hide ExecLine, ExecTokens, Token, Decimal, Number, Cut, NumberIn, Uncoded, Serve;
    EncodableRequests(handle, id, data, version);
    LineSeen(WriteRequest(handle, id, data, version));
    WriteTokens(handle, id, data, version);
    var tokens := [Number(handle)] + ExecTokens(WriteRequest(handle, id, data, version));
    HandleRead(handle);
    IdRead(id);
    NumberRead(version);
    NumberRead(version + 1);
    FieldsInBytes(Text(data));
    DigitsRead();
    UpdateServed(s, ExecLine(WriteRequest(handle, id, data, version)), tokens, id, version);
  }

  lemma HandleRead(handle: nat)
    requires handle < TWO32
    ensures NumberIn(Number(handle)) == handle && Number(handle) != [0x50]
  {
    NumberRead(handle);
    assert IsDigit(Decimal(handle)[0]);
  }

  lemma DigitsRead()
    ensures NumberIn([0x30]) == 0 && NumberIn([0x31]) == 1 && NumberIn([0x32]) == 2
  {
    assert Decimal(0) == [0x30] && Decimal(1) == [0x31] && Decimal(2) == [0x32];
    NumberRead(0);
    NumberRead(1);
    NumberRead(2);
  }

  /** On the wire a read finds the row of its id, whatever its version. */
  lemma ReadFindsRow(s: Store, handle: nat, id: nat)
    requires Serves(s, handle, ById) && IsKey(id)
    ensures Serve(s, ExecLine(ReadRequest(handle, id))) == (s, if id in s.rows then RowLine(id, s.rows[id]) else NO_ROW)
  {
    hide ExecLine, ExecTokens, Token, Decimal, Number, Cut, NumberIn, Serve;
    EncodableRequests(handle, id, [], 0);
    LineSeen(ReadRequest(handle, id));
    ReadTokens(handle, id);
    var tokens := [Number(handle)] + ExecTokens(ReadRequest(handle, id));
    HandleRead(handle);
    IdRead(id);
    DigitsRead();
    LookupServed(s, ExecLine(ReadRequest(handle, id)), tokens, id);
  }

  /** The open-index lines of start-up open the handles the requests name. */
  lemma HandlesOpened(s: Store, handle: nat, index: Index)
    requires handle < TWO32
    ensures var name := if index.ById? then Ascii("handlers_index") else Ascii("writers_index");
            Serve(s, OpenIndexLine(handle, Ascii("mydb"), Ascii("Users"), name, Ascii("id,data,version"), Null))
              == (s.(handles := s.handles[handle := index]), OPENED)
  {
    hide Decimal, Number, Cut, NumberIn, OpenIndexLine;
    var name := if index.ById? then Ascii("handlers_index") else Ascii("writers_index");
    NamesClean();
    HandleRead(handle);
    NumberRoundTrip(handle);
    OpenLineSeen(Number(handle), handle, Ascii("mydb"), Ascii("Users"), name, Ascii("id,data,version"));
    NamesDiffer();
  }

  lemma NamesClean()
    ensures Clean(Ascii("mydb")) && Clean(Ascii("Users")) && Clean(Ascii("id,data,version"))
    ensures Clean(Ascii("handlers_index")) && Clean(Ascii("writers_index"))
  {
  }

  lemma NamesDiffer()
    ensures Ascii("handlers_index") != Ascii("writers_index")
  {
    assert Ascii("handlers_index")[0] != Ascii("writers_index")[0];
  }

  lemma OpenLineSeen(number: seq<Byte>, handle: nat, db: seq<Byte>, table: seq<Byte>, index: seq<Byte>, columns: seq<Byte>)
    requires number == Number(handle) && Clean(number) && Clean(db) && Clean(table) && Clean(index) && Clean(columns)
    ensures var line := OpenIndexLine(handle, db, table, index, columns, Null);
            && line != [] && line[|line| - 1] == 0x0A
            && Cut(line[..|line| - 1], 0x09) == [[0x50], number, db, table, index, columns]
  {
    hide Number, Cut;
    var tokens := [number, db, table, index, columns];
    var line := OpenIndexLine(handle, db, table, index, columns, Null);
    assert tokens + [] == tokens;
    assert line[..|line| - 1] == [0x50] + Tabbed(tokens);
    TabbedIsJoin([0x50], tokens);
    SplitJoin([[0x50]] + tokens, TAB);
    CutIsSplit(line[..|line| - 1]);
  }

  // ----- What the caller makes of the replies -----

  function Count(n: nat): Response {
    Table(1, [[Text(Decimal(n))]])
  }

  function RowReply(id: nat, r: Record): Response {
    Table(3, [[Text(Decimal(id)), Text(r.data), Text(Decimal(r.version))]])
  }

  lemma CountsInBytes(n: nat)
    ensures CountLine(n) == BodyOf(Count(n)) && NO_ROW == BodyOf(Table(3, []))
  {
    hide Decimal, Coded, Token;
    SmallNumbers();
    ThreeInBytes();
    PrintedIsDecimal(n);
    NumberRead(n);
    OneRow([Text(Decimal(n))]);
    TwoTabbed(Decimal(1), Decimal(n));
    TabbedOne(Decimal(3));
    assert Tokens([Text(Decimal(n))]) == [Decimal(n)];
    assert [Decimal(1)] + [Decimal(n)] == [Decimal(1), Decimal(n)];
    assert [Decimal(3)] + [] == [Decimal(3)];
  }

  lemma RowText(zero: seq<Byte>, three: seq<Byte>, a: seq<Byte>, b: seq<Byte>, c: seq<Byte>)
    requires zero == [0x30] && three == [0x33]
    ensures [0x30, 0x09, 0x33, 0x09] + a + [0x09] + b + [0x09] + c == zero + Tabbed([three, a, b, c])
  {
    hide Tabbed;
    FourTabbed(three, a, b, c);
  }

  lemma RowInBytes(id: nat, r: Record)
    ensures RowLine(id, r) == BodyOf(RowReply(id, r))
  {
    hide Decimal, Coded, Token, Tabbed;
    SmallNumbers();
    ThreeInBytes();
    PrintedIsDecimal(id);
    PrintedIsDecimal(r.version);
    FieldsInBytes(Text(Decimal(id)));
    FieldsInBytes(Text(r.data));
    FieldsInBytes(Text(Decimal(r.version)));
    OneRow([Text(Decimal(id)), Text(r.data), Text(Decimal(r.version))]);
    var a, b, c := Coded(Decimal(id)), Coded(r.data), Coded(Decimal(r.version));
    RowText(Decimal(0), Decimal(3), a, b, c);
    assert Tokens([Text(Decimal(id)), Text(r.data), Text(Decimal(r.version))]) == [a, b, c];
    assert [Decimal(3)] + [a, b, c] == [Decimal(3), a, b, c];
  }

  /** The server's replies are the tables they are meant to be. */
  lemma RepliesInBytes(n: nat, id: nat, r: Record)
    ensures CountLine(n) == BodyOf(Count(n)) && NO_ROW == BodyOf(Table(3, [])) && RowLine(id, r) == BodyOf(RowReply(id, r))
  {
    hide CountLine, RowLine, BodyOf;
    CountsInBytes(n);
    RowInBytes(id, r);
  }

  lemma ThreeInBytes()
    ensures Decimal(0) == [0x30] && Decimal(1) == [0x31] && Decimal(3) == [0x33]
  {
  }

  lemma OneRow(row: seq<Value>)
    ensures RowTokens([row]) == Tokens(row) && RowTokens([]) == []
  {
    assert [row][1..] == [];
    assert Tokens(row) + [] == Tokens(row);
  }

  lemma TwoTabbed(a: seq<Byte>, b: seq<Byte>)
    ensures Tabbed([a, b]) == [0x09] + a + [0x09] + b
  {
    TabbedOne(b);
    TabbedCons(a, [b]);
    assert [a] + [b] == [a, b];
  }

  lemma FourTabbed(a: seq<Byte>, b: seq<Byte>, c: seq<Byte>, d: seq<Byte>)
    ensures Tabbed([a, b, c, d]) == [0x09] + a + [0x09] + b + [0x09] + c + [0x09] + d
  {
    TwoTabbed(c, d);
    TabbedCons(b, [c, d]);
    TabbedCons(a, [b, c, d]);
    assert [b] + [c, d] == [b, c, d] && [a] + [b, c, d] == [a, b, c, d];
  }

  /** The caller makes of the count exactly whether the row was modified. */
  lemma CountRead(n: nat)
    requires n < TWO31
    ensures ModifiedByRows(Count(n).rows, Returned(false)) == Returned(n > 0)
  {
    hide Stoi, Decimal;
    StoiDecimal(n);
    var fields: seq<Value> := [Text(Decimal(n))];
    var rows: seq<seq<Value>> := [fields];
    var r := Returned(n > 0);
    assert fields[1..] == [] && rows[1..] == [];
    assert ModifiedBy(fields, Returned(false)) == ModifiedBy([], r) == r;
    assert ModifiedByRows(rows, Returned(false)) == ModifiedByRows([], r) == r;
  }

  /** The caller gets back exactly the row's bytes and version. */
  lemma RowFetched(id: nat, row: Record, so: Fetched)
    requires row.version < TWO31 && so.Fetched?
    ensures FetchedByRows(RowReply(id, row).rows, so) == Fetched(Text(row.data), row.version)
  {
    StoiDecimal(row.version);
    var rows := RowReply(id, row).rows;
    var fields := rows[0];
    var two, one := fields[1..], fields[2..];
    assert two[1..] == one && one[1..] == [] && rows[1..] == [];
    var data := so.(data := Text(row.data));
    var both := Fetched(Text(row.data), row.version);
    assert FetchedFrom(one, 2, data) == FetchedFrom([], 3, both) == both;
    assert FetchedFrom(two, 1, so) == FetchedFrom(one, 2, data);
    assert FetchedFrom(fields, 0, so) == FetchedFrom(two, 1, so);
  }

  lemma ReplyRead(t: Response, rest: seq<Byte>)
    requires Tabular(t)
    ensures var stream := BodyOf(t) + [NEWLINE] + rest;
            Find(stream, NEWLINE) < |stream| && ReadResponse(LineBody(stream)) == t && Beyond(stream) == rest
  {
    BodyRead(t);
    var body := BodyOf(t);
    assert body + [NEWLINE] + rest == body + ([NEWLINE] + rest);
    FindAfter(body, [NEWLINE] + rest, NEWLINE);
  }

  /**
   * The whole path of a conditional write: the line sent moves the server's row on exactly when the
   * version matches, and the answer, however the server's reply to that line is cut into reads, says so.
   */
  method CompareAndSwap(c: Client, ghost s: Store, handle: nat, id: nat, data: seq<Byte>, version: nat, ghost rest: seq<Byte>)
    returns (r: Written)
    requires c.Valid() && c.ReadFits() && Ready(c) && Serves(s, handle, ByIdAndVersion) && IsKey(id) && version + 1 < 0x8000_0000
    requires c.writebuf.Fits(ExecRoom(WriteRequest(handle, id, data, version)))
    requires c.Stream() == Serve(s, ExecLine(WriteRequest(handle, id, data, version))).1 + [0x0A] + rest
    modifies c, c.readbuf, c.readbuf.buffer, c.writebuf, c.writebuf.buffer
    ensures r == Returned(id in s.rows && s.rows[id].version == version)
    ensures var line := ExecLine(WriteRequest(handle, id, data, version));
            && c.outgoing == old(c.outgoing) + line
            && Serve(s, line).0 == if r.modified then s.(rows := s.rows[id := Record(data, version + 1)]) else s
    ensures Awaiting(c, rest, 0) && Ready(c)
  {
    hide Serve, ExecLine, WriteRequest, ExecRoom, Count, ReadResponse, Beyond, LineBody, BodyOf, Tabular;
    ghost var n := if id in s.rows && s.rows[id].version == version then 1 else 0;
    WriteIsCompareAndSwap(s, handle, id, data, version);
    RepliesInBytes(n, id, Record(data, version));
    CountReply(n, rest);
    ghost var stream := c.Stream();
    r := WriteCustomerHs(c, handle, id, data, version, 0);
    assert WriteOutcome(c, stream, r);
  }

  lemma CountReply(n: nat, rest: seq<Byte>)
    requires n < TWO31
    ensures var stream := BodyOf(Count(n)) + [0x0A] + rest;
            && Find(stream, NEWLINE) < |stream| && ReadResponse(LineBody(stream)) == Count(n) && Beyond(stream) == rest
            && Count(n).Table? && ModifiedByRows(Count(n).rows, Returned(false)) == Returned(n > 0)
  {
    ReplyRead(Count(n), rest);
    CountRead(n);
  }

  /** The whole path of a versioned read; a row that is not there leaves the caller's values as they were. */
  method FetchRow(c: Client, ghost s: Store, handle: nat, id: nat, so: Fetched, ghost rest: seq<Byte>)
    returns (found: bool, r: Fetched)
    requires c.Valid() && c.ReadFits() && Ready(c) && Serves(s, handle, ById) && IsKey(id) && so.Fetched?
    requires id in s.rows ==> s.rows[id].version < 0x8000_0000
    requires c.writebuf.Fits(ExecRoom(ReadRequest(handle, id)))
    requires c.Stream() == Serve(s, ExecLine(ReadRequest(handle, id))).1 + [0x0A] + rest
    modifies c, c.readbuf, c.readbuf.buffer, c.writebuf, c.writebuf.buffer
    ensures found && r == if id in s.rows then Fetched(Text(s.rows[id].data), s.rows[id].version) else so
    ensures var line := ExecLine(ReadRequest(handle, id));
            c.outgoing == old(c.outgoing) + line && Serve(s, line).0 == s
    ensures Awaiting(c, rest, 0) && Ready(c)
  {
    hide Serve, ExecLine, ReadRequest, ExecRoom, ReadResponse, Beyond, LineBody, BodyOf, Tabular, RowReply;
    ReadFindsRow(s, handle, id);
    RowOrNone(s, id, so, rest);
    ghost var stream := c.Stream();
    found, r := ReadCustomerHs(c, handle, id, so, 0);
    assert ReadOutcome(c, stream, so, found, r);
  }

  lemma RowOrNone(s: Store, id: nat, so: Fetched, rest: seq<Byte>)
    requires IsKey(id) && so.Fetched? && (id in s.rows ==> s.rows[id].version < TWO31)
    ensures var reply := if id in s.rows then RowLine(id, s.rows[id]) else NO_ROW;
            var stream := reply + [0x0A] + rest;
            && Find(stream, NEWLINE) < |stream| && Beyond(stream) == rest
            && var response := ReadResponse(LineBody(stream));
               && response.Table?
               && FetchedByRows(response.rows, so)
                    == if id in s.rows then Fetched(Text(s.rows[id].data), s.rows[id].version) else so
  {
    if id in s.rows {
      RepliesInBytes(0, id, s.rows[id]);
      ReplyRead(RowReply(id, s.rows[id]), rest);
      RowFetched(id, s.rows[id], so);
    } else {
      RepliesInBytes(0, id, Record([], 0));
      ReplyRead(Table(3, []), rest);
    }
  }
}
