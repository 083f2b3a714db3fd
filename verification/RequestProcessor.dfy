/** One request of a client, from its text to the response a client reads. */
module RequestProcessor {
  import opened Database
  import opened HttpReader
  import opened HttpRequest
  import opened Json
  import opened Ledger
  import opened Numerals
  import opened ResponseTemplate
  import opened Statement
  import opened StatementReading
  import opened TransactionProtocol

  datatype Result = Done | InvalidRequest | NoCustomer

  /** What is sent; `Nothing` where the behaviour of the source is undefined. */
  datatype Answer = Nothing | Sent(text: string)

  const OK_HEADER: string := STATUS + "application/json\r\nContent-Length: "
  const BAD_REQUEST := "HTTP/1.1 422 Unprocessable Entity\r\nContent-Length: 0\r\n\r\n"
  const NOT_FOUND_RESPONSE := "HTTP/1.1 404 NOT FOUND\r\nContent-Length: 0\r\n\r\n"

  // ----- The responses with a computed or an empty body -----

  lemma HeaderText(n: string, payload: string)
    ensures OK_HEADER + n + "\r\n\r\n" + payload
         == STATUS + ("application/json" + ("\r\n" + (("Content-Length" + (":" + (" " + n))) + ("\r\n" + "\r\n")))) + (payload + "")
  {
    var kind := "application/json" + ("\r\n" + ("Content-Length" + (":" + " ")));
    assert "application/json\r\nContent-Length: " == kind;
    assert "\r\n\r\n" == "\r\n" + "\r\n";
    TextGrouped(STATUS, "application/json", "\r\n", "Content-Length", ":", " ", n, payload);
  }

  lemma TextGrouped(a: string, b: string, c: string, d: string, e: string, f: string, n: string, payload: string)
    ensures a + (b + (c + (d + (e + f)))) + n + (c + c) + payload
         == a + (b + (c + ((d + (e + (f + n))) + (c + c)))) + (payload + "")
  {
    assert (b + (c + (d + (e + f)))) + n == b + (c + (d + (e + (f + n))));
    assert (b + (c + (d + (e + (f + n))))) + (c + c) == b + (c + ((d + (e + (f + n))) + (c + c)));
    assert a + (b + (c + (d + (e + f)))) + n == a + ((b + (c + (d + (e + f)))) + n);
    assert a + (b + (c + (d + (e + (f + n))))) + (c + c) == a + ((b + (c + (d + (e + (f + n))))) + (c + c));
    assert payload + "" == payload;
  }

  /** Any text is read back as the body of the response it is sent in. */
  lemma PayloadIsRead(payload: string)
    ensures ReadResponse(OK_HEADER + NatText(|payload|) + "\r\n\r\n" + payload)
         == Response(200, "OK", [Header("Content-Type", "application/json"), Header("Content-Length", NatText(|payload|))],
                     payload, "")
  {
    hide ReadResponse, NatText;
    HeaderText(NatText(|payload|), payload);
    FramedIsRead(|payload|, payload, "");
  }

  lemma NoBody(line: string)
    requires '\r' !in line && IsStatusLine(line)
    ensures ReadResponse(line + ("\r\n" + (("Content-Length" + (":" + (" " + "0"))) + ("\r\n" + ("\r\n" + "")))))
         == Response(StatusOf(line), line[13..], [Header("Content-Length", "0")], "", "")
  {
    hide ReadResponse, ReadHeaders, IsStatusLine;
    EndRead("");
    HeaderRead("Content-Length", "0", "\r\n" + "");
    assert NatText(0) == "0";
    NatValueText(0);
    StatusRead(line, ("Content-Length" + (":" + (" " + "0"))) + ("\r\n" + ("\r\n" + "")), [Header("Content-Length", "0")], "", "");
  }

  const NO_CONTENT := "\r\nContent-Length: 0\r\n\r\n"

  lemma NoContentLines()
    ensures NO_CONTENT == "\r\n" + (("Content-Length" + (":" + (" " + "0"))) + ("\r\n" + ("\r\n" + "")))
  {
  }

  lemma BadRequestLines()
    ensures BAD_REQUEST == "HTTP/1.1 422 Unprocessable Entity" + NO_CONTENT
  {
  }

  lemma NotFoundLines()
    ensures NOT_FOUND_RESPONSE == "HTTP/1.1 404 NOT FOUND" + NO_CONTENT
  {
  }

  lemma BadRequestStatus()
    ensures var line := "HTTP/1.1 422 Unprocessable Entity";
            '\r' !in line && IsStatusLine(line) && StatusOf(line) == 422 && line[13..] == "Unprocessable Entity"
  {
    var line := "HTTP/1.1 422 Unprocessable Entity";
    assert line[..9] == "HTTP/1.1 ";
  }

  lemma NotFoundStatus()
    ensures var line := "HTTP/1.1 404 NOT FOUND";
            '\r' !in line && IsStatusLine(line) && StatusOf(line) == 404 && line[13..] == "NOT FOUND"
  {
    var line := "HTTP/1.1 404 NOT FOUND";
    assert line[..9] == "HTTP/1.1 ";
  }

  /** Both refusals are complete responses without a body. */
  lemma RefusalsAreRead()
    ensures ReadResponse(BAD_REQUEST) == Response(422, "Unprocessable Entity", [Header("Content-Length", "0")], "", "")
    ensures ReadResponse(NOT_FOUND_RESPONSE) == Response(404, "NOT FOUND", [Header("Content-Length", "0")], "", "")
  {
    hide ReadResponse, IsStatusLine, StatusOf;
    NoContentLines();
    BadRequestLines();
    BadRequestStatus();
    NoBody("HTTP/1.1 422 Unprocessable Entity");
    NotFoundLines();
    NotFoundStatus();
    NoBody("HTTP/1.1 404 NOT FOUND");
  }

  // ----- The request -----

  predicate IsCustomer(id: int) {
    1 <= id <= 5
  }

  /** The row a transaction is decided on: the one its last attempt read, earlier ones being retried for a reason. */
  ghost predicate DecidedOn(row: Row, turns: seq<Turn>, t: Transaction, tries: nat, c: Customer) {
    && 1 <= tries <= |turns| + 1 && AllRetried(row, turns, t, tries - 1)
    && c == ReadBy(row, turns, tries - 1).customer
  }

  /** `found` is whether a statement's read succeeds, `turns` what the attempts of a transaction meet. */
  method HandleRequest(request: Request, table: Table, customer: CustomerRecord, now: string, turns: seq<Turn>, found: bool)
    returns (result: Result, body: string, ghost tries: nat)
    requires request.Balance? || request.Execute?
    requires table.Valid() && customer.Valid() && AllWellFormed(turns)
    modifies table, customer, customer.transactions
    ensures table.Valid() && customer.Valid()
    ensures request.Balance? ==>
              && table.rows == old(table.rows)
              && result == (if IsCustomer(request.id) && found then Done else NoCustomer)
              && (result.Done? ==>
                    var c := table.rows[request.id - 1].customer;
                    WellFormed(c) && body == StatementText(c.balance, c.limit, now, Shown(c)))
    ensures request.Execute? && !IsCustomer(request.id) ==> result.NoCustomer? && table.rows == old(table.rows)
    ensures request.Execute? && IsCustomer(request.id) ==>
              var t := Transaction(request.value, request.description, now);
              && 1 <= tries <= |turns| + 1
              && var c := ReadBy(old(table.rows)[request.id - 1], turns, tries - 1).customer;
              && DecidedOn(old(table.rows)[request.id - 1], turns, t, tries, c)
              && result == (if c.balance + request.value < -c.limit then InvalidRequest else Done)
              && (result.Done? ==> customer.limit == c.limit && customer.balance == c.balance + request.value)
  {
    hide AllRetried, ReadBy, StatementText, Facing, Committed, Shown;
    tries := 0;
    if request.Balance? {
      var local := new CustomerRecord();
      var success := GetCustomer(table, request.id, local, found);
      if !success {
        return NoCustomer, "", 0;
      }
      body := CustomerToJson(local.Value(), now);
      return Done, body, 0;
    }
    var t := Transaction(request.value, request.description, now);
    var outcome, n := ExecuteTransaction(table, request.id, t, customer, turns);
    tries := n;
    body := "";
    match outcome
    case NOT_FOUND => result := NoCustomer;
    case LIMIT_EXCEEDED => result := InvalidRequest;
    case SUCCESS => result := Done;
  }

  /** A JSON reader of the response gets this customer's statement, exactly when no text needs an escape. */
  ghost predicate Shows(r: Response, c: Customer, now: string)
    requires WellFormed(c)
  {
    && r.Response? && r.status == 200 && r.rest == ""
    && (ReadStatement(r.body) == View(c.balance, c.limit, now, Shown(c)) <==> AllPlain(now, Shown(c)))
  }

  lemma StatementShown(c: Customer, now: string)
    requires WellFormed(c)
    ensures var body := StatementText(c.balance, c.limit, now, Shown(c));
            Shows(ReadResponse(OK_HEADER + NatText(|body|) + "\r\n\r\n" + body), c, now)
  {
    hide ReadResponse, StatementText, ReadStatement, AllPlain, Shown, NatText;
    var ts := Shown(c);
    var body := StatementText(c.balance, c.limit, now, ts);
    PayloadIsRead(body);
    if AllPlain(now, ts) {
      StatementIsRead(c.balance, c.limit, now, ts);
    } else if ReadStatement(body) == View(c.balance, c.limit, now, ts) {
      ReadIsPlain(body, c.balance, c.limit, now, ts);
    }
  }

  predicate IsInt(n: int) {
    -0x8000_0000 < n < 0x8000_0000
  }

  ghost predicate Status(answer: Answer, status: nat) {
    answer.Sent? && ReadResponse(answer.text).Response? && ReadResponse(answer.text).status == status
  }

  /**
   * What is sent to a transaction of `value` decided on `c`: the limit in force and the new balance, or the
   * refusal.  Numbers the template's writer is not defined for are left open.
   */
  ghost predicate Decides(answer: Answer, c: Customer, value: int) {
    if c.balance + value < -c.limit then Status(answer, 422)
    else if !IsInt(c.limit) || !IsInt(c.balance + value) then answer.Nothing?
    else answer.Sent? && Tells(answer.text, c.limit, c.balance + value)
  }

  /** From the text of a request to the bytes sent: `buffer` is the thread's array for transaction responses. */
  method ProcessRequest(http: string, buffer: array<char>, table: Table, customer: CustomerRecord, now: string,
                        turns: seq<Turn>, found: bool)
    returns (answer: Answer, ghost tries: nat)
    requires buffer.Length == BUFFER_SIZE && IsTemplate(buffer[..])
    requires table.Valid() && customer.Valid() && AllWellFormed(turns)
    modifies buffer, table, customer, customer.transactions
    ensures table.Valid() && customer.Valid() && IsTemplate(buffer[..])
    ensures RequestOf(http).Undefined? ==> answer.Nothing?
    ensures RequestOf(http).Invalid? ==> Status(answer, 422) && table.rows == old(table.rows)
    ensures RequestOf(http).Balance? || RequestOf(http).Execute? ==>
              IsCustomer(RequestOf(http).id) || (Status(answer, 404) && table.rows == old(table.rows))
    ensures RequestOf(http).Balance? && IsCustomer(RequestOf(http).id) ==>
              && table.rows == old(table.rows)
              && var c := table.rows[RequestOf(http).id - 1].customer;
              && WellFormed(c)
              && if found then answer.Sent? && Shows(ReadResponse(answer.text), c, now) else Status(answer, 404)
    ensures RequestOf(http).Execute? && IsCustomer(RequestOf(http).id) ==>
              var r, row := RequestOf(http), old(table.rows)[RequestOf(http).id - 1];
              && 1 <= tries <= |turns| + 1
              && var c := ReadBy(row, turns, tries - 1).customer;
              && DecidedOn(row, turns, Transaction(r.value, r.description, now), tries, c)
              && Decides(answer, c, r.value)
  {
    hide RequestOf, ReadResponse, AllRetried, ReadBy, StatementText, Shown, Shows, Tells, IsTemplate, NatText, IntText;
    var request := FromHttp(http);
    RefusalsAreRead();
    tries := 0;
    if request.Undefined? {
      return Nothing, 0;
    }
    if request.Invalid? {
      return Sent(BAD_REQUEST), 0;
    }
    ghost var rows := table.rows;
    var result, body, n := HandleRequest(request, table, customer, now, turns, found);
    tries := n;
    match result
    case InvalidRequest => answer := Sent(BAD_REQUEST);
    case NoCustomer => answer := Sent(NOT_FOUND_RESPONSE);
    case Done =>
      if request.Balance? {
        StatementShown(table.rows[request.id - 1].customer, now);
        answer := Sent(OK_HEADER + NatText(|body|) + "\r\n\r\n" + body);
      } else if !IsInt(customer.limit) || !IsInt(customer.balance) {
        answer := Nothing;
      } else {
        BuildTransactionResponse(buffer, customer.limit, customer.balance);
        answer := Sent(buffer[..]);
      }
  }
}
