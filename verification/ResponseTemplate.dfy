/** The transaction response: one array per thread, reused by overwriting its two number fields. */
module ResponseTemplate {
  import opened HttpReader
  import opened Json
  import opened Numerals

  const STATUS := "HTTP/1.1 200 OK\r\nContent-Type: "
  const HEADERS := "application/json\r\nContent-Length: 62\r\n\r\n"
  const LIMIT_NAME := "{\"limite\":"
  const BALANCE_NAME := ", \"saldo\":"
  const LIMIT_BEGIN := 31 + 40 + 11 - 1
  const LIMIT_END := 31 + 40 + 30 - 1
  const BALANCE_BEGIN := 31 + 40 + 41 - 1
  const BALANCE_END := 31 + 40 + 61 - 1
  const BUFFER_SIZE := 140
  const MESSAGE_SIZE := 133

  function Spaces(n: nat): (s: string)
    ensures |s| == n && forall i :: 0 <= i < n ==> s[i] == ' '
  {
    seq(n, _ => ' ')
  }

  /** The text at the right-hand end of a field of `width` characters. */
  function Padded(width: nat, text: string): (s: string)
    requires |text| <= width
    ensures |s| == width
  {
    Spaces(width - |text|) + text
  }

  /** Everything but the two fields is the template. */
  ghost predicate IsTemplate(s: string) {
    && |s| == BUFFER_SIZE
    && s[..LIMIT_BEGIN] == STATUS + HEADERS + LIMIT_NAME
    && s[LIMIT_END + 1..BALANCE_BEGIN] == BALANCE_NAME
    && s[BALANCE_END + 1] == '}'
    && forall i :: MESSAGE_SIZE <= i < BUFFER_SIZE ==> s[i] == '\0'
  }

  // ----- Numbers, written backwards from the end of a field -----

  /** The digits still to be written: none once the number is used up. */
  function Lead(n: nat): string {
    if n == 0 then "" else NatText(n)
  }

  lemma LeadNext(n: nat)
    requires n > 0
    ensures Lead(n) == Lead(n / 10) + [DigitOf(n % 10)]
  {
  }

  /** `text` laid over the stretch that ends at `end`. */
  function Stamped(s: string, end: nat, text: string): (r: string)
    requires end < |s| && |text| <= end + 1
    ensures |r| == |s|
  {
    s[..end + 1 - |text|] + text + s[end + 1..]
  }

  lemma StampMore(s: string, end: nat, text: string, c: char)
    requires end < |s| && |text| <= end
    ensures Stamped(s, end, text)[end - |text| := c] == Stamped(s, end, [c] + text)
  {
  }

  /** The loop over the digits of a positive number; answers the index before them. */
  method WriteDigits(number: nat, a: array<char>, end: nat) returns (i: int)
    requires number > 0 && end < a.Length && |NatText(number)| <= end + 1
    modifies a
    ensures i == end - |NatText(number)|
    ensures a[..] == Stamped(old(a[..]), end, NatText(number))
  {
    hide Stamped, NatText, Lead, DigitOf;
    ghost var s := a[..];
    ghost var digits := NatText(number);
    ghost var written := "";
    var n := number;
    i := end;
    LeadWhole(n);
    StampNothing(s, end);
    while n > 0
      invariant Lead(n) + written == digits && i == end - |written|
      invariant a[..] == Stamped(s, end, written)
    {
      LeadNext(n);
      ghost var shorter := Lead(n / 10);
      assert shorter + [DigitOf(n % 10)] + written == shorter + ([DigitOf(n % 10)] + written);
      StampMore(s, end, written, DigitOf(n % 10));
      a[i] := DigitOf(n % 10);
      written := [DigitOf(n % 10)] + written;
      n := n / 10;
      i := i - 1;
    }
    LeadWhole(0);
    assert "" + written == written;
  }

  lemma LeadWhole(n: nat)
    ensures n > 0 ==> Lead(n) == NatText(n)
    ensures Lead(0) == ""
  {
  }

  lemma StampNothing(s: string, end: nat)
    requires end < |s|
    ensures Stamped(s, end, "") == s
  {
  }

  method WriteNumberToString(number: int, a: array<char>, end: nat)
    requires end < a.Length && |IntText(number)| <= end + 1
    modifies a
    ensures a[..] == Stamped(old(a[..]), end, IntText(number))
  {
    hide Stamped, NatText;
    ghost var s := a[..];
    if number == 0 {
      StampNothing(s, end);
      StampMore(s, end, "", '0');
      assert ['0'] + "" == "0";
      a[end] := '0';
      return;
    }
    var isNegative := number < 0;
    var n: int := number;
    if isNegative {
      n := -n;
    }
    var i := WriteDigits(n, a, end);
    if isNegative {
      StampMore(s, end, NatText(n), '-');
      a[i] := '-';
    }
  }

  // ----- The message -----

  function Body(limit: string, balance: string): (s: string)
    requires |limit| <= 20 && |balance| <= 21
    ensures |s| == 62
  {
    LIMIT_NAME + Padded(20, limit) + BALANCE_NAME + Padded(21, balance) + "}"
  }

  function Message(limit: string, balance: string): (s: string)
    requires |limit| <= 20 && |balance| <= 21
    ensures |s| == MESSAGE_SIZE
  {
    STATUS + HEADERS + Body(limit, balance)
  }

  /** `memset` to blanks. */
  method Blank(a: array<char>, begin: nat, end: nat)
    requires begin <= end < a.Length
    modifies a
    ensures a[..] == old(a[..])[..begin] + Spaces(end + 1 - begin) + old(a[..])[end + 1..]
  {
    forall i | begin <= i <= end {
      a[i] := ' ';
    }
  }

  /** A number stamped into a blank field is that number padded from the left. */
  lemma FieldStamped(before: string, after: string, width: nat, text: string)
    requires |text| <= width && width > 0
    ensures var s := before + Spaces(width) + after;
            Stamped(s, |before| + width - 1, text) == before + Padded(width, text) + after
  {
  }

  lemma NatTextLength(n: nat, k: nat, bound: nat)
    requires k > 0 && n < bound && bound == Tens(k)
    ensures |NatText(n)| <= k
    decreases k
  {
    if n >= 10 {
      NatTextLength(n / 10, k - 1, Tens(k - 1));
    }
  }

  /** Every `int` above the smallest fits its field, sign included. */
  lemma IntTextFits(n: int)
    requires -0x8000_0000 < n < 0x8000_0000
    ensures |IntText(n)| <= 11
  {
    assert Tens(5) == 100000;
    assert Tens(10) == 100000 * Tens(5);
    NatTextLength(if n < 0 then -n else n, 10, Tens(10));
  }

  const NULS: string := seq(7, _ => '\0')

  lemma BothBlanked(s: string, once: string, twice: string)
    requires IsTemplate(s)
    requires once == s[..LIMIT_BEGIN] + Spaces(20) + s[LIMIT_END + 1..]
    requires twice == once[..BALANCE_BEGIN] + Spaces(21) + once[BALANCE_END + 1..]
    ensures twice == (STATUS + HEADERS + LIMIT_NAME) + Spaces(20) + (BALANCE_NAME + Spaces(21) + ("}" + NULS))
  {
    var head := STATUS + HEADERS + LIMIT_NAME;
    assert s[BALANCE_END + 1..] == "}" + NULS;
    assert once[BALANCE_END + 1..] == s[BALANCE_END + 1..];
    assert once[..BALANCE_BEGIN] == head + Spaces(20) + BALANCE_NAME;
  }

  lemma BothStamped(head: string, middle: string, tail: string, limit: string, balance: string)
    requires |head| == LIMIT_BEGIN && |middle| == 10 && |limit| <= 20 && |balance| <= 21
    ensures var blank := head + Spaces(20) + (middle + Spaces(21) + tail);
            Stamped(Stamped(blank, LIMIT_END, limit), BALANCE_END, balance)
              == head + Padded(20, limit) + middle + Padded(21, balance) + tail
  {
    hide Stamped, Padded;
    var front := head + Padded(20, limit) + middle;
    FieldStamped(head, middle + Spaces(21) + tail, 20, limit);
    assert head + Padded(20, limit) + (middle + Spaces(21) + tail) == front + Spaces(21) + tail;
    FieldStamped(front, tail, 21, balance);
  }

  lemma MessageIsTemplate(limit: string, balance: string)
    requires |limit| <= 20 && |balance| <= 21
    ensures STATUS + HEADERS + LIMIT_NAME + Padded(20, limit) + BALANCE_NAME + Padded(21, balance) + ("}" + NULS)
         == Message(limit, balance) + NULS
    ensures IsTemplate(Message(limit, balance) + NULS)
  {
    hide Padded;
    var s := Message(limit, balance) + NULS;
    assert s == (STATUS + HEADERS + LIMIT_NAME) + (Padded(20, limit) + BALANCE_NAME + Padded(21, balance) + ("}" + NULS));
    assert s[LIMIT_END + 1..BALANCE_BEGIN] == BALANCE_NAME;
  }

  // ----- What the client reads -----

  lemma TrimSpaces(n: nat, s: string)
    requires s != "" && !IsSpace(s[0])
    ensures Trim(Spaces(n) + s) == s
  {
    if n == 0 {
      assert Spaces(0) + s == s;
    } else {
      assert (Spaces(n) + s)[1..] == Spaces(n - 1) + s;
      TrimSpaces(n - 1, s);
    }
  }

  lemma ParseSpaces(n: nat, s: string)
    requires s != "" && !IsSpace(s[0])
    ensures Parse(Spaces(n) + s) == Parse(s)
    ensures ParseMembers(Spaces(n) + s) == ParseMembers(s)
  {
    TrimSpaces(n, s);
  }

  lemma NumberStarts(n: int)
    ensures IntText(n) != "" && !IsSpace(IntText(n)[0])
  {
    assert n >= 0 ==> IsDigit(IntText(n)[0]);
  }

  lemma FieldRead(width: nat, n: int, rest: string)
    requires |IntText(n)| <= width && Stops(rest)
    ensures Parse(Padded(width, IntText(n)) + rest) == Ok(Num(n), rest)
  {
    hide Parse, ParseMembers, IntText;
    var s := IntText(n) + rest;
    NumberStarts(n);
    ParseSpaces(width - |IntText(n)|, s);
    ParseNum(n, rest);
    assert Padded(width, IntText(n)) + rest == Spaces(width - |IntText(n)|) + s;
  }

  /** The body is a JSON object with exactly the customer's limit and balance, 62 characters as announced. */
  lemma BodyIsRead(limit: int, balance: int)
    requires |IntText(limit)| <= 20 && |IntText(balance)| <= 21
    ensures Parse(Body(IntText(limit), IntText(balance)))
         == Ok(Obj(Member("limite", Num(limit), Member("saldo", Num(balance), NoMembers))), "")
  {
    hide Parse, ParseMembers, IntText, Padded;
    var second := "\"" + "saldo" + "\":" + (Padded(21, IntText(balance)) + "}");
    FieldRead(21, balance, "}");
    assert "}" + "" == "}";
    MembersLast("saldo", Padded(21, IntText(balance)) + "}", Num(balance), "");
    ParseSpaces(1, second);
    var more := Spaces(1) + second;
    FieldRead(20, limit, "," + more);
    MembersMore("limite", Padded(20, IntText(limit)) + ("," + more), Num(limit), more, Member("saldo", Num(balance), NoMembers), "");
    var members := "\"" + "limite" + "\":" + (Padded(20, IntText(limit)) + ("," + more));
    ParseObj(members, Member("limite", Num(limit), Member("saldo", Num(balance), NoMembers)), "");
    BodyGrouped(Padded(20, IntText(limit)), Padded(21, IntText(balance)));
  }

  lemma BodyGrouped(limit: string, balance: string)
    ensures "{" + ("\"" + "limite" + "\":" + (limit + ("," + (Spaces(1) + ("\"" + "saldo" + "\":" + (balance + "}"))))))
         == LIMIT_NAME + limit + BALANCE_NAME + balance + "}"
  {
    assert "{" + ("\"" + "limite" + "\":") == LIMIT_NAME;
    assert "," + (Spaces(1) + ("\"" + "saldo" + "\":")) == BALANCE_NAME;
  }

  lemma StatusLines()
    ensures STATUS == "HTTP/1.1 200 OK" + ("\r\n" + ("Content-Type" + (":" + " ")))
  {
  }

  lemma HeaderLines()
    ensures HEADERS == "application/json" + ("\r\n" + (("Content-Length" + (":" + (" " + "62"))) + ("\r\n" + "\r\n")))
  {
  }

  lemma LinesGrouped(line: string, cr: string, name: string, colon: string, blank: string, value: string,
                     length: string, after: string)
    ensures (line + (cr + (name + (colon + blank)))) + (value + (cr + (length + (cr + cr)))) + after
         == line + (cr + ((name + (colon + (blank + value))) + (cr + (length + (cr + (cr + after))))))
  {
    var tail := cr + (length + (cr + (cr + after)));
    assert (value + (cr + (length + (cr + cr)))) + after == value + tail;
    assert (name + (colon + blank)) + (value + tail) == (name + (colon + (blank + value))) + tail;
    assert (line + (cr + (name + (colon + blank)))) + (value + (cr + (length + (cr + cr)))) + after
        == line + (cr + (name + (colon + blank))) + (value + tail);
  }

  lemma StatusLineRead()
    ensures var line := "HTTP/1.1 200 OK";
            IsStatusLine(line) && StatusOf(line) == 200 && line[13..] == "OK" && '\r' !in line
  {
    var line := "HTTP/1.1 200 OK";
    assert line[..9] == "HTTP/1.1 " && line[13..] == "OK";
  }

  lemma TypeRead(more: string)
    requires ReadHeaders(more).Headers?
    ensures ReadHeaders("Content-Type" + (":" + (" " + "application/json")) + ("\r\n" + more))
         == Headers([Header("Content-Type", "application/json")] + ReadHeaders(more).list, ReadHeaders(more).rest)
  {
    hide ReadHeaders;
    HeaderRead("Content-Type", "application/json", more);
  }

  lemma DigitsOnOneLine(n: nat)
    ensures IsField("Content-Length", NatText(n))
  {
    assert forall i :: 0 <= i < |NatText(n)| ==> IsDigit(NatText(n)[i]);
  }

  function LengthField(n: nat): string {
    "Content-Length" + (":" + (" " + NatText(n)))
  }

  /** The two header fields and the empty line, whatever length they announce. */
  lemma FieldsRead(n: nat, after: string)
    ensures ReadHeaders(("Content-Type" + (":" + (" " + "application/json")))
                        + ("\r\n" + (LengthField(n) + ("\r\n" + ("\r\n" + after)))))
         == Headers([Header("Content-Type", "application/json"), Header("Content-Length", NatText(n))], after)
    ensures AnnouncedLength([Header("Content-Type", "application/json"), Header("Content-Length", NatText(n))]) == n
  {
    hide ReadHeaders, NatText, NatValue;
    EndRead(after);
    DigitsOnOneLine(n);
    HeaderRead("Content-Length", NatText(n), "\r\n" + after);
    TypeRead(LengthField(n) + ("\r\n" + ("\r\n" + after)));
    NatValueText(n);
    var list := [Header("Content-Type", "application/json"), Header("Content-Length", NatText(n))];
    assert list[1..] == [Header("Content-Length", NatText(n))];
  }

  /** The status line and both fields in front of any text that is long enough. */
  lemma FramedIsRead(n: nat, body: string, rest: string)
    requires |body| == n
    ensures ReadResponse(STATUS + ("application/json" + ("\r\n" + (LengthField(n) + ("\r\n" + "\r\n")))) + (body + rest))
         == Response(200, "OK", [Header("Content-Type", "application/json"), Header("Content-Length", NatText(n))], body, rest)
  {
    hide ReadResponse, ReadHeaders, AnnouncedLength, NatText, NatValue, IsStatusLine;
    StatusLines();
    LinesGrouped("HTTP/1.1 200 OK", "\r\n", "Content-Type", ":", " ", "application/json", LengthField(n), body + rest);
    FieldsRead(n, body + rest);
    StatusLineRead();
    var more := ("Content-Type" + (":" + (" " + "application/json"))) + ("\r\n" + (LengthField(n) + ("\r\n" + ("\r\n" + (body + rest)))));
    StatusRead("HTTP/1.1 200 OK", more,
               [Header("Content-Type", "application/json"), Header("Content-Length", NatText(n))], body, rest);
  }

  /**
   * What the whole array says to a client: status 200, a JSON body of the announced length 62 with
   * exactly the limit and the balance, and seven zero bytes behind it.
   */
  ghost predicate Tells(s: string, limit: int, balance: int) {
    var r := ReadResponse(s);
    && r.Response? && r.status == 200
    && r.headers == [Header("Content-Type", "application/json"), Header("Content-Length", "62")]
    && |r.body| == 62 && |r.rest| == 7 && (forall i :: 0 <= i < 7 ==> r.rest[i] == '\0')
    && Parse(r.body) == Ok(Obj(Member("limite", Num(limit), Member("saldo", Num(balance), NoMembers))), "")
  }

  lemma SixtyTwo()
    ensures NatText(62) == "62"
  {
    assert NatText(6) == "6";
  }

  lemma MessageFramed(limit: string, balance: string)
    requires |limit| <= 20 && |balance| <= 21
    ensures ReadResponse(Message(limit, balance) + NULS)
         == Response(200, "OK", [Header("Content-Type", "application/json"), Header("Content-Length", "62")],
                     Body(limit, balance), NULS)
  {
    hide ReadResponse, NatText, Body;
    SixtyTwo();
    HeaderLines();
    FramedIsRead(62, Body(limit, balance), NULS);
    assert Message(limit, balance) + NULS == STATUS + HEADERS + (Body(limit, balance) + NULS);
  }

  lemma MessageTells(limit: int, balance: int)
    requires |IntText(limit)| <= 20 && |IntText(balance)| <= 21
    ensures Tells(Message(IntText(limit), IntText(balance)) + NULS, limit, balance)
  {
    hide ReadResponse, IntText, Body, Message, Parse;
    MessageFramed(IntText(limit), IntText(balance));
    BodyIsRead(limit, balance);
  }

  // ----- The response -----

  /** The array as a thread starts with it: blanks in both fields, zero bytes behind the message. */
  const INITIAL: string :=
    STATUS + HEADERS
    + (LIMIT_NAME + "                    " + BALANCE_NAME + "                     " + "}")
    + NULS

  lemma InitialIsTemplate()
    ensures IsTemplate(INITIAL)
    ensures var r := ReadResponse(INITIAL); r.Response? && r.status == 200 && |r.body| == 62 && r.rest == NULS
  {
    hide ReadResponse;
    MessageIsTemplate("", "");
    assert "                    " == Padded(20, "");
    assert "                     " == Padded(21, "");
    MessageFramed("", "");
  }

  /**
   * Both fields are blanked and written from the right: the whole buffer is the response to this
   * customer, and nothing of an earlier response is left in it.
   */
  method BuildTransactionResponse(a: array<char>, limit: int, balance: int)
    requires a.Length == BUFFER_SIZE && IsTemplate(a[..])
    requires -0x8000_0000 < limit < 0x8000_0000 && -0x8000_0000 < balance < 0x8000_0000
    modifies a
    ensures |IntText(limit)| <= 11 && |IntText(balance)| <= 11
    ensures a[..] == Message(IntText(limit), IntText(balance)) + NULS
    ensures IsTemplate(a[..])
    ensures Tells(a[..], limit, balance)
  {
    hide Stamped, IntText, Padded, IsTemplate, Message, Tells;
    IntTextFits(limit);
    IntTextFits(balance);
    ghost var s := a[..];
    Blank(a, LIMIT_BEGIN, LIMIT_END);
    ghost var once := a[..];
    Blank(a, BALANCE_BEGIN, BALANCE_END);
    BothBlanked(s, once, a[..]);
    WriteNumberToString(limit, a, LIMIT_END);
    WriteNumberToString(balance, a, BALANCE_END);
    BothStamped(STATUS + HEADERS + LIMIT_NAME, BALANCE_NAME, "}" + NULS, IntText(limit), IntText(balance));
    MessageIsTemplate(IntText(limit), IntText(balance));
    MessageTells(limit, balance);
  }
}
