/**
 * The fixed-offset request parser.  A read outside the text, or a value beyond an `int`, is undefined
 * in the source; both are the outcome `Undefined` here.
 */
module HttpRequest {
  import opened Numerals

  const INT_LIMIT := 0x8000_0000
  const VALUE_BEGIN := 10

  datatype Number = NotDigits | Overflow | Int(n: nat)

  datatype Parsed = Rejected | BodyUndefined | Accepted(value: int, description: string)

  datatype Request = Invalid | Undefined | Balance(id: nat) | Execute(id: nat, value: int, description: string)

  /** `find` from a position on; the length stands for "none", also when the position is past the end. */
  function FindFrom(s: string, c: char, from: nat): (i: nat)
    ensures i <= |s|
    ensures i < |s| ==> from <= i && s[i] == c
    ensures forall k :: from <= k < i ==> s[k] != c
    decreases |s| - from
  {
    if from >= |s| then |s| else if s[from] == c then from else FindFrom(s, c, from + 1)
  }

  lemma FindIs(s: string, c: char, from: nat, i: nat)
    requires from <= i < |s| && s[i] == c && forall k :: from <= k < i ==> s[k] != c
    ensures FindFrom(s, c, from) == i
  {
    var found := FindFrom(s, c, from);
  }

  predicate BlankLineAt(s: string, i: int) {
    0 <= i && i + 4 <= |s| && s[i..i + 4] == "\r\n\r\n"
  }

  function FindBlankLine(s: string, from: nat): (i: nat)
    ensures i <= |s| && (i < |s| ==> from <= i && BlankLineAt(s, i))
    ensures forall k :: from <= k < i ==> !BlankLineAt(s, k)
    decreases |s| - from
  {
    if from >= |s| then |s| else if BlankLineAt(s, from) then from else FindBlankLine(s, from + 1)
  }

  lemma FindBlankIs(s: string, i: nat)
    requires BlankLineAt(s, i) && forall k :: 0 <= k < i ==> !BlankLineAt(s, k)
    ensures FindBlankLine(s, 0) == i
  {
    var found := FindBlankLine(s, 0);
  }

  // ----- The value -----

  /** One round of the digit loop. */
  function Next(x: Number, c: char): Number {
    if !x.Int? then x
    else if !IsDigit(c) then NotDigits
    else
      var n := x.n * 10 + (c as int - '0' as int);
      if n >= INT_LIMIT then Overflow else Int(n)
  }

  /** What the digit loop makes of a text: the first failure, or the number. */
  function NumberOf(s: string): Number {
    if s == "" then Int(0) else Next(NumberOf(s[..|s| - 1]), s[|s| - 1])
  }

  lemma NumberNext(s: string, k: nat)
    requires k < |s|
    ensures NumberOf(s[..k + 1]) == Next(NumberOf(s[..k]), s[k])
  {
    assert s[..k + 1][..k] == s[..k];
  }

  method SubstringToInt(body: string, start: nat, end: nat) returns (x: Number)
    requires start <= end <= |body|
    ensures x == NumberOf(body[start..end])
  {
    hide NumberOf, IsDigit;
    ghost var s := body[start..end];
    NothingIsZero();
    assert s[..0] == "";
    x := Int(0);
    for i := start to end
      invariant x.Int? && x == NumberOf(s[..i - start])
    {
      NumberNext(s, i - start);
      if !IsDigit(body[i]) {
        NumberStops(s, i + 1 - start);
        return NotDigits;
      }
      if x.n * 10 + (body[i] as int - '0' as int) >= INT_LIMIT {
        NumberStops(s, i + 1 - start);
        return Overflow;
      }
      x := Int(x.n * 10 + (body[i] as int - '0' as int));
    }
    assert s[..end - start] == s;
  }

  lemma NothingIsZero()
    ensures NumberOf("") == Int(0)
  {
  }

  /** A failure in a prefix is the failure of the whole. */
  lemma {:induction false} NumberStops(s: string, n: nat)
    requires n <= |s| && !NumberOf(s[..n]).Int?
    ensures NumberOf(s) == NumberOf(s[..n])
    decreases |s|
  {
    if n < |s| {
      assert s[..|s| - 1][..n] == s[..n];
      NumberStops(s[..|s| - 1], n);
    } else {
      assert s[..n] == s;
    }
  }

  /** The number is the value of the digits whenever there are only digits and the value is an `int`. */
  lemma {:induction false} NumberIsValue(s: string)
    ensures NumberOf(s).Int? <==> AllDigits(s) && NatValue(s) < 0x8000_0000
    ensures NumberOf(s).Int? ==> NumberOf(s).n == NatValue(s)
    decreases |s|
  {
    if s != "" {
      var t := s[..|s| - 1];
      NumberIsValue(t);
      assert AllDigits(s) ==> IsDigit(s[|s| - 1]) && AllDigits(t);
      assert s == t + [s[|s| - 1]];
    }
  }

  ghost predicate TooLarge(s: string, m: nat) {
    m <= |s| && AllDigits(s[..m]) && NatValue(s[..m]) >= 0x8000_0000
  }

  /** Some run of digits at the start is no `int` any more. */
  ghost predicate Overflows(s: string) {
    exists m: nat :: TooLarge(s, m)
  }

  ghost predicate StopsAt(s: string, k: nat) {
    k < |s| && !('0' <= s[k] <= '9') && AllDigits(s[..k]) && NatValue(s[..k]) < 0x8000_0000
  }

  lemma {:induction false} DigitsNeverStop(s: string)
    requires AllDigits(s)
    ensures !NumberOf(s).NotDigits?
    decreases |s|
  {
    if s != "" {
      DigitsNeverStop(s[..|s| - 1]);
    }
  }

  lemma {:induction false} FirstFailure(s: string)
    ensures NumberOf(s).Overflow? ==> Overflows(s)
    ensures NumberOf(s).NotDigits? ==> exists k: nat :: StopsAt(s, k)
    decreases |s|
  {
    hide IsDigit;
    if s != "" {
      var n := |s| - 1;
      var t := s[..n];
      FirstFailure(t);
      NumberIsValue(t);
      NumberIsValue(s);
      if NumberOf(t).Overflow? {
        var m: nat :| TooLarge(t, m);
        assert s[..m] == t[..m];
        assert TooLarge(s, m);
      } else if NumberOf(t).NotDigits? {
        var k: nat :| StopsAt(t, k);
        assert s[..k] == t[..k];
        assert StopsAt(s, k);
      } else if IsDigit(s[n]) {
        assert s[..|s|] == s;
        assert NumberOf(s).Overflow? ==> TooLarge(s, |s|);
      } else {
        NotADigit(s[n]);
        assert StopsAt(s, n);
      }
    }
  }

  lemma NotADigit(c: char)
    ensures IsDigit(c) <==> '0' <= c <= '9'
  {
  }

  /** The loop overflows exactly when digits beyond an `int` come before anything else. */
  lemma OverflowExactly(s: string)
    ensures NumberOf(s).Overflow? <==> Overflows(s)
  {
    hide NumberOf, IsDigit, NatValue;
    FirstFailure(s);
    if m: nat :| TooLarge(s, m) {
      NumberIsValue(s[..m]);
      DigitsNeverStop(s[..m]);
      NumberStops(s, m);
    }
  }

  /** It fails exactly when a character that is no digit comes before that. */
  lemma NotDigitsExactly(s: string)
    ensures NumberOf(s).NotDigits? <==> exists k: nat :: StopsAt(s, k)
  {
    hide NumberOf, IsDigit, NatValue;
    FirstFailure(s);
    if k: nat :| StopsAt(s, k) {
      NumberIsValue(s[..k]);
      NotADigit(s[k]);
      NumberNext(s, k);
      assert Next(NumberOf(s[..k]), s[k]) == NotDigits;
      NumberStops(s, k + 1);
    }
  }

  // ----- The body -----

  /** The outcome of the checks after the value: type, description, end of the object. */
  function Details(body: string, magnitude: int, kindAt: nat): Parsed {
    if kindAt >= |body| then BodyUndefined
    else if body[kindAt] != 'c' && body[kindAt] != 'd' then Rejected
    else
      var value: int := if body[kindAt] == 'd' then -magnitude else magnitude;
      var begin := kindAt + 18;
      var end := FindFrom(body, '"', begin);
      if end == |body| || end + 2 != |body| || body[end + 1] != '}' || end - begin > 10 || end - begin < 1 then Rejected
      else Accepted(value, body[begin..end])
  }

  function BodyOutcome(body: string): Parsed {
    var comma := FindFrom(body, ',', VALUE_BEGIN);
    var dot := FindFrom(body, '.', VALUE_BEGIN);
    if dot < comma || comma == |body| then Rejected
    else
      match NumberOf(body[VALUE_BEGIN..comma])
      case NotDigits => Rejected
      case Overflow => BodyUndefined
      case Int(n) => Details(body, n, comma + 11)
  }

  method ParseJsonBody(body: string) returns (r: Parsed)
    ensures r == BodyOutcome(body)
  {
    hide NumberOf;
    var numEnd := FindFrom(body, ',', VALUE_BEGIN);
    var numDot := FindFrom(body, '.', VALUE_BEGIN);
    if numDot < numEnd || numEnd == |body| {
      return Rejected;
    }
    var number := SubstringToInt(body, VALUE_BEGIN, numEnd);
    if number.NotDigits? {
      return Rejected;
    }
    if number.Overflow? {
      return BodyUndefined;
    }
    var value: int := number.n;
    var tipo := numEnd + 11;
    if tipo >= |body| {
      return BodyUndefined;
    }
    if body[tipo] != 'c' && body[tipo] != 'd' {
      return Rejected;
    }
    if body[tipo] == 'd' {
      value := -value;
    }
    var start := tipo + 18;
    var end := FindFrom(body, '"', start);
    if end == |body| {
      return Rejected;
    }
    if end + 2 != |body| || body[end + 1] != '}' {
      return Rejected;
    }
    if end - start > 10 || end - start < 1 {
      return Rejected;
    }
    var description := "";
    for i := start to end
      invariant description == body[start..i]
    {
      description := description + [body[i]];
    }
    r := Accepted(value, description);
  }

  /** The stretches of an accepted body: only `digits`, `kind` and `description` are looked at. */
  datatype Parts = Parts(prefix: string, digits: string, gap: string, kind: char, quoted: string, description: string)

  function TextOf(p: Parts): string {
    p.prefix + p.digits + "," + p.gap + [p.kind] + p.quoted + p.description + "\"}"
  }

  predicate Sound(p: Parts) {
    && |p.prefix| == 10 && |p.gap| == 10 && |p.quoted| == 17
    && AllDigits(p.digits) && NatValue(p.digits) < 0x8000_0000
    && (p.kind == 'c' || p.kind == 'd')
    && 1 <= |p.description| <= 10 && '"' !in p.description
  }

  function SignedValue(p: Parts): int
    requires AllDigits(p.digits)
  {
    var magnitude: int := NatValue(p.digits);
    if p.kind == 'd' then -magnitude else magnitude
  }

  ghost predicate Describes(p: Parts, body: string, value: int, description: string) {
    Sound(p) && TextOf(p) == body && SignedValue(p) == value && p.description == description
  }

  lemma PartsInPlace(p: Parts)
    requires Sound(p)
    ensures var body, comma := TextOf(p), 10 + |p.digits|;
            var begin := comma + 29;
            var end := begin + |p.description|;
            && |body| == end + 2
            && body[10..comma] == p.digits && body[comma] == ',' && body[comma + 11] == p.kind
            && body[begin..end] == p.description && body[end] == '"' && body[end + 1] == '}'
  {
    var front := p.prefix + p.digits + "," + p.gap + [p.kind] + p.quoted;
    assert TextOf(p) == front + p.description + "\"}";
  }

  /** Where the two searches in such a body end. */
  lemma SearchesEnd(p: Parts)
    requires Sound(p)
    ensures var body, comma := TextOf(p), 10 + |p.digits|;
            && FindFrom(body, ',', VALUE_BEGIN) == comma && FindFrom(body, '.', VALUE_BEGIN) >= comma
            && FindFrom(body, '"', comma + 29) == comma + 29 + |p.description|
  {
    hide TextOf, NatValue, IsDigit;
    PartsInPlace(p);
    var body, comma := TextOf(p), 10 + |p.digits|;
    var begin := comma + 29;
    assert forall k :: 10 <= k < comma ==> body[k] == body[10..comma][k - 10];
    DigitsOnly(p.digits);
    FindIs(body, ',', VALUE_BEGIN, comma);
    var end := begin + |p.description|;
    assert forall k :: begin <= k < end ==> body[k] == body[begin..end][k - begin];
    FindIs(body, '"', begin, end);
  }

  /** Every body made of such stretches is accepted with its value and description. */
  lemma SoundIsAccepted(p: Parts)
    requires Sound(p)
    ensures BodyOutcome(TextOf(p)) == Accepted(SignedValue(p), p.description)
  {
    hide TextOf, NumberOf, NatValue, IsDigit, FindFrom;
    PartsInPlace(p);
    SearchesEnd(p);
    NumberIsValue(p.digits);
  }

  lemma DigitsOnly(s: string)
    requires AllDigits(s)
    ensures ',' !in s && '.' !in s
  {
  }

  /** Whatever is accepted is made of such stretches: digits only, and the quote and brace at the very end. */
  lemma AcceptedIsSound(body: string) returns (p: Parts)
    requires BodyOutcome(body).Accepted?
    ensures Describes(p, body, BodyOutcome(body).value, BodyOutcome(body).description)
  {
    hide NumberOf, NatValue, IsDigit;
    var comma := FindFrom(body, ',', VALUE_BEGIN);
    var begin := comma + 29;
    var end := FindFrom(body, '"', begin);
    NumberIsValue(body[VALUE_BEGIN..comma]);
    p := Parts(body[..10], body[10..comma], body[comma + 1..comma + 11], body[comma + 11], body[comma + 12..begin], body[begin..end]);
    Reassembled(body, comma, begin, end);
  }

  lemma Reassembled(body: string, comma: nat, begin: nat, end: nat)
    requires 10 <= comma && comma + 29 == begin <= end && end + 2 == |body|
    requires body[comma] == ',' && body[end] == '"' && body[end + 1] == '}'
    ensures body[..10] + body[10..comma] + "," + body[comma + 1..comma + 11] + [body[comma + 11]] + body[comma + 12..begin]
              + body[begin..end] + "\"}" == body
  {
    assert body[..10] + body[10..comma] == body[..comma];
    assert body[..comma] + "," == body[..comma + 1];
    assert body[..comma + 1] + body[comma + 1..comma + 11] == body[..comma + 11];
    assert body[..comma + 11] + [body[comma + 11]] == body[..comma + 12];
    assert body[..comma + 12] + body[comma + 12..begin] == body[..begin];
    assert body[..begin] + body[begin..end] == body[..end];
    assert body[..end] + "\"}" == body;
  }

  /** The accepted bodies, exactly. */
  lemma AcceptedExactly(body: string, value: int, description: string)
    ensures BodyOutcome(body) == Accepted(value, description) <==> exists p :: Describes(p, body, value, description)
  {
    if BodyOutcome(body) == Accepted(value, description) {
      var p := AcceptedIsSound(body);
      assert Describes(p, body, value, description);
    }
    if p :| Describes(p, body, value, description) {
      SoundIsAccepted(p);
    }
  }

  // The other two outcomes, from the text.

  predicate FirstAt(s: string, c: char, from: nat, i: nat) {
    from <= i < |s| && s[i] == c && forall k :: from <= k < i ==> s[k] != c
  }

  predicate NoneFrom(s: string, c: char, from: nat) {
    forall k :: from <= k < |s| ==> s[k] != c
  }

  lemma FindExactly(s: string, c: char, from: nat, i: nat)
    ensures FindFrom(s, c, from) == |s| <==> NoneFrom(s, c, from)
    ensures i < |s| ==> (FindFrom(s, c, from) == i <==> FirstAt(s, c, from, i))
  {
    if i < |s| && FirstAt(s, c, from, i) {
      FindIs(s, c, from, i);
    }
  }

  /** `c` is the first comma from offset 10 on, and no dot comes between. */
  predicate Undotted(body: string, c: nat) {
    FirstAt(body, ',', 10, c) && forall k :: 10 <= k < c ==> body[k] != '.'
  }

  predicate IntBefore(body: string, c: nat)
    requires 10 <= c <= |body|
  {
    AllDigits(body[10..c]) && NatValue(body[10..c]) < 0x8000_0000
  }

  ghost predicate UndefinedAt(body: string, c: nat) {
    Undotted(body, c) && (Overflows(body[10..c]) || (IntBefore(body, c) && c + 11 >= |body|))
  }

  /** A description from `b` on that has no closing quote, a wrong length, or is not the end of the object. */
  ghost predicate BadEnd(body: string, b: nat) {
    || NoneFrom(body, '"', b)
    || exists e: nat :: FirstAt(body, '"', b, e) && (e + 2 != |body| || body[e + 1] != '}' || e == b || e > b + 10)
  }

  ghost predicate RejectedAt(body: string, c: nat) {
    && FirstAt(body, ',', 10, c)
    && (|| (exists k :: 10 <= k < c && body[k] == '.')
        || (exists k: nat :: StopsAt(body[10..c], k))
        || (&& IntBefore(body, c) && c + 11 < |body|
            && (body[c + 11] !in {'c', 'd'} || BadEnd(body, c + 29))))
  }

  lemma EndExactly(body: string, b: nat)
    ensures var end := FindFrom(body, '"', b);
            (end == |body| || end + 2 != |body| || body[end + 1] != '}' || end - b > 10 || end - b < 1) <==> BadEnd(body, b)
  {
    var end := FindFrom(body, '"', b);
    FindExactly(body, '"', b, end);
    if end < |body| {
      assert FirstAt(body, '"', b, end);
      assert forall e: nat :: FirstAt(body, '"', b, e) ==> e == end;
    } else {
      assert forall e: nat :: !FirstAt(body, '"', b, e);
    }
  }

  /** The outcome of the whole is decided at the first comma. */
  lemma OutcomeAt(body: string, c: nat)
    requires FirstAt(body, ',', 10, c)
    ensures BodyOutcome(body) == BodyUndefined <==> UndefinedAt(body, c)
    ensures BodyOutcome(body) == Rejected <==> RejectedAt(body, c)
  {
    hide NumberOf, NatValue, BadEnd, StopsAt, Overflows, IsDigit;
    FindIs(body, ',', 10, c);
    FindExactly(body, ',', 10, c);
    var dot := FindFrom(body, '.', 10);
    FindExactly(body, '.', 10, dot);
    var s := body[10..c];
    NumberIsValue(s);
    OverflowExactly(s);
    NotDigitsExactly(s);
    EndExactly(body, c + 29);
    assert dot < c <==> exists k :: 10 <= k < c && body[k] == '.';
  }

  /** The bodies on which the source's behaviour is undefined, exactly. */
  lemma UndefinedBodyExactly(body: string)
    ensures BodyOutcome(body) == BodyUndefined <==> exists c: nat :: UndefinedAt(body, c)
  {
    hide BodyOutcome, Overflows, IntBefore;
    var comma := FindFrom(body, ',', 10);
    FindExactly(body, ',', 10, comma);
    if comma < |body| {
      OutcomeAt(body, comma);
      if c: nat :| UndefinedAt(body, c) {
        FindExactly(body, ',', 10, c);
      }
    } else {
      NoComma(body);
    }
  }

  lemma NoComma(body: string)
    requires NoneFrom(body, ',', 10)
    ensures BodyOutcome(body) == Rejected
  {
    FindExactly(body, ',', 10, 0);
  }

  /** The bodies that are rejected, exactly. */
  lemma RejectedExactly(body: string)
    ensures BodyOutcome(body) == Rejected <==> NoneFrom(body, ',', 10) || exists c: nat :: RejectedAt(body, c)
  {
    hide BodyOutcome, IntBefore, BadEnd, StopsAt;
    var comma := FindFrom(body, ',', 10);
    FindExactly(body, ',', 10, comma);
    if comma < |body| {
      OutcomeAt(body, comma);
      if c: nat :| RejectedAt(body, c) {
        FindExactly(body, ',', 10, c);
      }
    } else {
      NoComma(body);
    }
  }

  // ----- The request -----

  /** `SimpleAtoi` of one character: a digit or a failure. */
  function IdAt(http: string, i: nat): (id: int)
    requires i < |http|
    ensures -1 <= id < 10
  {
    if IsDigit(http[i]) then http[i] as int - '0' as int else -1
  }

  function RequestOf(http: string): Request {
    if "GET" <= http then
      if |http| <= 14 then Undefined else if IdAt(http, 14) == -1 then Invalid else Balance(IdAt(http, 14))
    else if |http| <= 15 then Undefined
    else if IdAt(http, 15) == -1 then Invalid
    else
      var blank := FindBlankLine(http, 0);
      if blank == |http| then Invalid
      else
        match BodyOutcome(http[blank + 4..])
        case Rejected => Invalid
        case BodyUndefined => Undefined
        case Accepted(value, description) => Execute(IdAt(http, 15), value, description)
  }

  method FromHttp(http: string) returns (r: Request)
    ensures r == RequestOf(http)
  {
    if "GET" <= http {
      if |http| <= 14 {
        return Undefined;
      }
      var id := IdAt(http, 14);
      return if id == -1 then Invalid else Balance(id);
    }
    if |http| <= 15 {
      return Undefined;
    }
    var id := IdAt(http, 15);
    if id == -1 {
      return Invalid;
    }
    var begin := FindBlankLine(http, 0);
    if begin == |http| {
      return Invalid;
    }
    var body := ParseJsonBody(http[begin + 4..]);
    match body
    case Rejected => r := Invalid;
    case BodyUndefined => r := Undefined;
    case Accepted(value, description) => r := Execute(id, value, description);
  }

  /** A request whose header part, `head`, has no blank line before its end. */
  ghost predicate Headed(head: string, body: string) {
    && |head| > 15 && !("GET" <= head)
    && forall k :: 0 <= k < |head| ==> !BlankLineAt(head + "\r\n\r\n" + body, k)
  }

  /** Printing a request and parsing it gives the id, the signed value and the description back. */
  lemma TransactionRoundTrip(head: string, value: int, description: string)
    requires Headed(head, CanonicalBody(value, description)) && IsDigit(head[15])
    requires -0x8000_0000 < value < 0x8000_0000 && 1 <= |description| <= 10 && '"' !in description
    ensures RequestOf(head + "\r\n\r\n" + CanonicalBody(value, description))
         == Execute(head[15] as int - '0' as int, value, description)
  {
    hide BodyOutcome, CanonicalBody;
    var body := CanonicalBody(value, description);
    var http := head + "\r\n\r\n" + body;
    assert http == head + ("\r\n\r\n" + body);
    assert http[|head|..|head| + 4] == "\r\n\r\n" && http[|head| + 4..] == body;
    FindBlankIs(http, |head|);
    assert http[..3] == head[..3];
    CanonicalIsAccepted(value, description);
  }

  /** The text falls into a header part without a blank line, the first blank line, and the body. */
  ghost predicate Splits(http: string, head: string, body: string) {
    http == head + "\r\n\r\n" + body && forall k :: 0 <= k < |head| ==> !BlankLineAt(http, k)
  }

  predicate Posted(http: string, id: nat) {
    !("GET" <= http) && |http| > 15 && '0' <= http[15] <= '9' && http[15] as int - '0' as int == id
  }

  ghost predicate Carries(http: string, head: string, body: string, p: Parts, value: int, description: string) {
    Splits(http, head, body) && Describes(p, body, value, description)
  }

  /** The requests that run a transaction, exactly. */
  lemma ExecuteExactly(http: string, id: nat, value: int, description: string)
    ensures RequestOf(http) == Execute(id, value, description)
       <==> Posted(http, id) && exists head, body, p :: Carries(http, head, body, p, value, description)
  {
    hide BodyOutcome, Describes;
    var blank := FindBlankLine(http, 0);
    if RequestOf(http) == Execute(id, value, description) {
      var head, body := http[..blank], http[blank + 4..];
      assert http == head + "\r\n\r\n" + body;
      AcceptedExactly(body, value, description);
      var p :| Describes(p, body, value, description);
      assert Carries(http, head, body, p, value, description);
    }
    if Posted(http, id) {
      if head, body, p :| Carries(http, head, body, p, value, description) {
        assert http == head + ("\r\n\r\n" + body);
        assert http[|head|..|head| + 4] == "\r\n\r\n" && http[|head| + 4..] == body;
        FindBlankIs(http, |head|);
        AcceptedExactly(body, value, description);
      }
    }
  }

  /** The requests for a statement, exactly. */
  lemma BalanceExactly(http: string, id: nat)
    ensures RequestOf(http) == Balance(id)
       <==> "GET" <= http && |http| > 14 && '0' <= http[14] <= '9' && http[14] as int - '0' as int == id
  {
    hide BodyOutcome;
  }

  lemma SplitAtBlank(http: string, head: string, body: string)
    requires Splits(http, head, body)
    ensures FindBlankLine(http, 0) == |head| < |http| && http[|head| + 4..] == body
  {
    assert http == head + ("\r\n\r\n" + body);
    assert http[|head|..|head| + 4] == "\r\n\r\n" && http[|head| + 4..] == body;
    FindBlankIs(http, |head|);
  }

  lemma Cut(s: string, i: nat, j: nat)
    requires i <= j <= |s|
    ensures s == s[..i] + s[i..j] + s[j..]
  {
  }

  lemma BlankText(s: string, i: nat)
    requires BlankLineAt(s, i)
    ensures i + 4 <= |s| && s[i..i + 4] == "\r\n\r\n"
  {
  }

  lemma BlankSplits(http: string)
    requires FindBlankLine(http, 0) < |http|
    ensures var blank := FindBlankLine(http, 0); Splits(http, http[..blank], http[blank + 4..])
  {
    hide FindBlankLine, BlankLineAt;
    var blank := FindBlankLine(http, 0);
    BlankText(http, blank);
    Cut(http, blank, blank + 4);
  }

  ghost predicate SplitsUndefined(http: string, head: string, body: string, c: nat) {
    Splits(http, head, body) && UndefinedAt(body, c)
  }

  /**
   * The texts on which the source's behaviour is undefined, exactly: too short for their id, or with
   * digits beyond an `int` before the comma of the body, or without the place where its type should be.
   */
  lemma UndefinedExactly(http: string)
    ensures RequestOf(http) == Undefined
       <==> || ("GET" <= http && |http| <= 14)
            || (!("GET" <= http) && |http| <= 15)
            || (&& !("GET" <= http) && |http| > 15 && '0' <= http[15] <= '9'
                && exists head, body, c: nat :: SplitsUndefined(http, head, body, c))
  {
    hide BodyOutcome, UndefinedAt, Splits, FindBlankLine;
    var blank := FindBlankLine(http, 0);
    if blank < |http| {
      BlankSplits(http);
      var body := http[blank + 4..];
      UndefinedBodyExactly(body);
      if c: nat :| UndefinedAt(body, c) {
        assert SplitsUndefined(http, http[..blank], body, c);
      }
    }
    if head, body, c: nat :| SplitsUndefined(http, head, body, c) {
      SplitAtBlank(http, head, body);
    }
  }

  ghost predicate SplitsRejected(http: string, head: string, body: string) {
    Splits(http, head, body) && (NoneFrom(body, ',', 10) || exists c: nat :: RejectedAt(body, c))
  }

  /**
   * The texts that are answered as invalid, exactly: the id is no digit, no line is blank, or the body
   * has no comma, a dot before it, a character that is no digit, a wrong type or a wrong end.
   */
  lemma InvalidExactly(http: string)
    ensures RequestOf(http) == Invalid
       <==> || ("GET" <= http && |http| > 14 && !('0' <= http[14] <= '9'))
            || (&& !("GET" <= http) && |http| > 15
                && (|| !('0' <= http[15] <= '9')
                    || (forall k :: 0 <= k < |http| ==> !BlankLineAt(http, k))
                    || exists head, body :: SplitsRejected(http, head, body)))
  {
    hide BodyOutcome, RejectedAt, NoneFrom, Splits;
    var blank := FindBlankLine(http, 0);
    if blank < |http| {
      BlankSplits(http);
      RejectedExactly(http[blank + 4..]);
      if BodyOutcome(http[blank + 4..]) == Rejected {
        assert SplitsRejected(http, http[..blank], http[blank + 4..]);
      }
      assert BlankLineAt(http, blank);
    }
    if head, body :| SplitsRejected(http, head, body) {
      SplitAtBlank(http, head, body);
    }
  }

  const TYPE_GAP := " \"tipo\": \""
  const DESCRIPTION_GAP := "\", \"descricao\": \""

  function CanonicalParts(value: int, description: string): Parts {
    Parts("{\"valor\": ", NatText(if value < 0 then -value else value), TYPE_GAP, if value < 0 then 'd' else 'c',
          DESCRIPTION_GAP, description)
  }

  /** The JSON text a client sends, in the layout the offsets are made for. */
  function CanonicalBody(value: int, description: string): string {
    TextOf(CanonicalParts(value, description))
  }

  lemma CanonicalIsAccepted(value: int, description: string)
    requires -0x8000_0000 < value < 0x8000_0000 && 1 <= |description| <= 10 && '"' !in description
    ensures BodyOutcome(CanonicalBody(value, description)) == Accepted(value, description)
  {
    hide TextOf;
    NatValueText(if value < 0 then -value else value);
    SoundIsAccepted(CanonicalParts(value, description));
  }
}
