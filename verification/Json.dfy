/**
 * A parser for the objects and arrays of sections 4 and 5 of RFC 8259, over integers and strings that
 * need no escapes, with the insignificant white space of section 2.
 */
module Json {
  import opened Numerals

  datatype Value =
    | Num(n: int)
    | Str(text: string)
    | Arr(items: Items)
    | Obj(members: Members)

  datatype Items = NoItems | Item(head: Value, tail: Items)
  datatype Members = NoMembers | Member(name: string, value: Value, others: Members)

  datatype Parsed<T> = Fail | Ok(value: T, rest: string)

  predicate IsSpace(c: char) {
    c == ' ' || c == '\t' || c == '\n' || c == '\r'
  }

  function Trim(s: string): (t: string)
    ensures |t| <= |s|
    ensures t != "" ==> !IsSpace(t[0])
  {
    if s != "" && IsSpace(s[0]) then Trim(s[1..]) else s
  }

  /** A character that stands for itself inside a string. */
  predicate IsPlain(c: char) {
    c >= ' ' && c != '"' && c != '\\'
  }

  predicate Plain(s: string) {
    forall i :: 0 <= i < |s| ==> IsPlain(s[i])
  }

  // ----- Parsing -----

  /** After the opening quote. */
  function ParseText(s: string): (p: Parsed<string>)
    ensures p.Ok? ==> |p.rest| < |s|
  {
    if s == "" then Fail
    else if s[0] == '"' then Ok("", s[1..])
    else if !IsPlain(s[0]) then Fail
    else
      match ParseText(s[1..])
      case Fail => Fail
      case Ok(text, rest) => Ok([s[0]] + text, rest)
  }

  /** No leading zeros, no fraction, no exponent. */
  function ParseNat(s: string): (p: Parsed<nat>)
    ensures p.Ok? ==> |p.rest| < |s|
  {
    var n := Digits(s);
    if n == 0 || (n > 1 && s[0] == '0') || (n < |s| && s[n] in {'.', 'e', 'E'}) then Fail
    else Ok(NatValue(s[..n]), s[n..])
  }

  function Negated(n: nat, rest: string): Parsed<int> {
    var v: int := n;
    Ok(-v, rest)
  }

  function ParseNumber(s: string): (p: Parsed<int>)
    ensures p.Ok? ==> |p.rest| < |s|
  {
    if s != "" && s[0] == '-' then
      match ParseNat(s[1..])
      case Fail => Fail
      case Ok(n, rest) => Negated(n, rest)
    else
      match ParseNat(s)
      case Fail => Fail
      case Ok(n, rest) => Ok(n, rest)
  }

  function Parse(s: string): (p: Parsed<Value>)
    ensures p.Ok? ==> |p.rest| < |s|
    decreases |s|, 0
  {
    var t := Trim(s);
    if t == "" then Fail
    else if t[0] == '"' then
      match ParseText(t[1..])
      case Fail => Fail
      case Ok(text, rest) => Ok(Str(text), rest)
    else if t[0] == '[' then
      (if Trim(t[1..]) != "" && Trim(t[1..])[0] == ']' then Ok(Arr(NoItems), Trim(t[1..])[1..])
       else
         match ParseItems(t[1..])
         case Fail => Fail
         case Ok(items, rest) => Ok(Arr(items), rest))
    else if t[0] == '{' then
      (if Trim(t[1..]) != "" && Trim(t[1..])[0] == '}' then Ok(Obj(NoMembers), Trim(t[1..])[1..])
       else
         match ParseMembers(t[1..])
         case Fail => Fail
         case Ok(members, rest) => Ok(Obj(members), rest))
    else
      match ParseNumber(t)
      case Fail => Fail
      case Ok(n, rest) => Ok(Num(n), rest)
  }

  /** One or more values, then the closing bracket. */
  function ParseItems(s: string): (p: Parsed<Items>)
    ensures p.Ok? ==> |p.rest| < |s|
    decreases |s|, 1
  {
    match Parse(s)
    case Fail => Fail
    case Ok(head, rest) =>
      var t := Trim(rest);
      if t == "" then Fail
      else if t[0] == ']' then Ok(Item(head, NoItems), t[1..])
      else if t[0] != ',' then Fail
      else
        match ParseItems(t[1..])
        case Fail => Fail
        case Ok(tail, rest') => Ok(Item(head, tail), rest')
  }

  /** One or more members, then the closing brace. */
  function ParseMembers(s: string): (p: Parsed<Members>)
    ensures p.Ok? ==> |p.rest| < |s|
    decreases |s|, 1
  {
    var quote := Trim(s);
    if quote == "" || quote[0] != '"' then Fail
    else
      match ParseText(quote[1..])
      case Fail => Fail
      case Ok(name, rest) =>
        var colon := Trim(rest);
        if colon == "" || colon[0] != ':' then Fail
        else
          match Parse(colon[1..])
          case Fail => Fail
          case Ok(value, rest') => MembersFrom(name, value, Trim(rest'), s)
  }

  function MembersFrom(name: string, value: Value, t: string, ghost s: string): (p: Parsed<Members>)
    requires |t| < |s|
    ensures p.Ok? ==> |p.rest| < |s|
    decreases |s|, 0
  {
    if t == "" then Fail
    else if t[0] == '}' then Ok(Member(name, value, NoMembers), t[1..])
    else if t[0] != ',' then Fail
    else
      match ParseMembers(t[1..])
      case Fail => Fail
      case Ok(others, rest) => Ok(Member(name, value, others), rest)
  }

  // ----- Rendering -----

  function Render(v: Value): string {
    match v
    case Num(n) => IntText(n)
    case Str(text) => "\"" + text + "\""
    case Arr(items) => "[" + RenderItems(items) + "]"
    case Obj(members) => "{" + RenderMembers(members) + "}"
  }

  function RenderItems(items: Items): string {
    match items
    case NoItems => ""
    case Item(head, NoItems) => Render(head)
    case Item(head, tail) => Render(head) + "," + RenderItems(tail)
  }

  function RenderMembers(members: Members): string {
    match members
    case NoMembers => ""
    case Member(name, value, NoMembers) => "\"" + name + "\":" + Render(value)
    case Member(name, value, others) => "\"" + name + "\":" + Render(value) + "," + RenderMembers(others)
  }

  /** Every text in the tree needs no escapes. */
  predicate PlainValue(v: Value) {
    match v
    case Num(_) => true
    case Str(text) => Plain(text)
    case Arr(items) => PlainItems(items)
    case Obj(members) => PlainMembers(members)
  }

  predicate PlainItems(items: Items) {
    match items
    case NoItems => true
    case Item(head, tail) => PlainValue(head) && PlainItems(tail)
  }

  predicate PlainMembers(members: Members) {
    match members
    case NoMembers => true
    case Member(name, value, others) => Plain(name) && PlainValue(value) && PlainMembers(others)
  }

  // ----- Round trip -----

  /** What may follow a value without running into it. */
  predicate Stops(rest: string) {
    rest == "" || (!IsDigit(rest[0]) && rest[0] !in {'.', 'e', 'E'})
  }

  lemma {:induction false} TextRead(text: string, rest: string)
    requires Plain(text)
    ensures ParseText(text + "\"" + rest) == Ok(text, rest)
  {
    var s := text + "\"" + rest;
    if text == "" {
      assert s == "\"" + rest;
    } else {
      assert s[1..] == text[1..] + "\"" + rest;
      TextRead(text[1..], rest);
      assert [text[0]] + text[1..] == text;
    }
  }

  lemma NatRead(n: nat, rest: string)
    requires Stops(rest)
    ensures ParseNat(NatText(n) + rest) == Ok(n, rest)
  {
    var digits := NatText(n);
    DigitsBefore(digits, rest);
    NatValueText(n);
    assert (digits + rest)[..|digits|] == digits && (digits + rest)[|digits|..] == rest;
    assert n > 0 ==> (digits + rest)[0] != '0';
  }

  lemma NumberRead(n: int, rest: string)
    requires Stops(rest)
    ensures ParseNumber(IntText(n) + rest) == Ok(n, rest)
  {
    hide ParseNat, NatText, Digits;
    if n < 0 {
      NatRead(-n, rest);
      assert (IntText(n) + rest)[1..] == NatText(-n) + rest;
    } else {
      NatRead(n, rest);
      assert IsDigit(IntText(n)[0]);
    }
  }

  /** Neither white space nor a closing bracket. */
  predicate Opens(s: string) {
    s != "" && !IsSpace(s[0]) && s[0] != ']' && s[0] != '}'
  }

  lemma RenderOpens(v: Value)
    ensures Opens(Render(v))
  {
    if v.Num? {
      assert v.n >= 0 ==> IsDigit(IntText(v.n)[0]);
    }
  }

  // One parsing step each.

  lemma ParseStr(text: string, rest: string)
    requires Plain(text)
    ensures Parse("\"" + text + "\"" + rest) == Ok(Str(text), rest)
  {
    TextRead(text, rest);
    var s := "\"" + text + "\"" + rest;
    assert s[1..] == text + "\"" + rest;
  }

  lemma ParseNum(n: int, rest: string)
    requires Stops(rest)
    ensures Parse(IntText(n) + rest) == Ok(Num(n), rest)
  {
    hide ParseNumber;
    NumberRead(n, rest);
    var s := IntText(n) + rest;
    assert s[0] == '-' || IsDigit(s[0]);
  }

  lemma ParseEmpty(rest: string)
    ensures Parse("[]" + rest) == Ok(Arr(NoItems), rest)
    ensures Parse("{}" + rest) == Ok(Obj(NoMembers), rest)
  {
    assert ("[]" + rest)[1..] == "]" + rest;
    assert ("{}" + rest)[1..] == "}" + rest;
  }

  lemma ParseArr(s: string, items: Items, rest: string)
    requires Opens(s) && ParseItems(s) == Ok(items, rest)
    ensures Parse("[" + s) == Ok(Arr(items), rest)
  {
    assert ("[" + s)[1..] == s;
  }

  lemma ParseObj(s: string, members: Members, rest: string)
    requires Opens(s) && ParseMembers(s) == Ok(members, rest)
    ensures Parse("{" + s) == Ok(Obj(members), rest)
  {
    assert ("{" + s)[1..] == s;
  }

  lemma ItemsLast(s: string, head: Value, rest: string)
    requires Parse(s) == Ok(head, "]" + rest)
    ensures ParseItems(s) == Ok(Item(head, NoItems), rest)
  {
    assert ("]" + rest)[1..] == rest;
  }

  lemma ItemsMore(s: string, head: Value, more: string, tail: Items, rest: string)
    requires Parse(s) == Ok(head, "," + more) && ParseItems(more) == Ok(tail, rest)
    ensures ParseItems(s) == Ok(Item(head, tail), rest)
  {
    assert ("," + more)[1..] == more;
  }

  lemma MemberName(name: string, s: string)
    requires Plain(name)
    ensures Trim("\"" + name + "\":" + s) == "\"" + name + "\":" + s
    ensures ParseText(("\"" + name + "\":" + s)[1..]) == Ok(name, ":" + s)
  {
    TextRead(name, ":" + s);
    assert ("\"" + name + "\":" + s)[1..] == name + "\"" + (":" + s);
  }

  lemma MembersLast(name: string, s: string, value: Value, rest: string)
    requires Plain(name) && Parse(s) == Ok(value, "}" + rest)
    ensures ParseMembers("\"" + name + "\":" + s) == Ok(Member(name, value, NoMembers), rest)
  {
    hide ParseText, Parse;
    MemberName(name, s);
    assert (":" + s)[1..] == s && ("}" + rest)[1..] == rest;
  }

  lemma MembersMore(name: string, s: string, value: Value, more: string, others: Members, rest: string)
    requires Plain(name) && Parse(s) == Ok(value, "," + more) && ParseMembers(more) == Ok(others, rest)
    ensures ParseMembers("\"" + name + "\":" + s) == Ok(Member(name, value, others), rest)
  {
    hide ParseText, Parse;
    MemberName(name, s);
    assert (":" + s)[1..] == s && ("," + more)[1..] == more;
  }

  // The induction over the tree.

  /** Parsing undoes rendering, whatever follows that does not run into the value. */
  lemma {:induction false} RenderedIsRead(v: Value, rest: string)
    requires PlainValue(v) && Stops(rest)
    ensures Parse(Render(v) + rest) == Ok(v, rest)
    decreases v, 0
  {
    hide Parse, ParseItems, ParseMembers, Stops, Opens, IntText;
    match v
    case Num(n) => ParseNum(n, rest);
    case Str(text) => ParseStr(text, rest);
    case Arr(items) =>
      if items.NoItems? {
        ParseEmpty(rest);
        assert Render(v) + rest == "[]" + rest;
      } else {
        ItemsRead(items, rest);
        var s := RenderItems(items) + "]" + rest;
        OpensLonger(RenderItems(items), "]" + rest);
        assert s == RenderItems(items) + ("]" + rest);
        ParseArr(s, items, rest);
        assert Render(v) + rest == "[" + s;
      }
    case Obj(members) =>
      if members.NoMembers? {
        ParseEmpty(rest);
        assert Render(v) + rest == "{}" + rest;
      } else {
        MembersRead(members, rest);
        var s := RenderMembers(members) + "}" + rest;
        OpensLonger(RenderMembers(members), "}" + rest);
        assert s == RenderMembers(members) + ("}" + rest);
        ParseObj(s, members, rest);
        assert Render(v) + rest == "{" + s;
      }
  }

  lemma OpensLonger(s: string, t: string)
    requires Opens(s)
    ensures Opens(s + t)
  {
  }

  lemma Stopping(rest: string)
    ensures Stops("]" + rest) && Stops("}" + rest) && Stops("," + rest)
  {
  }

  lemma {:induction false} ItemsRead(items: Items, rest: string)
    requires items.Item? && PlainItems(items)
    ensures Opens(RenderItems(items))
    ensures ParseItems(RenderItems(items) + "]" + rest) == Ok(items, rest)
    decreases items, 1
  {
    hide Parse, ParseItems, Stops, Opens, Render, PlainValue;
    RenderOpens(items.head);
    var s := RenderItems(items) + "]" + rest;
    if items.tail.NoItems? {
      Stopping(rest);
      RenderedIsRead(items.head, "]" + rest);
      assert s == Render(items.head) + ("]" + rest);
      ItemsLast(s, items.head, rest);
    } else {
      ItemsRead(items.tail, rest);
      var more := RenderItems(items.tail) + "]" + rest;
      Stopping(more);
      RenderedIsRead(items.head, "," + more);
      assert RenderItems(items) == Render(items.head) + ("," + RenderItems(items.tail));
      assert s == Render(items.head) + ("," + more);
      ItemsMore(s, items.head, more, items.tail, rest);
      OpensLonger(Render(items.head), "," + RenderItems(items.tail));
    }
  }

  lemma {:induction false} MembersRead(members: Members, rest: string)
    requires members.Member? && PlainMembers(members)
    ensures Opens(RenderMembers(members))
    ensures ParseMembers(RenderMembers(members) + "}" + rest) == Ok(members, rest)
    decreases members, 1
  {
    hide Parse, ParseMembers, Stops, Render, PlainValue, Plain;
    var name, value := members.name, members.value;
    var s := RenderMembers(members) + "}" + rest;
    if members.others.NoMembers? {
      Stopping(rest);
      RenderedIsRead(value, "}" + rest);
      var text := Render(value) + ("}" + rest);
      assert s == "\"" + name + "\":" + text;
      MembersLast(name, text, value, rest);
    } else {
      MembersRead(members.others, rest);
      var more := RenderMembers(members.others) + "}" + rest;
      Stopping(more);
      RenderedIsRead(value, "," + more);
      var text := Render(value) + ("," + more);
      assert s == "\"" + name + "\":" + text;
      MembersMore(name, text, value, more, members.others, rest);
    }
  }

  // ----- Whatever is parsed needs no escapes -----

  lemma {:induction false} ParsedTextIsPlain(s: string)
    ensures ParseText(s).Ok? ==> Plain(ParseText(s).value)
  {
    if s != "" && s[0] != '"' {
      ParsedTextIsPlain(s[1..]);
    }
  }

  lemma {:induction false} ParsedIsPlain(s: string)
    ensures Parse(s).Ok? ==> PlainValue(Parse(s).value)
    decreases |s|, 0
  {
    var t := Trim(s);
    if t != "" {
      ParsedTextIsPlain(t[1..]);
      ParsedItemsArePlain(t[1..]);
      ParsedMembersArePlain(t[1..]);
    }
  }

  lemma {:induction false} ParsedItemsArePlain(s: string)
    ensures ParseItems(s).Ok? ==> PlainItems(ParseItems(s).value)
    decreases |s|, 1
  {
    ParsedIsPlain(s);
    if Parse(s).Ok? {
      var t := Trim(Parse(s).rest);
      if t != "" {
        ParsedItemsArePlain(t[1..]);
      }
    }
  }

  lemma {:induction false} ParsedMembersArePlain(s: string)
    ensures ParseMembers(s).Ok? ==> PlainMembers(ParseMembers(s).value)
    decreases |s|, 1
  {
    var quote := Trim(s);
    if quote != "" {
      ParsedTextIsPlain(quote[1..]);
      if ParseText(quote[1..]).Ok? {
        var colon := Trim(ParseText(quote[1..]).rest);
        if colon != "" {
          ParsedIsPlain(colon[1..]);
          if Parse(colon[1..]).Ok? {
            var t := Trim(Parse(colon[1..]).rest);
            if t != "" {
              ParsedMembersArePlain(t[1..]);
            }
          }
        }
      }
    }
  }
}
