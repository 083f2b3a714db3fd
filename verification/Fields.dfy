/** Nullable field values and the tab-led tokens that carry them. */
module Fields {
  import opened Bytes
  import opened Escape

  /** A null reference, or the bytes it refers to. */
  datatype Value = Null | Text(bytes: seq<Byte>)

  const NULL_TOKEN: seq<Byte> := [0]

  /** `append_delim_value` without its leading tab. */
  function Token(v: Value): seq<Byte> {
    match v
    case Null => NULL_TOKEN
    case Text(bytes) => Escaped(bytes)
  }

  /** What a receiver makes of a token. */
  function FieldOf(token: seq<Byte>): Value {
    if token == NULL_TOKEN then Null else Text(Unescaped(token).bytes)
  }

  /** A null, an empty text and the text of one zero byte stay three different things. */
  lemma FieldRoundTrip(v: Value)
    ensures FieldOf(Token(v)) == v
    ensures TAB !in Token(v) && NEWLINE !in Token(v)
  {
    match v
    case Null =>
    case Text(bytes) =>
      UnescapeEscaped(bytes);
      EscapedClean(bytes);
      assert forall i :: 0 <= i < |Token(v)| ==> Token(v)[i] >= NOESCAPE_MIN || Token(v)[i] == ESCAPE_PREFIX;
      assert 0 < |Token(v)| ==> Token(v)[0] != 0;
  }

  function Tokens(values: seq<Value>): (ts: seq<seq<Byte>>)
    ensures |ts| == |values|
    ensures forall i :: 0 <= i < |ts| ==> ts[i] == Token(values[i])
  {
    if values == [] then [] else [Token(values[0])] + Tokens(values[1..])
  }

  function FieldsOf(tokens: seq<seq<Byte>>): (vs: seq<Value>)
    ensures |vs| == |tokens|
    ensures forall i :: 0 <= i < |vs| ==> vs[i] == FieldOf(tokens[i])
  {
    if tokens == [] then [] else [FieldOf(tokens[0])] + FieldsOf(tokens[1..])
  }

  lemma FieldsRoundTrip(values: seq<Value>)
    ensures FieldsOf(Tokens(values)) == values
    ensures forall i :: 0 <= i < |values| ==> Clean(Tokens(values)[i])
  {
    forall i | 0 <= i < |values| ensures FieldOf(Tokens(values)[i]) == values[i] && Clean(Tokens(values)[i]) {
      FieldRoundTrip(values[i]);
    }
  }

  /** Free of both separators. */
  predicate Clean(s: seq<Byte>) {
    TAB !in s && NEWLINE !in s
  }

  ghost predicate AllClean(tokens: seq<seq<Byte>>) {
    forall i :: 0 <= i < |tokens| ==> Clean(tokens[i])
  }

  /** Every token preceded by a tab. */
  function Tabbed(tokens: seq<seq<Byte>>): seq<Byte> {
    if tokens == [] then [] else [TAB] + tokens[0] + Tabbed(tokens[1..])
  }

  lemma TabbedCons(t: seq<Byte>, rest: seq<seq<Byte>>)
    ensures Tabbed([t] + rest) == ([TAB] + t) + Tabbed(rest)
  {
    assert ([t] + rest)[1..] == rest;
  }

  lemma TabbedOne(t: seq<Byte>)
    ensures Tabbed([t]) == [TAB] + t
  {
    TabbedCons(t, []);
    assert [t] + [] == [t];
    assert ([TAB] + t) + [] == [TAB] + t;
  }

  lemma {:induction false} TabbedAppend(a: seq<seq<Byte>>, b: seq<seq<Byte>>)
    ensures Tabbed(a + b) == Tabbed(a) + Tabbed(b)
  {
    if a == [] {
      assert a + b == b;
    } else {
      assert (a + b)[1..] == a[1..] + b;
      TabbedAppend(a[1..], b);
    }
  }

  lemma {:induction false} TabbedIsJoin(first: seq<Byte>, rest: seq<seq<Byte>>)
    ensures first + Tabbed(rest) == Join([first] + rest, TAB)
    decreases |rest|
  {
    if rest == [] {
    } else {
      TabbedIsJoin(rest[0], rest[1..]);
      assert [rest[0]] + rest[1..] == rest;
      assert ([first] + rest)[1..] == rest;
    }
  }

  /** The newline count of a line body is that of its tokens. */
  lemma {:induction false} TabbedNewlineFree(tokens: seq<seq<Byte>>)
    ensures NEWLINE !in Tabbed(tokens) <==> forall i :: 0 <= i < |tokens| ==> NEWLINE !in tokens[i]
  {
    if tokens != [] {
      TabbedNewlineFree(tokens[1..]);
      assert forall i :: 0 < i < |tokens| ==> tokens[i] == tokens[1..][i - 1];
      assert NEWLINE in Tabbed(tokens) <==> NEWLINE in tokens[0] || NEWLINE in Tabbed(tokens[1..]);
      if forall i :: 0 <= i < |tokens| ==> NEWLINE !in tokens[i] {
        assert forall i :: 0 <= i < |tokens[1..]| ==> NEWLINE !in tokens[1..][i];
      }
    }
  }
}
