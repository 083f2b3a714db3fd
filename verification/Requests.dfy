/** The request lines a client writes, and a decoder that splits them again. */
module Requests {
  import opened Bytes
  import opened Fields

  datatype Filter = Filter(kind: seq<Byte>, op: seq<Byte>, offset: nat, value: Value)

  datatype Exec = Exec(
    handle: nat,
    op: seq<Byte>,
    keys: seq<Value>,
    limit: nat,
    skip: nat,
    modOp: seq<Byte>,
    mods: seq<Value>,
    filters: seq<Filter>,
    inKeypart: int,
    inValues: seq<Value>)

  const AT: seq<Byte> := [0x40]

  /** A number as `append_uint32` prints it: cut to 32 bits first. */
  function Number(n: int): seq<Byte> {
    Decimal(n % TWO32)
  }

  predicate HasOptions(r: Exec) {
    r.limit != 0 || r.skip != 0 || r.inKeypart >= 0 || r.modOp != [] || r.filters != []
  }

  predicate HasSkip(r: Exec) {
    r.skip != 0 || r.inKeypart >= 0 || r.modOp != [] || r.filters != []
  }

  function FilterTokens(filters: seq<Filter>): seq<seq<Byte>> {
    if filters == [] then []
    else
      var f := filters[0];
      [f.kind, f.op, Number(f.offset), Token(f.value)] + FilterTokens(filters[1..])
  }

  function InTokens(r: Exec): seq<seq<Byte>> {
    if r.inKeypart >= 0 then [AT, Number(r.inKeypart), Number(|r.inValues|)] + Tokens(r.inValues) else []
  }

  function ModTokens(r: Exec): seq<seq<Byte>> {
    if r.modOp != [] then [r.modOp] + Tokens(r.mods) else []
  }

  function OptionTokens(r: Exec): seq<seq<Byte>> {
    if HasOptions(r) then
      [Number(r.limit)] + (if HasSkip(r) then [Number(r.skip)] else [])
      + (InTokens(r) + (FilterTokens(r.filters) + ModTokens(r)))
    else []
  }

  /** Everything after the handle. */
  function ExecTokens(r: Exec): seq<seq<Byte>> {
    [r.op, Number(|r.keys|)] + (Tokens(r.keys) + OptionTokens(r))
  }

  function ExecLine(r: Exec): seq<Byte> {
    Number(r.handle) + Tabbed(ExecTokens(r)) + [NEWLINE]
  }

  function OpenIndexLine(handle: nat, db: seq<Byte>, table: seq<Byte>, index: seq<Byte>, columns: seq<Byte>,
                         filterColumns: Value): seq<Byte>
  {
    [0x50] + Tabbed([Number(handle), db, table, index, columns]
                    + (match filterColumns case Null => [] case Text(t) => [t])) + [NEWLINE]
  }

  function AuthLine(secret: seq<Byte>, kind: Value): seq<Byte> {
    [0x41] + Tabbed([match kind case Null => [0x31] case Text(t) => t, secret]) + [NEWLINE]
  }

  // ----- Decoding -----

  datatype Decoded = Malformed | Request(r: Exec)

  datatype InList = InList(keypart: int, values: seq<Value>, rest: seq<seq<Byte>>)
  datatype FilterList = FilterList(filters: seq<Filter>, rest: seq<seq<Byte>>)

  function DecodeIn(tokens: seq<seq<Byte>>): InList {
    if |tokens| >= 3 && tokens[0] == [0x40] && 3 + DigitsValue(tokens[2]) <= |tokens| then
      var n := DigitsValue(tokens[2]);
      InList(DigitsValue(tokens[1]), FieldsOf(tokens[3..3 + n]), tokens[3 + n..])
    else InList(-1, [], tokens)
  }

  function DecodeFilters(tokens: seq<seq<Byte>>): FilterList
    decreases |tokens|
  {
    if |tokens| >= 4 && (tokens[0] == [0x46] || tokens[0] == [0x57]) then
      var rest := DecodeFilters(tokens[4..]);
      FilterList([Filter(tokens[0], tokens[1], DigitsValue(tokens[2]), FieldOf(tokens[3]))] + rest.filters, rest.rest)
    else FilterList([], tokens)
  }

  function DecodeOptions(r: Exec, tokens: seq<seq<Byte>>): Exec {
    if tokens == [] then r
    else if |tokens| == 1 then r.(limit := DigitsValue(tokens[0]))
    else
      var inList := DecodeIn(tokens[2..]);
      var filters := DecodeFilters(inList.rest);
      r.(limit := DigitsValue(tokens[0]), skip := DigitsValue(tokens[1]),
         inKeypart := inList.keypart, inValues := inList.values,
         filters := filters.filters,
         modOp := if filters.rest == [] then [] else filters.rest[0],
         mods := if filters.rest == [] then [] else FieldsOf(filters.rest[1..]))
  }

  function DecodeTokens(tokens: seq<seq<Byte>>): Decoded {
    if |tokens| < 3 || 3 + DigitsValue(tokens[2]) > |tokens| then Malformed
    else
      var n := DigitsValue(tokens[2]);
      var r := Exec(DigitsValue(tokens[0]), tokens[1], FieldsOf(tokens[3..3 + n]), 0, 0, [], [], [], -1, []);
      Request(DecodeOptions(r, tokens[3 + n..]))
  }

  /** Cuts off the newline, splits on tabs and unescapes. */
  function DecodeExec(line: seq<Byte>): Decoded {
    if line == [] then Malformed else DecodeTokens(Split(line[..|line| - 1], 0x09))
  }

  predicate Is32(n: int) {
    0 <= n < TWO32
  }

  /** A request whose numbers fit 32 bits, whose raw tokens are separator-free and tell their parts apart. */
  ghost predicate Encodable(r: Exec) {
    && Is32(r.handle) && Is32(r.limit) && Is32(r.skip) && Is32(|r.keys|) && Is32(|r.inValues|)
    && -1 <= r.inKeypart < TWO32
    && Clean(r.op) && Clean(r.modOp)
    && r.modOp !in {[0x40], [0x46], [0x57]}
    && (r.modOp == [] ==> r.mods == [])
    && (r.inKeypart < 0 ==> r.inValues == [])
    && forall i :: 0 <= i < |r.filters| ==> FilterOk(r.filters[i])
  }

  predicate FilterOk(f: Filter) {
    (f.kind == [0x46] || f.kind == [0x57]) && Clean(f.op) && Is32(f.offset)
  }

  lemma NumberRoundTrip(n: int)
    requires Is32(n)
    ensures DigitsValue(Number(n)) == n && Clean(Number(n))
  {
    hide DigitsValue, Decimal;
    DecimalValue(n);
    DecimalClean(n);
  }

  lemma {:induction false} FiltersRoundTrip(filters: seq<Filter>, rest: seq<seq<Byte>>)
    requires forall i :: 0 <= i < |filters| ==> FilterOk(filters[i])
    requires rest != [] ==> rest[0] != [0x46] && rest[0] != [0x57]
    ensures DecodeFilters(FilterTokens(filters) + rest) == FilterList(filters, rest)
    decreases |filters|
  {
    hide DecodeFilters, DigitsValue, FieldOf, Token, Number;
    if filters == [] {
      assert FilterTokens(filters) + rest == rest;
      FiltersEnd(rest);
    } else {
      var f := filters[0];
      NumberRoundTrip(f.offset);
      FieldRoundTrip(f.value);
      assert FilterOk(f);
      FiltersRoundTrip(filters[1..], rest);
      assert FilterTokens(filters) + rest
          == [f.kind, f.op, Number(f.offset), Token(f.value)] + (FilterTokens(filters[1..]) + rest);
      FilterRead(f.kind, f.op, Number(f.offset), Token(f.value), FilterTokens(filters[1..]) + rest);
      assert [f] + filters[1..] == filters;
    }
  }

  lemma FiltersEnd(rest: seq<seq<Byte>>)
    requires rest != [] ==> rest[0] != [0x46] && rest[0] != [0x57]
    ensures DecodeFilters(rest) == FilterList([], rest)
  {
  }

  lemma {:induction false} FiltersClean(filters: seq<Filter>)
    requires forall i :: 0 <= i < |filters| ==> FilterOk(filters[i])
    ensures AllClean(FilterTokens(filters))
  {
    if filters != [] {
      assert FilterOk(filters[0]);
      NumberRoundTrip(filters[0].offset);
      FieldRoundTrip(filters[0].value);
      FiltersClean(filters[1..]);
    }
  }

  lemma FilterRead(kind: seq<Byte>, op: seq<Byte>, offset: seq<Byte>, value: seq<Byte>, tokens: seq<seq<Byte>>)
    requires kind == [0x46] || kind == [0x57]
    ensures var rest := DecodeFilters(tokens);
            var f := Filter(kind, op, DigitsValue(offset), FieldOf(value));
            DecodeFilters([kind, op, offset, value] + tokens) == FilterList([f] + rest.filters, rest.rest)
  {
    assert ([kind, op, offset, value] + tokens)[4..] == tokens;
  }

  lemma InRoundTrip(r: Exec, rest: seq<seq<Byte>>)
    requires Encodable(r)
    requires rest != [] ==> rest[0] != [0x40]
    ensures DecodeIn(InTokens(r) + rest) == InList(r.inKeypart, r.inValues, rest)
    ensures AllClean(InTokens(r))
  {
    if r.inKeypart >= 0 {
      NumberRoundTrip(r.inKeypart);
      NumberRoundTrip(|r.inValues|);
      FieldsRoundTrip(r.inValues);
      var n := |r.inValues|;
      var tokens := InTokens(r) + rest;
      assert tokens[3..3 + n] == Tokens(r.inValues);
      assert tokens[3 + n..] == rest;
    } else {
      assert InTokens(r) + rest == rest;
    }
  }

  function Base(r: Exec): Exec {
    Exec(r.handle, r.op, r.keys, 0, 0, [], [], [], -1, [])
  }

  /** The part of the option block after limit and skip. */
  function TailTokens(r: Exec): seq<seq<Byte>> {
    InTokens(r) + (FilterTokens(r.filters) + ModTokens(r))
  }

  lemma TailRoundTrip(r: Exec)
    requires Encodable(r)
    ensures var inList := DecodeIn(TailTokens(r));
            && inList == InList(r.inKeypart, r.inValues, FilterTokens(r.filters) + ModTokens(r))
            && DecodeFilters(inList.rest) == FilterList(r.filters, ModTokens(r))
  {
    FiltersRoundTrip(r.filters, ModTokens(r));
    var tail := FilterTokens(r.filters) + ModTokens(r);
    if r.filters != [] {
      assert FilterOk(r.filters[0]);
      assert tail[0] == r.filters[0].kind;
    }
    InRoundTrip(r, tail);
  }

  lemma InClean(r: Exec)
    requires Encodable(r)
    ensures AllClean(InTokens(r))
  {
    hide InTokens, DecodeIn, Clean;
    InRoundTrip(r, []);
  }

  lemma ModsClean(r: Exec)
    requires Encodable(r)
    ensures AllClean(ModTokens(r))
  {
    hide FieldsOf, Tokens, Clean;
    FieldsRoundTrip(r.mods);
  }

  lemma BothClean(s: seq<seq<Byte>>, t: seq<seq<Byte>>)
    requires AllClean(s) && AllClean(t)
    ensures AllClean(s + t)
  {
    hide Clean;
  }

  lemma TailClean(r: Exec)
    requires Encodable(r)
    ensures AllClean(TailTokens(r))
  {
    hide InTokens, FilterTokens, ModTokens, AllClean;
    InClean(r);
    FiltersClean(r.filters);
    ModsClean(r);
    BothClean(FilterTokens(r.filters), ModTokens(r));
    BothClean(InTokens(r), FilterTokens(r.filters) + ModTokens(r));
  }

  lemma ModsRoundTrip(r: Exec)
    requires Encodable(r)
    ensures (if ModTokens(r) == [] then [] else ModTokens(r)[0]) == r.modOp
    ensures (if ModTokens(r) == [] then [] else FieldsOf(ModTokens(r)[1..])) == r.mods
  {
    FieldsRoundTrip(r.mods);
    if r.modOp != [] {
      assert ModTokens(r)[1..] == Tokens(r.mods);
    }
  }

  lemma LongOptionsRoundTrip(r: Exec)
    requires Encodable(r) && HasSkip(r)
    ensures DecodeOptions(Base(r), OptionTokens(r)) == r
  {
    hide DecodeIn, DecodeFilters, DigitsValue, Number;
    NumberRoundTrip(r.limit);
    NumberRoundTrip(r.skip);
    TailRoundTrip(r);
    ModsRoundTrip(r);
    var tokens := OptionTokens(r);
    assert tokens[2..] == TailTokens(r);
  }

  lemma OptionsRoundTrip(r: Exec)
    requires Encodable(r)
    ensures DecodeOptions(Base(r), OptionTokens(r)) == r
  {
    NumberRoundTrip(r.limit);
    if HasSkip(r) {
      LongOptionsRoundTrip(r);
    } else if HasOptions(r) {
      assert OptionTokens(r) == [Number(r.limit)];
    }
  }

  lemma OptionsClean(r: Exec)
    requires Encodable(r)
    ensures AllClean(OptionTokens(r))
  {
    NumberRoundTrip(r.limit);
    NumberRoundTrip(r.skip);
    TailClean(r);
  }

  lemma ThreeClean(a: seq<Byte>, b: seq<Byte>, c: seq<Byte>, rest: seq<seq<Byte>>)
    requires Clean(a) && Clean(b) && Clean(c) && AllClean(rest)
    ensures AllClean([a] + ([b, c] + rest))
  {
    hide Clean;
  }

  lemma ExecTokensClean(r: Exec)
    requires Encodable(r)
    ensures AllClean([Number(r.handle)] + ExecTokens(r))
  {
    hide Clean, Number, Tokens, FieldsOf, OptionTokens;
    NumberRoundTrip(r.handle);
    NumberRoundTrip(|r.keys|);
    FieldsRoundTrip(r.keys);
    OptionsClean(r);
    BothClean(Tokens(r.keys), OptionTokens(r));
    ThreeClean(Number(r.handle), r.op, Number(|r.keys|), Tokens(r.keys) + OptionTokens(r));
  }

  lemma ExecTokensSplit(r: Exec)
    requires Encodable(r)
    ensures var line := ExecLine(r);
            line != [] && Split(line[..|line| - 1], TAB) == [Number(r.handle)] + ExecTokens(r)
  {
    var tokens := [Number(r.handle)] + ExecTokens(r);
    var line := ExecLine(r);
    ExecTokensClean(r);
    TabbedIsJoin(Number(r.handle), ExecTokens(r));
    SplitJoin(tokens, TAB);
    assert line[..|line| - 1] == Number(r.handle) + Tabbed(ExecTokens(r));
  }

  lemma Headed(handle: seq<Byte>, op: seq<Byte>, count: seq<Byte>, keys: seq<seq<Byte>>, options: seq<seq<Byte>>)
    ensures var tokens := [handle] + ([op, count] + (keys + options));
            && |tokens| == 3 + |keys| + |options|
            && tokens[0] == handle && tokens[1] == op && tokens[2] == count
            && tokens[3..3 + |keys|] == keys && tokens[3 + |keys|..] == options
  {
  }

  lemma HeadRoundTrip(handle: seq<Byte>, op: seq<Byte>, keys: seq<Value>, options: seq<seq<Byte>>)
    requires Is32(|keys|)
    ensures DecodeTokens([handle] + ([op, Number(|keys|)] + (Tokens(keys) + options)))
         == Request(DecodeOptions(Exec(DigitsValue(handle), op, keys, 0, 0, [], [], [], -1, []), options))
  {
    hide DecodeOptions, Number, Token, Tokens, FieldsOf, DigitsValue;
    NumberRoundTrip(|keys|);
    FieldsRoundTrip(keys);
    Headed(handle, op, Number(|keys|), Tokens(keys), options);
  }

  lemma TokensRoundTrip(r: Exec)
    requires Encodable(r)
    ensures DecodeTokens([Number(r.handle)] + ExecTokens(r)) == Request(r)
  {
    NumberRoundTrip(r.handle);
    HeadRoundTrip(Number(r.handle), r.op, r.keys, OptionTokens(r));
    OptionsRoundTrip(r);
  }

  /** Splitting on tabs and unescaping recovers the request, whichever options the line leaves out. */
  lemma RequestRoundTrip(r: Exec)
    requires Encodable(r)
    ensures DecodeExec(ExecLine(r)) == Request(r)
  {
    ExecTokensSplit(r);
    TokensRoundTrip(r);
  }

  /** Everything as it is when nothing is asked for: no limit, no skipping, no list, no filter, no modification. */
  predicate AllDefault(r: Exec) {
    r.limit == 0 && r.skip == 0 && r.inKeypart < 0 && r.filters == [] && r.modOp == []
  }

  /** How many tokens a request has, by what it asks for. */
  function TokenCount(r: Exec): nat {
    3 + |r.keys|
    + if AllDefault(r) then 0
      else if r.skip == 0 && r.inKeypart < 0 && r.filters == [] && r.modOp == [] then 1
      else 2 + (if r.inKeypart >= 0 then 3 + |r.inValues| else 0) + 4 * |r.filters| + (if r.modOp != [] then 1 + |r.mods| else 0)
  }

  lemma {:induction false} FilterCount(filters: seq<Filter>)
    ensures |FilterTokens(filters)| == 4 * |filters|
  {
    if filters != [] {
      FilterCount(filters[1..]);
    }
  }

  /** What is left at its default is left out of the line, and everything else is there. */
  lemma TokensOnTheLine(r: Exec)
    requires Encodable(r)
    ensures var line := ExecLine(r);
            line != [] && line[|line| - 1] == 0x0A && |Split(line[..|line| - 1], 0x09)| == TokenCount(r)
  {
    ExecTokensSplit(r);
    FilterCount(r.filters);
  }

  /** The whole line of a request for nothing but a look-up. */
  lemma DefaultLine(r: Exec)
    requires AllDefault(r) && Is32(r.handle) && Is32(|r.keys|)
    ensures ExecLine(r) == Decimal(r.handle) + ([0x09] + r.op + ([0x09] + Decimal(|r.keys|) + Tabbed(Tokens(r.keys)))) + [0x0A]
  {
    hide Decimal, Tabbed, Tokens;
    var tokens := ExecTokens(r);
    var keys := Tokens(r.keys);
    assert OptionTokens(r) == [] && keys + [] == keys;
    var n := Decimal(|r.keys|);
    assert tokens == [r.op] + ([n] + keys);
    TabbedCons(r.op, [n] + keys);
    TabbedCons(n, keys);
  }

  /** The parts of an authentication line, in their order; without a type it is the type `1`. */
  lemma AuthLineRead(secret: seq<Byte>, kind: Value)
    requires Clean(secret) && (kind.Text? ==> Clean(kind.bytes))
    ensures var line := AuthLine(secret, kind);
            && line != [] && line[|line| - 1] == 0x0A
            && Split(line[..|line| - 1], 0x09) == [[0x41], if kind.Null? then [0x31] else kind.bytes, secret]
  {
    var typ := if kind.Null? then [0x31] else kind.bytes;
    var line := AuthLine(secret, kind);
    assert line[..|line| - 1] == [0x41] + Tabbed([typ, secret]);
    TabbedIsJoin([0x41], [typ, secret]);
    assert [[0x41]] + [typ, secret] == [[0x41], typ, secret];
    SplitJoin([[0x41], typ, secret], TAB);
  }

  /** Two different requests never share a line. */
  lemma RequestLinesDiffer(r: Exec, q: Exec)
    requires Encodable(r) && Encodable(q) && ExecLine(r) == ExecLine(q)
    ensures r == q
  {
    RequestRoundTrip(r);
    RequestRoundTrip(q);
  }

  /** The line is exactly one line: its only newline is its last byte. */
  predicate OneLine(line: seq<Byte>) {
    line != [] && line[|line| - 1] == NEWLINE && NEWLINE !in line[..|line| - 1]
  }

  /** The raw texts that reach the line unescaped. */
  ghost predicate RawNewlineFree(r: Exec) {
    && NEWLINE !in r.op && NEWLINE !in r.modOp
    && forall i :: 0 <= i < |r.filters| ==> NEWLINE !in r.filters[i].kind && NEWLINE !in r.filters[i].op
  }

  ghost predicate NewlineFree(tokens: seq<seq<Byte>>) {
    forall i :: 0 <= i < |tokens| ==> NEWLINE !in tokens[i]
  }

  lemma {:induction false} FiltersNewlineFree(filters: seq<Filter>)
    ensures NewlineFree(FilterTokens(filters)) <==>
              forall i :: 0 <= i < |filters| ==> NEWLINE !in filters[i].kind && NEWLINE !in filters[i].op
  {
    if filters != [] {
      var f := filters[0];
      FiltersNewlineFree(filters[1..]);
      DecimalClean(f.offset % TWO32);
      FieldRoundTrip(f.value);
      NewlineFreeAppend([f.kind, f.op, Number(f.offset), Token(f.value)], FilterTokens(filters[1..]));
      var head := [f.kind, f.op, Number(f.offset), Token(f.value)];
      assert NewlineFree(head) <==> NEWLINE !in f.kind && NEWLINE !in f.op by {
        assert head[0] == f.kind && head[1] == f.op && head[2] == Number(f.offset) && head[3] == Token(f.value);
      }
      assert forall i :: 0 < i < |filters| ==> filters[i] == filters[1..][i - 1];
      assert forall i :: 0 <= i < |filters[1..]| ==> filters[1..][i] == filters[i + 1];
    }
  }

  lemma NewlineFreeAppend(a: seq<seq<Byte>>, b: seq<seq<Byte>>)
    ensures NewlineFree(a + b) <==> NewlineFree(a) && NewlineFree(b)
  {
    if NewlineFree(a + b) {
      assert forall i :: 0 <= i < |a| ==> a[i] == (a + b)[i];
      assert forall i :: 0 <= i < |b| ==> b[i] == (a + b)[|a| + i];
    }
  }

  lemma TokensNewlineFree(values: seq<Value>)
    ensures NewlineFree(Tokens(values))
  {
    FieldsRoundTrip(values);
  }

  lemma SingleNewlineFree(t: seq<Byte>)
    ensures NewlineFree([t]) <==> NEWLINE !in t
  {
    assert [t][0] == t;
  }

  lemma OptionNewlineFree(r: Exec)
    ensures NewlineFree(OptionTokens(r)) <==>
              NEWLINE !in r.modOp && forall i :: 0 <= i < |r.filters| ==> NEWLINE !in r.filters[i].kind && NEWLINE !in r.filters[i].op
  {
    FiltersNewlineFree(r.filters);
    TokensNewlineFree(r.mods);
    TokensNewlineFree(r.inValues);
    DecimalClean(r.limit % TWO32);
    DecimalClean(r.skip % TWO32);
    DecimalClean(r.inKeypart % TWO32);
    DecimalClean(|r.inValues| % TWO32);
    SingleNewlineFree(r.modOp);
    NewlineFreeAppend([r.modOp], Tokens(r.mods));
    NewlineFreeAppend(FilterTokens(r.filters), ModTokens(r));
    NewlineFreeAppend([AT, Number(r.inKeypart), Number(|r.inValues|)], Tokens(r.inValues));
    assert NewlineFree(InTokens(r));
    NewlineFreeAppend(InTokens(r), FilterTokens(r.filters) + ModTokens(r));
    var head := [Number(r.limit)] + (if HasSkip(r) then [Number(r.skip)] else []);
    assert NewlineFree(head);
    NewlineFreeAppend(head, InTokens(r) + (FilterTokens(r.filters) + ModTokens(r)));
  }

  /** A request is one line exactly when no raw text in it holds a newline; values may hold any bytes. */
  lemma ExecIsOneLine(r: Exec)
    ensures OneLine(ExecLine(r)) <==> RawNewlineFree(r)
  {
    var tokens := ExecTokens(r);
    var line := ExecLine(r);
    DecimalClean(r.handle % TWO32);
    DecimalClean(|r.keys| % TWO32);
    TokensNewlineFree(r.keys);
    OptionNewlineFree(r);
    NewlineFreeAppend(Tokens(r.keys), OptionTokens(r));
    NewlineFreeAppend([r.op, Number(|r.keys|)], Tokens(r.keys) + OptionTokens(r));
    assert NewlineFree([r.op, Number(|r.keys|)]) <==> NEWLINE !in r.op by {
      assert [r.op, Number(|r.keys|)][0] == r.op && [r.op, Number(|r.keys|)][1] == Number(|r.keys|);
    }
    TabbedNewlineFree(tokens);
    assert line[..|line| - 1] == Number(r.handle) + Tabbed(tokens);
  }
}
