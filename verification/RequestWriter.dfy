/** Writing a request line into the write buffer, append by append. */
module RequestWriter {
  import opened Bytes
  import opened Escape
  import opened Fields
  import Numerals
  import opened Requests
  import opened StringBuffer

  lemma {:induction false} DecimalLength(n: nat, k: nat)
    requires n < Numerals.Tens(k) && k > 0
    ensures |Decimal(n)| <= k
    decreases k
  {
    if n >= 10 {
      assert Numerals.Tens(1) == 10;
      DecimalLength(n / 10, k - 1);
    }
  }

  lemma NumberLength(n: int)
    ensures |Number(n)| <= 10
  {
    assert Numerals.Tens(5) == 100000;
    assert Numerals.Tens(10) == 100000 * 100000;
    DecimalLength(n % TWO32, 10);
  }

  // ----- Room: an upper bound on what the appends reserve -----

  const NUMBER_ROOM := 64

  function ValueRoom(v: Value): nat {
    match v
    case Null => 2
    case Text(bytes) => 1 + 2 * |bytes|
  }

  function ValuesRoom(values: seq<Value>): nat {
    if values == [] then 0 else ValueRoom(values[0]) + ValuesRoom(values[1..])
  }

  function FilterRoom(f: Filter): nat {
    3 + |f.kind| + |f.op| + NUMBER_ROOM + ValueRoom(f.value)
  }

  function FiltersRoom(filters: seq<Filter>): nat {
    if filters == [] then 0 else FilterRoom(filters[0]) + FiltersRoom(filters[1..])
  }

  function OptionsRoom(r: Exec): nat {
    2 * (1 + NUMBER_ROOM)
    + (4 + 2 * NUMBER_ROOM + ValuesRoom(r.inValues))
    + FiltersRoom(r.filters)
    + (1 + |r.modOp| + ValuesRoom(r.mods))
  }

  function ExecRoom(r: Exec): nat {
    NUMBER_ROOM + (1 + |r.op|) + (1 + NUMBER_ROOM) + ValuesRoom(r.keys) + OptionsRoom(r) + 1
  }

  method AppendUint32(buf: Buffer, n: int)
    requires buf.Valid() && buf.Fits(NUMBER_ROOM)
    modifies buf, buf.buffer
    ensures buf.Valid() && buf.Contents == old(buf.Contents) + (Number(n))
    ensures buf.endOffset <= old(buf.endOffset) + NUMBER_ROOM
    ensures buf.buffer == old(buf.buffer) || fresh(buf.buffer)
  {
    NumberLength(n);
    var wp := buf.MakeSpace(NUMBER_ROOM);
    buf.Fill(Number(n));
    buf.SpaceWrote(|Number(n)|);
  }

  /** A literal tab and a raw text. */
  method AppendRaw(buf: Buffer, token: seq<Byte>)
    requires buf.Valid() && buf.Fits(1 + |token|)
    modifies buf, buf.buffer
    ensures buf.Valid() && buf.Contents == old(buf.Contents) + ([TAB] + token)
    ensures buf.endOffset <= old(buf.endOffset) + 1 + |token|
    ensures buf.buffer == old(buf.buffer) || fresh(buf.buffer)
  {
    Parts2(buf.Contents, [TAB], token);
    buf.Append([TAB]);
    buf.Append(token);
  }

  method AppendNumber(buf: Buffer, n: int)
    requires buf.Valid() && buf.Fits(1 + NUMBER_ROOM)
    modifies buf, buf.buffer
    ensures buf.Valid() && buf.Contents == old(buf.Contents) + ([TAB] + Number(n))
    ensures buf.endOffset <= old(buf.endOffset) + 1 + NUMBER_ROOM
    ensures buf.buffer == old(buf.buffer) || fresh(buf.buffer)
  {
    Parts2(buf.Contents, [TAB], Number(n));
    buf.Append([TAB]);
    AppendUint32(buf, n);
  }

  /** `append_delim_value`: a null is one zero byte, any other value is escaped. */
  method AppendDelimValue(buf: Buffer, v: Value)
    requires buf.Valid() && buf.Fits(ValueRoom(v))
    modifies buf, buf.buffer
    ensures buf.Valid() && buf.Contents == old(buf.Contents) + ([TAB] + Token(v))
    ensures buf.endOffset <= old(buf.endOffset) + ValueRoom(v)
    ensures buf.buffer == old(buf.buffer) || fresh(buf.buffer)
  {
    match v
    case Null =>
      buf.Append([TAB, 0]);
    case Text(bytes) =>
      EscapedClean(bytes);
      Parts2(buf.Contents, [TAB], Escaped(bytes));
      buf.Append([TAB]);
      buf.AppendEscaped(bytes);
  }

  lemma TokensNext(values: seq<Value>, i: nat)
    requires i < |values|
    ensures Tabbed(Tokens(values[..i + 1])) == Tabbed(Tokens(values[..i])) + ([TAB] + Token(values[i]))
    ensures ValuesRoom(values[i..]) == ValueRoom(values[i]) + ValuesRoom(values[i + 1..])
  {
    assert Tokens(values[..i + 1]) == Tokens(values[..i]) + [Token(values[i])];
    TabbedAppend(Tokens(values[..i]), [Token(values[i])]);
    assert values[i..][1..] == values[i + 1..];
  }

  method AppendValues(buf: Buffer, values: seq<Value>)
    requires buf.Valid() && buf.Fits(ValuesRoom(values))
    modifies buf, buf.buffer
    ensures buf.Valid() && buf.Contents == old(buf.Contents) + (Tabbed(Tokens(values)))
    ensures buf.endOffset <= old(buf.endOffset) + ValuesRoom(values)
    ensures buf.buffer == old(buf.buffer) || fresh(buf.buffer)
  {
    ghost var before, end := buf.Contents, buf.endOffset;
    assert values[..0] == [] && values[0..] == values;
    for i := 0 to |values|
      invariant buf.Valid() && (buf.buffer == old(buf.buffer) || fresh(buf.buffer))
      invariant buf.Contents == before + Tabbed(Tokens(values[..i]))
      invariant buf.endOffset + ValuesRoom(values[i..]) <= end + ValuesRoom(values)
    {
      TokensNext(values, i);
      Parts2(before, Tabbed(Tokens(values[..i])), [TAB] + Token(values[i]));
      AppendDelimValue(buf, values[i]);
    }
    assert values[..|values|] == values;
  }

  function FilterText(f: Filter): seq<Byte> {
    ([TAB] + f.kind) + ([TAB] + f.op) + ([TAB] + Number(f.offset)) + ([TAB] + Token(f.value))
  }

  lemma FilterTokensNext(filters: seq<Filter>, i: nat)
    requires i < |filters|
    ensures var f := filters[i];
            Tabbed(FilterTokens(filters[..i + 1])) == Tabbed(FilterTokens(filters[..i]))
              + FilterText(f)
    ensures FiltersRoom(filters[i..]) == FilterRoom(filters[i]) + FiltersRoom(filters[i + 1..])
  {
    var f := filters[i];
    var four := [f.kind, f.op, Number(f.offset), Token(f.value)];
    FilterTokensAppend(filters[..i], f);
    assert filters[..i + 1] == filters[..i] + [f];
    TabbedAppend(FilterTokens(filters[..i]), four);
    FourTabbed(f.kind, f.op, Number(f.offset), Token(f.value));
    assert filters[i..][1..] == filters[i + 1..];
  }

  lemma FourTabbed(a: seq<Byte>, b: seq<Byte>, c: seq<Byte>, d: seq<Byte>)
    ensures Tabbed([a, b, c, d]) == ([TAB] + a) + ([TAB] + b) + ([TAB] + c) + ([TAB] + d)
  {
    ThreeTabbed(b, c, d);
    assert [a] + [b, c, d] == [a, b, c, d];
    TabbedCons(a, [b, c, d]);
  }

  lemma FilterTokensAppend(filters: seq<Filter>, f: Filter)
    ensures FilterTokens(filters + [f]) == FilterTokens(filters) + [f.kind, f.op, Number(f.offset), Token(f.value)]
  {
    if filters == [] {
      assert filters + [f] == [f];
    } else {
      assert (filters + [f])[1..] == filters[1..] + [f];
      FilterTokensAppend(filters[1..], f);
    }
  }

  method AppendFilter(buf: Buffer, f: Filter)
    requires buf.Valid() && buf.Fits(FilterRoom(f))
    modifies buf, buf.buffer
    ensures buf.Valid() && buf.Contents == old(buf.Contents) + (FilterText(f))
    ensures buf.endOffset <= old(buf.endOffset) + FilterRoom(f)
    ensures buf.buffer == old(buf.buffer) || fresh(buf.buffer)
  {
    Parts4(buf.Contents, [TAB] + f.kind, [TAB] + f.op, [TAB] + Number(f.offset), [TAB] + Token(f.value));
    AppendRaw(buf, f.kind);
    AppendRaw(buf, f.op);
    AppendNumber(buf, f.offset);
    AppendDelimValue(buf, f.value);
  }

  method AppendFilters(buf: Buffer, filters: seq<Filter>)
    requires buf.Valid() && buf.Fits(FiltersRoom(filters))
    modifies buf, buf.buffer
    ensures buf.Valid() && buf.Contents == old(buf.Contents) + (Tabbed(FilterTokens(filters)))
    ensures buf.endOffset <= old(buf.endOffset) + FiltersRoom(filters)
    ensures buf.buffer == old(buf.buffer) || fresh(buf.buffer)
  {
    ghost var before, end := buf.Contents, buf.endOffset;
    assert filters[..0] == [] && filters[0..] == filters;
    for i := 0 to |filters|
      invariant buf.Valid() && (buf.buffer == old(buf.buffer) || fresh(buf.buffer))
      invariant buf.Contents == before + Tabbed(FilterTokens(filters[..i]))
      invariant buf.endOffset + FiltersRoom(filters[i..]) <= end + FiltersRoom(filters)
    {
      FilterTokensNext(filters, i);
      Parts2(before, Tabbed(FilterTokens(filters[..i])), FilterText(filters[i]));
      AppendFilter(buf, filters[i]);
    }
    assert filters[..|filters|] == filters;
  }

  method AppendInValues(buf: Buffer, r: Exec)
    requires buf.Valid() && buf.Fits(4 + 2 * NUMBER_ROOM + ValuesRoom(r.inValues))
    modifies buf, buf.buffer
    ensures buf.Valid() && buf.Contents == old(buf.Contents) + (Tabbed(InTokens(r)))
    ensures buf.endOffset <= old(buf.endOffset) + 4 + 2 * NUMBER_ROOM + ValuesRoom(r.inValues)
    ensures buf.buffer == old(buf.buffer) || fresh(buf.buffer)
  {
    if r.inKeypart >= 0 {
      TabbedAppend([AT, Number(r.inKeypart), Number(|r.inValues|)], Tokens(r.inValues));
      ThreeTabbed(AT, Number(r.inKeypart), Number(|r.inValues|));
      Parts4(buf.Contents, [TAB] + AT, [TAB] + Number(r.inKeypart), [TAB] + Number(|r.inValues|), Tabbed(Tokens(r.inValues)));
      AppendRaw(buf, AT);
      AppendNumber(buf, r.inKeypart);
      AppendNumber(buf, |r.inValues|);
      AppendValues(buf, r.inValues);
    }
  }

  lemma ThreeTabbed(a: seq<Byte>, b: seq<Byte>, c: seq<Byte>)
    ensures Tabbed([a, b, c]) == ([TAB] + a) + ([TAB] + b) + ([TAB] + c)
  {
    TwoTabbed(b, c);
    assert [a] + [b, c] == [a, b, c];
    TabbedCons(a, [b, c]);
  }

  lemma TwoTabbed(a: seq<Byte>, b: seq<Byte>)
    ensures Tabbed([a, b]) == ([TAB] + a) + ([TAB] + b)
  {
    TabbedOne(b);
    assert [a] + [b] == [a, b];
    TabbedCons(a, [b]);
  }

  // ----- Appending part after part is appending the whole -----

  lemma Parts2(s: seq<Byte>, a: seq<Byte>, b: seq<Byte>)
    ensures s + a + b == s + (a + b)
  {
  }

  lemma Parts3(s: seq<Byte>, a: seq<Byte>, b: seq<Byte>, c: seq<Byte>)
    ensures s + a + b + c == s + (a + b + c)
  {
  }

  lemma Parts4(s: seq<Byte>, a: seq<Byte>, b: seq<Byte>, c: seq<Byte>, d: seq<Byte>)
    ensures s + a + b + c + d == s + (a + b + c + d)
  {
    Parts3(s, a, b, c);
    Parts2(s, a + b + c, d);
  }

  lemma Parts5(s: seq<Byte>, a: seq<Byte>, b: seq<Byte>, c: seq<Byte>, d: seq<Byte>, e: seq<Byte>)
    ensures s + a + b + c + d + e == s + (a + b + c + d + e)
  {
    Parts4(s, a, b, c, d);
    Parts2(s, a + b + c + d, e);
  }

  lemma Parts6(s: seq<Byte>, a: seq<Byte>, b: seq<Byte>, c: seq<Byte>, d: seq<Byte>, e: seq<Byte>, f: seq<Byte>)
    ensures s + a + b + c + d + e + f == s + (a + b + c + d + e + f)
  {
    Parts5(s, a, b, c, d, e);
    Parts2(s, a + b + c + d + e, f);
  }

  method AppendMod(buf: Buffer, r: Exec)
    requires buf.Valid() && buf.Fits(1 + |r.modOp| + ValuesRoom(r.mods))
    modifies buf, buf.buffer
    ensures buf.Valid() && buf.Contents == old(buf.Contents) + (Tabbed(ModTokens(r)))
    ensures buf.endOffset <= old(buf.endOffset) + 1 + |r.modOp| + ValuesRoom(r.mods)
    ensures buf.buffer == old(buf.buffer) || fresh(buf.buffer)
  {
    if r.modOp != [] {
      TabbedCons(r.modOp, Tokens(r.mods));
      Parts2(buf.Contents, [TAB] + r.modOp, Tabbed(Tokens(r.mods)));
      AppendRaw(buf, r.modOp);
      AppendValues(buf, r.mods);
    }
  }

  /** The option block, left out altogether when every option is at its default. */
  method AppendOptions(buf: Buffer, r: Exec)
    requires buf.Valid() && buf.Fits(OptionsRoom(r))
    modifies buf, buf.buffer
    ensures buf.Valid() && buf.Contents == old(buf.Contents) + Tabbed(OptionTokens(r))
    ensures buf.endOffset <= old(buf.endOffset) + OptionsRoom(r)
    ensures buf.buffer == old(buf.buffer) || fresh(buf.buffer)
  {
    if r.limit != 0 || r.skip != 0 || r.inKeypart >= 0 || r.modOp != [] || r.filters != [] {
      ghost var before := buf.Contents;
      AppendNumber(buf, r.limit);
      if r.skip != 0 || r.inKeypart >= 0 || r.modOp != [] || r.filters != [] {
        AppendNumber(buf, r.skip);
      }
      OptionsTabbed(r);
      Parts5(before, [TAB] + Number(r.limit), SkipText(r), Tabbed(InTokens(r)), Tabbed(FilterTokens(r.filters)), Tabbed(ModTokens(r)));
      assert buf.Contents == before + ([TAB] + Number(r.limit)) + SkipText(r);
      AppendTail(buf, r);
    }
  }

  /** In-list, filters and modification. */
  method AppendTail(buf: Buffer, r: Exec)
    requires buf.Valid()
    requires buf.Fits(5 + 2 * NUMBER_ROOM + ValuesRoom(r.inValues) + FiltersRoom(r.filters) + |r.modOp| + ValuesRoom(r.mods))
    modifies buf, buf.buffer
    ensures buf.Valid()
    ensures buf.Contents == old(buf.Contents) + Tabbed(InTokens(r)) + Tabbed(FilterTokens(r.filters)) + Tabbed(ModTokens(r))
    ensures buf.endOffset <= old(buf.endOffset) + (5 + 2 * NUMBER_ROOM + ValuesRoom(r.inValues) + FiltersRoom(r.filters)
                                                   + |r.modOp| + ValuesRoom(r.mods))
    ensures buf.buffer == old(buf.buffer) || fresh(buf.buffer)
  {
    AppendInValues(buf, r);
    AppendFilters(buf, r.filters);
    AppendMod(buf, r);
  }

  function SkipText(r: Exec): seq<Byte> {
    if HasSkip(r) then [TAB] + Number(r.skip) else []
  }

  lemma TabbedSkip(r: Exec)
    ensures Tabbed(if HasSkip(r) then [Number(r.skip)] else []) == SkipText(r)
  {
    TabbedOne(Number(r.skip));
  }

  lemma OptionsTabbed(r: Exec)
    requires HasOptions(r)
    ensures Tabbed(OptionTokens(r))
         == ([TAB] + Number(r.limit)) + SkipText(r)
            + Tabbed(InTokens(r)) + Tabbed(FilterTokens(r.filters)) + Tabbed(ModTokens(r))
  {
    hide Tabbed, Number, InTokens, FilterTokens, ModTokens;
    var tail := FilterTokens(r.filters) + ModTokens(r);
    var skip := if HasSkip(r) then [Number(r.skip)] else [];
    TabbedAppend(FilterTokens(r.filters), ModTokens(r));
    TabbedAppend(InTokens(r), tail);
    TabbedAppend(skip, InTokens(r) + tail);
    TabbedAppend([Number(r.limit)], skip + (InTokens(r) + tail));
    TabbedOne(Number(r.limit));
    TabbedSkip(r);
    assert OptionTokens(r) == [Number(r.limit)] + (skip + (InTokens(r) + tail));
  }

  method AppendExec(buf: Buffer, r: Exec)
    requires buf.Valid() && buf.Fits(ExecRoom(r))
    modifies buf, buf.buffer
    ensures buf.Valid() && buf.Contents == old(buf.Contents) + ExecLine(r)
    ensures buf.endOffset <= old(buf.endOffset) + ExecRoom(r)
    ensures buf.buffer == old(buf.buffer) || fresh(buf.buffer)
  {
    ExecLineParts(r);
    Parts6(buf.Contents, Number(r.handle), [TAB] + r.op, [TAB] + Number(|r.keys|), Tabbed(Tokens(r.keys)),
           Tabbed(OptionTokens(r)), [NEWLINE]);
    AppendUint32(buf, r.handle);
    AppendRaw(buf, r.op);
    AppendNumber(buf, |r.keys|);
    AppendValues(buf, r.keys);
    AppendOptions(buf, r);
    buf.Append([NEWLINE]);
  }

  lemma ExecLineParts(r: Exec)
    ensures ExecLine(r) == Number(r.handle) + ([TAB] + r.op) + ([TAB] + Number(|r.keys|))
                           + Tabbed(Tokens(r.keys)) + Tabbed(OptionTokens(r)) + [NEWLINE]
  {
    var tail := Tokens(r.keys) + OptionTokens(r);
    TabbedAppend(Tokens(r.keys), OptionTokens(r));
    TabbedAppend([r.op, Number(|r.keys|)], tail);
    TwoTabbed(r.op, Number(|r.keys|));
    var h, o, n, k, p := Number(r.handle), [TAB] + r.op, [TAB] + Number(|r.keys|), Tabbed(Tokens(r.keys)), Tabbed(OptionTokens(r));
    assert ExecLine(r) == h + (o + n + (k + p)) + [NEWLINE];
    Parts4(h, o, n, k, p);
    Parts2(o + n, k, p);
  }

  function OptionalRoom(v: Value): nat {
    match v
    case Null => 0
    case Text(t) => 1 + |t|
  }

  function OpenIndexRoom(db: seq<Byte>, table: seq<Byte>, index: seq<Byte>, columns: seq<Byte>, filterColumns: Value): nat {
    7 + NUMBER_ROOM + |db| + |table| + |index| + |columns| + OptionalRoom(filterColumns)
  }

  function OptionalText(v: Value): seq<Byte> {
    match v
    case Null => []
    case Text(t) => [TAB] + t
  }

  method AppendOpenIndex(buf: Buffer, handle: nat, db: seq<Byte>, table: seq<Byte>, index: seq<Byte>,
                         columns: seq<Byte>, filterColumns: Value)
    requires buf.Valid() && buf.Fits(OpenIndexRoom(db, table, index, columns, filterColumns))
    modifies buf, buf.buffer
    ensures buf.Valid()
    ensures buf.Contents == old(buf.Contents) + OpenIndexLine(handle, db, table, index, columns, filterColumns)
    ensures buf.endOffset <= old(buf.endOffset) + OpenIndexRoom(db, table, index, columns, filterColumns)
    ensures buf.buffer == old(buf.buffer) || fresh(buf.buffer)
  {
    hide OpenIndexLine, Number;
    ghost var before := buf.Contents;
    buf.Append([0x50]);
    AppendNumber(buf, handle);
    AppendTarget(buf, db, table, index, columns);
    if filterColumns.Text? {
      AppendRaw(buf, filterColumns.bytes);
    }
    buf.Append([NEWLINE]);
    OpenIndexParts(before, handle, db, table, index, columns, filterColumns);
  }

  method AppendTarget(buf: Buffer, db: seq<Byte>, table: seq<Byte>, index: seq<Byte>, columns: seq<Byte>)
    requires buf.Valid() && buf.Fits(4 + |db| + |table| + |index| + |columns|)
    modifies buf, buf.buffer
    ensures buf.Valid()
    ensures buf.Contents == old(buf.Contents) + ([TAB] + db) + ([TAB] + table) + ([TAB] + index) + ([TAB] + columns)
    ensures buf.endOffset <= old(buf.endOffset) + 4 + |db| + |table| + |index| + |columns|
    ensures buf.buffer == old(buf.buffer) || fresh(buf.buffer)
  {
    AppendRaw(buf, db);
    AppendRaw(buf, table);
    AppendRaw(buf, index);
    AppendRaw(buf, columns);
  }

  lemma OpenIndexParts(s: seq<Byte>, handle: nat, db: seq<Byte>, table: seq<Byte>, index: seq<Byte>, columns: seq<Byte>,
                       filterColumns: Value)
    ensures s + [0x50] + ([TAB] + Number(handle)) + ([TAB] + db) + ([TAB] + table) + ([TAB] + index) + ([TAB] + columns)
              + OptionalText(filterColumns) + [NEWLINE]
         == s + OpenIndexLine(handle, db, table, index, columns, filterColumns)
  {
    var opt: seq<seq<Byte>> := match filterColumns case Null => [] case Text(t) => [t];
    var five := [Number(handle), db, table, index, columns];
    assert [Number(handle), db, table, index] + [columns] == five;
    FourTabbed(Number(handle), db, table, index);
    TabbedOne(columns);
    TabbedAppend([Number(handle), db, table, index], [columns]);
    TabbedAppend(five, opt);
    if filterColumns.Text? {
      TabbedOne(filterColumns.bytes);
    }
    var h, d, t, i, c, o := [TAB] + Number(handle), [TAB] + db, [TAB] + table, [TAB] + index, [TAB] + columns, OptionalText(filterColumns);
    assert OpenIndexLine(handle, db, table, index, columns, filterColumns) == [0x50] + ((h + d + t + i + c) + o) + [NEWLINE];
    Parts6(s, [0x50], h, d, t, i, c);
    Parts5([0x50], h, d, t, i, c);
    Parts3(s, [0x50] + (h + d + t + i + c), o, [NEWLINE]);
    Parts2([0x50], h + d + t + i + c, o);
  }

  method AppendAuth(buf: Buffer, secret: seq<Byte>, kind: Value)
    requires buf.Valid() && buf.Fits(5 + |secret| + OptionalRoom(kind))
    modifies buf, buf.buffer
    ensures buf.Valid() && buf.Contents == old(buf.Contents) + AuthLine(secret, kind)
    ensures buf.endOffset <= old(buf.endOffset) + (5 + |secret| + OptionalRoom(kind))
    ensures buf.buffer == old(buf.buffer) || fresh(buf.buffer)
  {
    var typ: seq<Byte> := match kind case Null => [0x31] case Text(t) => t;
    TwoTabbed(typ, secret);
    Parts4(buf.Contents, [0x41], [TAB] + typ, [TAB] + secret, [NEWLINE]);
    Parts2([0x41], [TAB] + typ, [TAB] + secret);
    buf.Append([0x41]);
    AppendRaw(buf, typ);
    AppendRaw(buf, secret);
    buf.Append([NEWLINE]);
  }
}
