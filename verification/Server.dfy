/**
 * A server of the HandlerSocket protocol, as far as the clients use it, and what it makes of their
 * lines.  It is written down in bytes, independently of the client's own encoding: separators, escapes,
 * numerals, operators and the order of the parts are spelled out here once more.
 */
module Server {
  import opened Bytes
  import opened Escape
  import opened Fields
  import opened Requests

  datatype Record = Record(data: seq<Byte>, version: nat)

  /** An open handle reads by the id alone, or by id and version. */
  datatype Index = ById | ByIdAndVersion

  datatype Store = Store(handles: map<nat, Index>, rows: map<nat, Record>)

  // ----- Bytes -----

  function Ascii(s: string): seq<Byte>
    requires forall i :: 0 <= i < |s| ==> s[i] < 0x80 as char
  {
    seq(|s|, i requires 0 <= i < |s| => s[i] as int)
  }

  /** The parts between the occurrences of a byte. */
  function Cut(s: seq<Byte>, c: Byte): (parts: seq<seq<Byte>>)
    ensures parts != []
  {
    if s == [] then [[]]
    else
      var rest := Cut(s[1..], c);
      if s[0] == c then [[]] + rest else [[s[0]] + rest[0]] + rest[1..]
  }

  /** A field as it is sent: bytes below 0x10 behind the byte 0x01 and raised by 0x40. */
  function Coded(s: seq<Byte>): seq<Byte> {
    if s == [] then []
    else (if s[0] < 0x10 then [0x01, s[0] + 0x40] else [s[0]]) + Coded(s[1..])
  }

  function Uncoded(s: seq<Byte>): seq<Byte>
    decreases |s|
  {
    if s == [] then []
    else if s[0] == 0x01 && |s| >= 2 && s[1] >= 0x40 then [s[1] - 0x40] + Uncoded(s[2..])
    else [s[0]] + Uncoded(s[1..])
  }

  predicate IsNumeral(s: seq<Byte>) {
    s != [] && forall i :: 0 <= i < |s| ==> 0x30 <= s[i] <= 0x39
  }

  function Numeral(s: seq<Byte>): nat
    requires forall i :: 0 <= i < |s| ==> 0x30 <= s[i] <= 0x39
  {
    if s == [] then 0
    else
      var last: int := s[|s| - 1];
      assert 0x30 <= s[|s| - 1] <= 0x39;
      10 * Numeral(s[..|s| - 1]) + (last - 0x30)
  }

  /** The number a token stands for; anything else is no number, written -1. */
  function NumberIn(token: seq<Byte>): int {
    if IsNumeral(Uncoded(token)) then Numeral(Uncoded(token)) else -1
  }

  function Printed(n: nat): seq<Byte>
    decreases n
  {
    if n < 10 then [0x30 + n] else Printed(n / 10) + [0x30 + n % 10]
  }

  // ----- What the server does -----

  const FAILED: seq<Byte> := [0x32, 0x09, 0x31]
  const OPENED: seq<Byte> := [0x30, 0x09, 0x31]

  function RowLine(id: nat, r: Record): seq<Byte> {
    [0x30, 0x09, 0x33, 0x09] + Coded(Printed(id)) + [0x09] + Coded(r.data) + [0x09] + Coded(Printed(r.version))
  }

  const NO_ROW: seq<Byte> := [0x30, 0x09, 0x33]

  function CountLine(n: nat): seq<Byte> {
    [0x30, 0x09, 0x31, 0x09] + Printed(n)
  }

  /** The new state, and the reply without its newline. */
  function Serve(s: Store, line: seq<Byte>): (Store, seq<Byte>) {
    if line == [] || line[|line| - 1] != 0x0A then (s, FAILED)
    else
      var tokens := Cut(line[..|line| - 1], 0x09);
      if tokens[0] == [0x50] then Open(s, tokens) else Execute(s, tokens)
  }

  function Open(s: Store, tokens: seq<seq<Byte>>): (Store, seq<Byte>) {
    if |tokens| != 6 || NumberIn(tokens[1]) < 0 || tokens[2] != Ascii("mydb") || tokens[3] != Ascii("Users")
       || tokens[5] != Ascii("id,data,version")
    then (s, FAILED)
    else if tokens[4] == Ascii("handlers_index") then (s.(handles := s.handles[NumberIn(tokens[1]) := ById]), OPENED)
    else if tokens[4] == Ascii("writers_index") then (s.(handles := s.handles[NumberIn(tokens[1]) := ByIdAndVersion]), OPENED)
    else (s, FAILED)
  }

  /** The row with this id, if the keys find it and the skipping of rows leaves it. */
  predicate Hit(s: Store, index: Index, keys: seq<seq<Byte>>, skip: int) {
    && skip == 0
    && 1 <= |keys| <= (if index.ById? then 1 else 2)
    && NumberIn(keys[0]) in s.rows
    && (|keys| == 2 ==> NumberIn(keys[1]) == s.rows[NumberIn(keys[0])].version)
  }

  /**
   * `handle op n key..key`, then `limit skip`, then a modification; only the operator `=` is served.
   * Without a limit, or with the limit 0, one row is meant.
   */
  function Execute(s: Store, tokens: seq<seq<Byte>>): (Store, seq<Byte>) {
    if |tokens| < 3 || NumberIn(tokens[0]) !in s.handles || tokens[1] != [0x3D] || !(1 <= NumberIn(tokens[2]) <= |tokens| - 3)
    then (s, FAILED)
    else
      var index, n := s.handles[NumberIn(tokens[0])], NumberIn(tokens[2]);
      var keys, rest := tokens[3..3 + n], tokens[3 + n..];
      var skip := if |rest| >= 2 then NumberIn(rest[1]) else 0;
      var hit := Hit(s, index, keys, skip);
      if |rest| >= 1 && NumberIn(rest[0]) < 0 then (s, FAILED)
      else if |rest| <= 2 then (s, if hit then RowLine(NumberIn(keys[0]), s.rows[NumberIn(keys[0])]) else NO_ROW)
      else Modify(s, NumberIn(keys[0]), hit, rest[2], rest[3..])
  }

  /** `U` replaces the row by the three values, `D` removes it. */
  function Modify(s: Store, id: int, hit: bool, op: seq<Byte>, values: seq<seq<Byte>>): (Store, seq<Byte>)
    requires hit ==> id >= 0
  {
    if op == [0x55] && |values| == 3 && NumberIn(values[0]) >= 0 && values[1] != [0x00] && NumberIn(values[2]) >= 0 then
      if hit then
        (s.(rows := (s.rows - {id})[NumberIn(values[0]) := Record(Uncoded(values[1]), NumberIn(values[2]))]), CountLine(1))
      else (s, CountLine(0))
    else if op == [0x44] then
      if hit then (s.(rows := s.rows - {id}), CountLine(1)) else (s, CountLine(0))
    else (s, FAILED)
  }

  // ----- The client's encoding, seen from here -----

  function OnlyDigits(s: seq<Byte>): (d: seq<Byte>)
    ensures forall i :: 0 <= i < |d| ==> 0x30 <= d[i] <= 0x39
  {
    if s == [] then []
    else OnlyDigits(s[..|s| - 1]) + (if 0x30 <= s[|s| - 1] <= 0x39 then [s[|s| - 1]] else [])
  }

  lemma NumeralNone()
    ensures Numeral([]) == 0
  {
  }

  lemma NumeralNext(digits: seq<Byte>, b: Byte)
    requires forall i :: 0 <= i < |digits| ==> 0x30 <= digits[i] <= 0x39
    requires 0x30 <= b <= 0x39
    ensures Numeral(digits + [b]) == 10 * Numeral(digits) + (b - 0x30)
  {
    assert (digits + [b])[..|digits|] == digits;
  }

  /** The client reads a token's digits, whatever is between them, as a number of 32 bits. */
  lemma {:induction false} NumeralsRead(s: seq<Byte>)
    ensures DigitsValue(s) == Numeral(OnlyDigits(s)) % 0x1_0000_0000
    decreases |s|
  {
    hide Numeral;
    NumeralNone();
    if s != [] {
      var t, b := s[..|s| - 1], s[|s| - 1];
      NumeralsRead(t);
      if 0x30 <= b <= 0x39 {
        NumeralNext(OnlyDigits(t), b);
        ShiftedWrap(Numeral(OnlyDigits(t)), b - 0x30);
      } else {
        assert OnlyDigits(s) == OnlyDigits(t);
      }
    }
  }

  lemma ShiftedWrap(n: nat, d: nat)
    ensures (n % 0x1_0000_0000 * 10 + d) % 0x1_0000_0000 == (10 * n + d) % 0x1_0000_0000
  {
  }

  lemma {:induction false} CodedIsEscaped(s: seq<Byte>)
    ensures Coded(s) == Escaped(s)
  {
    if s != [] {
      CodedIsEscaped(s[1..]);
    }
  }

  lemma {:induction false} UncodedEscaped(s: seq<Byte>)
    ensures Uncoded(Escaped(s)) == s
  {
    if s != [] {
      UncodedEscaped(s[1..]);
      var e := EscapeByte(s[0]);
      assert Escaped(s)[|e|..] == Escaped(s[1..]);
      assert [s[0]] + s[1..] == s;
    }
  }

  /** Every byte 0x01 that starts an escape is followed by a byte from 0x40 on. */
  predicate WellCoded(s: seq<Byte>)
    decreases |s|
  {
    s == [] || (if s[0] == 0x01 then |s| >= 2 && s[1] >= 0x40 && WellCoded(s[2..]) else WellCoded(s[1..]))
  }

  /** The client's decoder accepts exactly these texts, and then reads what the server reads. */
  lemma {:induction false} UnescapedIsUncoded(s: seq<Byte>)
    ensures Unescaped(s).ok <==> WellCoded(s)
    ensures Unescaped(s).ok ==> Unescaped(s).bytes == Uncoded(s)
    decreases |s|
  {
    if s != [] {
      if s[0] != 0x01 {
        UnescapedIsUncoded(s[1..]);
      } else if |s| >= 2 && s[1] >= 0x40 {
        UnescapedIsUncoded(s[2..]);
      }
    }
  }

  lemma {:induction false} PrintedIsDecimal(n: nat)
    ensures Printed(n) == Decimal(n)
    decreases n
  {
    if n >= 10 {
      PrintedIsDecimal(n / 10);
    }
  }

  lemma {:induction false} NumeralOfDecimal(n: nat)
    ensures IsNumeral(Decimal(n)) && Numeral(Decimal(n)) == n
    decreases n
  {
    var s := Decimal(n);
    if n >= 10 {
      NumeralOfDecimal(n / 10);
      assert s[..|s| - 1] == Decimal(n / 10);
    } else {
      assert s[..0] == [];
    }
  }

  lemma {:induction false} PlainUncoded(s: seq<Byte>)
    requires forall i :: 0 <= i < |s| ==> s[i] >= 0x10
    ensures Uncoded(s) == s && Escaped(s) == s
  {
    if s != [] {
      PlainUncoded(s[1..]);
      assert [s[0]] + s[1..] == s;
    }
  }

  /** Numbers are read back, as numbers of the protocol and as fields. */
  lemma NumberRead(n: nat)
    ensures NumberIn(Decimal(n)) == n && NumberIn(Token(Text(Decimal(n)))) == n && Token(Text(Decimal(n))) == Decimal(n)
  {
    NumeralOfDecimal(n);
    PlainUncoded(Decimal(n));
  }

  /** A null is the one byte 0x00, and no text is sent as that. */
  lemma FieldsInBytes(v: Value)
    ensures v.Null? <==> Token(v) == [0x00]
    ensures v.Text? ==> Token(v) == Coded(v.bytes) && Uncoded(Token(v)) == v.bytes
  {
    FieldRoundTrip(v);
    if v.Text? {
      CodedIsEscaped(v.bytes);
      UncodedEscaped(v.bytes);
    }
  }

  lemma {:induction false} CutIsSplit(s: seq<Byte>)
    ensures Cut(s, 0x09) == Split(s, TAB)
    decreases |s|
  {
    if s != [] {
      CutIsSplit(s[1..]);
      var rest := s[1..];
      var i := Find(rest, TAB);
      if s[0] == TAB {
        assert s[..0] == [];
      } else if i == |rest| {
        assert [s[0]] + rest == s;
      } else {
        assert s[..i + 1] == [s[0]] + rest[..i] && s[i + 2..] == rest[i + 1..];
      }
    }
  }

  /** The tokens the server sees are the ones the client wrote. */
  lemma LineSeen(r: Exec)
    requires Encodable(r)
    ensures var line := ExecLine(r);
            && line != [] && line[|line| - 1] == 0x0A
            && Cut(line[..|line| - 1], 0x09) == [Number(r.handle)] + ExecTokens(r)
  {
    ExecTokensSplit(r);
    CutIsSplit(ExecLine(r)[..|ExecLine(r)| - 1]);
  }

  /** A line of eleven tokens that is an update of a row's data and version. */
  lemma UpdateServed(s: Store, line: seq<Byte>, tokens: seq<seq<Byte>>, id: nat, version: nat)
    requires line != [] && line[|line| - 1] == 0x0A && Cut(line[..|line| - 1], 0x09) == tokens && |tokens| == 11
    requires tokens[0] != [0x50] && NumberIn(tokens[0]) in s.handles && s.handles[NumberIn(tokens[0])].ByIdAndVersion?
    requires tokens[1] == [0x3D] && NumberIn(tokens[2]) == 2 && NumberIn(tokens[3]) == id && NumberIn(tokens[4]) == version
    requires NumberIn(tokens[5]) == 0 && NumberIn(tokens[6]) == 0
    requires tokens[7] == [0x55] && NumberIn(tokens[8]) == id && tokens[9] != [0x00] && NumberIn(tokens[10]) >= 0
    ensures Serve(s, line)
         == if id in s.rows && s.rows[id].version == version
            then (s.(rows := s.rows[id := Record(Uncoded(tokens[9]), NumberIn(tokens[10]))]), CountLine(1))
            else (s, CountLine(0))
  {
    hide Cut, NumberIn, Uncoded, CountLine;
    var keys, rest := tokens[3..5], tokens[5..];
    assert keys[0] == tokens[3] && keys[1] == tokens[4];
    var values := rest[3..];
    assert rest[2] == tokens[7] && values[0] == tokens[8] && values[1] == tokens[9] && values[2] == tokens[10];
    var r := Record(Uncoded(tokens[9]), NumberIn(tokens[10]));
    assert (s.rows - {id})[id := r] == s.rows[id := r];
  }

  /** A line of four tokens that asks for the row of an id. */
  lemma LookupServed(s: Store, line: seq<Byte>, tokens: seq<seq<Byte>>, id: nat)
    requires line != [] && line[|line| - 1] == 0x0A && Cut(line[..|line| - 1], 0x09) == tokens && |tokens| == 4
    requires tokens[0] != [0x50] && NumberIn(tokens[0]) in s.handles
    requires tokens[1] == [0x3D] && NumberIn(tokens[2]) == 1 && NumberIn(tokens[3]) == id
    ensures Serve(s, line) == (s, if id in s.rows then RowLine(id, s.rows[id]) else NO_ROW)
  {
    hide Cut, NumberIn, RowLine;
    var keys, rest := tokens[3..4], tokens[4..];
    assert keys[0] == tokens[3] && |rest| == 0;
  }
}
