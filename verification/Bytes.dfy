/** Bytes, searching, and unsigned decimal numerals, as the wire format uses them. */
module Bytes {
  type Byte = x: int | 0 <= x < 256

  const TAB: Byte := 0x09
  const NEWLINE: Byte := 0x0A
  const ZERO: Byte := 0x30

  const TWO32 := 0x1_0000_0000

  predicate IsDigit(b: Byte) {
    0x30 <= b <= 0x39
  }

  /** The index of the first `c`, or the length. */
  function Find(s: seq<Byte>, c: Byte): (i: nat)
    ensures i <= |s|
    ensures c !in s[..i]
    ensures i < |s| ==> s[i] == c
  {
    if s == [] || s[0] == c then 0 else
      var i := 1 + Find(s[1..], c);
      assert s[..i] == [s[0]] + s[1..][..i - 1];
      i
  }

  lemma FindUnique(s: seq<Byte>, c: Byte, i: nat)
    requires i <= |s| && c !in s[..i] && (i < |s| ==> s[i] == c)
    ensures Find(s, c) == i
  {
    var j := Find(s, c);
    assert forall k :: 0 <= k < i ==> s[k] == s[..i][k] != c;
    assert forall k :: 0 <= k < j ==> s[k] == s[..j][k] != c;
  }

  /** A clean prefix is skipped. */
  lemma FindAfter(prefix: seq<Byte>, rest: seq<Byte>, c: Byte)
    requires c !in prefix && (rest == [] || rest[0] == c)
    ensures Find(prefix + rest, c) == |prefix|
  {
    assert (prefix + rest)[..|prefix|] == prefix;
    FindUnique(prefix + rest, c, |prefix|);
  }

  /** `memchr` over a stretch of memory: the position of the first `c`, or -1. */
  method MemChr(a: array<Byte>, start: nat, finish: nat, c: Byte) returns (p: int)
    requires start <= finish <= a.Length
    ensures p == -1 <==> Find(a[start..finish], c) == finish - start
    ensures p != -1 ==> p == start + Find(a[start..finish], c)
  {
    p := start;
    while p < finish
      invariant start <= p <= finish
      invariant c !in a[start..p]
    {
      if a[p] == c {
        assert a[start..finish][..p - start] == a[start..p];
        FindUnique(a[start..finish], c, p - start);
        return;
      }
      assert a[start..p + 1] == a[start..p] + [a[p]];
      p := p + 1;
    }
    assert a[start..finish][..finish - start] == a[start..p];
    FindUnique(a[start..finish], c, finish - start);
    return -1;
  }

  // ----- Decimal numerals -----

  function Decimal(n: nat): (s: seq<Byte>)
    ensures s != []
    ensures forall i :: 0 <= i < |s| ==> IsDigit(s[i])
    decreases n
  {
    if n < 10 then [ZERO + n] else Decimal(n / 10) + [ZERO + n % 10]
  }

  /** What `read_ui32` makes of a token: other bytes are skipped and the value wraps at 2^32. */
  function DigitsValue(s: seq<Byte>): (v: nat)
    ensures v < TWO32
  {
    if s == [] then 0
    else
      var v, b := DigitsValue(s[..|s| - 1]), s[|s| - 1];
      if IsDigit(b) then (v * 10 + (b - ZERO)) % TWO32 else v
  }

  lemma {:induction false} DecimalValue(n: nat)
    requires n < TWO32
    ensures DigitsValue(Decimal(n)) == n
    decreases n
  {
    var s := Decimal(n);
    if n < 10 {
      assert s[..|s| - 1] == [];
    } else {
      DecimalValue(n / 10);
      assert s[..|s| - 1] == Decimal(n / 10);
    }
  }

  /** No separator of the wire format occurs in a numeral. */
  lemma DecimalClean(n: nat)
    ensures TAB !in Decimal(n) && NEWLINE !in Decimal(n)
  {
  }

  /** `atoi_uint32_nocheck`: stops at the first byte that is no digit. */
  method AtoiUint32(a: array<Byte>, start: nat, finish: nat) returns (v: nat)
    requires start <= finish <= a.Length
    ensures v == DigitsValue(a[start..start + DigitRun(a[start..finish])])
  {
    hide DigitsValue, DigitRun;
    v := 0;
    var p := start;
    ghost var s := a[start..finish];
    DigitsNone();
    assert s[..0] == [];
    while p != finish
      invariant start <= p <= finish
      invariant v == DigitsValue(s[..p - start])
      invariant DigitRun(s) == p - start + DigitRun(s[p - start..])
    {
      if !IsDigit(a[p]) {
        break;
      }
      DigitsNext(s, p - start);
      v := v * 10 % TWO32;
      v := (v + (a[p] - ZERO)) % TWO32;
      p := p + 1;
    }
    assert a[start..start + DigitRun(s)] == s[..p - start];
  }

  lemma DigitsNone()
    ensures DigitsValue([]) == 0
  {
  }

  lemma DigitsNext(s: seq<Byte>, i: nat)
    requires i < |s| && IsDigit(s[i])
    ensures DigitRun(s[i..]) == 1 + DigitRun(s[i + 1..])
    ensures DigitsValue(s[..i + 1]) == (DigitsValue(s[..i]) * 10 % TWO32 + (s[i] - ZERO)) % TWO32
  {
    assert s[i..][1..] == s[i + 1..];
    assert s[..i + 1][..i] == s[..i];
  }

  /** How many digits a text starts with. */
  function DigitRun(s: seq<Byte>): (n: nat)
    ensures n <= |s|
    ensures forall i :: 0 <= i < n ==> IsDigit(s[i])
    ensures n < |s| ==> !IsDigit(s[n])
  {
    if s == [] || !IsDigit(s[0]) then 0 else 1 + DigitRun(s[1..])
  }

  // ----- Tab-separated tokens -----

  /** The tokens between the separators: always one more than there are separators. */
  function Split(s: seq<Byte>, delim: Byte): (parts: seq<seq<Byte>>)
    ensures parts != []
    decreases |s|
  {
    var i := Find(s, delim);
    if i == |s| then [s] else [s[..i]] + Split(s[i + 1..], delim)
  }

  function Join(parts: seq<seq<Byte>>, delim: Byte): seq<Byte>
    requires parts != []
  {
    if |parts| == 1 then parts[0] else parts[0] + [delim] + Join(parts[1..], delim)
  }

  lemma SplitFirst(first: seq<Byte>, rest: seq<Byte>, delim: Byte)
    requires delim !in first
    ensures Split(first + [delim] + rest, delim) == [first] + Split(rest, delim)
  {
    var s := first + [delim] + rest;
    assert s == first + ([delim] + rest);
    FindAfter(first, [delim] + rest, delim);
    assert s[..|first|] == first && s[|first| + 1..] == rest;
  }

  lemma SplitLast(s: seq<Byte>, delim: Byte)
    requires delim !in s
    ensures Split(s, delim) == [s]
  {
    assert s + [] == s;
    FindAfter(s, [], delim);
  }

  lemma {:induction false} SplitJoin(parts: seq<seq<Byte>>, delim: Byte)
    requires parts != [] && forall i :: 0 <= i < |parts| ==> delim !in parts[i]
    ensures Split(Join(parts, delim), delim) == parts
  {
    if |parts| == 1 {
      SplitLast(parts[0], delim);
    } else {
      SplitJoin(parts[1..], delim);
      SplitFirst(parts[0], Join(parts[1..], delim), delim);
    }
  }

  /** Joining what was split gives the text back. */
  lemma {:induction false} JoinSplit(s: seq<Byte>, delim: Byte)
    ensures Join(Split(s, delim), delim) == s
    decreases |s|
  {
    hide Find;
    var i := Find(s, delim);
    if i < |s| {
      JoinSplit(s[i + 1..], delim);
      JoinFirst(s[..i], Split(s[i + 1..], delim), delim);
      assert s == s[..i] + [delim] + s[i + 1..];
    }
  }

  lemma JoinFirst(first: seq<Byte>, rest: seq<seq<Byte>>, delim: Byte)
    requires rest != []
    ensures Join([first] + rest, delim) == first + [delim] + Join(rest, delim)
  {
    assert ([first] + rest)[1..] == rest;
  }

  /** The vector form of `split`.  Its counter is never advanced, so the number it returns is always 0. */
  method SplitVector(a: array<Byte>, begin: nat, finish: nat, delim: Byte) returns (r: nat, parts: seq<seq<Byte>>)
    requires begin <= finish <= a.Length
    ensures parts == Split(a[begin..finish], delim)
    ensures r == 0
  {
    hide Split;
    parts := [];
    var i := 0;
    var start := begin;
    ghost var all := Split(a[begin..finish], delim);
    ghost var rest := a[begin..finish];
    while true
      invariant begin <= start <= finish && rest == a[start..finish]
      invariant parts + Split(rest, delim) == all
      decreases finish - start
    {
      var p := MemChr(a, start, finish, delim);
      if p == -1 {
        SplitDone(parts, rest, delim);
        parts := parts + [a[start..finish]];
        break;
      }
      SplitStep(parts, rest, delim, p - start);
      assert rest[..p - start] == a[start..p];
      rest := rest[p - start + 1..];
      parts := parts + [a[start..p]];
      start := p + 1;
    }
    r := i;
  }

  lemma SplitStep(parts: seq<seq<Byte>>, rest: seq<Byte>, delim: Byte, i: nat)
    requires i < |rest| && i == Find(rest, delim)
    ensures parts + Split(rest, delim) == (parts + [rest[..i]]) + Split(rest[i + 1..], delim)
  {
    hide Find;
  }

  lemma SplitDone(parts: seq<seq<Byte>>, rest: seq<Byte>, delim: Byte)
    requires Find(rest, delim) == |rest|
    ensures parts + [rest] == parts + Split(rest, delim)
  {
  }
}
