/** The escaping that keeps field bytes clear of the separators. */
module Escape {
  import opened Bytes

  const ESCAPE_PREFIX: Byte := 0x01
  const NOESCAPE_MIN := 0x10
  const ESCAPE_SHIFT := 0x40

  function EscapeByte(c: Byte): seq<Byte> {
    if c >= NOESCAPE_MIN then [c] else [ESCAPE_PREFIX, c + ESCAPE_SHIFT]
  }

  function Escaped(s: seq<Byte>): seq<Byte> {
    if s == [] then [] else EscapeByte(s[0]) + Escaped(s[1..])
  }

  /** The bytes written, and whether the whole text was well formed. */
  datatype Unescaping = Unescaping(bytes: seq<Byte>, ok: bool)

  function Unescaped(s: seq<Byte>): (u: Unescaping)
    ensures |u.bytes| <= |s|
    decreases |s|
  {
    if s == [] then Unescaping([], true)
    else if s[0] != ESCAPE_PREFIX then Prepend(s[0], Unescaped(s[1..]))
    else if |s| == 1 || s[1] < ESCAPE_SHIFT then Unescaping([], false)
    else Prepend(s[1] - ESCAPE_SHIFT, Unescaped(s[2..]))
  }

  function Prepend(c: Byte, u: Unescaping): Unescaping {
    Unescaping([c] + u.bytes, u.ok)
  }

  /** A text that escaping can produce: escape pairs only where they are needed, and always there. */
  predicate Canonical(s: seq<Byte>)
    decreases |s|
  {
    s == [] ||
    (if s[0] >= 0x10 then Canonical(s[1..])
     else s[0] == 0x01 && |s| >= 2 && 0x40 <= s[1] < 0x50 && Canonical(s[2..]))
  }

  /** Escaping goes byte by byte: those below 0x10 are raised by 0x40 behind the byte 0x01, the others stay. */
  lemma EscapedBytewise(s: seq<Byte>, t: seq<Byte>)
    ensures Escaped(s + t) == Escaped(s) + Escaped(t)
    ensures |s| == 1 ==> Escaped(s) == if s[0] < 0x10 then [0x01, s[0] + 0x40] else s
    ensures Escaped([]) == []
  {
    EscapedAppend(s, t);
    if |s| == 1 {
      assert s[1..] == [] && [s[0]] == s;
    }
  }

  lemma {:induction false} UnescapeEscaped(s: seq<Byte>)
    ensures Unescaped(Escaped(s)) == Unescaping(s, true)
  {
    if s != [] {
      UnescapeEscaped(s[1..]);
      var e := EscapeByte(s[0]);
      assert Escaped(s)[|e|..] == Escaped(s[1..]);
      assert [s[0]] + s[1..] == s;
    }
  }

  /** The image of escaping is exactly the canonical texts, and there unescaping is its inverse. */
  lemma {:induction false} EscapedIffCanonical(s: seq<Byte>)
    ensures Canonical(s) <==> Unescaped(s).ok && Escaped(Unescaped(s).bytes) == s
    decreases |s|
  {
    if s != [] {
      if s[0] != ESCAPE_PREFIX {
        EscapedIffCanonical(s[1..]);
        PrependEscaped(s[0], Unescaped(s[1..]).bytes);
        assert s == [s[0]] + s[1..];
      } else if |s| >= 2 && s[1] >= ESCAPE_SHIFT {
        EscapedIffCanonical(s[2..]);
        PrependEscaped(s[1] - ESCAPE_SHIFT, Unescaped(s[2..]).bytes);
        assert s == [s[0], s[1]] + s[2..];
      }
    }
  }

  lemma PrependEscaped(c: Byte, rest: seq<Byte>)
    ensures Escaped([c] + rest) == EscapeByte(c) + Escaped(rest)
  {
    assert ([c] + rest)[1..] == rest;
  }

  lemma EscapeInjective(s: seq<Byte>, t: seq<Byte>)
    requires Escaped(s) == Escaped(t)
    ensures s == t
  {
    UnescapeEscaped(s);
    UnescapeEscaped(t);
  }

  /** At most twice as long, and free of every byte below 0x10 but the prefix. */
  lemma {:induction false} EscapedClean(s: seq<Byte>)
    ensures |s| <= |Escaped(s)| <= 2 * |s|
    ensures forall i :: 0 <= i < |Escaped(s)| ==> Escaped(s)[i] >= 0x10 || Escaped(s)[i] == 0x01
  {
    if s != [] {
      EscapedClean(s[1..]);
    }
  }

  lemma EscapedNone()
    ensures Escaped([]) == []
  {
  }

  lemma EscapedRest(c: Byte, rest: seq<Byte>, s: seq<Byte>)
    requires s != [] && s[0] == c && s[1..] == rest
    ensures Escaped(s) == EscapeByte(c) + Escaped(rest)
  {
  }

  lemma {:induction false} EscapedAppend(s: seq<Byte>, t: seq<Byte>)
    ensures Escaped(s + t) == Escaped(s) + Escaped(t)
  {
    hide Escaped;
    if s == [] {
      assert s + t == t;
      EscapedNone();
      assert [] + Escaped(t) == Escaped(t);
    } else {
      EscapedAppend(s[1..], t);
      EscapedRest(s[0], s[1..] + t, s + t);
      EscapedRest(s[0], s[1..], s);
      assert EscapeByte(s[0]) + (Escaped(s[1..]) + Escaped(t)) == EscapeByte(s[0]) + Escaped(s[1..]) + Escaped(t);
    }
  }

  // ----- The loops over memory -----

  /** Memory with `written` laid over it from `wp` on. */
  function Overlaid(memory: seq<Byte>, wp: nat, written: seq<Byte>): (r: seq<Byte>)
    requires wp + |written| <= |memory|
    ensures |r| == |memory|
  {
    memory[..wp] + written + memory[wp + |written|..]
  }

  lemma OverlayByte(memory: seq<Byte>, wp: nat, written: seq<Byte>, c: Byte)
    requires wp + |written| < |memory|
    ensures Overlaid(memory, wp, written)[wp + |written| := c] == Overlaid(memory, wp, written + [c])
  {
  }

  lemma OverlayBeyond(memory: seq<Byte>, wp: nat, written: seq<Byte>, p: nat)
    requires wp + |written| <= p < |memory|
    ensures Overlaid(memory, wp, written)[p] == memory[p]
  {
  }

  method Store(a: array<Byte>, ghost memory: seq<Byte>, wp: nat, ghost written: seq<Byte>, end: nat, c: Byte)
    requires end == wp + |written| < a.Length == |memory| && a[..] == Overlaid(memory, wp, written)
    modifies a
    ensures a[..] == Overlaid(memory, wp, written + [c])
  {
    OverlayByte(memory, wp, written, c);
    a[end] := c;
  }

  lemma EscapedNext(text: seq<Byte>, n: nat)
    requires n < |text|
    ensures Escaped(text[..n + 1]) == Escaped(text[..n]) + EscapeByte(text[n])
  {
    EscapedAppend(text[..n], [text[n]]);
    assert text[..n] + [text[n]] == text[..n + 1];
    assert Escaped([text[n]]) == EscapeByte(text[n]) + [];
  }

  /** Writes the escaped text at `wp`; the caller has made room for twice the length. */
  method EscapeString(a: array<Byte>, wp: nat, text: seq<Byte>) returns (end: nat)
    requires wp + 2 * |text| <= a.Length
    modifies a
    ensures end == wp + |Escaped(text)| <= a.Length
    ensures a[..] == Overlaid(old(a[..]), wp, Escaped(text))
  {
    hide Escaped, Overlaid;
    end := wp;
    var start := 0;
    ghost var memory := a[..];
    ghost var written: seq<Byte> := [];
    OverlaidNothing(memory, wp);
    EscapedNone();
    assert text[..0] == [];
    while start != |text|
      invariant 0 <= start <= |text| && end == wp + |written| <= wp + 2 * start
      invariant written == Escaped(text[..start])
      invariant a[..] == Overlaid(memory, wp, written)
      decreases |text| - start
    {
      var c := text[start];
      EscapedNext(text, start);
      if c >= NOESCAPE_MIN {
        Store(a, memory, wp, written, end, c);
        written := written + [c];
      } else {
        Store(a, memory, wp, written, end, ESCAPE_PREFIX);
        end := end + 1;
        Store(a, memory, wp, written + [ESCAPE_PREFIX], end, c + ESCAPE_SHIFT);
        assert written + [ESCAPE_PREFIX] + [c + ESCAPE_SHIFT] == written + EscapeByte(c);
        written := written + [ESCAPE_PREFIX] + [c + ESCAPE_SHIFT];
      }
      start := start + 1;
      end := end + 1;
    }
    assert text[..start] == text;
  }

  /** What has been written and what is still to come make up the whole. */
  predicate Completes(written: seq<Byte>, rest: Unescaping, all: Unescaping) {
    written + rest.bytes == all.bytes && rest.ok == all.ok
  }

  lemma DecodedNext(written: seq<Byte>, c: Byte, rest: Unescaping, all: Unescaping)
    requires Completes(written, Prepend(c, rest), all)
    ensures Completes(written + [c], rest, all)
  {
  }

  /** Reads one byte, or one escape pair, of memory the write cursor has not reached. */
  method DecodeOne(a: array<Byte>, ghost memory: seq<Byte>, ghost wp: nat, ghost written: seq<Byte>, p: nat, finish: nat)
    returns (ok: bool, c: Byte, next: nat)
    requires wp + |written| <= p < finish <= a.Length == |memory| && a[..] == Overlaid(memory, wp, written)
    ensures ok ==> p < next <= finish && Unescaped(memory[p..finish]) == Prepend(c, Unescaped(memory[next..finish]))
    ensures !ok ==> Unescaped(memory[p..finish]) == Unescaping([], false)
  {
    ghost var rest := memory[p..finish];
    OverlayBeyond(memory, wp, written, p);
    c := a[p];
    if c != ESCAPE_PREFIX {
      assert rest[1..] == memory[p + 1..finish];
      return true, c, p + 1;
    }
    if p + 1 == finish {
      return false, c, p;
    }
    OverlayBeyond(memory, wp, written, p + 1);
    var cn := a[p + 1];
    if cn < ESCAPE_SHIFT {
      return false, c, p;
    }
    assert rest[2..] == memory[p + 2..finish];
    return true, cn - ESCAPE_SHIFT, p + 2;
  }

  /**
   * Unescapes `start..finish` towards `wp`, which may be `start` itself or lie before it: the write
   * cursor never overtakes the read cursor, so the text is read as it was.
   */
  method UnescapeString(a: array<Byte>, wp: nat, start: nat, finish: nat) returns (ok: bool, end: nat)
    requires wp <= start <= finish <= a.Length
    modifies a
    ensures var u := Unescaped(old(a[start..finish]));
            && ok == u.ok
            && end == wp + |u.bytes| <= wp + (finish - start)
            && a[..] == Overlaid(old(a[..]), wp, u.bytes)
  {
    hide Unescaped, Overlaid;
    end := wp;
    var p := start;
    ghost var memory := a[..];
    ghost var written: seq<Byte> := [];
    ghost var all := Unescaped(memory[start..finish]);
    OverlaidNothing(memory, wp);
    UnescapedNone();
    while p != finish
      invariant start <= p <= finish && end == wp + |written| && end - wp <= p - start
      invariant Completes(written, Unescaped(memory[p..finish]), all)
      invariant a[..] == Overlaid(memory, wp, written)
      decreases finish - p
    {
      var valid, c, next := DecodeOne(a, memory, wp, written, p, finish);
      if !valid {
        assert written + [] == written;
        return false, end;
      }
      DecodedNext(written, c, Unescaped(memory[next..finish]), all);
      Store(a, memory, wp, written, end, c);
      written := written + [c];
      p := next;
      end := end + 1;
    }
    assert memory[p..finish] == [] && written + [] == written;
    ok := true;
  }

  lemma OverlaidNothing(memory: seq<Byte>, wp: nat)
    requires wp <= |memory|
    ensures Overlaid(memory, wp, []) == memory
  {
  }

  lemma UnescapedNone()
    ensures Unescaped([]) == Unescaping([], true)
  {
  }
}
