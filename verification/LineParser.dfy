/** The cursor over a response line in memory: tokens, numbers, the header, and rows parsed in place. */
module LineParser {
  import opened Bytes
  import opened Escape
  import opened Fields
  import opened Responses

  /** One entry of `flds`: a null reference or a stretch of the read buffer's memory. */
  datatype FieldRef = NullRef | Ref(begin: nat, finish: nat)

  /** What a reference reads from the memory as it is now. */
  function Deref(memory: seq<Byte>, f: FieldRef): Value {
    match f
    case NullRef => Null
    case Ref(begin, finish) => if begin <= finish <= |memory| then Text(memory[begin..finish]) else Null
  }

  /** `read_token`. */
  method ReadToken(a: array<Byte>, start: nat, finish: nat) returns (next: nat)
    requires start <= finish <= a.Length
    ensures next == start + Find(a[start..finish], TAB)
    ensures a[start..next] == Head(a[start..finish]) && a[next..finish] == After(a[start..finish])
  {
    var p := MemChr(a, start, finish, TAB);
    next := if p == -1 then finish else p;
    assert a[start..next] == a[start..finish][..next - start];
    assert a[next..finish] == a[start..finish][next - start..];
  }

  /** `read_ui32`: takes in the digits of the token at the cursor and leaves the cursor after it. */
  method ReadUi32(a: array<Byte>, start: nat, finish: nat) returns (v: nat, next: nat)
    requires start <= finish <= a.Length
    ensures v == DigitsValue(Head(a[start..finish]))
    ensures start <= next <= finish && a[next..finish] == After(a[start..finish])
  {
    next := ReadToken(a, start, finish);
    v := 0;
    var p := start;
    while p != next
      invariant start <= p <= next
      invariant v == DigitsValue(a[start..p])
    {
      assert a[start..p + 1][..p - start] == a[start..p];
      if IsDigit(a[p]) {
        v := (v * 10 + (a[p] - ZERO)) % TWO32;
      }
      p := p + 1;
    }
  }

  /** `skip_one`. */
  method SkipOne(a: array<Byte>, start: nat, finish: nat) returns (next: nat)
    requires start <= finish <= a.Length
    ensures start <= next <= finish && a[next..finish] == Skipped(a[start..finish])
    ensures next == if start < finish then start + 1 else start
  {
    next := if start != finish then start + 1 else start;
  }

  /** Code, field count, the position after them, and the message of an error response. */
  method ParseHeader(a: array<Byte>, begin: nat, finish: nat)
    returns (code: nat, n: nat, next: nat, message: seq<Byte>)
    requires begin <= finish <= a.Length
    ensures var h := ReadHeader(a[begin..finish]);
            && code == h.code && n == h.numFlds
            && begin <= next <= finish && a[next..finish] == h.rest
            && (code != 0 ==> message == Message(h))
  {
    var start;
    code, start := ReadUi32(a, begin, finish);
    start := SkipOne(a, start, finish);
    n, next := ReadUi32(a, start, finish);
    message := [];
    if code != 0 {
      start := SkipOne(a, next, finish);
      var end := ReadToken(a, start, finish);
      message := if start == end then UNKNOWN_ERROR else a[start..end];
    }
  }

  // ----- Rows -----

  /** Only the stretch `start..next` differs. */
  predicate SameOutside(memory: seq<Byte>, memory': seq<Byte>, start: nat, next: nat) {
    && |memory| == |memory'| && start <= next <= |memory|
    && memory'[..start] == memory[..start] && memory'[next..] == memory[next..]
  }

  /** One field: skip the tab, find the token, unescape it over itself. */
  method ReadFieldInPlace(a: array<Byte>, start: nat, finish: nat) returns (f: FieldRef, next: nat)
    requires start <= finish <= a.Length
    modifies a
    ensures start <= next <= finish
    ensures SameOutside(old(a[..]), a[..], start, next)
    ensures var s := old(a[start..finish]);
            Deref(a[..], f) == FieldOf(Head(Skipped(s))) && old(a[next..finish]) == After(Skipped(s))
    ensures f.Ref? ==> start <= f.begin <= f.finish <= next
  {
    ghost var memory := a[..];
    ghost var s := memory[start..finish];
    var fldBegin := SkipOne(a, start, finish);
    next := ReadToken(a, fldBegin, finish);
    assert memory[fldBegin..next] == Head(Skipped(s)) == a[fldBegin..next];
    assert memory[next..finish] == After(Skipped(s));
    if next == fldBegin + 1 && a[fldBegin] == 0 {
      assert a[fldBegin..next] == NULL_TOKEN;
      f := NullRef;
    } else {
      NotNull(a[fldBegin..next], next == fldBegin + 1 && a[fldBegin] == 0);
      var ok, wp := UnescapeString(a, fldBegin, fldBegin, next);
      f := Ref(fldBegin, wp);
      OverlaidParts(memory, fldBegin, Unescaped(memory[fldBegin..next]).bytes, start, next);
    }
  }

  lemma NotNull(token: seq<Byte>, isNull: bool)
    requires isNull <==> |token| == 1 && token[0] == 0
    ensures !isNull ==> token != NULL_TOKEN
  {
  }

  lemma OverlaidParts(memory: seq<Byte>, wp: nat, written: seq<Byte>, start: nat, next: nat)
    requires start <= wp && wp + |written| <= next <= |memory|
    ensures SameOutside(memory, Overlaid(memory, wp, written), start, next)
    ensures Overlaid(memory, wp, written)[wp..wp + |written|] == written
  {
  }

  /** The references parsed so far, and the fields they must denote. */
  ghost predicate Denote(memory: seq<Byte>, refs: seq<FieldRef>, fields: seq<Value>, start: nat, limit: nat) {
    && |refs| == |fields|
    && forall j :: 0 <= j < |refs| ==>
         Deref(memory, refs[j]) == fields[j] && (refs[j].Ref? ==> start <= refs[j].begin <= refs[j].finish <= limit)
  }

  /** Memory behind the references may change, the references' own stretches do not. */
  lemma DenoteKept(memory: seq<Byte>, memory': seq<Byte>, refs: seq<FieldRef>, fields: seq<Value>, start: nat, limit: nat)
    requires Denote(memory, refs, fields, start, limit)
    requires limit <= |memory| == |memory'| && memory[..limit] == memory'[..limit]
    ensures Denote(memory', refs, fields, start, limit)
  {
    forall j | 0 <= j < |refs|
      ensures Deref(memory', refs[j]) == fields[j] && (refs[j].Ref? ==> start <= refs[j].begin <= refs[j].finish <= limit)
    {
      if refs[j].Ref? {
        assert memory[refs[j].begin..refs[j].finish] == memory[..limit][refs[j].begin..refs[j].finish];
        assert memory'[refs[j].begin..refs[j].finish] == memory'[..limit][refs[j].begin..refs[j].finish];
      }
    }
  }

  /** After `i` of `n` fields: the row so far, the rest still to be read, and memory ahead untouched. */
  ghost predicate Progress(memory: seq<Byte>, now: seq<Byte>, start: nat, finish: nat, n: nat, i: nat, end: nat,
                           refs: seq<FieldRef>, done: seq<Value>)
  {
    && start <= end <= finish <= |memory| && i <= n && |done| == i
    && SameOutside(memory, now, start, end)
    && Denote(now, refs, done, start, end)
    && var rest := ReadRow(memory[end..finish], n - i);
       var all := ReadRow(memory[start..finish], n);
       done + rest.fields == all.fields && end - start + rest.consumed == all.consumed
  }

  lemma SlicesAgree(memory: seq<Byte>, before: seq<Byte>, start: nat, end: nat, next: nat, finish: nat)
    requires SameOutside(memory, before, start, end) && end <= next <= finish <= |memory|
    ensures before[next..finish] == memory[next..finish]
  {
    forall k | next <= k < finish
      ensures before[k] == memory[k]
    {
      assert before[end..][k - end] == memory[end..][k - end];
    }
  }

  lemma DenoteNext(before: seq<Byte>, after: seq<Byte>, refs: seq<FieldRef>, done: seq<Value>, start: nat, end: nat,
                   next: nat, f: FieldRef)
    requires Denote(before, refs, done, start, end) && SameOutside(before, after, end, next) && start <= end
    requires f.Ref? ==> end <= f.begin <= f.finish <= next
    ensures Denote(after, refs + [f], done + [Deref(after, f)], start, next)
  {
    DenoteKept(before, after, refs, done, start, end);
  }

  lemma ProgressStep(memory: seq<Byte>, before: seq<Byte>, after: seq<Byte>, start: nat, finish: nat, n: nat, i: nat,
                     end: nat, next: nat, refs: seq<FieldRef>, done: seq<Value>, f: FieldRef)
    requires Progress(memory, before, start, finish, n, i, end, refs, done) && i < n
    requires end <= next <= finish && SameOutside(before, after, end, next)
    requires Deref(after, f) == FieldOf(Head(Skipped(before[end..finish])))
    requires before[next..finish] == After(Skipped(before[end..finish]))
    requires f.Ref? ==> end <= f.begin <= f.finish <= next
    ensures Progress(memory, after, start, finish, n, i + 1, next, refs + [f], done + [Deref(after, f)])
  {
    SlicesAgree(memory, before, start, end, end, finish);
    SlicesAgree(memory, before, start, end, next, finish);
    RegionsKept(memory, before, after, start, end, next);
    DenoteNext(before, after, refs, done, start, end, next, f);
    RowStep(memory[end..finish], n - i, memory[next..finish]);
    FieldDone(done, Deref(after, f), ReadRow(memory[next..finish], n - i - 1).fields);
  }

  lemma FieldDone(done: seq<Value>, v: Value, rest: seq<Value>)
    ensures done + ([v] + rest) == (done + [v]) + rest
  {
  }

  lemma RowStep(s: seq<Byte>, n: nat, tail: seq<Byte>)
    requires n > 0 && tail == After(Skipped(s))
    ensures ReadRow(s, n).fields == [FieldOf(Head(Skipped(s)))] + ReadRow(tail, n - 1).fields
    ensures ReadRow(s, n).consumed == |s| - |tail| + ReadRow(tail, n - 1).consumed
  {
  }

  lemma RegionsKept(memory: seq<Byte>, before: seq<Byte>, after: seq<Byte>, start: nat, end: nat, next: nat)
    requires SameOutside(memory, before, start, end) && SameOutside(before, after, end, next) && start <= end
    ensures SameOutside(memory, after, start, next)
  {
    assert after[..start] == after[..end][..start];
    assert before[..start] == before[..end][..start];
    assert before[next..] == before[end..][next - end..];
    assert memory[next..] == memory[end..][next - end..];
  }

  /** The loop over the fields of a row: earlier fields keep their values while later ones are unescaped. */
  method ReadRowInPlace(a: array<Byte>, start: nat, finish: nat, n: nat) returns (refs: seq<FieldRef>, end: nat)
    requires start <= finish <= a.Length
    modifies a
    ensures var r := ReadRow(old(a[start..finish]), n);
            && end == start + r.consumed <= finish
            && Denote(a[..], refs, r.fields, start, end)
    ensures SameOutside(old(a[..]), a[..], start, end)
  {
    refs := [];
    end := start;
    ghost var memory := a[..];
    ghost var done: seq<Value> := [];
    assert done + ReadRow(memory[start..finish], n).fields == ReadRow(memory[start..finish], n).fields;
    for i := 0 to n
      invariant Progress(memory, a[..], start, finish, n, i, end, refs, done)
    {
      ghost var before := a[..];
      assert before[end..finish] == a[end..finish];
      var f, next := ReadFieldInPlace(a, end, finish);
      ProgressStep(memory, before, a[..], start, finish, n, i, end, next, refs, done, f);
      refs := refs + [f];
      done := done + [Deref(a[..], f)];
      end := next;
    }
    assert done + [] == done;
  }
}
