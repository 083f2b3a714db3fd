/** The growable byte buffer: a byte queue laid out in one block of memory. */
module StringBuffer {
  import opened Bytes
  import opened Escape

  /** `size_t` wraps here. */
  const WORD := 0x1_0000_0000_0000_0000
  const HALF := 0x8000_0000_0000_0000

  function Pow2(k: nat): nat {
    if k == 0 then 1 else 2 * Pow2(k - 1)
  }

  predicate IsCapacity(n: nat) {
    n == 0 || exists k: nat :: 5 <= k < 64 && n == Pow2(k)
  }

  lemma {:induction false} Pow2Monotone(j: nat, k: nat)
    requires j <= k
    ensures 1 <= Pow2(j) <= Pow2(k)
    decreases k
  {
    if j < k {
      Pow2Monotone(j, k - 1);
    } else if k > 0 {
      Pow2Monotone(j - 1, k - 1);
    }
  }

  lemma Pow2Values()
    ensures Pow2(5) == 32 && Pow2(63) == HALF
  {
    assert Pow2(10) == 1024;
    assert Pow2(20) == 1024 * 1024;
    assert Pow2(30) == 1024 * 1024 * 1024;
    assert Pow2(40) == 1024 * 1024 * 1024 * 1024;
    assert Pow2(50) == 1024 * 1024 * 1024 * 1024 * 1024;
    assert Pow2(60) == 1024 * 1024 * 1024 * 1024 * 1024 * 1024;
  }

  /** Doubling a capacity either gives a capacity or wraps round, and it wraps only from 2^63. */
  lemma DoubledCapacity(n: nat)
    requires n == 16 || (n != 0 && IsCapacity(n))
    ensures n == HALF || (2 * n < WORD && IsCapacity(2 * n))
    ensures n <= HALF
  {
    Pow2Values();
    if n == 16 {
      assert 2 * n == Pow2(5);
    } else {
      var k: nat :| 5 <= k < 64 && n == Pow2(k);
      Pow2Monotone(k, 63);
      if k < 63 {
        assert 2 * n == Pow2(k + 1);
        Pow2Monotone(k + 1, 63);
      }
    }
  }

  lemma CapacityBounds(n: nat)
    requires IsCapacity(n)
    ensures n <= HALF && (n != 0 ==> n >= 32)
  {
    Pow2Values();
    if n != 0 {
      var k: nat :| 5 <= k < 64 && n == Pow2(k);
      Pow2Monotone(k, 63);
      Pow2Monotone(5, k);
    }
  }

  lemma OverlaidSlices(memory: seq<Byte>, begin: nat, wp: nat, written: seq<Byte>)
    requires begin <= wp && wp + |written| <= |memory|
    ensures Overlaid(memory, wp, written)[begin..wp] == memory[begin..wp]
    ensures Overlaid(memory, wp, written)[wp..wp + |written|] == written
  {
  }

  lemma CopiedSlice(copy: seq<Byte>, memory: seq<Byte>, begin: nat, end: nat)
    requires begin <= end <= |memory| <= |copy| && forall i :: 0 <= i < |memory| ==> copy[i] == memory[i]
    ensures copy[begin..end] == memory[begin..end]
  {
  }

  class Buffer {
    /** The queue: the bytes appended and not yet erased. */
    ghost var Contents: seq<Byte>

    var buffer: array<Byte>
    var beginOffset: nat
    var endOffset: nat

    ghost predicate Valid()
      reads this, buffer
    {
      && beginOffset <= endOffset <= buffer.Length && IsCapacity(buffer.Length)
      && Contents == buffer[beginOffset..endOffset]
    }

    /** There is an allocation that could hold `len` more bytes; beyond it the process aborts. */
    ghost predicate Fits(len: nat)
      reads this
    {
      endOffset + len <= HALF
    }

    constructor ()
      ensures Valid() && fresh(buffer) && Contents == [] && beginOffset == 0
    {
      buffer := new Byte[0];
      beginOffset, endOffset := 0, 0;
      Contents := [];
    }

    function Size(): (n: nat)
      requires Valid()
      reads this, buffer
      ensures n == |Contents|
    {
      endOffset - beginOffset
    }

    method Clear()
      requires Valid()
      modifies this`beginOffset, this`endOffset, this`Contents
      ensures Valid() && Contents == [] && endOffset == 0
    {
      beginOffset, endOffset := 0, 0;
      Contents := [];
    }

    /**
     * Grows the block to at least `begin + len` bytes, doubling from 32.  The sum is a `size_t`, and
     * so is each doubling: `ok` is false exactly when the doubling would wrap, and then the process
     * aborts.  Growth never moves the offsets and never loses a byte.
     */
    method Reserve(len: nat) returns (ok: bool)
      requires Valid() && len < WORD
      modifies this`buffer
      ensures Valid() && Contents == old(Contents)
      ensures ok <==> (beginOffset + len) % WORD <= HALF
      ensures ok ==> (beginOffset + len) % WORD <= buffer.Length
      ensures ok ==> buffer == old(buffer) || (fresh(buffer) && old(buffer.Length) < buffer.Length)
      ensures ok && buffer != old(buffer) ==> buffer.Length < 2 * ((beginOffset + len) % WORD) || buffer.Length == 32
      ensures !ok ==> buffer == old(buffer)
    {
      hide IsCapacity;
      var need := (beginOffset + len) % WORD;
      CapacityBounds(buffer.Length);
      if buffer.Length >= need {
        return true;
      }
      var asz := buffer.Length;
      while asz < need
        invariant buffer == old(buffer) && IsCapacity(asz) && buffer.Length <= asz
        invariant asz == old(buffer.Length) || asz == 32 || asz < 2 * need
        decreases need - asz
      {
        if asz == 0 {
          asz := 16;
        }
        DoubledCapacity(asz);
        var doubled := 2 * asz % WORD;
        if doubled < asz {
          return false;
        }
        asz := doubled;
      }
      CapacityBounds(asz);
      var p := new Byte[asz];
      forall i | 0 <= i < buffer.Length {
        p[i] := buffer[i];
      }
      CopiedSlice(p[..], buffer[..], beginOffset, endOffset);
      buffer := p;
      return true;
    }

    /** Drops bytes from the front; dropping all of them starts the block afresh. */
    method EraseFront(len: nat)
      requires Valid()
      modifies this`beginOffset, this`endOffset, this`Contents
      ensures Valid() && endOffset <= old(endOffset)
      ensures Contents == if len >= |old(Contents)| then [] else old(Contents)[len..]
    {
      if len >= endOffset - beginOffset {
        beginOffset, endOffset := 0, 0;
        Contents := [];
      } else {
        beginOffset := beginOffset + len;
        Contents := Contents[len..];
      }
    }

    /** Makes room for `len` bytes past the end and answers where they go. */
    method MakeSpace(len: nat) returns (wp: nat)
      requires Valid() && Fits(len)
      modifies this`buffer
      ensures Valid() && Contents == old(Contents)
      ensures wp == endOffset && endOffset + len <= buffer.Length
      ensures buffer == old(buffer) || fresh(buffer)
    {
      var ok := Reserve(endOffset - beginOffset + len);
      wp := endOffset;
    }

    /** Takes in what was written past the end, at most up to the end of the block. */
    method SpaceWrote(len: nat)
      requires Valid()
      modifies this`endOffset, this`Contents
      ensures Valid()
      ensures var taken := if len <= buffer.Length - old(endOffset) then len else buffer.Length - old(endOffset);
              && endOffset == old(endOffset) + taken
              && Contents == old(Contents) + buffer[old(endOffset)..old(endOffset) + taken]
    {
      var taken := if len <= buffer.Length - endOffset then len else buffer.Length - endOffset;
      assert buffer[beginOffset..endOffset + taken] == buffer[beginOffset..endOffset] + buffer[endOffset..endOffset + taken];
      Contents := Contents + buffer[endOffset..endOffset + taken];
      endOffset := endOffset + taken;
    }

    /** Copies bytes into the space made for them. */
    method Fill(bytes: seq<Byte>)
      requires Valid() && endOffset + |bytes| <= buffer.Length
      modifies buffer
      ensures Valid()
      ensures buffer[endOffset..endOffset + |bytes|] == bytes
    {
      forall i | 0 <= i < |bytes| {
        buffer[endOffset + i] := bytes[i];
      }
      assert buffer[beginOffset..endOffset] == Contents;
    }

    /** Copies bytes into the space made for them and takes them in. */
    method Put(bytes: seq<Byte>)
      requires Valid() && endOffset + |bytes| <= buffer.Length
      modifies this`endOffset, this`Contents, buffer
      ensures Valid() && Contents == old(Contents) + bytes && endOffset == old(endOffset) + |bytes|
    {
      Fill(bytes);
      SpaceWrote(|bytes|);
    }

    method Append(bytes: seq<Byte>)
      requires Valid() && Fits(|bytes|)
      modifies this`buffer, this`endOffset, this`Contents, buffer
      ensures Valid() && Contents == old(Contents) + bytes && endOffset == old(endOffset) + |bytes|
      ensures buffer == old(buffer) || fresh(buffer)
    {
      var wp := MakeSpace(|bytes|);
      Put(bytes);
    }

    /** Reserves from the end offset, not from the size: more than needed, but never less. */
    method Append2(first: seq<Byte>, second: seq<Byte>)
      requires Valid() && beginOffset + endOffset + |first| + |second| <= HALF
      modifies this`buffer, this`endOffset, this`Contents, buffer
      ensures Valid() && Contents == old(Contents) + first + second
      ensures buffer == old(buffer) || fresh(buffer)
    {
      hide IsCapacity;
      var both := first + second;
      assert Contents + first + second == Contents + both;
      var ok := Reserve(endOffset + |both|);
      Put(both);
    }

    /** Cuts the queue to `len` bytes, or extends it with zero bytes. */
    method Resize(len: nat)
      requires Valid() && beginOffset + len <= HALF
      modifies this`buffer, this`endOffset, this`Contents, buffer
      ensures Valid()
      ensures var s := old(Contents);
              Contents == if |s| < len then s + seq(len - |s|, _ => 0) else s[..len]
      ensures buffer == old(buffer) || fresh(buffer)
    {
      if endOffset - beginOffset < len {
        var ok := Reserve(len);
        var zeros: seq<Byte> := seq(len - (endOffset - beginOffset), _ => 0);
        Put(zeros);
      } else {
        assert buffer[beginOffset..beginOffset + len] == buffer[beginOffset..endOffset][..len];
        Contents := Contents[..len];
        endOffset := beginOffset + len;
      }
    }

    /** The buffer form of escaping: room for twice the text, then only what was used. */
    method AppendEscaped(text: seq<Byte>)
      requires Valid() && Fits(2 * |text|)
      modifies this`buffer, this`endOffset, this`Contents, buffer
      ensures Valid() && Contents == old(Contents) + Escaped(text) && endOffset == old(endOffset) + |Escaped(text)|
      ensures buffer == old(buffer) || fresh(buffer)
    {
      EscapedClean(text);
      var wp := MakeSpace(2 * |text|);
      ghost var before := buffer[..];
      var end := EscapeString(buffer, wp, text);
      ghost var after := buffer[..];
      OverlaidSlices(before, beginOffset, wp, Escaped(text));
      assert buffer[beginOffset..endOffset] == after[beginOffset..wp];
      assert buffer[wp..end] == after[wp..end];
      SpaceWrote(end - wp);
    }
  }
}
