/** A fixed-capacity byte buffer that keeps the most recent bytes written to it. */
module CircularBuffers {

  newtype byte = b: int | 0 <= b < 256

  /** The last n bytes of s, or all of s when it is shorter. */
  function Last<T>(s: seq<T>, n: nat): (last: seq<T>)
    ensures |last| == if |s| <= n then |s| else n
    ensures forall i :: 0 <= i < |last| ==> last[i] == s[|s| - |last| + i]
  {
    if |s| <= n then s else s[|s| - n..]
  }

  function Zeros(n: nat): (zeros: seq<byte>)
    ensures |zeros| == n && forall i :: 0 <= i < n ==> zeros[i] == 0
  {
    seq(n, _ => 0)
  }

  /** The cells of a full buffer, oldest first, when the oldest is at i. */
  function From<T>(cells: seq<T>, i: nat): seq<T>
    requires i <= |cells|
  {
    cells[i..] + cells[..i]
  }

  /** Advancing a position wraps at the capacity. */
  lemma NextPosition(i: nat, capacity: nat)
    requires i < capacity
    ensures (i + 1) % capacity == if i + 1 == capacity then 0 else i + 1
  {
    if i + 1 < capacity {
      assert (i + 1) % capacity == i + 1;
    }
  }

  /** Overwriting the oldest cell of a full buffer drops it and appends the new byte. */
  lemma OverwriteOldest<T>(cells: seq<T>, i: nat, b: T, j: nat)
    requires i < |cells|
    requires j == if i + 1 == |cells| then 0 else i + 1
    ensures From(cells[i := b], j) == From(cells, i)[1..] + [b]
  {
  }

  /** Keeping the last n of a stream can be done one element at a time. */
  lemma LastStep<T>(s: seq<T>, b: T, n: nat)
    requires 0 < n <= |s|
    ensures Last(s + [b], n) == Last(s, n)[1..] + [b]
  {
  }

  /** The cells and positions hold the retained suffix of what was written. */
  ghost predicate Represents(cells: seq<byte>, start: nat, end: nat, full: bool, written: seq<byte>) {
    var n := |cells|;
    && (n == 0 ==> start == end == 0 && written == [] && !full)
    && (n > 0 ==> start < n && end < n)
    && (!full ==> start == 0 && end == |written| && cells[..end] == written && (written == [] ==> cells == Zeros(n)))
    && (full ==> start == end && |written| >= n && From(cells, start) == Last(written, n))
  }

  class CircularBuffer {
    const buf: array<byte>
    var start: nat // read position
    var end: nat // write position
    var full: bool
    const capacity: nat
    ghost var written: seq<byte> // every byte ever written, in order

    ghost predicate Valid()
      reads this, buf
    {
      buf.Length == capacity && Represents(buf[..], start, end, full, written)
    }

    constructor (capacity: nat)
      ensures Valid() && fresh(buf)
      ensures this.capacity == capacity && written == []
    {
      this.capacity := capacity;
      buf := new byte[capacity](_ => 0);
      start, end, full := 0, 0, false;
      written := [];
      new;
      assert buf[..] == Zeros(capacity);
    }

    method WriteByte(b: byte)
      requires Valid() && capacity > 0
      modifies this, buf
      ensures Valid() && written == old(written) + [b]
    {
      ghost var cells, slot := buf[..], end;
      NextPosition(end, capacity);
      NextPosition(start, capacity);
      buf[end] := b;
      assert buf[..] == cells[slot := b];
      end := (end + 1) % capacity;
      if full {
        start := (start + 1) % capacity;
        OverwriteOldest(cells, slot, b, end);
        LastStep(written, b, capacity);
      } else {
        assert cells[slot := b][..slot + 1] == cells[..slot] + [b];
      }
      if end == start {
        full := true;
      }
      written := written + [b];
      assert full && !old(full) ==> From(buf[..], 0) == buf[..] == written;
    }

    /** Appends p, overwriting the oldest bytes once the buffer is full. */
    method Write(p: seq<byte>)
      requires Valid() && (p == [] || capacity > 0)
      modifies this, buf
      ensures Valid() && written == old(written) + p
    {
      for i := 0 to |p|
        invariant Valid() && written == old(written) + p[..i]
      {
        WriteByte(p[i]);
        assert p[..i + 1] == p[..i] + [p[i]];
      }
      assert p[..|p|] == p;
    }

    /** The retained suffix of everything written. A buffer never written to yields capacity zero bytes. */
    method Bytes() returns (out: seq<byte>)
      requires Valid()
      ensures out == if written == [] then Zeros(capacity) else Last(written, capacity)
    {
      if end > start {
        out := buf[start..end];
      } else {
        out := buf[start..];
        out := out + buf[..end];
        assert out == From(buf[..], start);
        if !full {
          assert written == [];
          assert From(buf[..], 0) == buf[..];
        }
      }
    }
  }
}
