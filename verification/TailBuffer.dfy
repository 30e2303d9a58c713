/** The bounded buffer that keeps the last bytes written to it, as a ring over a fixed array. */
module TailBuffer {
  import Prelude

  newtype byte = b: int | 0 <= b < 256

  /** The last n bytes of s, or all of them. */
  function Tail(n: nat, s: seq<byte>): (t: seq<byte>)
    ensures |t| == if |s| <= n then |s| else n
  {
    if |s| <= n then s else s[|s| - n..]
  }

  /** The tail is what is left when the oldest bytes beyond the last n are taken away. */
  lemma TailIsLast(n: nat, before: seq<byte>, last: seq<byte>)
    requires |last| == n || (|last| < n && before == [])
    ensures Tail(n, before + last) == last
  {
    assert [] + last == last;
  }

  /** Keeping the tail at every step keeps the tail of everything. */
  lemma TailTail(n: nat, a: seq<byte>, b: seq<byte>)
    ensures Tail(n, Tail(n, a) + b) == Tail(n, a + b)
  {
  }

  lemma TailNone(n: nat, c: seq<byte>)
    requires |c| <= n
    ensures Tail(n, c + []) == c
  {
    assert c + [] == c;
  }

  lemma TailPut(n: nat, c: seq<byte>, x: byte)
    requires |c| <= n && n > 0
    ensures Tail(n, c + [x]) == if |c| < n then c + [x] else c[1..] + [x]
  {
  }

  /** Bytes that a later write pushes out anyway need not be stored. */
  lemma TailSkip(n: nat, a: seq<byte>, b: seq<byte>)
    requires |b| > n
    ensures Tail(n, a + b[|b| - n..]) == Tail(n, a + b)
  {
    var front, last := b[..|b| - n], b[|b| - n..];
    assert a + b == a + front + last by {
      assert b == front + last;
    }
    TailIsLast(n, a, last);
    TailIsLast(n, a + front, last);
  }

  /** The k bytes that start at index `read` of the ring b and go around its end. */
  ghost function Window(b: seq<byte>, read: nat, k: nat): (w: seq<byte>)
    requires read <= |b| && k <= |b|
    ensures |w| == k
  {
    if read + k <= |b| then b[read..read + k] else b[read..] + b[..read + k - |b|]
  }

  lemma WindowStep(b: seq<byte>, read: nat, k: nat)
    requires read < |b| && 0 < k <= |b|
    ensures Window(b, read, k)[0] == b[read]
    ensures Window(b, read, k)[1..] == Window(b, if read + 1 < |b| then read + 1 else 0, k - 1)
  {
  }

  lemma WindowPush(b: seq<byte>, read: nat, k: nat, x: byte)
    requires read < |b| && k < |b|
    ensures var w := if read + k < |b| then read + k else read + k - |b|;
      Window(b[w := x], read, k + 1) == Window(b, read, k) + [x]
  {
  }

  lemma WindowSlide(b: seq<byte>, read: nat, x: byte)
    requires read < |b|
    ensures Window(b[read := x], if read + 1 < |b| then read + 1 else 0, |b|) == Window(b, read, |b|)[1..] + [x]
  {
  }

  lemma FromAt(s: seq<byte>, n: nat)
    requires n < |s|
    ensures s[n..][0] == s[n] && s[n..][1..] == s[n + 1..]
  {
  }

  class Ring {
    const capacity: nat
    const buf: array<byte>
    var size: nat
    var read: nat
    var write: nat

    ghost predicate Valid()
      reads this
    {
      && buf.Length == capacity
      && size <= capacity
      && (capacity == 0 ==> read == 0 && write == 0)
      && (capacity > 0 ==> read < capacity && write == Wrap(read + size))
    }

    ghost function Wrap(i: nat): int
    {
      if i < capacity then i else i - capacity
    }

    /** The stored bytes, oldest first. */
    ghost function Contents(): (c: seq<byte>)
      requires Valid()
      reads this, buf
      ensures |c| == size
    {
      Window(buf[..], read, size)
    }

    constructor (capacity: nat)
      ensures Valid() && fresh(buf) && this.capacity == capacity && Contents() == []
    {
      this.capacity := capacity;
      buf := new byte[capacity];
      size, read, write := 0, 0, 0;
    }

    /** The body of the write loop: the oldest byte gives way when the ring is full. */
    method Put(b: byte)
      requires Valid() && capacity > 0
      modifies this`size, this`read, this`write, buf
      ensures Valid() && Contents() == Tail(capacity, old(Contents()) + [b])
    {
      hide Window, Tail;
      ghost var ring, at := buf[..], write;
      TailPut(capacity, Contents(), b);
      if size == capacity {
        WindowSlide(ring, read, b);
        read := if read + 1 < capacity then read + 1 else 0;
      } else {
        WindowPush(ring, read, size, b);
        size := size + 1;
      }
      buf[write] := b;
      write := if write + 1 < capacity then write + 1 else 0;
      assert buf[..] == ring[at := b];
    }

    /** Keeps the last bytes of the old contents followed by the input; reports all as written. */
    method Write(input: seq<byte>) returns (n: nat)
      requires Valid()
      modifies this`size, this`read, this`write, buf
      ensures Valid() && n == |input|
      ensures Contents() == Tail(capacity, old(Contents()) + input)
    {
      hide Contents, Tail;
      TailNone(capacity, Contents());
      var written, si := 0, 0;
      if |input| > capacity {
        si := |input| - capacity;
        TailSkip(capacity, Contents(), input);
      }
      var kept := input[si..];
      assert kept[..0] == [];
      while written < |kept|
        invariant written <= |kept| && Valid()
        invariant Contents() == Tail(capacity, old(Contents()) + kept[..written])
      {
        TailTail(capacity, old(Contents()) + kept[..written], [kept[written]]);
        assert old(Contents()) + kept[..written] + [kept[written]] == old(Contents()) + kept[..written + 1];
        Put(kept[written]);
        written := written + 1;
      }
      assert kept[..written] == kept;
      n := si + written;
    }

    /** Moves the oldest bytes to the caller's slice; end of file exactly when there are none to move. */
    method Read(out: array<byte>) returns (n: nat, eof: bool)
      requires Valid() && out != buf
      modifies this`size, this`read, out
      ensures Valid()
      ensures n == if old(size) <= out.Length then old(size) else out.Length
      ensures out[..n] == old(Contents())[..n] && out[n..] == old(out[n..])
      ensures Contents() == old(Contents())[n..]
      ensures eof <==> n == 0
    {
      hide Window;
      ghost var all, ring := Contents(), buf[..];
      n := 0;
      // `size` is lowered once, after the loop.
      while n < size && n < out.Length
        invariant n <= size && n <= out.Length
        invariant size == old(size) && buf[..] == ring
        invariant capacity == 0 ==> read == 0
        invariant capacity > 0 ==> read < capacity && write == Wrap(read + (size - n))
        invariant all[n..] == Window(ring, read, size - n)
        invariant out[..n] == all[..n] && out[n..] == old(out[n..])
      {
        WindowStep(ring, read, size - n);
        FromAt(all, n);
        out[n] := buf[read];
        read := if read + 1 < capacity then read + 1 else 0;
        n := n + 1;
      }
      size := size - n;
      eof := n == 0;
    }
  }

  /** After any writes with no reads between, the ring holds the tail of all bytes written. */
  method WriteAll(capacity: nat, pieces: seq<seq<byte>>) returns (r: Ring)
    ensures r.Valid() && r.Contents() == Tail(capacity, Prelude.Concat(pieces))
  {
    r := new Ring(capacity);
    var i := 0;
    while i < |pieces|
      invariant 0 <= i <= |pieces|
      invariant r.Valid() && r.capacity == capacity && fresh(r) && fresh(r.buf)
      invariant r.Contents() == Tail(capacity, Prelude.Concat(pieces[..i]))
    {
      assert pieces[..i + 1] == pieces[..i] + [pieces[i]];
      Prelude.ConcatSnoc(pieces[..i], pieces[i]);
      TailTail(capacity, Prelude.Concat(pieces[..i]), pieces[i]);
      var n := r.Write(pieces[i]);
      i := i + 1;
    }
    assert pieces[..i] == pieces;
  }
}
