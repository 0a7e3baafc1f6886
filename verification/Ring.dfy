/** The blocking buffer: a circular array that represents a queue. */
module Ring {
  import opened Words
  import opened ByteQueue

  /** Index `x` of a ring of `n` slots, for `x` less than one turn ahead. */
  function Slot(x: nat, n: nat): (r: nat)
    requires x < 2 * n
    ensures r < n
  {
    if x < n then x else x - n
  }

  /** Within one turn, the remainder is the slot. */
  lemma RemainderIsSlot(x: nat, n: nat)
    requires 0 < n && x < 2 * n
    ensures x % n == Slot(x, n)
  {
    if x >= n {
      assert x == n * 1 + (x - n);
      RemainderUnique(x, n, 1, x - n);
    } else {
      RemainderUnique(x, n, 0, x);
    }
  }

  lemma RemainderUnique(x: nat, n: nat, q: nat, r: nat)
    requires 0 < n && r < n && x == n * q + r && q <= 1
    ensures x % n == r
  {
  }

  /** The `len` elements from slot `start` on, around the end of the array. */
  function Window<T>(a: seq<T>, start: nat, len: nat): (r: seq<T>)
    requires start < |a| && len <= |a|
    ensures |r| == len
  {
    seq(len, i requires 0 <= i < len => a[Slot(start + i, |a|)])
  }

  lemma WindowAt<T>(a: seq<T>, start: nat, len: nat, i: nat)
    requires start < |a| && len <= |a| && i < len
    ensures Window(a, start, len)[i] == a[Slot(start + i, |a|)]
  {
  }

  /** Storing behind the window extends it by one element. */
  lemma WindowExtend<T>(a: seq<T>, start: nat, len: nat, x: T)
    requires start < |a| && len < |a|
    ensures Window(a[Slot(start + len, |a|) := x], start, len + 1) == Window(a, start, len) + [x]
  {
    var a' := a[Slot(start + len, |a|) := x];
    forall i: nat | i < len + 1
      ensures Window(a', start, len + 1)[i] == (Window(a, start, len) + [x])[i]
    {
      WindowAt(a', start, len + 1, i);
      if i < len { WindowAt(a, start, len, i); }
    }
  }

  /** Moving the start forward drops elements from the front. */
  lemma WindowDrop<T>(a: seq<T>, start: nat, len: nat, k: nat)
    requires start < |a| && k <= len <= |a|
    ensures Window(a, Slot(start + k, |a|), len - k) == Window(a, start, len)[k..]
  {
    forall i: nat | i < len - k
      ensures Window(a, Slot(start + k, |a|), len - k)[i] == Window(a, start, len)[k..][i]
    {
      WindowAt(a, Slot(start + k, |a|), len - k, i);
      WindowAt(a, start, len, k + i);
    }
  }

  class BlockingBuffer<T(0)> {
    const buffer: array<T>
    var readPos: nat
    var writePos: nat
    var currLen: nat
    var woken: bool

    ghost predicate Valid()
      reads this
    {
      && readPos < buffer.Length && writePos < buffer.Length && currLen <= buffer.Length
      && writePos == Slot(readPos + currLen, buffer.Length)
    }

    /** The queue this ring stands for. */
    ghost function Contents(): (q: seq<T>)
      requires Valid()
      reads this, buffer
      ensures |q| == currLen
    {
      Window(buffer[..], readPos, currLen)
    }

    constructor (size: nat)
      requires size > 0
      ensures Valid() && fresh(buffer) && buffer.Length == size
      ensures Contents() == [] && !woken
    {
      buffer := new T[size];
      readPos, writePos, currLen, woken := 0, 0, 0, false;
    }

    method ForceWakeUp()
      requires Valid()
      modifies this`woken
      ensures Valid() && woken && Contents() == old(Contents())
    {
      woken := true;
    }

    /** Called where the wait of `write` is over: there is room, or the buffer was woken. */
    method Write(bytes: seq<T>) returns (count: nat)
      requires Valid() && (currLen < buffer.Length || woken)
      modifies this`writePos, this`currLen, buffer
      ensures Valid()
      ensures count == |Accepted(old(Contents()), bytes, buffer.Length)|
      ensures Contents() == old(Contents()) + Accepted(old(Contents()), bytes, buffer.Length)
    {
      count := Min(|bytes|, buffer.Length - currLen);
      var i := 0;
      while i < count
        invariant 0 <= i <= count && currLen == old(currLen)
        invariant writePos < buffer.Length && writePos == Slot(readPos + currLen + i, buffer.Length)
        invariant Window(buffer[..], readPos, currLen + i) == old(Contents()) + bytes[..i]
      {
        WindowExtend(buffer[..], readPos, currLen + i, bytes[i]);
        ghost var before := buffer[..];
        buffer[writePos] := bytes[i];
        assert buffer[..] == before[writePos := bytes[i]];
        assert old(Contents()) + bytes[..i + 1] == (old(Contents()) + bytes[..i]) + [bytes[i]];
        RemainderIsSlot(writePos + 1, buffer.Length);
        writePos := (writePos + 1) % buffer.Length;
        i := i + 1;
      }
      currLen := currLen + count;
    }

    /** The copying loop shared by `read` and `try_read`. */
    method Take(bytes: array<T>) returns (count: nat)
      requires Valid() && bytes != buffer
      modifies this`readPos, this`currLen, bytes
      ensures Valid()
      ensures var got := Slice(old(Contents()), bytes.Length, 0);
        count == |got| && bytes[..count] == got && bytes[count..] == old(bytes[count..])
      ensures Contents() == Drop(old(Contents()), bytes.Length)
    {
      count := Min(bytes.Length, currLen);
      ghost var q, start := Contents(), readPos;
      var i := 0;
      while i < count
        invariant 0 <= i <= count && currLen == |q| && q == Window(buffer[..], start, currLen)
        invariant readPos < buffer.Length && readPos == Slot(start + i, buffer.Length)
        invariant bytes[..i] == q[..i] && bytes[i..] == old(bytes[i..])
      {
        WindowAt(buffer[..], start, currLen, i);
        bytes[i] := buffer[readPos];
        RemainderIsSlot(readPos + 1, buffer.Length);
        readPos := (readPos + 1) % buffer.Length;
        i := i + 1;
      }
      WindowDrop(buffer[..], start, currLen, count);
      currLen := currLen - count;
    }

    /** Called where the wait of `read` is over: there is data, or the buffer was woken. */
    method Read(bytes: array<T>) returns (count: nat)
      requires Valid() && bytes != buffer && (currLen > 0 || woken)
      modifies this`readPos, this`currLen, bytes
      ensures Valid()
      ensures var got := Slice(old(Contents()), bytes.Length, 0);
        count == |got| && bytes[..count] == got && bytes[count..] == old(bytes[count..])
      ensures Contents() == Drop(old(Contents()), bytes.Length)
    {
      count := Take(bytes);
    }

    /** Never waits: an empty buffer gives 0 at once. */
    method TryRead(bytes: array<T>) returns (count: nat)
      requires Valid() && bytes != buffer
      modifies this`readPos, this`currLen, bytes
      ensures Valid()
      ensures var got := Slice(old(Contents()), bytes.Length, 0);
        count == |got| && bytes[..count] == got && bytes[count..] == old(bytes[count..])
      ensures Contents() == Drop(old(Contents()), bytes.Length)
    {
      if currLen == 0 {
        return 0;
      }
      count := Take(bytes);
    }

    method Peek(bytes: array<T>, offset: nat) returns (count: nat)
      requires Valid() && bytes != buffer
      modifies bytes
      ensures var got := Slice(Contents(), bytes.Length, offset);
        count == |got| && bytes[..count] == got && bytes[count..] == old(bytes[count..])
      ensures Contents() == old(Contents())
    {
      if offset >= currLen {
        return 0;
      }
      count := Min(bytes.Length, currLen - offset);
      ghost var q := Contents();
      RemainderIsSlot(readPos + offset, buffer.Length);
      var pos := (readPos + offset) % buffer.Length;
      var i := 0;
      while i < count
        invariant 0 <= i <= count
        invariant pos < buffer.Length && pos == Slot(readPos + offset + i, buffer.Length)
        invariant bytes[..i] == q[offset..offset + i] && bytes[i..] == old(bytes[i..])
      {
        WindowAt(buffer[..], readPos, currLen, offset + i);
        bytes[i] := buffer[pos];
        RemainderIsSlot(pos + 1, buffer.Length);
        pos := (pos + 1) % buffer.Length;
        i := i + 1;
      }
    }

    method Discard(count: nat) returns (dropped: nat)
      requires Valid()
      modifies this`readPos, this`currLen
      ensures Valid() && dropped == Min(count, |old(Contents())|)
      ensures Contents() == Drop(old(Contents()), count)
    {
      dropped := Min(count, currLen);
      WindowDrop(buffer[..], readPos, currLen, dropped);
      RemainderIsSlot(readPos + dropped, buffer.Length);
      readPos := (readPos + dropped) % buffer.Length;
      currLen := currLen - dropped;
    }

    function Size(): nat
      reads this
    {
      currLen
    }

    function AvailableCapacity(): nat
      requires currLen <= buffer.Length
      reads this
    {
      buffer.Length - currLen
    }
  }
}
