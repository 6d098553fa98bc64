/**
 The cursor-based byte stream every reader and writer of the channel works on.

 The stream library itself is not part of the program; this class gives it the
 behaviour the callers rely on.  A write demands room at the cursor, so the
 verifier checks at every call site that no writer runs past the capacity.
 */
module Stream {
  import opened Wire

  class WStream {
    var buffer: array<byte>
    var pos: nat
    var length: nat

    ghost predicate Valid()
      reads this
    {
      pos <= length <= buffer.Length
    }

    // What has been written so far.
    ghost function Written(): bytes
      requires Valid()
      reads this, buffer
    {
      buffer[..pos]
    }

    // What is left to read.
    ghost function Rest(): bytes
      requires Valid()
      reads this, buffer
    {
      buffer[pos..length]
    }

    function Remaining(): nat
      requires Valid()
      reads this
    {
      length - pos
    }

    constructor (size: nat)
      ensures Valid() && fresh(buffer)
      ensures pos == 0 && length == buffer.Length == size
    {
      buffer := new byte[size](_ => 0);
      pos, length := 0, size;
    }

    // A stream for reading `data`.
    constructor Over(data: bytes)
      ensures Valid() && fresh(buffer)
      ensures pos == 0 && length == buffer.Length == |data|
      ensures buffer[..] == data && Rest() == data
    {
      buffer := new byte[|data|](i requires 0 <= i < |data| => data[i]);
      pos, length := 0, |data|;
    }

    // A capacity that is too small becomes the `granted` one; the length follows it.
    method EnsureCapacity(size: nat, granted: nat)
      requires Valid() && granted >= size
      modifies this`buffer, this`length
      ensures Valid() && (buffer == old(buffer) || fresh(buffer))
      ensures buffer.Length == if old(buffer.Length) < size then granted else old(buffer.Length)
      ensures old(length == buffer.Length) ==> length == buffer.Length
      ensures Written() == old(Written())
    {
      if buffer.Length < size {
        var source, p := buffer, pos;
        var grown := new byte[granted](_ => 0);
        for i := 0 to p
          invariant source[..] == old(buffer[..])
          invariant forall k :: 0 <= k < i ==> grown[k] == source[k]
        {
          grown[i] := source[i];
        }
        buffer, length := grown, granted;
      }
    }

    // Growing may over-allocate by any amount.
    method EnsureRemainingCapacity(n: nat)
      requires Valid()
      modifies this`buffer, this`length
      ensures Valid() && (buffer == old(buffer) || fresh(buffer))
      ensures buffer.Length >= pos + n
      ensures old(length == buffer.Length) ==> length == buffer.Length
      ensures Written() == old(Written())
    {
      var slack :| 0 <= slack;
      EnsureCapacity(pos + n, pos + n + slack);
    }

    method Write(data: bytes)
      requires Valid() && length == buffer.Length
      requires pos + |data| <= buffer.Length
      modifies this`pos, buffer
      ensures Valid() && pos == old(pos) + |data|
      ensures Written() == old(Written()) + data
    {
      var p, out := pos, buffer;
      for i := 0 to |data|
        invariant out[..p] == old(out[..p])
        invariant out[p..p + i] == data[..i]
      {
        out[p + i] := data[i];
      }
      assert out[..p + |data|] == out[..p] + out[p..p + |data|];
      pos := p + |data|;
    }

    method ReadU16() returns (x: u16)
      requires Valid() && Remaining() >= 2
      modifies this`pos
      ensures Valid() && x == Get16(old(Rest())) && Rest() == old(Rest())[2..]
    {
      x := Get16(buffer[pos..pos + 2]);
      pos := pos + 2;
    }

    method ReadU32() returns (x: u32)
      requires Valid() && Remaining() >= 4
      modifies this`pos
      ensures Valid() && x == Get32(old(Rest())) && Rest() == old(Rest())[4..]
    {
      x := Get32(buffer[pos..pos + 4]);
      pos := pos + 4;
    }

    // The next `n` bytes, without moving.
    method Peek(n: nat) returns (data: bytes)
      requires Valid() && n <= Remaining()
      ensures data == Rest()[..n]
    {
      data := buffer[pos..pos + n];
    }

    method SafeSeek(n: nat) returns (ok: bool)
      requires Valid()
      modifies this`pos
      ensures Valid() && ok == (n <= old(Remaining()))
      ensures Rest() == if ok then old(Rest())[n..] else old(Rest())
    {
      ok := n <= length - pos;
      if ok {
        pos := pos + n;
      }
    }

    // Overwrites four bytes already written and puts the cursor back.
    method PatchU32(at: nat, x: u32)
      requires Valid() && at + 4 <= pos
      modifies buffer
      ensures Written() == old(Written())[..at] + Le32(x) + old(Written())[at + 4..]
    {
      var b := Le32(x);
      buffer[at], buffer[at + 1], buffer[at + 2], buffer[at + 3] := b[0], b[1], b[2], b[3];
    }
  }
}
