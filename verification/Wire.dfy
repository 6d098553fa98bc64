/**
 Fixed-width integers, little-endian byte images and single-bit tests.

 The machine integers of the program are subset types of `int`, so every place
 where a width matters is visible as a bound, a `%` or an `if`.
 */
module Wire {
  type byte = x: int | 0 <= x < 0x100
  type u16 = x: int | 0 <= x < 0x1_0000
  type u32 = x: int | 0 <= x < 0x1_0000_0000
  type u64 = x: int | 0 <= x < 0x1_0000_0000_0000_0000

  type bytes = seq<byte>

  // A string, as its UTF-16 code units.
  type QString = seq<u16>

  datatype Option<+T> = None | Some(value: T)

  function Min(a: int, b: int): int { if a <= b then a else b }

  function Max(a: int, b: int): int { if a <= b then b else a }

  function Le16(x: u16): (b: bytes)
    ensures |b| == 2
  {
    [x % 256, x / 256]
  }

  function Le32(x: u32): (b: bytes)
    ensures |b| == 4
  {
    [x % 256, x / 0x100 % 256, x / 0x1_0000 % 256, x / 0x100_0000]
  }

  function Le64(x: u64): (b: bytes)
    ensures |b| == 8
  {
    Le32(Low32(x)) + Le32(High32(x))
  }

  function Get16(b: bytes): u16
    requires |b| >= 2
  {
    b[0] as int + 0x100 * b[1] as int
  }

  function Get32(b: bytes): u32
    requires |b| >= 4
  {
    b[0] as int + 0x100 * b[1] as int + 0x1_0000 * b[2] as int + 0x100_0000 * b[3] as int
  }

  function Get64(b: bytes): u64
    requires |b| >= 8
  {
    Join64(Get32(b), Get32(b[4..]))
  }

  // A 64-bit position travels as two 32-bit fields.
  function Low32(x: u64): u32 { x % 0x1_0000_0000 }

  function High32(x: u64): u32 { x / 0x1_0000_0000 }

  function Join64(low: u32, high: u32): u64 { high * 0x1_0000_0000 + low }

  lemma Get16OfLe16(x: u16, rest: bytes)
    ensures Get16(Le16(x) + rest) == x
    ensures (Le16(x) + rest)[2..] == rest
  {
  }

  lemma Get32OfLe32(x: u32, rest: bytes)
    ensures Get32(Le32(x) + rest) == x
    ensures (Le32(x) + rest)[4..] == rest
  {
    var b := Le32(x);
    assert Get32(b) == x;
    assert (b + rest)[..4] == b;
    assert Get32(b + rest) == Get32(b);
  }

  lemma Get64OfLe64(x: u64, rest: bytes)
    ensures Get64(Le64(x) + rest) == x
    ensures (Le64(x) + rest)[8..] == rest
  {
    var lo, hi := Le32(Low32(x)), Le32(High32(x));
    assert Le64(x) + rest == lo + (hi + rest);
    Get32OfLe32(Low32(x), hi + rest);
    Get32OfLe32(High32(x), rest);
  }

  /** Splitting a 64-bit offset and joining the halves loses nothing, in both directions. */
  lemma SplitJoin64(x: u64, low: u32, high: u32)
    ensures Join64(Low32(x), High32(x)) == x
    ensures Low32(Join64(low, high)) == low && High32(Join64(low, high)) == high
  {
  }

  function Concat<T>(parts: seq<seq<T>>): seq<T> {
    if parts == [] then [] else parts[0] + Concat(parts[1..])
  }

  lemma {:induction false} ConcatAppend<T>(a: seq<seq<T>>, b: seq<seq<T>>)
    ensures Concat(a + b) == Concat(a) + Concat(b)
  {
    if a == [] {
      assert a + b == b;
    } else {
      assert (a + b)[1..] == a[1..] + b;
      ConcatAppend(a[1..], b);
    }
  }
}
