/**
 General capability flags: their negotiation and the capability set parser
 (MS-RDPECLIP section 2.2.2.1).
 */
module Capabilities {
  import opened Wire
  import opened Stream
  import opened Pdu

  datatype Features = Features(long: bool, stream: bool, noPaths: bool, lock: bool, huge: bool)

  // CB_USE_LONG_FORMAT_NAMES 2, CB_STREAM_FILECLIP_ENABLED 4, CB_FILECLIP_NO_FILE_PATHS 8,
  // CB_CAN_LOCK_CLIPDATA 16, CB_HUGE_FILE_SUPPORT_ENABLED 32.
  function FeaturesOf(flags: u32): Features {
    Features(flags / 2 % 2 == 1, flags / 4 % 2 == 1, flags / 8 % 2 == 1, flags / 16 % 2 == 1, flags / 32 % 2 == 1)
  }

  function ClearLong(flags: u32): u32 { if FeaturesOf(flags).long then flags - 2 else flags }
  function ClearStream(flags: u32): u32 { if FeaturesOf(flags).stream then flags - 4 else flags }
  function ClearNoPaths(flags: u32): u32 { if FeaturesOf(flags).noPaths then flags - 8 else flags }
  function ClearLock(flags: u32): u32 { if FeaturesOf(flags).lock then flags - 16 else flags }
  function ClearHuge(flags: u32): u32 { if FeaturesOf(flags).huge then flags - 32 else flags }

  // The flags of the reply: what the state does not allow is taken off the offer.
  function Negotiate(allowed: Features, offered: u32): u32 {
    var f1 := if allowed.long then offered else ClearLong(offered);
    var f2 := if allowed.stream then f1 else ClearStream(f1);
    var f3 := if allowed.noPaths then f2 else ClearNoPaths(f2);
    var f4 := if allowed.lock then f3 else ClearLock(f3);
    if allowed.huge then f4 else ClearHuge(f4)
  }

  // The bits that stand for no feature: bit 0, and bits 6 and up.
  ghost predicate SameOtherBits(a: u32, b: u32) { a % 2 == b % 2 && a / 64 == b / 64 }

  lemma Half(x: int, d: int, y: int)
    requires 0 <= d < 2 && x == d + 2 * y
    ensures x / 2 == y && x % 2 == d
  {
  }

  lemma Halves(f: int)
    ensures f / 4 == f / 2 / 2 && f / 8 == f / 4 / 2 && f / 16 == f / 8 / 2
    ensures f / 32 == f / 16 / 2 && f / 64 == f / 32 / 2
  {
  }

  function Bit(b: bool): int { if b then 1 else 0 }

  // The number with these feature bits, low bit `d` and high part `h`.
  function Compose(d: int, fs: Features, h: int): int {
    d + 2 * (Bit(fs.long) + 2 * (Bit(fs.stream) + 2 * (Bit(fs.noPaths) + 2 * (Bit(fs.lock) + 2 * (Bit(fs.huge) + 2 * h)))))
  }

  lemma DigitsOfCompose(d: int, fs: Features, h: int)
    requires 0 <= d < 2 && 0 <= Compose(d, fs, h) < 0x1_0000_0000
    ensures var f := Compose(d, fs, h); FeaturesOf(f) == fs && f % 2 == d && f / 64 == h
  {
    var f := Compose(d, fs, h);
    var y5 := Bit(fs.huge) + 2 * h;
    var y4 := Bit(fs.lock) + 2 * y5;
    var y3 := Bit(fs.noPaths) + 2 * y4;
    var y2 := Bit(fs.stream) + 2 * y3;
    var y1 := Bit(fs.long) + 2 * y2;
    Half(f, d, y1);
    Half(y1, Bit(fs.long), y2);
    Half(y2, Bit(fs.stream), y3);
    Half(y3, Bit(fs.noPaths), y4);
    Half(y4, Bit(fs.lock), y5);
    Half(y5, Bit(fs.huge), h);
    Halves(f);
  }

  lemma Decompose(f: u32)
    ensures f == Compose(f % 2, FeaturesOf(f), f / 64)
  {
    Halves(f);
  }

  // Taking a set feature bit off a number.
  lemma SubtractBit(f: u32, fs: Features, w: int)
    requires f - w == Compose(f % 2, fs, f / 64) && f - w >= 0 && w >= 0
    ensures FeaturesOf(f - w) == fs && SameOtherBits(f - w, f)
  {
    DigitsOfCompose(f % 2, fs, f / 64);
  }

  lemma ClearLongIsLocal(f: u32)
    ensures FeaturesOf(ClearLong(f)) == FeaturesOf(f).(long := false) && SameOtherBits(ClearLong(f), f)
  {
    Decompose(f);
    SubtractBit(f, FeaturesOf(f).(long := false), f - ClearLong(f));
  }

  lemma ClearStreamIsLocal(f: u32)
    ensures FeaturesOf(ClearStream(f)) == FeaturesOf(f).(stream := false) && SameOtherBits(ClearStream(f), f)
  {
    Decompose(f);
    SubtractBit(f, FeaturesOf(f).(stream := false), f - ClearStream(f));
  }

  lemma ClearNoPathsIsLocal(f: u32)
    ensures FeaturesOf(ClearNoPaths(f)) == FeaturesOf(f).(noPaths := false) && SameOtherBits(ClearNoPaths(f), f)
  {
    Decompose(f);
    SubtractBit(f, FeaturesOf(f).(noPaths := false), f - ClearNoPaths(f));
  }

  lemma ClearLockIsLocal(f: u32)
    ensures FeaturesOf(ClearLock(f)) == FeaturesOf(f).(lock := false) && SameOtherBits(ClearLock(f), f)
  {
    Decompose(f);
    SubtractBit(f, FeaturesOf(f).(lock := false), f - ClearLock(f));
  }

  lemma ClearHugeIsLocal(f: u32)
    ensures FeaturesOf(ClearHuge(f)) == FeaturesOf(f).(huge := false) && SameOtherBits(ClearHuge(f), f)
  {
    Decompose(f);
    SubtractBit(f, FeaturesOf(f).(huge := false), f - ClearHuge(f));
  }

  function Both(a: Features, b: Features): Features {
    Features(a.long && b.long, a.stream && b.stream, a.noPaths && b.noPaths, a.lock && b.lock, a.huge && b.huge)
  }

  /** Each negotiated feature is the conjunction of what was allowed and what was offered, and
      no other bit of the offer is touched. */
  lemma NegotiateIsConjunction(allowed: Features, offered: u32)
    ensures FeaturesOf(Negotiate(allowed, offered)) == Both(allowed, FeaturesOf(offered))
    ensures SameOtherBits(Negotiate(allowed, offered), offered)
  {
    hide FeaturesOf, ClearLong, ClearStream, ClearNoPaths, ClearLock, ClearHuge;
    var f1 := if allowed.long then offered else ClearLong(offered);
    var f2 := if allowed.stream then f1 else ClearStream(f1);
    var f3 := if allowed.noPaths then f2 else ClearNoPaths(f2);
    var f4 := if allowed.lock then f3 else ClearLock(f3);
    ClearLongIsLocal(offered);
    ClearStreamIsLocal(f1);
    ClearNoPathsIsLocal(f2);
    ClearLockIsLocal(f3);
    ClearHugeIsLocal(f4);
  }

  /** A flag word is determined by its features and its other bits. */
  lemma SameBitsSameFlags(a: u32, b: u32)
    requires FeaturesOf(a) == FeaturesOf(b) && SameOtherBits(a, b)
    ensures a == b
  {
    hide FeaturesOf;
    Decompose(a);
    Decompose(b);
  }

  // ---- the capability packet -----------------------------------------------------

  const CB_CAPSTYPE_GENERAL: u16 := 1
  const CB_CAPSTYPE_GENERAL_LEN: u16 := 12

  // One general set: type, length, version, flags.
  function EncodeCaps(version: u32, flags: u32): (b: bytes)
    ensures |b| == 16
  {
    Le16(1) + (Le16(0) + (Le16(CB_CAPSTYPE_GENERAL) + (Le16(CB_CAPSTYPE_GENERAL_LEN) + (Le32(version) + Le32(flags)))))
  }

  // The flag word of the set at the front.  A set is always read as 12 bytes, whatever length
  // of 4 or more it announces.
  function ParseSet(b: bytes): (r: Result<u32>)
    ensures r.Ok? ==> |b| >= 12
  {
    if |b| < 4 then Err(InvalidData)
    else if Get16(b[2..]) < 4 || |b| < Get16(b[2..]) then Err(InvalidData)
    else if Get16(b) != CB_CAPSTYPE_GENERAL then Err(BadProc)
    else if |b| < 12 then Err(InvalidData)
    else Ok(Get32(b[8..]))
  }

  // The flag words taken, in order, until the count or an error ends the loop.
  function ParseSets(b: bytes, count: nat): (seq<u32>, Status)
    decreases count
  {
    if count == 0 then ([], RcOk)
    else
      match ParseSet(b)
      case Err(status) => ([], status)
      case Ok(flags) =>
        var (more, status) := ParseSets(b[12..], count - 1);
        ([flags] + more, status)
  }

  function ParseCaps(b: bytes): (seq<u32>, Status) {
    if |b| < 4 then ([], InvalidData) else ParseSets(b[4..], Get16(b))
  }

  /** A reply reads back, through the receiver's own parser, as the one flag word it carries. */
  lemma CapsRoundTrip(version: u32, flags: u32)
    ensures ParseCaps(EncodeCaps(version, flags)) == ([flags], RcOk)
    ensures EncodeCaps(version, flags)[..8] == [1, 0, 0, 0, 1, 0, 12, 0]
    ensures EncodeCaps(version, flags)[8..12] == Le32(version) && EncodeCaps(version, flags)[12..] == Le32(flags)
  {
    var t4 := Le32(version) + Le32(flags);
    var t3 := Le16(CB_CAPSTYPE_GENERAL_LEN) + t4;
    var t2 := Le16(CB_CAPSTYPE_GENERAL) + t3;
    var t1 := Le16(0) + t2;
    var b := EncodeCaps(version, flags);
    assert b == Le16(1) + t1;
    Get16OfLe16(1, t1);
    Get16OfLe16(CB_CAPSTYPE_GENERAL, t3);
    Get16OfLe16(CB_CAPSTYPE_GENERAL_LEN, t4);
    Get32OfLe32(flags, []);
    var body := b[4..];
    assert b[8..] == t4;
    assert body == t2 && body[2..] == t3 && body[8..] == Le32(flags) + [] && body[12..] == [];
    assert ParseSets(body[12..], 0) == ([], RcOk);
    assert ParseSet(body) == Ok(flags);
    assert ParseSets(body, 1) == ([flags] + [], RcOk);
    assert [flags] + [] == [flags];
  }

  method ReadSet(s: WStream) returns (r: Result<u32>)
    requires s.Valid()
    modifies s`pos
    ensures s.Valid() && r == ParseSet(old(s.Rest()))
    ensures r.Ok? ==> s.Rest() == old(s.Rest())[12..]
  {
    ghost var b := s.Rest();
    if s.Remaining() < 4 {
      return Err(InvalidData);
    }
    var setType := s.ReadU16();
    var length := s.ReadU16();
    if length < 4 || s.Remaining() < length - 4 {
      return Err(InvalidData);
    }
    if setType != CB_CAPSTYPE_GENERAL {
      return Err(BadProc);
    }
    if s.Remaining() < 8 {
      return Err(InvalidData);
    }
    assert s.Rest() == b[4..];
    var version := s.ReadU32();
    assert s.Rest() == b[8..];
    var flags := s.ReadU32();
    r := Ok(flags);
  }
}
