/**
 The format list body (MS-RDPECLIP section 2.2.3.1): 36-byte records with short
 names, or records with long names that run to a NUL.

 Names are sequences of UTF-16 code units.  Character conversion is a library
 matter; on names whose every byte is one code unit it is the identity.
 */
module FormatList {
  import opened Wire
  import opened Stream
  import opened Pdu

  type Name = seq<u16>

  datatype Format = Format(id: u32, name: Option<Name>)

  function Text(f: Format): Name { if f.name.Some? then f.name.value else [] }

  // A C string of plain bytes: none is NUL, each is one code unit.
  ghost predicate OneUnit(name: Name) { forall i | 0 <= i < |name| :: 0 < name[i] < 0x80 }

  ghost predicate Plain(fs: seq<Format>) { forall i | 0 <= i < |fs| :: OneUnit(Text(fs[i])) }

  // ---- code units as bytes ---------------------------------------------------

  function Zeros(n: nat): bytes { seq(n, _ => 0) }

  function Image8(u: Name): (b: bytes)
    ensures |b| == |u|
  {
    seq(|u|, i requires 0 <= i < |u| => u[i] % 256)
  }

  function Image16(u: Name): (b: bytes)
    ensures |b| == 2 * |u|
  {
    seq(2 * |u|, i requires 0 <= i < 2 * |u| => if i % 2 == 0 then u[i / 2] % 256 else u[i / 2] / 256)
  }

  function Units8(b: bytes): (u: Name)
    ensures |u| == |b|
  {
    seq(|b|, i requires 0 <= i < |b| => b[i])
  }

  function Units16(b: bytes): (u: Name)
    ensures |u| == |b| / 2
  {
    seq(|b| / 2, i requires 0 <= i < |b| / 2 => Get16(b[2 * i..2 * i + 2]))
  }

  // The bounded string length: the index of the first NUL, or the bound.
  function NulAt(u: Name): (n: nat)
    ensures n <= |u|
    ensures forall i | 0 <= i < n :: u[i] != 0
    ensures n < |u| ==> u[n] == 0
  {
    if u == [] || u[0] == 0 then 0 else 1 + NulAt(u[1..])
  }

  function UntilNul(u: Name): Name { u[..NulAt(u)] }

  // Null and empty names are not told apart on the wire.
  function Named(u: Name): Option<Name> { if u == [] then None else Some(u) }

  lemma NulAtIs(u: Name, n: nat)
    requires n <= |u| && (forall i | 0 <= i < n :: u[i] != 0) && (n < |u| ==> u[n] == 0)
    ensures NulAt(u) == n
  {
  }

  lemma Units16OfImage(u: Name, rest: bytes)
    ensures |Units16(Image16(u) + rest)| >= |u|
    ensures Units16(Image16(u) + rest)[..|u|] == u
  {
    var b := Image16(u) + rest;
    forall i | 0 <= i < |u|
      ensures Units16(b)[i] == u[i]
    {
      assert b[2 * i] == u[i] % 256 && b[2 * i + 1] == u[i] / 256;
    }
  }

  // ---- writing ---------------------------------------------------------------

  // The unit the writer reckons with.  Long names count as wide even when they are written as
  // ASCII, a combination the writer warns about and has no caller for.
  function UnitSize(long: bool, ascii: bool): nat { if long || !ascii then 2 else 1 }

  // The width of the name field, in units, and the part of the name that goes in.
  function Width(name: Name, long: bool, ascii: bool): nat {
    if long then |name| + 1 else if ascii then 32 else 16
  }

  function Kept(name: Name, long: bool, ascii: bool): Name {
    if long then name else name[..Min(Width(name, long, ascii) - 1, |name|)]
  }

  function EncodeName(name: Name, long: bool, ascii: bool): (b: bytes)
    ensures !(long && ascii) ==> |b| == UnitSize(long, ascii) * Width(name, long, ascii)
    ensures |b| <= Max(32, (|name| + 1) * UnitSize(long, ascii))
  {
    var kept, width := Kept(name, long, ascii), Width(name, long, ascii);
    if kept == [] then Zeros(width * UnitSize(long, ascii))
    else if ascii then Image8(kept) + Zeros(width - |kept|)
    else Image16(kept) + Zeros(2 * (width - |kept|))
  }

  function EncodeRecord(f: Format, long: bool, ascii: bool): bytes
  {
    Le32(f.id) + EncodeName(Text(f), long, ascii)
  }

  function EncodeList(fs: seq<Format>, long: bool, ascii: bool): bytes
  {
    if fs == [] then [] else EncodeRecord(fs[0], long, ascii) + EncodeList(fs[1..], long, ascii)
  }

  lemma {:induction false} EncodeListAppend(fs: seq<Format>, f: Format, long: bool, ascii: bool)
    ensures EncodeList(fs + [f], long, ascii) == EncodeList(fs, long, ascii) + EncodeRecord(f, long, ascii)
  {
    if fs == [] {
      assert EncodeList([f][1..], long, ascii) == [];
    } else {
      assert (fs + [f])[1..] == fs[1..] + [f];
      EncodeListAppend(fs[1..], f, long, ascii);
    }
  }

  lemma OneMoreRecord(head: bytes, fs: seq<Format>, i: nat, long: bool, ascii: bool)
    requires i < |fs|
    ensures head + EncodeList(fs[..i], long, ascii) + EncodeRecord(fs[i], long, ascii) ==
      head + EncodeList(fs[..i + 1], long, ascii)
  {
    assert fs[..i + 1] == fs[..i] + [fs[i]];
    EncodeListAppend(fs[..i], fs[i], long, ascii);
  }

  method WriteName(s: WStream, name: Name, long: bool, ascii: bool)
    requires s.Valid() && s.length == s.buffer.Length
    requires s.pos + Max(32, (|name| + 1) * UnitSize(long, ascii)) <= s.buffer.Length
    modifies s`pos, s.buffer
    ensures s.Valid()
    ensures s.Written() == old(s.Written()) + EncodeName(name, long, ascii)
  {
    ghost var w := s.Written();
    var width, kept := |name| + 1, |name|;
    if !long {
      width := if ascii then 32 else 16;
      kept := Min(width - 1, kept);
    }
    assert name[..kept] == Kept(name, long, ascii);
    if kept > 0 {
      if ascii {
        s.Write(Image8(name[..kept]));
        s.Write(Zeros(width - kept));
        assert s.Written() == w + (Image8(name[..kept]) + Zeros(width - kept));
      } else {
        s.Write(Image16(name[..kept]));
        s.Write(Zeros(2 * (width - kept)));
        assert s.Written() == w + (Image16(name[..kept]) + Zeros(2 * (width - kept)));
      }
    } else {
      s.Write(Zeros(width * UnitSize(long, ascii)));
    }
  }

  // Every write of the record stays inside the room ensured before its first byte.
  method WriteRecord(s: WStream, f: Format, long: bool, ascii: bool)
    requires s.Valid() && s.length == s.buffer.Length
    modifies s, s.buffer
    ensures s.Valid() && s.length == s.buffer.Length
    ensures s.buffer == old(s.buffer) || fresh(s.buffer)
    ensures s.Written() == old(s.Written()) + EncodeRecord(f, long, ascii)
  {
    ghost var w := s.Written();
    s.EnsureRemainingCapacity(4 + Max(32, (|Text(f)| + 1) * UnitSize(long, ascii)));
    s.Write(Le32(f.id));
    WriteName(s, Text(f), long, ascii);
    assert s.Written() == w + (Le32(f.id) + EncodeName(Text(f), long, ascii));
  }

  // The first capacity is a 32-bit product, always even.
  lemma FirstCapacity(n: nat)
    ensures n * 36 % 0x1_0000_0000 < UINT32_MAX
  {
    var r := n * 36 % 0x1_0000_0000;
    assert n * 36 == n * 36 / 0x1_0000_0000 * 0x1_0000_0000 + r;
    assert r == 2 * (n * 18 - n * 36 / 0x1_0000_0000 * 0x8000_0000);
  }

  method FormatListPacketNew(fs: seq<Format>, long: bool, ascii: bool) returns (s: WStream)
    ensures fresh(s) && fresh(s.buffer) && s.Valid()
    ensures s.Written() == Header(CB_FORMAT_LIST, 0, 0) + EncodeList(fs, long, ascii)
  {
    FirstCapacity(|fs|);
    s := PacketNew(CB_FORMAT_LIST, 0, |fs| * 36 % 0x1_0000_0000);
    ghost var head := s.Written();
    for index := 0 to |fs|
      invariant s.Valid() && fresh(s) && fresh(s.buffer) && s.length == s.buffer.Length
      invariant s.Written() == head + EncodeList(fs[..index], long, ascii)
    {
      WriteRecord(s, fs[index], long, ascii);
      OneMoreRecord(head, fs, index, long, ascii);
    }
    assert fs[..|fs|] == fs;
  }

  // ---- reading short names -----------------------------------------------------

  function ShortRecord(b: bytes, ascii: bool): Format
    requires |b| >= 36
  {
    Format(Get32(b), Named(UntilNul(if ascii then Units8(b[4..35]) else Units16(b[4..36]))))
  }

  function ShortRecords(b: bytes, ascii: bool): (fs: seq<Format>)
    ensures |fs| == |b| / 36
  {
    if |b| < 36 then [] else [ShortRecord(b, ascii)] + ShortRecords(b[36..], ascii)
  }

  // An empty payload never gets here; one without a whole record allocates nothing.
  function DecodeShort(b: bytes, ascii: bool): Result<seq<Format>> {
    if |b| < 36 then Err(NoMemory)
    else if |b| % 36 >= 4 then Err(InternalError)
    else Ok(ShortRecords(b, ascii))
  }

  lemma {:induction false} ShortRecordsAre(b: bytes, ascii: bool, fs: seq<Format>)
    requires |fs| == |b| / 36
    requires forall k | 0 <= k < |fs| :: fs[k] == ShortRecord(b[36 * k..], ascii)
    ensures fs == ShortRecords(b, ascii)
  {
    if fs != [] {
      forall k | 0 <= k < |fs| - 1
        ensures fs[1..][k] == ShortRecord(b[36..][36 * k..], ascii)
      {
        assert b[36..][36 * k..] == b[36 * (k + 1)..];
      }
      ShortRecordsAre(b[36..], ascii, fs[1..]);
      assert b[36 * 0..] == b;
    }
  }

  // Reads the record under the cursor.
  method ReadShortRecord(sub: WStream, ascii: bool) returns (f: Format)
    requires sub.Valid() && sub.Remaining() >= 36
    modifies sub`pos
    ensures sub.Valid() && f == ShortRecord(old(sub.Rest()), ascii)
    ensures sub.Rest() == old(sub.Rest())[36..]
  {
    ghost var b := sub.Rest();
    var id := sub.ReadU32();
    var field := sub.Peek(32);
    assert field == b[4..36] && field[..31] == b[4..35];
    var ok := sub.SafeSeek(32);
    assert sub.Rest() == b[36..];
    f := Format(id, Named(UntilNul(if ascii then Units8(field[..31]) else Units16(field))));
  }

  method ReadShortList(sub: WStream, ascii: bool) returns (r: Result<seq<Format>>)
    requires sub.Valid() && sub.pos == 0 && sub.length == sub.buffer.Length
    modifies sub`pos
    ensures r == DecodeShort(old(sub.Rest()), ascii)
  {
    hide ShortRecord;
    ghost var payload := sub.Rest();
    var numFormats := sub.buffer.Length / 36;
    if numFormats == 0 {
      return Err(NoMemory);
    }
    var formats := new Format[numFormats](_ => Format(0, None));
    var index := 0;
    while sub.Remaining() >= 4
      invariant sub.Valid() && 0 <= index <= numFormats
      invariant 36 * index <= |payload| && sub.Rest() == payload[36 * index..]
      invariant forall k | 0 <= k < index :: formats[k] == ShortRecord(payload[36 * k..], ascii)
      decreases sub.Remaining()
    {
      if index >= numFormats {
        return Err(InternalError);
      }
      var f := ReadShortRecord(sub, ascii);
      formats[index] := f;
      index := index + 1;
    }
    r := Ok(formats[..]);
    ShortRecordsAre(payload, ascii, formats[..]);
  }

  // ---- reading long names ------------------------------------------------------

  function LongNameLength(b: bytes): nat
    requires |b| >= 4
  {
    NulAt(Units16(b[4..]))
  }

  // The bytes a long record takes: the id, the name and its terminator.
  function LongRecordSize(b: bytes): (size: nat)
    requires |b| >= 4
    ensures size >= 6
  {
    4 + 2 * (LongNameLength(b) + 1)
  }

  function LongRecord(b: bytes): Format
    requires |b| >= 4
  {
    Format(Get32(b), Named(UntilNul(Units16(b[4..]))))
  }

  // First pass: how many records, if the payload is a whole number of them.
  function CountLong(b: bytes): Option<nat> {
    if b == [] then Some(0)
    else if |b| < 4 || LongRecordSize(b) > |b| then None
    else
      match CountLong(b[LongRecordSize(b)..])
      case None => None
      case Some(n) => Some(n + 1)
  }

  // Second pass: fills an array with `room` places; stops short of 4 bytes without complaint.
  function FillLong(b: bytes, room: nat): Option<seq<Format>> {
    if |b| < 4 then Some([])
    else if room == 0 || LongRecordSize(b) > |b| then None
    else
      match FillLong(b[LongRecordSize(b)..], room - 1)
      case None => None
      case Some(fs) => Some([LongRecord(b)] + fs)
  }

  /** After a successful count, the filling pass succeeds with exactly that many records
      and would have tripped over its index guard with any smaller array. */
  lemma {:induction false} TwoPassAgreement(b: bytes, room: nat)
    requires CountLong(b).Some?
    ensures FillLong(b, room).Some? <==> CountLong(b).value <= room
    ensures FillLong(b, room).Some? ==> |FillLong(b, room).value| == CountLong(b).value
  {
    if b != [] && room > 0 {
      TwoPassAgreement(b[LongRecordSize(b)..], room - 1);
    }
  }

  function DecodeLong(b: bytes): Result<seq<Format>> {
    match CountLong(b)
    case None => Err(InternalError)
    case Some(n) =>
      match FillLong(b, n)
      case None => Err(InternalError)
      case Some(fs) => Ok(fs)
  }

  // One step of either pass: the length of the name under the cursor, and the seek over it.
  method SkipLongName(sub: WStream) returns (ok: bool, name: Name)
    requires sub.Valid()
    modifies sub`pos
    ensures sub.Valid() && name == UntilNul(Units16(old(sub.Rest())))
    ensures ok == (2 * (|name| + 1) <= old(sub.Remaining()))
    ensures ok ==> sub.Rest() == old(sub.Rest())[2 * (|name| + 1)..]
  {
    var all := sub.Peek(sub.Remaining());
    assert all == sub.Rest();
    name := UntilNul(Units16(all));
    ok := sub.SafeSeek((|name| + 1) * 2);
  }

  method ReadLongRecord(sub: WStream) returns (ok: bool, f: Format)
    requires sub.Valid() && sub.Remaining() >= 4
    modifies sub`pos
    ensures sub.Valid() && ok == (LongRecordSize(old(sub.Rest())) <= old(sub.Remaining()))
    ensures ok ==> f == LongRecord(old(sub.Rest()))
    ensures ok ==> sub.Rest() == old(sub.Rest())[LongRecordSize(old(sub.Rest()))..]
  {
    ghost var b := sub.Rest();
    var id := sub.ReadU32();
    var name;
    assert sub.Rest() == b[4..];
    ok, name := SkipLongName(sub);
    assert |name| == LongNameLength(b);
    f := Format(id, Named(name));
    if ok {
      assert sub.Rest() == b[LongRecordSize(b)..];
    }
  }

  method CountPass(sub: WStream) returns (count: Option<nat>)
    requires sub.Valid()
    modifies sub`pos
    ensures count == CountLong(old(sub.Rest()))
  {
    hide LongRecordSize;
    var n := 0;
    while sub.Remaining() > 0
      invariant sub.Valid()
      invariant Counted(CountLong(old(sub.Rest())), n, CountLong(sub.Rest()))
      decreases sub.Remaining()
    {
      ghost var b := sub.Rest();
      if sub.Remaining() < 4 {
        return None;
      }
      var ok, f := ReadLongRecord(sub);
      if !ok {
        return None;
      }
      n := n + 1;
      assert sub.Rest() == b[LongRecordSize(b)..];
    }
    count := Some(n);
  }

  ghost predicate Counted(whole: Option<nat>, done: nat, left: Option<nat>) {
    whole == if left.None? then None else Some(done + left.value)
  }

  ghost predicate Prefixed(whole: Option<seq<Format>>, done: seq<Format>, left: Option<seq<Format>>) {
    match left
    case None => whole == None
    case Some(fs) => whole == Some(done + fs)
  }

  lemma FillStep(all: Option<seq<Format>>, done: seq<Format>, b: bytes, room: nat)
    requires |b| >= 4 && room > 0 && Prefixed(all, done, FillLong(b, room))
    ensures LongRecordSize(b) > |b| ==> all == None
    ensures LongRecordSize(b) <= |b| ==>
      Prefixed(all, done + [LongRecord(b)], FillLong(b[LongRecordSize(b)..], room - 1))
  {
    if LongRecordSize(b) <= |b| {
      var left := FillLong(b[LongRecordSize(b)..], room - 1);
      if left.Some? {
        assert done + ([LongRecord(b)] + left.value) == (done + [LongRecord(b)]) + left.value;
      }
    }
  }

  method FillPass(sub: WStream, numFormats: nat) returns (filled: Option<seq<Format>>)
    requires sub.Valid()
    modifies sub`pos
    ensures filled == FillLong(old(sub.Rest()), numFormats)
  {
    hide LongRecordSize, LongRecord;
    var formats: seq<Format> := [];
    ghost var all, room := FillLong(sub.Rest(), numFormats), numFormats;
    assert all.Some? ==> [] + all.value == all.value;
    while sub.Remaining() >= 4
      invariant sub.Valid() && |formats| + room == numFormats
      invariant Prefixed(all, formats, FillLong(sub.Rest(), room))
      decreases sub.Remaining()
    {
      if |formats| >= numFormats {
        return None;
      }
      ghost var b := sub.Rest();
      FillStep(all, formats, b, room);
      var ok, f := ReadLongRecord(sub);
      if !ok {
        return None;
      }
      room := room - 1;
      formats := formats + [f];
      assert Prefixed(all, formats, FillLong(b[LongRecordSize(b)..], room));
    }
    filled := Some(formats);
    assert formats + [] == formats;
  }

  method ReadLongList(payload: bytes) returns (r: Result<seq<Format>>)
    ensures r == DecodeLong(payload)
  {
    var sub1 := new WStream.Over(payload);
    var sub2 := new WStream.Over(payload);
    var count := CountPass(sub1);
    if count == None {
      return Err(InternalError);
    }
    var filled := FillPass(sub2, count.value);
    r := match filled case None => Err(InternalError) case Some(fs) => Ok(fs);
  }

  // ---- the whole body ------------------------------------------------------------

  function DecodeList(b: bytes, long: bool, ascii: bool): Result<seq<Format>> {
    if b == [] then Ok([]) else if long then DecodeLong(b) else DecodeShort(b, ascii)
  }

  method ReadFormatList(s: WStream, ascii: bool, dataLen: u32, long: bool) returns (r: Result<seq<Format>>)
    requires s.Valid()
    modifies s`pos
    ensures s.Valid()
    ensures r == if dataLen > old(s.Remaining()) then Err(InvalidData)
                 else DecodeList(old(s.Rest())[..dataLen], long, ascii)
    ensures dataLen <= old(s.Remaining()) ==> s.Rest() == old(s.Rest())[dataLen..]
  {
    if dataLen > s.Remaining() {
      return Err(InvalidData);
    }
    var payload := s.Peek(dataLen);
    var ok := s.SafeSeek(dataLen);
    if dataLen == 0 {
      r := Ok([]);
    } else if long {
      r := ReadLongList(payload);
    } else {
      var sub := new WStream.Over(payload);
      r := ReadShortList(sub, ascii);
    }
  }

  /** The short reader accepts exactly the empty payload and those holding at least one whole
      record and fewer than four stray bytes; it decodes one format per whole record. */
  lemma ShortAccepts(b: bytes, ascii: bool)
    ensures DecodeList(b, false, ascii).Ok? <==> b == [] || (|b| >= 36 && |b| % 36 < 4)
    ensures DecodeList(b, false, ascii).Ok? ==> |DecodeList(b, false, ascii).value| == |b| / 36
  {
  }

  /** The long reader accepts exactly the payloads its counting pass consumes to the last byte. */
  lemma LongAccepts(b: bytes)
    ensures DecodeList(b, true, false).Ok? <==> CountLong(b).Some?
    ensures DecodeList(b, true, false).Ok? ==> |DecodeList(b, true, false).value| == CountLong(b).value
  {
    if CountLong(b).Some? {
      TwoPassAgreement(b, CountLong(b).value);
    }
  }

  // ---- round trips -----------------------------------------------------------------

  // What is left of a format after one trip over the wire.
  function Carried(f: Format, long: bool, ascii: bool): Format {
    Format(f.id, Named(Kept(Text(f), long, ascii)))
  }

  function CarriedAll(fs: seq<Format>, long: bool, ascii: bool): seq<Format> {
    seq(|fs|, i requires 0 <= i < |fs| => Carried(fs[i], long, ascii))
  }

  // A UTF-16 name field, and whatever follows it, reads back up to its first NUL.
  lemma NameField16(name: Name, pad: nat, rest: bytes)
    requires OneUnit(name) && pad > 0
    ensures UntilNul(Units16(Image16(name) + Zeros(2 * pad) + rest)) == name
  {
    var b := Image16(name) + Zeros(2 * pad) + rest;
    var tail := Zeros(2 * pad) + rest;
    assert b == Image16(name) + tail;
    Units16OfImage(name, tail);
    var u := Units16(b);
    assert b[2 * |name|] == 0 && b[2 * |name| + 1] == 0;
    assert u[|name|] == 0;
    forall i | 0 <= i < |name|
      ensures u[i] != 0
    {
      assert u[i] == u[..|name|][i];
    }
    NulAtIs(u, |name|);
  }

  lemma LongRecordRoundTrip(f: Format, rest: bytes)
    requires OneUnit(Text(f))
    ensures var b := EncodeRecord(f, true, false) + rest;
      |b| >= 4 && LongRecord(b) == Carried(f, true, false) &&
      LongRecordSize(b) == |EncodeRecord(f, true, false)| && b[LongRecordSize(b)..] == rest
  {
    var name := Text(f);
    var b := EncodeRecord(f, true, false) + rest;
    var field := Image16(name) + Zeros(2) + rest;
    assert b == Le32(f.id) + field;
    Get32OfLe32(f.id, field);
    NameField16(name, 1, rest);
    assert |UntilNul(Units16(b[4..]))| == |name|;
  }

  lemma {:induction false} LongFill(fs: seq<Format>)
    requires Plain(fs)
    ensures CountLong(EncodeList(fs, true, false)) == Some(|fs|)
    ensures FillLong(EncodeList(fs, true, false), |fs|) == Some(CarriedAll(fs, true, false))
  {
    hide LongRecord, LongNameLength, EncodeRecord, Carried;
    if fs != [] {
      LongFill(fs[1..]);
      LongRecordRoundTrip(fs[0], EncodeList(fs[1..], true, false));
      assert CarriedAll(fs, true, false) == [Carried(fs[0], true, false)] + CarriedAll(fs[1..], true, false);
    }
  }

  lemma CarriedLong(f: Format)
    ensures Carried(f, true, false) == Format(f.id, if Text(f) == [] then None else f.name)
  {
  }

  /** Long names survive a trip unchanged, but that empty comes back as null. */
  lemma LongRoundTrip(fs: seq<Format>)
    requires Plain(fs)
    ensures DecodeList(EncodeList(fs, true, false), true, false) == Ok(CarriedAll(fs, true, false))
    ensures forall i | 0 <= i < |fs| ::
      CarriedAll(fs, true, false)[i] == Format(fs[i].id, if Text(fs[i]) == [] then None else fs[i].name)
  {
    LongFill(fs);
    var b := EncodeList(fs, true, false);
    assert DecodeLong(b) == Ok(CarriedAll(fs, true, false));
    forall i | 0 <= i < |fs|
      ensures CarriedAll(fs, true, false)[i] == Format(fs[i].id, if Text(fs[i]) == [] then None else fs[i].name)
    {
      CarriedLong(fs[i]);
    }
  }

  lemma ShortName(name: Name, ascii: bool)
    requires OneUnit(name)
    ensures var field := EncodeName(name, false, ascii);
      UntilNul(if ascii then Units8(field[..31]) else Units16(field)) == Kept(name, false, ascii)
  {
    var kept := Kept(name, false, ascii);
    var field := EncodeName(name, false, ascii);
    if ascii {
      NulAtIs(Units8(field[..31]), |kept|);
    } else {
      NameField16(kept, 16 - |kept|, []);
      assert field == Image16(kept) + Zeros(2 * (16 - |kept|)) + [];
    }
  }

  lemma ShortRecordRoundTrip(f: Format, ascii: bool, rest: bytes)
    requires OneUnit(Text(f))
    ensures var b := EncodeRecord(f, false, ascii) + rest;
      |b| == 36 + |rest| && b[36..] == rest && ShortRecord(b, ascii) == Carried(f, false, ascii)
  {
    var field := EncodeName(Text(f), false, ascii);
    var b := EncodeRecord(f, false, ascii) + rest;
    assert b == Le32(f.id) + (field + rest);
    Get32OfLe32(f.id, field + rest);
    ShortName(Text(f), ascii);
    assert b[4..36] == field && b[4..35] == field[..31];
  }

  lemma {:induction false} ShortRecordsRoundTrip(fs: seq<Format>, ascii: bool)
    requires Plain(fs)
    ensures |EncodeList(fs, false, ascii)| == 36 * |fs|
    ensures ShortRecords(EncodeList(fs, false, ascii), ascii) == CarriedAll(fs, false, ascii)
  {
    hide ShortRecord, EncodeRecord, Carried;
    if fs != [] {
      var rest := EncodeList(fs[1..], false, ascii);
      ShortRecordsRoundTrip(fs[1..], ascii);
      ShortRecordRoundTrip(fs[0], ascii, rest);
      assert CarriedAll(fs, false, ascii) == [Carried(fs[0], false, ascii)] + CarriedAll(fs[1..], false, ascii);
    }
  }

  lemma CarriedShort(f: Format, ascii: bool)
    requires OneUnit(Text(f))
    ensures var name, most, once := Text(f), if ascii then 31 else 15, Carried(f, false, ascii);
      once == Format(f.id, Named(if |name| <= most then name else name[..most])) &&
      OneUnit(Text(once)) && Carried(once, false, ascii) == once
  {
    var name := Text(f);
    var kept := Kept(name, false, ascii);
    assert name[..|name|] == name && kept[..|kept|] == kept;
    assert Text(Carried(f, false, ascii)) == kept;
  }

  /** Short names are cut to 15 units (31 in ASCII); a second trip changes nothing more. */
  lemma ShortRoundTrip(fs: seq<Format>, ascii: bool)
    requires Plain(fs)
    ensures DecodeList(EncodeList(fs, false, ascii), false, ascii) == Ok(CarriedAll(fs, false, ascii))
    ensures forall i | 0 <= i < |fs| ::
      var name, most := Text(fs[i]), if ascii then 31 else 15;
      CarriedAll(fs, false, ascii)[i] == Format(fs[i].id, Named(if |name| <= most then name else name[..most]))
    ensures CarriedAll(CarriedAll(fs, false, ascii), false, ascii) == CarriedAll(fs, false, ascii)
  {
    ShortRecordsRoundTrip(fs, ascii);
    forall i | 0 <= i < |fs|
      ensures var name, most := Text(fs[i]), if ascii then 31 else 15;
        CarriedAll(fs, false, ascii)[i] == Format(fs[i].id, Named(if |name| <= most then name else name[..most]))
      ensures Carried(CarriedAll(fs, false, ascii)[i], false, ascii) == CarriedAll(fs, false, ascii)[i]
    {
      CarriedShort(fs[i], ascii);
    }
  }

  // ---- fields as other senders fill them -------------------------------------------------

  ghost predicate NoNul(u: Name) { forall i | 0 <= i < |u| :: u[i] != 0 }

  // A short record whose 32-byte field is filled by the name, with NULs only where it ends early.
  function WideRecord(f: Format): bytes
    requires |Text(f)| <= 16
  {
    Le32(f.id) + (Image16(Text(f)) + Zeros(32 - 2 * |Text(f)|))
  }

  function ByteRecord(f: Format): bytes
    requires |Text(f)| <= 32
  {
    Le32(f.id) + (Image8(Text(f)) + Zeros(32 - |Text(f)|))
  }

  ghost predicate FitField(f: Format, ascii: bool) {
    NoNul(Text(f)) && |Text(f)| <= (if ascii then 32 else 16) &&
    (ascii ==> forall i | 0 <= i < |Text(f)| :: Text(f)[i] < 256)
  }

  // All records of a list, and stray bytes behind them.
  ghost function FieldList(fs: seq<Format>, ascii: bool, stray: bytes): bytes
    requires forall i | 0 <= i < |fs| :: FitField(fs[i], ascii)
  {
    if fs == [] then stray
    else
      assert FitField(fs[0], ascii);
      (if ascii then ByteRecord(fs[0]) else WideRecord(fs[0])) + FieldList(fs[1..], ascii, stray)
  }

  lemma UntilNulOf(u: Name, zeros: nat)
    requires NoNul(u)
    ensures UntilNul(u + seq(zeros, _ => 0)) == u
  {
    NulAtIs(u + seq(zeros, _ => 0), |u|);
  }

  lemma WideField(u: Name, rest: bytes)
    requires NoNul(u) && |u| <= 16
    ensures var b := Image16(u) + Zeros(32 - 2 * |u|) + rest; |b[..32]| == 32 && UntilNul(Units16(b[..32])) == u
  {
    var field := (Image16(u) + Zeros(32 - 2 * |u|) + rest)[..32];
    assert field == Image16(u) + Zeros(32 - 2 * |u|);
    Units16OfImage(u, Zeros(32 - 2 * |u|));
    var units := Units16(field);
    forall i | |u| <= i < 16
      ensures units[i] == 0
    {
      assert field[2 * i] == 0 && field[2 * i + 1] == 0;
    }
    assert units == u + seq(16 - |u|, _ => 0);
    UntilNulOf(u, 16 - |u|);
  }

  lemma ByteField(u: Name, rest: bytes)
    requires NoNul(u) && |u| <= 32 && forall i | 0 <= i < |u| :: u[i] < 256
    ensures var b := Image8(u) + Zeros(32 - |u|) + rest; UntilNul(Units8(b[..31])) == u[..Min(31, |u|)]
  {
    var field := (Image8(u) + Zeros(32 - |u|) + rest)[..31];
    var kept := u[..Min(31, |u|)];
    assert Units8(field) == kept + seq(31 - |kept|, _ => 0);
    UntilNulOf(kept, 31 - |kept|);
  }

  lemma FieldRecordRead(f: Format, ascii: bool, rest: bytes)
    requires FitField(f, ascii)
    ensures var b := (if ascii then ByteRecord(f) else WideRecord(f)) + rest;
      |b| == 36 + |rest| && b[36..] == rest &&
      ShortRecord(b, ascii) == Format(f.id, Named(Text(f)[..Min(if ascii then 31 else 16, |Text(f)|)]))
  {
    var u := Text(f);
    var field := if ascii then Image8(u) + Zeros(32 - |u|) else Image16(u) + Zeros(32 - 2 * |u|);
    var b := Le32(f.id) + field + rest;
    assert b == Le32(f.id) + (field + rest);
    Get32OfLe32(f.id, field + rest);
    assert b[4..36] == (field + rest)[..32] && b[4..35] == (field + rest)[..31];
    assert u[..|u|] == u;
    if ascii {
      ByteField(u, rest);
    } else {
      WideField(u, rest);
    }
  }

  /** What the short reader makes of any list of full or NUL-padded fields, stray bytes included: a
      name of 16 units without NUL is read whole; in ASCII a name without NUL is cut to 31. */
  lemma {:induction false} FieldListRead(fs: seq<Format>, ascii: bool, stray: bytes)
    requires (forall i | 0 <= i < |fs| :: FitField(fs[i], ascii)) && |stray| < 4
    ensures var b := FieldList(fs, ascii, stray);
      |b| == 36 * |fs| + |stray| && |ShortRecords(b, ascii)| == |fs| &&
      (forall i | 0 <= i < |fs| ::
         var u := Text(fs[i]);
         ShortRecords(b, ascii)[i] == Format(fs[i].id, Named(u[..Min(if ascii then 31 else 16, |u|)]))) &&
      (fs != [] ==> DecodeList(b, false, ascii) == Ok(ShortRecords(b, ascii)))
  {
    hide ShortRecord, ByteRecord, WideRecord, FitField;
    if fs != [] {
      FieldListRead(fs[1..], ascii, stray);
      FieldRecordRead(fs[0], ascii, FieldList(fs[1..], ascii, stray));
    }
  }

  /** The writer's fourth mode: a long name as ASCII is its bytes and one NUL, no name is two. */
  lemma LongAsciiImage(f: Format)
    ensures EncodeRecord(f, true, true) ==
      Le32(f.id) + (if Text(f) == [] then [0, 0] else Image8(Text(f)) + [0])
  {
    assert Zeros(2) == [0, 0] && Zeros(1) == [0];
  }
}
