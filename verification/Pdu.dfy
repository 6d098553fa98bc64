/**
 Clipboard packets: the 8-byte header and the file contents bodies
 (MS-RDPECLIP sections 2.2.1, 2.2.5.3 and 2.2.5.4).
 */
module Pdu {
  import opened Wire
  import opened Stream

  datatype Status =
    | RcOk
    | InvalidData
    | BadArguments
    | NoMemory
    | InternalError
    | BadProc
    | InvalidParameter
    | ResponseFail

  datatype Result<+T> = Ok(value: T) | Err(status: Status)

  const CB_MONITOR_READY: u16 := 1
  const CB_FORMAT_LIST: u16 := 2
  const CB_FORMAT_LIST_RESPONSE: u16 := 3
  const CB_FORMAT_DATA_REQUEST: u16 := 4
  const CB_FORMAT_DATA_RESPONSE: u16 := 5
  const CB_CLIP_CAPS: u16 := 7
  const CB_FILECONTENTS_REQUEST: u16 := 8
  const CB_FILECONTENTS_RESPONSE: u16 := 9
  const CB_LOCK_CLIPDATA: u16 := 10
  const CB_UNLOCK_CLIPDATA: u16 := 11

  const CB_RESPONSE_OK: u16 := 1
  const CB_RESPONSE_FAIL: u16 := 2

  const UINT32_MAX := 0xFFFF_FFFF

  // ---- the header ----------------------------------------------------------

  datatype Packet = Packet(msgType: u16, msgFlags: u16, body: bytes)

  // The sender asserts that position and length fit the 32-bit field.
  ghost predicate Sendable(p: Packet) { |p.body| <= UINT32_MAX - 16 }

  function Header(msgType: u16, msgFlags: u16, dataLen: u32): (h: bytes)
    ensures |h| == 8
  {
    Le16(msgType) + Le16(msgFlags) + Le32(dataLen)
  }

  function Encode(p: Packet): bytes {
    Header(p.msgType, p.msgFlags, |p.body| % 0x1_0000_0000) + p.body
  }

  // The header fields, and everything behind the header.
  datatype Received = Received(msgType: u16, msgFlags: u16, dataLen: u32, rest: bytes)

  function ParseHeader(b: bytes): Result<Received> {
    if |b| < 8 then Err(InvalidData)
    else
      var dataLen := Get32(b[4..]);
      if |b| - 8 < dataLen then Err(InvalidData)
      else Ok(Received(Get16(b), Get16(b[2..]), dataLen, b[8..]))
  }

  lemma ParseHeaderOfEncode(p: Packet)
    requires Sendable(p)
    ensures ParseHeader(Encode(p)) == Ok(Received(p.msgType, p.msgFlags, |p.body|, p.body))
  {
    var len := Le32(|p.body|);
    assert Encode(p) == Le16(p.msgType) + (Le16(p.msgFlags) + (len + p.body));
    Get16OfLe16(p.msgType, Le16(p.msgFlags) + (len + p.body));
    Get16OfLe16(p.msgFlags, len + p.body);
    Get32OfLe32(|p.body|, p.body);
    assert Encode(p)[4..] == Encode(p)[2..][2..];
    assert Encode(p)[8..] == p.body;
  }

  // A fresh packet has a length field of zero until it is sent.
  method PacketNew(msgType: u16, msgFlags: u16, dataLen: nat) returns (s: WStream)
    requires dataLen < UINT32_MAX
    ensures fresh(s) && fresh(s.buffer) && s.Valid() && s.pos == 8
    ensures s.length == s.buffer.Length == dataLen + 8
    ensures s.Written() == Header(msgType, msgFlags, 0)
  {
    s := new WStream(dataLen + 8);
    s.Write(Le16(msgType));
    s.Write(Le16(msgFlags));
    s.Write(Le32(0));
  }

  // What the channel is given: the whole packet, its length patched in.
  method PacketSend(s: WStream) returns (wire: bytes)
    requires s.Valid() && 8 <= s.pos <= UINT32_MAX - 8
    modifies s.buffer
    ensures var w := old(s.Written());
      wire == w[..4] + Le32(|w| - 8) + w[8..]
  {
    s.PatchU32(4, s.pos - 8);
    wire := s.buffer[..s.pos];
  }

  /** Patching the length into a packet with a blank header makes it the image of its body. */
  lemma PatchedIsEncoded(p: Packet)
    requires Sendable(p)
    ensures var w := Header(p.msgType, p.msgFlags, 0) + p.body;
      w[..4] + Le32(|w| - 8) + w[8..] == Encode(p)
  {
    var w := Header(p.msgType, p.msgFlags, 0) + p.body;
    assert w[..4] == Le16(p.msgType) + Le16(p.msgFlags);
    assert w[8..] == p.body;
  }

  // ---- file contents request -------------------------------------------------

  datatype FileRequest = FileRequest(
    streamId: u32, listIndex: u32, dwFlags: u32,
    positionLow: u32, positionHigh: u32, cbRequested: u32,
    clipDataId: Option<u32>)

  // FILECONTENTS_SIZE is bit 0 of dwFlags, FILECONTENTS_RANGE is bit 1.
  const FILECONTENTS_SIZE: u32 := 1
  const FILECONTENTS_RANGE: u32 := 2

  predicate WantsSize(r: FileRequest) { r.dwFlags % 2 == 1 }

  predicate WantsRange(r: FileRequest) { r.dwFlags / 2 % 2 == 1 }

  predicate ValidFileRequest(r: FileRequest) {
    WantsSize(r) ==> r.cbRequested == 8 && r.positionHigh == 0 && r.positionLow == 0
  }

  function EncodeFileRequest(r: FileRequest): (b: bytes)
    ensures |b| == if r.clipDataId.Some? then 28 else 24
  {
    Le32(r.streamId) + (Le32(r.listIndex) + (Le32(r.dwFlags) + (Le32(r.positionLow) +
    (Le32(r.positionHigh) + (Le32(r.cbRequested) +
    if r.clipDataId.Some? then Le32(r.clipDataId.value) else [])))))
  }

  // The fields as read, before validation.
  function FileRequestFields(b: bytes): FileRequest
    requires |b| >= 24
  {
    FileRequest(Get32(b), Get32(b[4..]), Get32(b[8..]), Get32(b[12..]), Get32(b[16..]), Get32(b[20..]),
                if |b| >= 28 then Some(Get32(b[24..])) else None)
  }

  function DecodeFileRequest(b: bytes): Result<FileRequest> {
    if |b| < 24 then Err(InvalidData)
    else
      var r := FileRequestFields(b);
      if ValidFileRequest(r) then Ok(r) else Err(BadArguments)
  }

  method WriteFileRequest(s: WStream, r: FileRequest)
    requires s.Valid() && s.length == s.buffer.Length
    requires s.pos + 28 <= s.buffer.Length
    modifies s`pos, s.buffer
    ensures s.Valid() && s.pos == old(s.pos) + |EncodeFileRequest(r)|
    ensures s.Written() == old(s.Written()) + EncodeFileRequest(r)
  {
    hide EncodeFileRequest, Three;
    ghost var w := s.Written();
    WriteThree(s, r.streamId, r.listIndex, r.dwFlags);
    WriteThree(s, r.positionLow, r.positionHigh, r.cbRequested);
    ghost var tail: bytes := [];
    if r.clipDataId.Some? {
      tail := Le32(r.clipDataId.value);
      s.Write(Le32(r.clipDataId.value));
    }
    ghost var first := Three(r.streamId, r.listIndex, r.dwFlags);
    ghost var second := Three(r.positionLow, r.positionHigh, r.cbRequested);
    assert s.Written() == w + first + second + tail;
    assert w + first + second + tail == w + (first + second + tail);
    RequestInThrees(r);
  }

  lemma RequestInThrees(r: FileRequest)
    ensures EncodeFileRequest(r) ==
      Three(r.streamId, r.listIndex, r.dwFlags) + Three(r.positionLow, r.positionHigh, r.cbRequested) +
      if r.clipDataId.Some? then Le32(r.clipDataId.value) else []
  {
  }

  function Three(a: u32, b: u32, c: u32): (t: bytes)
    ensures |t| == 12
  {
    Le32(a) + Le32(b) + Le32(c)
  }

  method WriteThree(s: WStream, a: u32, b: u32, c: u32)
    requires s.Valid() && s.length == s.buffer.Length
    requires s.pos + 12 <= s.buffer.Length
    modifies s`pos, s.buffer
    ensures s.Valid() && s.pos == old(s.pos) + 12
    ensures s.Written() == old(s.Written()) + Three(a, b, c)
  {
    ghost var w := s.Written();
    s.Write(Le32(a));
    s.Write(Le32(b));
    s.Write(Le32(c));
    assert s.Written() == w + Three(a, b, c);
  }

  method FileRequestPacketNew(r: FileRequest) returns (s: WStream)
    ensures fresh(s) && fresh(s.buffer) && s.Valid()
    ensures s.Written() == Header(CB_FILECONTENTS_REQUEST, 0, 0) + EncodeFileRequest(r)
  {
    s := PacketNew(CB_FILECONTENTS_REQUEST, 0, 28);
    WriteFileRequest(s, r);
  }

  method ReadFileRequest(s: WStream) returns (r: Result<FileRequest>)
    requires s.Valid()
    modifies s`pos
    ensures s.Valid() && r == DecodeFileRequest(old(s.Rest()))
  {
    if s.Remaining() < 24 {
      return Err(InvalidData);
    }
    ghost var b := s.Rest();
    var streamId := s.ReadU32();
    var listIndex := s.ReadU32();   assert s.Rest() == b[8..];
    var dwFlags := s.ReadU32();     assert s.Rest() == b[12..];
    var low := s.ReadU32();         assert s.Rest() == b[16..];
    var high := s.ReadU32();        assert s.Rest() == b[20..];
    var cb := s.ReadU32();          assert s.Rest() == b[24..];
    var clip: Option<u32> := None;
    if s.Remaining() >= 4 {
      var id := s.ReadU32();
      clip := Some(id);
    }
    var request := FileRequest(streamId, listIndex, dwFlags, low, high, cb, clip);
    assert request == FileRequestFields(b);
    if !ValidFileRequest(request) {
      return Err(BadArguments);
    }
    r := Ok(request);
  }

  lemma FieldsOfEncoded(r: FileRequest)
    ensures FileRequestFields(EncodeFileRequest(r)) == r
  {
    var tail := if r.clipDataId.Some? then Le32(r.clipDataId.value) else [];
    var t5 := Le32(r.cbRequested) + tail;
    var t4 := Le32(r.positionHigh) + t5;
    var t3 := Le32(r.positionLow) + t4;
    var t2 := Le32(r.dwFlags) + t3;
    var t1 := Le32(r.listIndex) + t2;
    var b := EncodeFileRequest(r);
    assert b == Le32(r.streamId) + t1;
    assert b[4..] == t1 && b[8..] == t2 && b[12..] == t3 && b[16..] == t4 && b[20..] == t5 && b[24..] == tail;
    Get32OfLe32(r.streamId, t1);
    Get32OfLe32(r.listIndex, t2);
    Get32OfLe32(r.dwFlags, t3);
    Get32OfLe32(r.positionLow, t4);
    Get32OfLe32(r.positionHigh, t5);
    Get32OfLe32(r.cbRequested, tail);
    if r.clipDataId.Some? {
      Get32OfLe32(r.clipDataId.value, []);
      assert tail + [] == tail;
    }
  }

  /** A written request reads back as itself, or is refused as the standard demands. */
  lemma FileRequestRoundTrip(r: FileRequest)
    ensures DecodeFileRequest(EncodeFileRequest(r)) ==
      if ValidFileRequest(r) then Ok(r) else Err(BadArguments)
  {
    FieldsOfEncoded(r);
  }

  lemma Shift(x: nat, y: nat, d: byte)
    requires x == d as int + 0x100 * y
    ensures x / 0x100 == y && x % 0x100 == d
  {
  }

  lemma Digits(d0: byte, d1: byte, d2: byte, d3: byte)
    ensures var x := d0 as int + 0x100 * d1 as int + 0x1_0000 * d2 as int + 0x100_0000 * d3 as int;
      x % 256 == d0 && x / 0x100 % 256 == d1 && x / 0x1_0000 % 256 == d2 && x / 0x100_0000 == d3
  {
    var y2 := d2 as int + 0x100 * d3 as int;
    var y1 := d1 as int + 0x100 * y2;
    var x := d0 as int + 0x100 * y1;
    Shift(x, y1, d0);
    Shift(y1, y2, d1);
    Shift(y2, d3, d2);
    assert x / 0x1_0000 == x / 0x100 / 0x100;
    assert x / 0x100_0000 == x / 0x1_0000 / 0x100;
  }

  lemma Le32OfGet32(b: bytes)
    requires |b| >= 4
    ensures Le32(Get32(b)) == b[..4]
  {
    Digits(b[0], b[1], b[2], b[3]);
  }

  /** The reader accepts exactly the bodies whose leading 24 or 28 bytes are the image of a valid request. */
  lemma FileRequestReadsOnlyWritten(b: bytes)
    ensures DecodeFileRequest(b).Ok? <==>
      |b| >= 24 && ValidFileRequest(FileRequestFields(b))
    ensures DecodeFileRequest(b).Ok? ==>
      var image := EncodeFileRequest(DecodeFileRequest(b).value);
      image == b[..|image|] && (|b| >= 28 <==> |image| == 28)
  {
    if |b| >= 24 {
      Le32OfGet32(b);
      Le32OfGet32(b[4..]);
      Le32OfGet32(b[8..]);
      Le32OfGet32(b[12..]);
      Le32OfGet32(b[16..]);
      Le32OfGet32(b[20..]);
      assert b[..24] == b[..4] + (b[4..8] + (b[8..12] + (b[12..16] + (b[16..20] + b[20..24]))));
      if |b| >= 28 {
        Le32OfGet32(b[24..]);
        assert b[..28] == b[..24] + b[24..28];
      }
    }
  }

  // ---- file contents response ------------------------------------------------

  datatype FileResponse = FileResponse(msgFlags: u16, streamId: u32, data: bytes)

  function FileResponsePacket(r: FileResponse): Packet {
    Packet(CB_FILECONTENTS_RESPONSE, r.msgFlags, Le32(r.streamId) + r.data)
  }

  // `rest` is everything behind the header, `dataLen` the header's length field.
  function DecodeFileResponse(msgFlags: u16, dataLen: u32, rest: bytes): Result<FileResponse>
    requires dataLen <= |rest|
  {
    if |rest| < 4 || dataLen < 4 then Err(InvalidData)
    else Ok(FileResponse(msgFlags, Get32(rest), rest[4..dataLen]))
  }

  method FileResponsePacketNew(r: FileResponse) returns (s: WStream)
    requires |r.data| < UINT32_MAX - 4
    ensures fresh(s) && fresh(s.buffer) && s.Valid()
    ensures s.Written() == Header(CB_FILECONTENTS_RESPONSE, r.msgFlags, 0) + FileResponsePacket(r).body
  {
    s := PacketNew(CB_FILECONTENTS_RESPONSE, r.msgFlags, 4 + |r.data|);
    ghost var w := s.Written();
    s.Write(Le32(r.streamId));
    s.Write(r.data);
    assert s.Written() == w + (Le32(r.streamId) + r.data);
  }

  method ReadFileResponse(s: WStream, msgFlags: u16, dataLen: u32) returns (r: Result<FileResponse>)
    requires s.Valid() && dataLen <= s.Remaining()
    modifies s`pos
    ensures s.Valid() && r == DecodeFileResponse(msgFlags, dataLen, old(s.Rest()))
  {
    if s.Remaining() < 4 {
      return Err(InvalidData);
    }
    ghost var b := s.Rest();
    var streamId := s.ReadU32();
    if dataLen < 4 {
      return Err(InvalidData);
    }
    var data := s.Peek(dataLen - 4);
    assert data == b[4..dataLen];
    r := Ok(FileResponse(msgFlags, streamId, data));
  }

  lemma FileResponseRoundTrip(r: FileResponse)
    requires |r.data| < UINT32_MAX - 4
    ensures var body := FileResponsePacket(r).body;
      DecodeFileResponse(r.msgFlags, |body|, body) == Ok(r)
  {
    Get32OfLe32(r.streamId, r.data);
    var body := FileResponsePacket(r).body;
    assert body[4..|body|] == r.data;
  }
}
