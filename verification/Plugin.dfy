/**
 The channel plugin as an object: its fields are the session state, its methods
 the entry points of the channel and of the client, its output the bytes written.
 */
module Plugin {
  import opened Wire
  import opened Stream
  import opened Pdu
  import opened FormatList
  import opened FormatFilter
  import opened Capabilities
  import opened Serving
  import opened Session
  import opened Stack

  class Cliprdr {
    const mask: Mask
    var capabilitiesReceived: bool
    var useLongFormatNames: bool
    var streamFileClipEnabled: bool
    var fileClipNoFilePaths: bool
    var canLockClipData: bool
    var hasHugeFileSupport: bool
    var initialFormatListSent: bool
    var requestedRemoteFormat: Format
    var lastRequestedFormatId: u32
    var files: seq<Served>       // the files copied on this side
    var written: seq<bytes>      // the packets given to the channel
    var handed: seq<Handed>      // the callbacks made

    constructor (mask: Mask)
      ensures this.mask == mask && View() == START && written == [] && handed == []
    {
      this.mask := mask;
      capabilitiesReceived, initialFormatListSent := false, false;
      useLongFormatNames, streamFileClipEnabled, fileClipNoFilePaths := false, false, false;
      canLockClipData, hasHugeFileSupport := false, false;
      requestedRemoteFormat, lastRequestedFormatId, files := Format(0, None), 0, [];
      written, handed := [], [];
    }

    function Enabled(): Features
      reads this
    {
      Features(useLongFormatNames, streamFileClipEnabled, fileClipNoFilePaths, canLockClipData, hasHugeFileSupport)
    }

    function View(): State
      reads this
    {
      State(capabilitiesReceived, Enabled(), initialFormatListSent, requestedRemoteFormat, lastRequestedFormatId,
            files)
    }

    // The object went through an effect: state, packets and callbacks.
    twostate predicate Went(e: Effect)
      reads this
    {
      View() == e.state && written == old(written) + Wires(e.outs) && handed == old(handed) + e.handed
    }

    method Enable(f: Features)
      modifies this
      ensures View() == old(View()).(features := f)
      ensures written == old(written) && handed == old(handed)
    {
      useLongFormatNames, streamFileClipEnabled, fileClipNoFilePaths := f.long, f.stream, f.noPaths;
      canLockClipData, hasHugeFileSupport := f.lock, f.huge;
    }

    // Gives a finished packet to the channel.
    method Transmit(s: WStream, ghost o: Out)
      requires s.Valid() && Sendable(PacketOf(o))
      requires var p := PacketOf(o); s.Written() == Header(p.msgType, p.msgFlags, 0) + p.body
      modifies s.buffer, this`written
      ensures written == old(written) + Wires([o])
    {
      PatchedIsEncoded(PacketOf(o));
      assert s.pos == |s.Written()|;
      var wire := PacketSend(s);
      assert wire == Encode(PacketOf(o));
      assert Wires([o]) == [wire];
      written := written + [wire];
    }

    method SendErrorResponse(msgType: u16) returns (status: Status)
      modifies this`written
      ensures status == RcOk && written == old(written) + Wires([ErrorOut(msgType)])
    {
      var s := PacketNew(msgType, CB_RESPONSE_FAIL, 0);
      assert s.Written() == s.Written() + [];
      Transmit(s, ErrorOut(msgType));
      status := RcOk;
    }

    // ---- the client's side ---------------------------------------------------------

    // Features the session does not have are taken off the offer.
    method Agreed(offered: u32) returns (flags: u32)
      ensures flags == Negotiate(Enabled(), offered)
    {
      hide FeaturesOf;
      flags := offered;
      if !useLongFormatNames { flags := ClearLong(flags); }
      if !streamFileClipEnabled { flags := ClearStream(flags); }
      if !fileClipNoFilePaths { flags := ClearNoPaths(flags); }
      if !canLockClipData { flags := ClearLock(flags); }
      if !hasHugeFileSupport { flags := ClearHuge(flags); }
    }

    method CapsPacketNew(version: u32, flags: u32) returns (s: WStream)
      ensures fresh(s) && fresh(s.buffer) && s.Valid()
      ensures s.Written() == Header(CB_CLIP_CAPS, 0, 0) + EncodeCaps(version, flags)
    {
      s := PacketNew(CB_CLIP_CAPS, 0, 4 + CB_CAPSTYPE_GENERAL_LEN);
      ghost var head := s.Written();
      WriteTwoU16(s, 1, 0);
      WriteTwoU16(s, CB_CAPSTYPE_GENERAL, CB_CAPSTYPE_GENERAL_LEN);
      ghost var set0, set1 := Two(1, 0), Two(CB_CAPSTYPE_GENERAL, CB_CAPSTYPE_GENERAL_LEN);
      s.Write(Le32(version));
      s.Write(Le32(flags));
      assert s.Written() == head + (set0 + set1 + Le32(version) + Le32(flags));
      assert EncodeCaps(version, flags) == set0 + set1 + Le32(version) + Le32(flags) by { CapsInPairs(version, flags); }
    }

    method WriteTwoU16(s: WStream, a: u16, b: u16)
      requires s.Valid() && s.length == s.buffer.Length && s.pos + 4 <= s.buffer.Length
      modifies s`pos, s.buffer
      ensures s.Valid() && s.pos == old(s.pos) + 4 && s.Written() == old(s.Written()) + Two(a, b)
    {
      ghost var w := s.Written();
      s.Write(Le16(a));
      s.Write(Le16(b));
      assert s.Written() == w + Two(a, b);
    }

    method ClientCapabilities(version: u32, generalFlags: u32) returns (status: Status)
      modifies this
      ensures Went(ReplyCaps(old(View()), version, generalFlags)) && status == RcOk
    {
      hide FeaturesOf, Negotiate, EncodeCaps;
      var flags := Agreed(generalFlags);
      Enable(FeaturesOf(flags));
      initialFormatListSent := false;
      var s := CapsPacketNew(version, flags);
      Transmit(s, CapsOut(version, flags));
      status := RcOk;
    }

    method ClientFormatList(fs: seq<Format>) returns (status: Status)
      requires Sendable(PacketOf(ListOut(Filter(fs, mask, {LocalToRemote, LocalToRemoteFiles}), useLongFormatNames)))
      modifies this
      ensures Went(SendList(old(View()), fs, mask)) && status == RcOk
    {
      var filtered := FilterFormatList(fs, mask, {LocalToRemote, LocalToRemoteFiles});
      if |filtered| == 0 && initialFormatListSent {
        return RcOk;
      }
      initialFormatListSent := true;
      var s := FormatListPacketNew(filtered, useLongFormatNames, false);
      Transmit(s, ListOut(filtered, useLongFormatNames));
      status := RcOk;
    }

    method ClientFormatDataRequest(id: u32) returns (status: Status)
      modifies this
      ensures Went(SendDataRequest(old(View()), id, mask)) && status == RcOk
    {
      if mask * {RemoteToLocal, RemoteToLocalFiles} == {} {
        return RcOk;
      }
      var s := PacketNew(CB_FORMAT_DATA_REQUEST, 0, 4);
      s.Write(Le32(id));
      Transmit(s, DataRequestOut(id));
      status := RcOk;
    }

    method ClientFormatDataResponse(msgFlags: u16, data: bytes) returns (status: Status)
      requires mask * {LocalToRemote, LocalToRemoteFiles} != {}
      requires |data| <= UINT32_MAX - 16
      modifies this
      ensures Went(Sending(old(View()), DataResponseOut(msgFlags, data))) && status == RcOk
    {
      var s := PacketNew(CB_FORMAT_DATA_RESPONSE, msgFlags, |data|);
      s.Write(data);
      Transmit(s, DataResponseOut(msgFlags, data));
      status := RcOk;
    }

    method ClientFileContentsRequest(r: FileRequest) returns (status: Status)
      modifies this
      ensures var e := SendFileRequest(old(View()), r, mask); Went(e) && status == e.status
    {
      if RemoteToLocalFiles !in mask {
        return RcOk;
      }
      if !hasHugeFileSupport {
        if r.cbRequested as int + r.positionLow as int > UINT32_MAX {
          return InvalidParameter;
        }
        if r.positionHigh != 0 {
          return InvalidParameter;
        }
      }
      var s := FileRequestPacketNew(r);
      Transmit(s, FileRequestOut(r));
      status := RcOk;
    }

    method ClientFileContentsResponse(r: FileResponse) returns (status: Status)
      requires |r.data| <= UINT32_MAX - 20
      modifies this
      ensures Went(SendFileResponse(old(View()), r, mask)) && status == RcOk
    {
      if LocalToRemoteFiles !in mask {
        status := SendErrorResponse(CB_FILECONTENTS_RESPONSE);
      } else {
        var s := FileResponsePacketNew(r);
        Transmit(s, FileResponseOut(r));
        status := RcOk;
      }
    }

    // The client's list of copied files changes.
    method SetFiles(fs: seq<Served>)
      modifies this`files
      ensures Went(Step(old(View()), LocalFiles(fs), mask))
    {
      assert Wires([]) == [];
      files := fs;
    }

    // ---- the server's side ------------------------------------------------------------

    method ProcessClipCaps(s: WStream) returns (status: Status)
      requires s.Valid()
      modifies this, s`pos
      ensures var (flags, st) := ParseCaps(old(s.Rest()));
        Went(Quietly(ApplyCaps(old(View()), flags), st)) && status == st
    {
      hide FeaturesOf, ParseSet;
      if s.Remaining() < 4 {
        return InvalidData;
      }
      var count := s.ReadU16();
      var pad := s.ReadU16();
      ghost var sets := s.Rest();
      assert sets == old(s.Rest())[4..];
      ghost var seen: seq<u32> := [];
      ghost var all := ParseSets(sets, count);
      assert [] + all.0 == all.0;
      for index := 0 to count
        invariant s.Valid()
        invariant Progress(all, seen, ParseSets(s.Rest(), count - index))
        invariant View() == ApplyCaps(old(View()), seen)
        invariant written == old(written) && handed == old(handed)
      {
        ProgressStep(all, seen, s.Rest(), count - index);
        var parsed := ReadSet(s);
        if parsed.Err? {
          return parsed.status;
        }
        Enable(FeaturesOf(parsed.value));
        capabilitiesReceived := true;
        seen := seen + [parsed.value];
      }
      assert seen + [] == seen;
      status := RcOk;
    }

    method MonitorReadyCallback() returns (status: Status)
      modifies this
      ensures var reply := ReplyCaps(old(View()), CB_CAPS_VERSION_2, OFFERED);
        var list := SendList(reply.state, [], mask);
        Went(Then(reply, list)) && status == RcOk
    {
      hide FeaturesOf, Negotiate, EncodeCaps, Encode, Filter, Wires;
      ghost var reply := ReplyCaps(View(), CB_CAPS_VERSION_2, OFFERED);
      status := ClientCapabilities(CB_CAPS_VERSION_2, OFFERED);
      FilterShrinks([], mask, {LocalToRemote, LocalToRemoteFiles});
      assert EncodeList([], useLongFormatNames, false) == [];
      ghost var list := SendList(reply.state, [], mask);
      status := ClientFormatList([]);
      WiresAppend(reply.outs, list.outs);
      assert old(written) + Wires(reply.outs) + Wires(list.outs) == old(written) + (Wires(reply.outs) + Wires(list.outs));
    }

    method ProcessMonitorReady() returns (status: Status)
      modifies this
      ensures Went(OnMonitorReady(old(View()), mask)) && status == RcOk
    {
      hide FeaturesOf, Negotiate, Filter, Wires;
      if !capabilitiesReceived {
        useLongFormatNames := false;
        streamFileClipEnabled := false;
        fileClipNoFilePaths := true;
        canLockClipData := false;
      }
      status := MonitorReadyCallback();
    }

    method ServerFormatListCallback(fs: seq<Format>)
      modifies this
      ensures Went(match Choose(fs)
                   case None => Quietly(old(View()), RcOk)
                   case Some(f) => SendDataRequest(old(View()).(wanted := f), f.id, mask))
    {
      var choice := ChooseFormat(fs);
      if choice.Some? {
        requestedRemoteFormat := choice.value;
        var status := ClientFormatDataRequest(choice.value.id);
      }
    }

    method ProcessFormatList(s: WStream, dataLen: u32, msgFlags: u16) returns (status: Status)
      requires s.Valid() && dataLen <= s.Remaining()
      modifies this, s`pos
      ensures var e := match DecodeList(old(s.Rest())[..dataLen], old(View()).features.long, AsciiNames(msgFlags))
                       case Err(st) => Quietly(old(View()), st)
                       case Ok(fs) => OnList(old(View()), fs, mask);
        Went(e) && status == e.status
    {
      var list := ReadFormatList(s, AsciiNames(msgFlags), dataLen, useLongFormatNames);
      if list.Err? {
        return list.status;
      }
      var filtered := FilterFormatList(list.value, mask, {RemoteToLocal, RemoteToLocalFiles});
      status := RcOk;
      if |filtered| != 0 {
        handed := handed + [HandedList(filtered)];
        ServerFormatListCallback(filtered);
      }
    }

    method ProcessFormatDataRequest(s: WStream) returns (status: Status)
      requires s.Valid()
      modifies this, s`pos
      ensures var b := old(s.Rest());
        var e := if |b| < 4 then Quietly(old(View()), InvalidData) else OnDataRequest(old(View()), Get32(b), mask);
        Went(e) && status == e.status
    {
      if s.Remaining() < 4 {
        return InvalidData;
      }
      var id := s.ReadU32();
      if mask * {LocalToRemote, LocalToRemoteFiles} == {} {
        status := SendErrorResponse(CB_FORMAT_DATA_RESPONSE);
      } else {
        lastRequestedFormatId := id;
        handed := handed + [HandedDataRequest(id)];
        status := RcOk;
      }
    }

    method ProcessFormatDataResponse(s: WStream, dataLen: u32, msgFlags: u16) returns (status: Status)
      requires s.Valid() && dataLen <= s.Remaining()
      modifies this, s`pos
      ensures Went(OnDataResponse(old(View()), msgFlags, old(s.Rest())[..dataLen], mask)) && status == RcOk
    {
      var data := s.Peek(dataLen);
      var ok := s.SafeSeek(dataLen);
      if mask * {RemoteToLocal, RemoteToLocalFiles} == {} {
        return RcOk;
      }
      handed := handed + [HandedDataResponse(msgFlags, data)];
      status := RcOk;
    }

    method SendFileContentsResponse(streamId: u32, data: bytes) returns (status: Status)
      requires |data| <= UINT32_MAX - 20
      modifies this
      ensures Went(SendFileResponse(old(View()), FileResponse(CB_RESPONSE_OK, streamId, data), mask)) && status == RcOk
    {
      status := ClientFileContentsResponse(FileResponse(CB_RESPONSE_OK, streamId, data));
    }

    // The client's callback: a response with the data asked for, or a failure and no response.
    method ServerFileContentsRequest(r: FileRequest) returns (status: Status)
      requires Answer(files, r).Ok? ==> |Answer(files, r).value| <= UINT32_MAX - 20
      modifies this
      ensures match Answer(old(files), r)
        case Err(st) => Went(Quietly(old(View()), st)) && status == st
        case Ok(data) => (
          Went(SendFileResponse(old(View()), FileResponse(CB_RESPONSE_OK, r.streamId, data), mask)) && status == RcOk)
    {
      hide Wires;
      if r.listIndex >= |files| {
        NothingWired();
        return ResponseFail;
      }
      var f := files[r.listIndex];
      if WantsSize(r) {
        status := SendFileContentsResponse(r.streamId, Le64(if f.isDir then 0 else |f.data|));
      } else if WantsRange(r) {
        status := SendFileRange(r, f);
      } else {
        NothingWired();
        return ResponseFail;
      }
    }

    method SendFileRange(r: FileRequest, f: Served) returns (status: Status)
      requires r.listIndex < |files| && files[r.listIndex] == f && !WantsSize(r) && WantsRange(r)
      requires Answer(files, r).Ok? ==> |Answer(files, r).value| <= UINT32_MAX - 20
      modifies this
      ensures match Answer(old(files), r)
        case Err(st) => Went(Quietly(old(View()), st)) && status == st
        case Ok(data) => (
          Went(SendFileResponse(old(View()), FileResponse(CB_RESPONSE_OK, r.streamId, data), mask)) && status == RcOk)
    {
      hide Wires;
      NothingWired();
      if f.isDir {
        return ResponseFail;
      }
      var offset := Join64(r.positionLow, r.positionHigh);
      if offset >= |f.data| {
        return ResponseFail;
      }
      var remaining := |f.data| - offset;
      var bytesToRead := Min(remaining, r.cbRequested);
      status := SendFileContentsResponse(r.streamId, f.data[offset..offset + bytesToRead]);
    }

    method ProcessFileContentsRequest(s: WStream) returns (status: Status)
      requires s.Valid()
      requires var r := DecodeFileRequest(s.Rest()); r.Ok? ==> Packable(OnFileRequest(View(), r.value, mask))
      modifies this, s`pos
      ensures var e := match DecodeFileRequest(old(s.Rest()))
                       case Err(st) => Quietly(old(View()), st)
                       case Ok(r) => OnFileRequest(old(View()), r, mask);
        Went(e) && status == e.status
    {
      hide Wires, Answer;
      NothingWired();
      var request := ReadFileRequest(s);
      if request.Err? {
        return request.status;
      }
      if LocalToRemoteFiles !in mask {
        status := SendErrorResponse(CB_FILECONTENTS_RESPONSE);
      } else {
        AnswerPacked(View(), request.value, mask);
        handed := handed + [HandedFileRequest(request.value)];
        status := ServerFileContentsRequest(request.value);
      }
    }

    method ProcessFileContentsResponse(s: WStream, dataLen: u32, msgFlags: u16) returns (status: Status)
      requires s.Valid() && dataLen <= s.Remaining()
      modifies this, s`pos
      ensures var e := match DecodeFileResponse(msgFlags, dataLen, old(s.Rest()))
                       case Err(st) => Quietly(old(View()), st)
                       case Ok(r) => Effect(old(View()), [], [HandedFileResponse(r)], RcOk);
        Went(e) && status == e.status
    {
      var response := ReadFileResponse(s, msgFlags, dataLen);
      if response.Err? {
        return response.status;
      }
      handed := handed + [HandedFileResponse(response.value)];
      status := RcOk;
    }

    // The message handler of the channel.
    method OrderRecv(s: WStream) returns (status: Status)
      requires s.Valid() && Packable(Receive(View(), s.Rest(), mask))
      modifies this, s`pos
      ensures var e := Receive(old(View()), old(s.Rest()), mask); Went(e) && status == e.status
    {
      if s.Remaining() < 8 {
        return InvalidData;
      }
      ghost var b := s.Rest();
      var msgType := s.ReadU16();
      var msgFlags := s.ReadU16();
      var dataLen := s.ReadU32();
      HeaderRead(b);
      assert s.Rest() == b[8..];
      if s.Remaining() < dataLen {
        return InvalidData;
      }
      status := DispatchOrder(s, msgType, msgFlags, dataLen);
    }

    method DispatchOrder(s: WStream, msgType: u16, msgFlags: u16, dataLen: u32) returns (status: Status)
      requires s.Valid() && dataLen <= s.Remaining()
      requires Packable(Dispatch(View(), Received(msgType, msgFlags, dataLen, s.Rest()), mask))
      modifies this, s`pos
      ensures var e := Dispatch(old(View()), Received(msgType, msgFlags, dataLen, old(s.Rest())), mask);
        Went(e) && status == e.status
    {
      if msgType == CB_CLIP_CAPS {
        status := ProcessClipCaps(s);
      } else if msgType == CB_MONITOR_READY {
        status := ProcessMonitorReady();
      } else if msgType == CB_FORMAT_LIST {
        status := ProcessFormatList(s, dataLen, msgFlags);
      } else if msgType == CB_FORMAT_LIST_RESPONSE {
        status := RcOk;
      } else if msgType == CB_FORMAT_DATA_REQUEST {
        status := ProcessFormatDataRequest(s);
      } else if msgType == CB_FORMAT_DATA_RESPONSE {
        status := ProcessFormatDataResponse(s, dataLen, msgFlags);
      } else if msgType == CB_FILECONTENTS_REQUEST {
        status := ProcessFileContentsRequest(s);
      } else if msgType == CB_FILECONTENTS_RESPONSE {
        status := ProcessFileContentsResponse(s, dataLen, msgFlags);
      } else if msgType == CB_LOCK_CLIPDATA || msgType == CB_UNLOCK_CLIPDATA {
        status := if s.Remaining() < 4 then InvalidData else RcOk;
      } else {
        status := BadProc;
      }
    }
  }

  lemma AnswerPacked(s: State, r: FileRequest, mask: Mask)
    requires LocalToRemoteFiles in mask && Packable(OnFileRequest(s, r, mask))
    ensures Answer(s.files, r).Ok? ==> |Answer(s.files, r).value| <= UINT32_MAX - 20
  {
    if Answer(s.files, r).Ok? {
      var o := FileResponseOut(FileResponse(CB_RESPONSE_OK, r.streamId, Answer(s.files, r).value));
      assert OnFileRequest(s, r, mask).outs == [o];
      assert Sendable(PacketOf(o));
    }
  }

  lemma NothingWired()
    ensures Wires([]) == []
  {
  }

  function Two(a: u16, b: u16): (t: bytes)
    ensures |t| == 4
  {
    Le16(a) + Le16(b)
  }

  lemma CapsInPairs(version: u32, flags: u32)
    ensures EncodeCaps(version, flags) ==
      Two(1, 0) + Two(CB_CAPSTYPE_GENERAL, CB_CAPSTYPE_GENERAL_LEN) + Le32(version) + Le32(flags)
  {
  }

  ghost predicate Progress(whole: (seq<u32>, Status), seen: seq<u32>, left: (seq<u32>, Status)) {
    whole == (seen + left.0, left.1)
  }

  // The loop takes the flag word of the set under the cursor, or stops with its error.
  lemma ProgressStep(whole: (seq<u32>, Status), seen: seq<u32>, b: bytes, count: nat)
    requires count > 0 && Progress(whole, seen, ParseSets(b, count))
    ensures match ParseSet(b)
      case Err(status) => whole == (seen, status)
      case Ok(flags) => Progress(whole, seen + [flags], ParseSets(b[12..], count - 1))
  {
    match ParseSet(b) {
      case Err(_) => assert seen + [] == seen;
      case Ok(flags) =>
        var left := ParseSets(b[12..], count - 1);
        assert seen + ([flags] + left.0) == (seen + [flags]) + left.0;
    }
  }

  lemma HeaderRead(b: bytes)
    requires |b| >= 8
    ensures b[2..][2..] == b[4..] && b[4..][4..] == b[8..]
  {
  }

  lemma FilterShrinks(fs: seq<Format>, mask: Mask, check: Mask)
    ensures |Filter(fs, mask, check)| <= |fs|
  {
    SelectShrinks(fs, true);
    SelectShrinks(fs, false);
  }
}
