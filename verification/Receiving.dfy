/**
 What one message does, stated on its bytes: for each type of packet, what goes
 out, what is handed on and what is remembered.
 */
module Receiving {
  import opened Wire
  import opened Pdu
  import opened FormatList
  import opened FormatFilter
  import opened Capabilities
  import opened Serving
  import opened Session

  // A message of a type, with any flags and body.
  function Message(msgType: u16, msgFlags: u16, body: bytes): bytes { Encode(Packet(msgType, msgFlags, body)) }

  lemma MessageIs(msgType: u16, msgFlags: u16, body: bytes)
    requires |body| <= UINT32_MAX - 16
    ensures ParseHeader(Message(msgType, msgFlags, body)) == Ok(Received(msgType, msgFlags, |body|, body))
    ensures body[..|body|] == body
  {
    ParseHeaderOfEncode(Packet(msgType, msgFlags, body));
  }

  // ---- the header --------------------------------------------------------------------------

  // The number in four bytes from a place on, least significant first.
  function At32(b: bytes, i: nat): nat
    requires i + 4 <= |b|
  {
    b[i] as int + 256 * (b[i + 1] as int + 256 * (b[i + 2] as int + 256 * b[i + 3] as int))
  }

  /** A message is looked at exactly when it has eight bytes and as many more as they announce. */
  lemma HeaderAccepted(b: bytes)
    ensures ParseHeader(b).Ok? <==> |b| >= 8 && At32(b, 4) <= |b| - 8
    ensures ParseHeader(b).Ok? ==>
      var m := ParseHeader(b).value;
      m.msgType == b[0] as int + 256 * b[1] as int && m.msgFlags == b[2] as int + 256 * b[3] as int &&
      m.dataLen == At32(b, 4) && m.rest == b[8..]
  {
  }

  /** Anything else is an error, and changes nothing. */
  lemma BrokenHeader(s: State, b: bytes, mask: Mask)
    requires |b| < 8 || At32(b, 4) > |b| - 8
    ensures Receive(s, b, mask) == Effect(s, [], [], InvalidData)
  {
    HeaderAccepted(b);
  }

  // ---- format lists ---------------------------------------------------------------------------

  // The id asked for is that of a most preferred kept format; it is remembered, with its name.
  ghost predicate AsksForBest(s: State, e: Effect, kept: seq<Format>) {
    if exists i | 0 <= i < |kept| :: Preference(kept[i]) < 4
    then
      exists i | 0 <= i < |kept| ::
        IsChosen(kept, i, e.state.wanted) && e.outs == [DataRequestOut(kept[i].id)] &&
        e.state == s.(wanted := e.state.wanted)
    else e.outs == [] && e.state == s
  }

  lemma KeptMeansAllowed(fs: seq<Format>, mask: Mask)
    requires Keep(fs, mask, RemoteToLocal, RemoteToLocalFiles) != []
    ensures mask * {RemoteToLocal, RemoteToLocalFiles} != {}
  {
    var kept := Keep(fs, mask, RemoteToLocal, RemoteToLocalFiles);
    KeepIsExact(fs, mask, RemoteToLocal, RemoteToLocalFiles);
    assert kept[0] in kept;
    var bit := BitOf(kept[0], RemoteToLocal, RemoteToLocalFiles);
    assert bit in mask * {RemoteToLocal, RemoteToLocalFiles};
  }

  lemma OnListExactly(s: State, fs: seq<Format>, mask: Mask)
    ensures var e, kept := OnList(s, fs, mask), Keep(fs, mask, RemoteToLocal, RemoteToLocalFiles);
      e.status == RcOk && e.handed == (if kept == [] then [] else [HandedList(kept)]) && AsksForBest(s, e, kept)
  {
    hide Filter, Keep, Choose, IsChosen, Preference;
    var e, kept := OnList(s, fs, mask), Keep(fs, mask, RemoteToLocal, RemoteToLocalFiles);
    FilterIsKeep(fs, mask, RemoteToLocal, RemoteToLocalFiles);
    if kept != [] {
      KeptMeansAllowed(fs, mask);
      ChoiceIsBest(kept);
      PreferencesBounded(kept);
      if Choose(kept).Some? {
        var i :| 0 <= i < |kept| && IsChosen(kept, i, Choose(kept).value);
        assert kept[i].id == Choose(kept).value.id by { ChosenId(kept, i, Choose(kept).value); }
        assert e.state.wanted == Choose(kept).value && e.outs == [DataRequestOut(kept[i].id)];
      }
    }
  }

  lemma ChosenId(fs: seq<Format>, i: nat, c: Format)
    requires i < |fs| && IsChosen(fs, i, c)
    ensures fs[i].id == c.id
  {
  }

  lemma PreferencesBounded(fs: seq<Format>)
    ensures forall i | 0 <= i < |fs| :: Preference(fs[i]) <= 4
  {
  }

  /** A list in the form in force, wide or ASCII, is handed on without what the mask forbids, unless
      nothing is left; and the most preferred of what is left is asked for, if any of it is wanted. */
  lemma ListReceived(s: State, msgFlags: u16, fs: seq<Format>, mask: Mask)
    requires Plain(fs)
    requires var ascii := !s.features.long && msgFlags / 4 % 2 == 1; |EncodeList(fs, s.features.long, ascii)| <= UINT32_MAX - 16
    ensures var long := s.features.long;
      var ascii := !long && msgFlags / 4 % 2 == 1;
      var e := Receive(s, Message(2, msgFlags, EncodeList(fs, long, ascii)), mask);
      var kept := Keep(CarriedAll(fs, long, ascii), mask, RemoteToLocal, RemoteToLocalFiles);
      e.status == RcOk && e.handed == (if kept == [] then [] else [HandedList(kept)]) && AsksForBest(s, e, kept)
  {
    hide OnList, EncodeList, CarriedAll, Keep, AsksForBest, Plain;
    var long := s.features.long;
    var ascii := !long && msgFlags / 4 % 2 == 1;
    var body := EncodeList(fs, long, ascii);
    MessageIs(2, msgFlags, body);
    if long {
      LongRoundTrip(fs);
      assert DecodeList(body, true, AsciiNames(msgFlags)) == DecodeList(body, true, false);
    } else {
      ShortRoundTrip(fs, ascii);
    }
    OnListExactly(s, CarriedAll(fs, long, ascii), mask);
  }

  /** A list the reader refuses is an error, which one by form and length, and changes nothing. */
  lemma ListRefused(s: State, msgFlags: u16, body: bytes, mask: Mask)
    requires |body| <= UINT32_MAX - 16
    requires DecodeList(body, s.features.long, msgFlags / 4 % 2 == 1).Err?
    ensures var e := Receive(s, Message(2, msgFlags, body), mask);
      e == Effect(s, [], [], if !s.features.long && |body| < 36 then NoMemory else InternalError)
  {
    hide DecodeList;
    MessageIs(2, msgFlags, body);
    ErrorOfList(body, s.features.long, msgFlags / 4 % 2 == 1);
  }

  lemma ErrorOfList(b: bytes, long: bool, ascii: bool)
    ensures var r := DecodeList(b, long, ascii);
      r.Err? ==> r.status == if !long && |b| < 36 then NoMemory else InternalError
  {
  }

  /** The reply to a list changes nothing, whatever it says. */
  lemma ListReplyReceived(s: State, msgFlags: u16, body: bytes, mask: Mask)
    requires |body| <= UINT32_MAX - 16
    ensures Receive(s, Message(3, msgFlags, body), mask) == Effect(s, [], [], RcOk)
  {
    MessageIs(3, msgFlags, body);
  }

  // ---- data requests and responses ----------------------------------------------------------------

  ghost predicate ToRemote(mask: Mask) { LocalToRemote in mask || LocalToRemoteFiles in mask }

  ghost predicate ToLocal(mask: Mask) { RemoteToLocal in mask || RemoteToLocalFiles in mask }

  /** A data request is refused if too short; answered with one error packet if nothing may go to the
      remote side; else its id is remembered and handed on. */
  lemma DataRequestReceived(s: State, msgFlags: u16, body: bytes, mask: Mask)
    requires |body| <= UINT32_MAX - 16
    ensures Receive(s, Message(4, msgFlags, body), mask) ==
      if |body| < 4 then Effect(s, [], [], InvalidData)
      else if !ToRemote(mask) then Effect(s, [ErrorOut(5)], [], RcOk)
      else Effect(s.(lastRequestedId := At32(body, 0)), [], [HandedDataRequest(At32(body, 0))], RcOk)
  {
    MessageIs(4, msgFlags, body);
    assert LocalToRemote in mask ==> LocalToRemote in mask * {LocalToRemote, LocalToRemoteFiles};
    assert LocalToRemoteFiles in mask ==> LocalToRemoteFiles in mask * {LocalToRemote, LocalToRemoteFiles};
  }

  /** A data response is handed on with its flags and data, or dropped. */
  lemma DataResponseReceived(s: State, msgFlags: u16, body: bytes, mask: Mask)
    requires |body| <= UINT32_MAX - 16
    ensures Receive(s, Message(5, msgFlags, body), mask) ==
      Effect(s, [], if ToLocal(mask) then [HandedDataResponse(msgFlags, body)] else [], RcOk)
  {
    MessageIs(5, msgFlags, body);
    assert RemoteToLocal in mask ==> RemoteToLocal in mask * {RemoteToLocal, RemoteToLocalFiles};
    assert RemoteToLocalFiles in mask ==> RemoteToLocalFiles in mask * {RemoteToLocal, RemoteToLocalFiles};
  }

  // ---- file requests and responses ------------------------------------------------------------------

  // A file contents request as its bytes say it.
  function RequestAt(b: bytes): FileRequest
    requires |b| >= 24
  {
    FileRequest(At32(b, 0), At32(b, 4), At32(b, 8), At32(b, 12), At32(b, 16), At32(b, 20),
                if |b| >= 28 then Some(At32(b, 24)) else None)
  }

  lemma FieldsAreAt(b: bytes)
    requires |b| >= 24
    ensures FileRequestFields(b) == RequestAt(b)
  {
  }

  // Asks for the size (an odd byte 8) of anything but eight bytes from the beginning.
  ghost predicate BadSizeRequest(b: bytes)
    requires |b| >= 24
  {
    b[8] % 2 == 1 && b[12..24] != [0, 0, 0, 0, 0, 0, 0, 0, 8, 0, 0, 0]
  }

  lemma BadIsInvalid(b: bytes)
    requires |b| >= 24
    ensures BadSizeRequest(b) <==> !ValidFileRequest(RequestAt(b))
  {
    if At32(b, 12) == 0 && At32(b, 16) == 0 && At32(b, 20) == 8 {
      assert b[12..24] == [0, 0, 0, 0, 0, 0, 0, 0, 8, 0, 0, 0];
    }
    if b[12..24] == [0, 0, 0, 0, 0, 0, 0, 0, 8, 0, 0, 0] {
      forall i | 0 <= i < 12
        ensures b[12 + i] == b[12..24][i]
      {
      }
    }
  }

  /** A file request is refused if too short or if it is a bad size request; answered with one error
      packet if files may not go to the remote side; else handed on, and answered at once with the
      data asked for under its id, or, if there is none, with nothing and an error. */
  lemma FileRequestReceived(s: State, msgFlags: u16, body: bytes, mask: Mask)
    requires |body| <= UINT32_MAX - 16
    ensures var e := Receive(s, Message(8, msgFlags, body), mask);
      if |body| < 24 then e == Effect(s, [], [], InvalidData)
      else if BadSizeRequest(body) then e == Effect(s, [], [], BadArguments)
      else if LocalToRemoteFiles !in mask then e == Effect(s, [ErrorOut(9)], [], RcOk)
      else
        var r := RequestAt(body);
        e.state == s && e.handed == [HandedFileRequest(r)] &&
        match Answer(s.files, r)
        case Err(_) => e.outs == [] && e.status == ResponseFail
        case Ok(data) => e.outs == [FileResponseOut(FileResponse(1, r.streamId, data))] && e.status == RcOk
  {
    hide Answer, FileRequestFields, RequestAt, ValidFileRequest, BadSizeRequest, Unanswerable;
    MessageIs(8, msgFlags, body);
    if |body| >= 24 {
      FieldsAreAt(body);
      BadIsInvalid(body);
      AnswerFails(s.files, RequestAt(body));
    }
  }

  /** A file response is refused if it holds no stream id, else handed on with its flags and data. */
  lemma FileResponseReceived(s: State, msgFlags: u16, body: bytes, mask: Mask)
    requires |body| <= UINT32_MAX - 16
    ensures Receive(s, Message(9, msgFlags, body), mask) ==
      if |body| < 4 then Effect(s, [], [], InvalidData)
      else Effect(s, [], [HandedFileResponse(FileResponse(msgFlags, At32(body, 0), body[4..]))], RcOk)
  {
    MessageIs(9, msgFlags, body);
  }

  /** A lock or unlock changes nothing here, and must name its data; any other type is unknown. */
  lemma OthersReceived(s: State, msgType: u16, msgFlags: u16, body: bytes, mask: Mask)
    requires |body| <= UINT32_MAX - 16 && msgType !in {1, 2, 3, 4, 5, 7, 8, 9}
    ensures Receive(s, Message(msgType, msgFlags, body), mask) ==
      Effect(s, [], [], if msgType !in {10, 11} then BadProc else if |body| < 4 then InvalidData else RcOk)
  {
    MessageIs(msgType, msgFlags, body);
  }

  // ---- capabilities and the handshake ------------------------------------------------------------------

  // One capability set as bytes: type, length, version, flags.
  function SetOf(kind: u16, length: u16, version: u32, flags: u32): bytes { Le16(kind) + Le16(length) + Le32(version) + Le32(flags) }

  // Any number of general sets, each with its version and flags; they are read as twelve bytes each.
  function SetsOf(words: seq<(u32, u32)>): bytes {
    if words == [] then [] else SetOf(1, 12, words[0].0, words[0].1) + SetsOf(words[1..])
  }

  function FlagsOf(words: seq<(u32, u32)>): seq<u32> { seq(|words|, i requires 0 <= i < |words| => words[i].1) }

  lemma OneSet(kind: u16, length: u16, version: u32, flags: u32, rest: bytes)
    ensures ParseSet(SetOf(kind, length, version, flags) + rest) ==
      if length < 4 || length > 12 + |rest| then Err(InvalidData) else if kind != 1 then Err(BadProc) else Ok(flags)
    ensures (SetOf(kind, length, version, flags) + rest)[12..] == rest
  {
    hide Le16, Le32, Get16, Get32;
    var t3 := Le32(flags) + rest;
    var t2 := Le32(version) + t3;
    var t1 := Le16(length) + t2;
    var b := SetOf(kind, length, version, flags) + rest;
    assert b == Le16(kind) + t1;
    Get16OfLe16(kind, t1);
    Get16OfLe16(length, t2);
    Get32OfLe32(flags, rest);
    assert b[2..] == t1 && b[4..] == t2 && b[8..] == t3;
  }

  lemma {:induction false} ManySets(words: seq<(u32, u32)>, count: nat, rest: bytes)
    requires count >= |words|
    ensures ParseSets(SetsOf(words) + rest, count) == Behind(FlagsOf(words), ParseSets(rest, count - |words|))
  {
    hide ParseSet, ParseSets, SetOf, FlagsOf;
    if words == [] {
      assert SetsOf(words) + rest == rest;
      NoFlags(ParseSets(rest, count));
    } else {
      var tail := SetsOf(words[1..]) + rest;
      var b := SetOf(1, 12, words[0].0, words[0].1) + tail;
      assert SetsOf(words) + rest == b;
      OneSet(1, 12, words[0].0, words[0].1, tail);
      ManySets(words[1..], count - 1, rest);
      FirstSet(b, count);
      MoreFlags(words, ParseSets(rest, count - |words|));
    }
  }

  function Behind(flags: seq<u32>, parsed: (seq<u32>, Status)): (seq<u32>, Status) { (flags + parsed.0, parsed.1) }

  lemma NoFlags(parsed: (seq<u32>, Status))
    ensures Behind(FlagsOf([]), parsed) == parsed
  {
    assert FlagsOf([]) == [];
    assert [] + parsed.0 == parsed.0;
  }

  lemma MoreFlags(words: seq<(u32, u32)>, parsed: (seq<u32>, Status))
    requires words != []
    ensures Behind([words[0].1], Behind(FlagsOf(words[1..]), parsed)) == Behind(FlagsOf(words), parsed)
  {
    assert FlagsOf(words) == [words[0].1] + FlagsOf(words[1..]);
    assert [words[0].1] + (FlagsOf(words[1..]) + parsed.0) == FlagsOf(words) + parsed.0;
  }

  lemma FirstSet(b: bytes, count: nat)
    requires count > 0 && ParseSet(b).Ok?
    ensures ParseSets(b, count) == Behind([ParseSet(b).value], ParseSets(b[12..], count - 1))
  {
    var flags := ParseSet(b).value;
    var (more, status) := ParseSets(b[12..], count - 1);
    assert ParseSets(b, count) == ([flags] + more, status);
  }

  // The flag word is the sum of the bits of its features, bit 0 and what is above bit 5.
  ghost predicate BitsAre(flags: u32, f: Features) {
    flags == flags % 2 + 2 * Bit(f.long) + 4 * Bit(f.stream) + 8 * Bit(f.noPaths) + 16 * Bit(f.lock) + 32 * Bit(f.huge) +
      64 * (flags / 64)
  }

  lemma FeaturesAreBits(flags: u32)
    ensures BitsAre(flags, FeaturesOf(flags))
  {
    hide FeaturesOf;
    Decompose(flags);
  }

  // A capability packet: the number of sets, padding, the general ones, and at most one other.
  function CapsBody(words: seq<(u32, u32)>, bad: Option<(u16, u16)>): bytes
    requires |words| < 0xFFFF
  {
    Le16(|words| + if bad.None? then 0 else 1) + Le16(0) + SetsOf(words) +
    if bad.None? then [] else SetOf(bad.value.0, bad.value.1, 0, 0)
  }

  ghost predicate IsBad(bad: Option<(u16, u16)>) { bad.Some? ==> bad.value.0 != 1 || bad.value.1 < 4 || bad.value.1 > 12 }

  function BadStatus(bad: Option<(u16, u16)>): Status {
    if bad.None? then RcOk else if bad.value.1 < 4 || bad.value.1 > 12 then InvalidData else BadProc
  }

  lemma CapsParsed(words: seq<(u32, u32)>, bad: Option<(u16, u16)>)
    requires |words| < 0xFFFF && IsBad(bad)
    ensures ParseCaps(CapsBody(words, bad)) == (FlagsOf(words), BadStatus(bad))
    ensures |CapsBody(words, bad)| <= 12 * |words| + 16
  {
    hide Le16, Get16, SetOf, SetsOf, ParseSet, ParseSets;
    var rest := if bad.None? then [] else SetOf(bad.value.0, bad.value.1, 0, 0);
    var count := |words| + if bad.None? then 0 else 1;
    var body := CapsBody(words, bad);
    SetsLength(words);
    assert |rest| <= 12 by { SetLength(); }
    assert body == Le16(count) + (Le16(0) + (SetsOf(words) + rest));
    Get16OfLe16(count, Le16(0) + (SetsOf(words) + rest));
    assert body[4..] == SetsOf(words) + rest;
    ManySets(words, count, rest);
    if bad.None? {
      NoSets(rest);
    } else {
      OneSet(bad.value.0, bad.value.1, 0, 0, []);
      assert rest + [] == rest;
      BadSet(rest);
    }
    assert FlagsOf(words) + [] == FlagsOf(words);
  }

  /** A packet of general sets puts the last flag word in force; a set of another type or length
      behind them is an error that undoes none of them. */
  lemma CapsReceived(s: State, msgFlags: u16, words: seq<(u32, u32)>, bad: Option<(u16, u16)>, mask: Mask)
    requires |words| < 0xFFFF && IsBad(bad)
    ensures var e := Receive(s, Message(7, msgFlags, CapsBody(words, bad)), mask);
      e.outs == [] && e.handed == [] && e.status == BadStatus(bad) &&
      e.state.(received := s.received, features := s.features) == s &&
      (if words == [] then e.state == s
       else e.state.received && BitsAre(words[|words| - 1].1, e.state.features))
  {
    hide CapsBody, BadStatus, FeaturesOf, BitsAre, ParseCaps, Message;
    CapsParsed(words, bad);
    MessageIs(7, msgFlags, CapsBody(words, bad));
    if words != [] {
      FeaturesAreBits(words[|words| - 1].1);
    }
  }

  lemma NoSets(b: bytes)
    ensures ParseSets(b, 0) == ([], RcOk)
  {
  }

  lemma BadSet(b: bytes)
    requires ParseSet(b).Err?
    ensures ParseSets(b, 1) == ([], ParseSet(b).status)
  {
  }

  lemma SetLength()
    ensures forall kind, length, version, flags :: |SetOf(kind, length, version, flags)| == 12
  {
  }

  lemma {:induction false} SetsLength(words: seq<(u32, u32)>)
    ensures |SetsOf(words)| == 12 * |words|
  {
    if words != [] {
      SetsLength(words[1..]);
    }
  }

  /** A monitor ready, whatever it carries, is answered with exactly two packets: capabilities of
      version 2 whose features are those allowed among long names, streamed files and no file
      paths, all other bits those of 14; and an empty list in the form just agreed on. */
  lemma ReadyReceived(s: State, msgFlags: u16, body: bytes, mask: Mask)
    requires |body| <= UINT32_MAX - 16
    ensures var e := Receive(s, Message(1, msgFlags, body), mask);
      var f := if s.received then s.features else Features(false, false, true, false, false);
      var agreed := Features(f.long, f.stream, f.noPaths, false, false);
      e.status == RcOk && e.handed == [] && |e.outs| == 2 &&
      e.outs[0].CapsOut? && e.outs[0].version == 2 && BitsAre(e.outs[0].flags, agreed) &&
      e.outs[0].flags % 2 == 0 && e.outs[0].flags < 64 &&
      e.outs[1] == ListOut([], agreed.long) &&
      e.state == s.(features := agreed, initialListSent := true)
  {
    hide FeaturesOf, Negotiate, Filter, BitsAre;
    MessageIs(1, msgFlags, body);
    var d := WithDefaults(s);
    OfferedFeatures();
    NegotiateIsConjunction(d.features, OFFERED);
    FeaturesAreBits(Negotiate(d.features, OFFERED));
    assert Filter([], mask, {LocalToRemote, LocalToRemoteFiles}) == [] by { FilterNothing(mask); }
  }

  lemma FilterNothing(mask: Mask)
    ensures Filter([], mask, {LocalToRemote, LocalToRemoteFiles}) == []
  {
  }

  // ---- what the client starts -------------------------------------------------------------------------

  /** A list goes out without what the mask forbids, in the form in force; an empty one only if none
      has gone out since the last capability reply. */
  lemma ListStarted(s: State, fs: seq<Format>, mask: Mask)
    ensures var kept := Keep(fs, mask, LocalToRemote, LocalToRemoteFiles);
      SendList(s, fs, mask) ==
        if kept == [] && s.initialListSent then Effect(s, [], [], RcOk)
        else Effect(s.(initialListSent := true), [ListOut(kept, s.features.long)], [], RcOk)
  {
    hide Filter, Keep;
    FilterIsKeep(fs, mask, LocalToRemote, LocalToRemoteFiles);
  }

  /** A data request goes out under its id if anything may come from the remote side. */
  lemma DataRequestStarted(s: State, id: u32, mask: Mask)
    ensures SendDataRequest(s, id, mask) == Effect(s, if ToLocal(mask) then [DataRequestOut(id)] else [], [], RcOk)
  {
    assert RemoteToLocal in mask ==> RemoteToLocal in mask * {RemoteToLocal, RemoteToLocalFiles};
    assert RemoteToLocalFiles in mask ==> RemoteToLocalFiles in mask * {RemoteToLocal, RemoteToLocalFiles};
  }

  /** A file request goes out as built if files may come from the remote side; without huge-file
      support one that reaches past 2^32 - 1, or begins there, is refused. */
  lemma FileRequestStarted(s: State, r: FileRequest, mask: Mask)
    ensures SendFileRequest(s, r, mask) ==
      if RemoteToLocalFiles !in mask then Effect(s, [], [], RcOk)
      else if !s.features.huge &&
              (r.positionHigh > 0 || r.positionLow as int + r.cbRequested as int >= 0x1_0000_0000)
      then Effect(s, [], [], InvalidParameter)
      else Effect(s, [FileRequestOut(r)], [], RcOk)
  {
  }

  /** A file response goes out as built, or an error packet in its place. */
  lemma FileResponseStarted(s: State, r: FileResponse, mask: Mask)
    ensures SendFileResponse(s, r, mask) ==
      Effect(s, [if LocalToRemoteFiles in mask then FileResponseOut(r) else ErrorOut(9)], [], RcOk)
  {
  }

  // ---- the bytes of what goes out -----------------------------------------------------------------------

  // A number in four bytes, least significant first.
  function Four(x: u32): bytes { [x % 256, x / 0x100 % 256, x / 0x1_0000 % 256, x / 0x100_0000] }

  function Two(x: u16): bytes { [x % 256, x / 256] }

  // A packet as bytes: type and flags, each in two, the length of the body in four, the body.
  function Image(msgType: byte, msgFlags: u16, body: bytes): bytes
    requires |body| < 0x1_0000_0000
  {
    [msgType, 0] + Two(msgFlags) + Four(|body|) + body
  }

  function RequestBytes(r: FileRequest): bytes {
    Four(r.streamId) + Four(r.listIndex) + Four(r.dwFlags) + Four(r.positionLow) + Four(r.positionHigh) +
    Four(r.cbRequested) + if r.clipDataId.Some? then Four(r.clipDataId.value) else []
  }

  lemma RequestBytesAre(r: FileRequest)
    ensures EncodeFileRequest(r) == RequestBytes(r)
  {
    hide Le32, Four;
    FoursAre();
  }

  lemma FoursAre()
    ensures forall x: u32 :: Le32(x) == Four(x)
    ensures forall x: u16 :: Le16(x) == Two(x)
  {
  }

  lemma PacketImage(p: Packet)
    requires Sendable(p) && p.msgType < 256
    ensures Encode(p) == Image(p.msgType, p.msgFlags, p.body)
  {
    hide Le16, Le32, Two, Four;
    FoursAre();
    assert Two(p.msgType) == [p.msgType, 0] by { SmallTwo(); }
  }

  /** The images of all packets that go out but lists, whose bodies are the records in order. */
  lemma OutImages(o: Out)
    requires Sendable(PacketOf(o)) && (o.ErrorOut? ==> o.msgType < 256)
    ensures Encode(PacketOf(o)) ==
      match o
      case CapsOut(version, flags) => Image(7, 0, [1, 0, 0, 0, 1, 0, 12, 0] + Four(version) + Four(flags))
      case ListOut(fs, long) => Image(2, 0, EncodeList(fs, long, false))
      case DataRequestOut(id) => Image(4, 0, Four(id))
      case DataResponseOut(flags, data) => Image(5, flags, data)
      case FileRequestOut(r) => Image(8, 0, RequestBytes(r))
      case FileResponseOut(r) => Image(9, r.msgFlags, Four(r.streamId) + r.data)
      case ErrorOut(msgType) => [msgType, 0, 2, 0, 0, 0, 0, 0]
  {
    hide Encode, Image, EncodeList, EncodeFileRequest, RequestBytes, Le16, Le32, EncodeCaps, Two, Four;
    PacketImage(PacketOf(o));
    FoursAre();
    match o {
      case CapsOut(version, flags) =>
        CapsRoundTrip(version, flags);
        var b := EncodeCaps(version, flags);
        assert b == b[..8] + b[8..12] + b[12..];
      case FileRequestOut(r) => RequestBytesAre(r);
      case ErrorOut(msgType) => ErrorImage(msgType);
      case _ =>
    }
  }

  lemma ErrorImage(msgType: byte)
    ensures Image(msgType, 2, []) == [msgType, 0, 2, 0, 0, 0, 0, 0]
  {
  }

  lemma SmallTwo()
    ensures forall t: byte :: Two(t) == [t, 0]
  {
  }

  /** The eight bytes that answer a size request, and what the asking side reads in eight or more:
      the low half first, each half least significant byte first. */
  lemma SizeImage(n: u64, b: bytes)
    ensures Le64(n) == Four(n % 0x1_0000_0000) + Four(n / 0x1_0000_0000)
    ensures |b| >= 8 ==> Get64(b) == At32(b, 0) + 0x1_0000_0000 * At32(b, 4)
  {
  }

  // The records of a list: id, and the name in wide units with NULs behind it.
  function WideUnits(u: Name): bytes {
    if u == [] then [] else [u[0] % 256, u[0] / 256] + WideUnits(u[1..])
  }

  lemma {:induction false} WideUnitsAre(u: Name)
    ensures Image16(u) == WideUnits(u)
  {
    if u != [] {
      WideUnitsAre(u[1..]);
      var b := Image16(u);
      assert b == [b[0], b[1]] + b[2..];
      assert b[2..] == Image16(u[1..]);
    }
  }

  function Nuls(n: nat): bytes { seq(n, _ => 0) }

  /** A long name goes out whole with one NUL, a short one cut to 15 units and filled to 16. */
  lemma RecordImage(f: Format, long: bool)
    ensures EncodeRecord(f, long, false) ==
      var u := Text(f);
      Four(f.id) +
      if long then WideUnits(u) + Nuls(2)
      else if |u| >= 16 then WideUnits(u[..15]) + Nuls(2)
      else WideUnits(u) + Nuls(32 - 2 * |u|)
  {
    hide Le32, Four;
    FoursAre();
    var u := Text(f);
    var kept := Kept(u, long, false);
    WideUnitsAre(kept);
    assert u[..|u|] == u;
    if kept == [] {
      assert u == [] && WideUnits(u) == [];
      assert [] + Nuls(2) == Nuls(2) && [] + Nuls(32) == Nuls(32);
    }
  }
}
