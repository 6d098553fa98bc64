/**
 The clipboard channel session: capability reply, direction gating, the
 empty-list rule and the dispatch of received messages.
 */
module Session {
  import opened Wire
  import opened Pdu
  import opened FormatList
  import opened FormatFilter
  import opened Capabilities
  import opened Serving

  datatype State = State(
    received: bool,             // a server capability set has been seen
    features: Features,
    initialListSent: bool,
    wanted: Format,             // the format last asked for, with the name remembered for it
    lastRequestedId: u32,       // the format the server last asked for
    files: seq<Served>)         // the files copied on this side

  const START := State(false, Features(false, false, false, false, false), false, Format(0, None), 0, [])

  // What goes out on the channel.
  datatype Out =
    | CapsOut(version: u32, flags: u32)
    | ListOut(formats: seq<Format>, long: bool)
    | DataRequestOut(id: u32)
    | DataResponseOut(msgFlags: u16, data: bytes)
    | FileRequestOut(request: FileRequest)
    | FileResponseOut(response: FileResponse)
    | ErrorOut(msgType: u16)

  // What is handed to the client's callbacks.
  datatype Handed =
    | HandedList(formats: seq<Format>)
    | HandedDataRequest(id: u32)
    | HandedDataResponse(msgFlags: u16, data: bytes)
    | HandedFileRequest(request: FileRequest)
    | HandedFileResponse(response: FileResponse)

  datatype Effect = Effect(state: State, outs: seq<Out>, handed: seq<Handed>, status: Status)

  function PacketOf(o: Out): Packet {
    match o
    case CapsOut(version, flags) => Packet(CB_CLIP_CAPS, 0, EncodeCaps(version, flags))
    case ListOut(fs, long) => Packet(CB_FORMAT_LIST, 0, EncodeList(fs, long, false))
    case DataRequestOut(id) => Packet(CB_FORMAT_DATA_REQUEST, 0, Le32(id))
    case DataResponseOut(flags, data) => Packet(CB_FORMAT_DATA_RESPONSE, flags, data)
    case FileRequestOut(r) => Packet(CB_FILECONTENTS_REQUEST, 0, EncodeFileRequest(r))
    case FileResponseOut(r) => FileResponsePacket(r)
    case ErrorOut(msgType) => Packet(msgType, CB_RESPONSE_FAIL, [])
  }

  // What goes out fits a packet, as the sender asserts.
  ghost predicate Packable(e: Effect) { forall o | o in e.outs :: Sendable(PacketOf(o)) }

  // ---- what the client sends -------------------------------------------------------

  function Quietly(s: State, status: Status): Effect { Effect(s, [], [], status) }

  function Sending(s: State, o: Out): Effect { Effect(s, [o], [], RcOk) }

  function ReplyCaps(s: State, version: u32, offered: u32): Effect {
    var flags := Negotiate(s.features, offered);
    Sending(s.(features := FeaturesOf(flags), initialListSent := false), CapsOut(version, flags))
  }

  function SendList(s: State, fs: seq<Format>, mask: Mask): Effect {
    var filtered := Filter(fs, mask, {LocalToRemote, LocalToRemoteFiles});
    if filtered == [] && s.initialListSent then Quietly(s, RcOk)
    else Sending(s.(initialListSent := true), ListOut(filtered, s.features.long))
  }

  function SendDataRequest(s: State, id: u32, mask: Mask): Effect {
    if mask * {RemoteToLocal, RemoteToLocalFiles} == {} then Quietly(s, RcOk)
    else Sending(s, DataRequestOut(id))
  }

  // Without huge-file support no byte at or above 2^32 - 1 may be asked for.
  predicate BeyondLimit(r: FileRequest, huge: bool) {
    !huge && (r.cbRequested as int + r.positionLow as int > UINT32_MAX || r.positionHigh != 0)
  }

  function SendFileRequest(s: State, r: FileRequest, mask: Mask): Effect {
    if RemoteToLocalFiles !in mask then Quietly(s, RcOk)
    else if BeyondLimit(r, s.features.huge) then Quietly(s, InvalidParameter)
    else Sending(s, FileRequestOut(r))
  }

  function SendFileResponse(s: State, r: FileResponse, mask: Mask): Effect {
    Sending(s, if LocalToRemoteFiles !in mask then ErrorOut(CB_FILECONTENTS_RESPONSE) else FileResponseOut(r))
  }

  // ---- what the server sends ---------------------------------------------------------

  function ApplyCaps(s: State, flags: seq<u32>): State {
    if flags == [] then s else s.(received := true, features := FeaturesOf(flags[|flags| - 1]))
  }

  // Long names, streamed files, no file paths.
  const OFFERED: u32 := 14
  const CB_CAPS_VERSION_2: u32 := 2

  // A server that sent no capabilities gets the defaults; huge-file support is not among them.
  function WithDefaults(s: State): State {
    if s.received then s else s.(features := Features(false, false, true, false, s.features.huge))
  }

  // The client answers at once with its capabilities and an empty list.
  function OnMonitorReady(s: State, mask: Mask): Effect {
    var reply := ReplyCaps(WithDefaults(s), CB_CAPS_VERSION_2, OFFERED);
    var list := SendList(reply.state, [], mask);
    Effect(list.state, reply.outs + list.outs, [], list.status)
  }

  // The client picks a format out of the filtered list and asks for it.
  function OnList(s: State, fs: seq<Format>, mask: Mask): Effect {
    var filtered := Filter(fs, mask, {RemoteToLocal, RemoteToLocalFiles});
    if filtered == [] then Quietly(s, RcOk)
    else
      match Choose(filtered)
      case None => Effect(s, [], [HandedList(filtered)], RcOk)
      case Some(f) => SendDataRequest(s.(wanted := f), f.id, mask).(handed := [HandedList(filtered)])
  }

  function OnDataRequest(s: State, id: u32, mask: Mask): Effect {
    if mask * {LocalToRemote, LocalToRemoteFiles} == {} then Sending(s, ErrorOut(CB_FORMAT_DATA_RESPONSE))
    else Effect(s.(lastRequestedId := id), [], [HandedDataRequest(id)], RcOk)
  }

  function OnDataResponse(s: State, flags: u16, data: bytes, mask: Mask): Effect {
    if mask * {RemoteToLocal, RemoteToLocalFiles} == {} then Quietly(s, RcOk)
    else Effect(s, [], [HandedDataResponse(flags, data)], RcOk)
  }

  // The callback answers at once; its failure is the status of the message, and sends nothing.
  function OnFileRequest(s: State, r: FileRequest, mask: Mask): Effect {
    if LocalToRemoteFiles !in mask then Sending(s, ErrorOut(CB_FILECONTENTS_RESPONSE))
    else
      match Answer(s.files, r)
      case Err(status) => Effect(s, [], [HandedFileRequest(r)], status)
      case Ok(data) =>
        SendFileResponse(s, FileResponse(CB_RESPONSE_OK, r.streamId, data), mask).(handed := [HandedFileRequest(r)])
  }

  predicate AsciiNames(msgFlags: u16) { msgFlags / 4 % 2 == 1 }

  // One received message, header and all.
  function Receive(s: State, message: bytes, mask: Mask): Effect {
    match ParseHeader(message)
    case Err(status) => Quietly(s, status)
    case Ok(m) => Dispatch(s, m, mask)
  }

  function Dispatch(s: State, m: Received, mask: Mask): Effect
    requires m.dataLen <= |m.rest|
  {
    if m.msgType == CB_CLIP_CAPS then
      var (flags, status) := ParseCaps(m.rest);
      Quietly(ApplyCaps(s, flags), status)
    else if m.msgType == CB_MONITOR_READY then OnMonitorReady(s, mask)
    else if m.msgType == CB_FORMAT_LIST then
      match DecodeList(m.rest[..m.dataLen], s.features.long, AsciiNames(m.msgFlags))
      case Err(status) => Quietly(s, status)
      case Ok(fs) => OnList(s, fs, mask)
    else if m.msgType == CB_FORMAT_LIST_RESPONSE then Quietly(s, RcOk)
    else if m.msgType == CB_FORMAT_DATA_REQUEST then
      if |m.rest| < 4 then Quietly(s, InvalidData) else OnDataRequest(s, Get32(m.rest), mask)
    else if m.msgType == CB_FORMAT_DATA_RESPONSE then
      OnDataResponse(s, m.msgFlags, m.rest[..m.dataLen], mask)
    else if m.msgType == CB_FILECONTENTS_REQUEST then
      match DecodeFileRequest(m.rest)
      case Err(status) => Quietly(s, status)
      case Ok(r) => OnFileRequest(s, r, mask)
    else if m.msgType == CB_FILECONTENTS_RESPONSE then
      match DecodeFileResponse(m.msgFlags, m.dataLen, m.rest)
      case Err(status) => Quietly(s, status)
      case Ok(r) => Effect(s, [], [HandedFileResponse(r)], RcOk)
    else if m.msgType == CB_LOCK_CLIPDATA || m.msgType == CB_UNLOCK_CLIPDATA then
      Quietly(s, if |m.rest| < 4 then InvalidData else RcOk)
    else Quietly(s, BadProc)
  }

  // ---- runs ----------------------------------------------------------------------------

  datatype Event =
    | Arrives(message: bytes)
    | LocalFiles(files: seq<Served>)
    | LocalList(formats: seq<Format>)
    | LocalDataRequest(id: u32)
    | LocalDataResponse(msgFlags: u16, data: bytes)
    | LocalFileRequest(request: FileRequest)
    | LocalFileResponse(response: FileResponse)

  // A data response may be sent only where the sender's assertion holds.
  ghost predicate Allowed(e: Event, mask: Mask) {
    e.LocalDataResponse? ==> mask * {LocalToRemote, LocalToRemoteFiles} != {}
  }

  function Step(s: State, e: Event, mask: Mask): Effect {
    match e
    case Arrives(message) => Receive(s, message, mask)
    case LocalFiles(files) => Quietly(s.(files := files), RcOk)
    case LocalList(fs) => SendList(s, fs, mask)
    case LocalDataRequest(id) => SendDataRequest(s, id, mask)
    case LocalDataResponse(flags, data) => Sending(s, DataResponseOut(flags, data))
    case LocalFileRequest(r) => SendFileRequest(s, r, mask)
    case LocalFileResponse(r) => SendFileResponse(s, r, mask)
  }

  // A run: the final state, all that was sent and all that was handed on.
  function Run(s: State, es: seq<Event>, mask: Mask): Effect
    decreases |es|
  {
    if es == [] then Quietly(s, RcOk)
    else
      var before := Run(s, es[..|es| - 1], mask);
      var e := Step(before.state, es[|es| - 1], mask);
      Effect(e.state, before.outs + e.outs, before.handed + e.handed, e.status)
  }

  // ---- safety of every run ---------------------------------------------------------------

  ghost predicate FormatsPermitted(fs: seq<Format>, mask: Mask, data: Direction, file: Direction) {
    forall f | f in fs :: BitOf(f, data, file) in mask
  }

  ghost predicate OutPermitted(o: Out, mask: Mask) {
    match o
    case CapsOut(_, _) => true
    case ListOut(fs, _) => FormatsPermitted(fs, mask, LocalToRemote, LocalToRemoteFiles)
    case DataRequestOut(_) => RemoteToLocal in mask || RemoteToLocalFiles in mask
    case DataResponseOut(_, _) => LocalToRemote in mask || LocalToRemoteFiles in mask
    case FileRequestOut(_) => RemoteToLocalFiles in mask
    case FileResponseOut(_) => LocalToRemoteFiles in mask
    case ErrorOut(_) => true
  }

  ghost predicate HandedPermitted(h: Handed, mask: Mask) {
    match h
    case HandedList(fs) => fs != [] && FormatsPermitted(fs, mask, RemoteToLocal, RemoteToLocalFiles)
    case HandedDataRequest(_) => LocalToRemote in mask || LocalToRemoteFiles in mask
    case HandedDataResponse(_, _) => RemoteToLocal in mask || RemoteToLocalFiles in mask
    case HandedFileRequest(_) => LocalToRemoteFiles in mask
    case HandedFileResponse(_) => true
  }

  // Has a list gone out since the last capability reply, or since the start?
  ghost predicate ListSince(outs: seq<Out>) {
    outs != [] &&
    var last := outs[|outs| - 1];
    (last.ListOut? || (!last.CapsOut? && ListSince(outs[..|outs| - 1])))
  }

  ghost predicate EmptyListsComeFirst(outs: seq<Out>) {
    forall i | 0 <= i < |outs| && outs[i].ListOut? && outs[i].formats == [] :: !ListSince(outs[..i])
  }

  ghost predicate Safe(e: Effect, mask: Mask) {
    && (forall i | 0 <= i < |e.outs| :: OutPermitted(e.outs[i], mask))
    && (forall i | 0 <= i < |e.handed| :: HandedPermitted(e.handed[i], mask))
  }

  lemma FilterPermits(fs: seq<Format>, mask: Mask, data: Direction, file: Direction)
    requires OneDirection(data, file)
    ensures FormatsPermitted(Filter(fs, mask, {data, file}), mask, data, file)
  {
    FilterIsKeep(fs, mask, data, file);
    KeepIsExact(fs, mask, data, file);
  }

  lemma SendListSafe(s: State, fs: seq<Format>, mask: Mask)
    ensures Safe(SendList(s, fs, mask), mask)
  {
    FilterPermits(fs, mask, LocalToRemote, LocalToRemoteFiles);
  }

  lemma OnListSafe(s: State, fs: seq<Format>, mask: Mask)
    ensures Safe(OnList(s, fs, mask), mask)
  {
    FilterPermits(fs, mask, RemoteToLocal, RemoteToLocalFiles);
  }

  lemma StepSafe(s: State, e: Event, mask: Mask)
    requires Allowed(e, mask)
    ensures Safe(Step(s, e, mask), mask)
  {
    hide FormatsPermitted, DecodeList, ParseCaps, DecodeFileRequest, DecodeFileResponse, Negotiate, FeaturesOf;
    match e {
      case Arrives(message) =>
        var parsed := ParseHeader(message);
        if parsed.Ok? {
          var m := parsed.value;
          if m.msgType == CB_MONITOR_READY {
            SendListSafe(ReplyCaps(WithDefaults(s), CB_CAPS_VERSION_2, OFFERED).state, [], mask);
          } else if m.msgType == CB_FORMAT_LIST {
            var fs := DecodeList(m.rest[..m.dataLen], s.features.long, AsciiNames(m.msgFlags));
            if fs.Ok? {
              OnListSafe(s, fs.value, mask);
            }
          }
        }
      case LocalList(fs) => SendListSafe(s, fs, mask);
      case _ =>
    }
  }

  /** Whatever the server and the client do, under a fixed mask nothing is sent, advertised or
      handed on without the bit of its direction and class. */
  lemma {:induction false} RunSafety(s: State, es: seq<Event>, mask: Mask)
    requires forall i | 0 <= i < |es| :: Allowed(es[i], mask)
    ensures Safe(Run(s, es, mask), mask)
    decreases |es|
  {
    hide Step, Allowed, OutPermitted, HandedPermitted;
    if es != [] {
      RunSafety(s, es[..|es| - 1], mask);
      StepSafe(Run(s, es[..|es| - 1], mask).state, es[|es| - 1], mask);
    }
  }

  // The ways one step touches the list flag.
  ghost predicate ListDiscipline(s: State, e: Effect) {
    || (e.outs == [] && e.state.initialListSent == s.initialListSent)
    || (|e.outs| == 1 && !e.outs[0].ListOut? && !e.outs[0].CapsOut? && e.state.initialListSent == s.initialListSent)
    || (|e.outs| == 1 && e.outs[0].ListOut? && e.state.initialListSent &&
        (e.outs[0].formats == [] ==> !s.initialListSent))
    || (|e.outs| == 2 && e.outs[0].CapsOut? && e.outs[1].ListOut? && e.state.initialListSent)
  }

  lemma StepDiscipline(s: State, e: Event, mask: Mask)
    ensures ListDiscipline(s, Step(s, e, mask))
  {
    hide Filter, Choose, DecodeList, ParseCaps, DecodeFileRequest, DecodeFileResponse, Negotiate, FeaturesOf;
  }

  lemma ListSinceAppend(outs: seq<Out>, o: Out)
    ensures ListSince(outs + [o]) <==> o.ListOut? || (!o.CapsOut? && ListSince(outs))
    ensures EmptyListsComeFirst(outs + [o]) <==>
      EmptyListsComeFirst(outs) && (o.ListOut? && o.formats == [] ==> !ListSince(outs))
  {
    var all := outs + [o];
    assert all[..|outs|] == outs;
    forall i | 0 <= i < |outs|
      ensures all[i] == outs[i] && all[..i] == outs[..i]
    {
    }
    if EmptyListsComeFirst(all) {
      assert all[|outs|] == o;
    }
  }

  /** In every run from the start the flag says whether a list has gone out since the last
      capability reply, and an empty list goes out only as the first one. */
  lemma {:induction false} EmptyListRule(es: seq<Event>, mask: Mask)
    ensures var e := Run(START, es, mask);
      e.state.initialListSent == ListSince(e.outs) && EmptyListsComeFirst(e.outs)
    decreases |es|
  {
    hide Step, ListSince, EmptyListsComeFirst;
    if es == [] {
      assert !ListSince([]) && EmptyListsComeFirst([]) by { EmptyTrace(); }
    } else {
      EmptyListRule(es[..|es| - 1], mask);
      var before := Run(START, es[..|es| - 1], mask);
      var e := Step(before.state, es[|es| - 1], mask);
      StepDiscipline(before.state, es[|es| - 1], mask);
      if e.outs == [] {
        assert before.outs + e.outs == before.outs;
      } else if |e.outs| == 1 {
        assert e.outs == [e.outs[0]];
        ListSinceAppend(before.outs, e.outs[0]);
      } else {
        assert before.outs + e.outs == (before.outs + [e.outs[0]]) + [e.outs[1]];
        ListSinceAppend(before.outs, e.outs[0]);
        ListSinceAppend(before.outs + [e.outs[0]], e.outs[1]);
      }
    }
  }

  lemma EmptyTrace()
    ensures !ListSince([]) && EmptyListsComeFirst([])
  {
  }

  // ---- negotiation over runs ---------------------------------------------------------------

  /** The reply carries, and the session keeps, exactly the features allowed and offered. */
  lemma ReplyAgrees(s: State, version: u32, offered: u32)
    ensures var e := ReplyCaps(s, version, offered);
      e.state.features == Both(s.features, FeaturesOf(offered)) &&
      FeaturesOf(e.outs[0].flags) == e.state.features &&
      SameOtherBits(e.outs[0].flags, offered)
  {
    NegotiateIsConjunction(s.features, offered);
  }

  lemma OfferedFeatures()
    ensures FeaturesOf(OFFERED) == Features(true, true, true, false, false)
  {
  }

  // A further handshake would agree on the features already in force: each of them is still
  // the conjunction of what is allowed and what the client offers.
  ghost predicate Settled(s: State) { Both(WithDefaults(s).features, FeaturesOf(OFFERED)) == s.features }

  lemma HandshakeSettles(s: State, mask: Mask)
    ensures var once := OnMonitorReady(s, mask).state;
      Settled(once) && once.received == s.received &&
      once.features == Both(WithDefaults(s).features, FeaturesOf(OFFERED))
  {
    hide FeaturesOf, Negotiate, Filter;
    OfferedFeatures();
    NegotiateIsConjunction(WithDefaults(s).features, OFFERED);
  }

  /** A second monitor ready repeats the very same reply and changes nothing. */
  lemma HandshakeIsFixpoint(s: State, mask: Mask)
    ensures var once := OnMonitorReady(s, mask);
      OnMonitorReady(once.state, mask) == once
  {
    hide FeaturesOf, Negotiate, Filter, SameOtherBits;
    HandshakeSettles(s, mask);
    var d := WithDefaults(s);
    var once := OnMonitorReady(s, mask).state;
    NegotiateIsConjunction(d.features, OFFERED);
    NegotiateIsConjunction(WithDefaults(once).features, OFFERED);
    SameOthers(Negotiate(d.features, OFFERED), OFFERED, Negotiate(WithDefaults(once).features, OFFERED));
    SameBitsSameFlags(Negotiate(d.features, OFFERED), Negotiate(WithDefaults(once).features, OFFERED));
  }

  lemma SameOthers(a: u32, b: u32, c: u32)
    requires SameOtherBits(a, b) && SameOtherBits(c, b)
    ensures SameOtherBits(a, c)
  {
  }

  // ---- the features as a fold over the messages received ------------------------------------

  ghost predicate MessageArrives(e: Event, msgType: u16) {
    e.Arrives? && ParseHeader(e.message).Ok? && ParseHeader(e.message).value.msgType == msgType
  }

  ghost predicate CapsArrive(e: Event) { MessageArrives(e, CB_CLIP_CAPS) }

  ghost predicate ReadyArrives(e: Event) { MessageArrives(e, CB_MONITOR_READY) }

  // The last flag word of a capability packet, if it carries one at all.
  ghost function WordOf(e: Event): Option<u32>
    requires CapsArrive(e)
  {
    var words := ParseCaps(ParseHeader(e.message).value.rest).0;
    if words == [] then None else Some(words[|words| - 1])
  }

  // Has a server flag word been seen, what did the last handshake agree on, and what was the
  // last flag word since?
  datatype Standing = Standing(received: bool, agreed: Features, late: Option<u32>)

  function InForce(t: Standing): Features {
    if t.late.None? then t.agreed else FeaturesOf(t.late.value)
  }

  // Without any server word only "no file paths" is allowed, and huge files as they were.
  function Allowance(t: Standing): Features {
    if t.received then InForce(t) else Features(false, false, true, false, InForce(t).huge)
  }

  ghost function Advance(t: Standing, e: Event): Standing {
    if CapsArrive(e) then if WordOf(e).None? then t else t.(received := true, late := WordOf(e))
    else if ReadyArrives(e) then t.(agreed := Both(Allowance(t), FeaturesOf(OFFERED)), late := None)
    else t
  }

  ghost function Fold(t: Standing, es: seq<Event>): Standing
    decreases |es|
  {
    if es == [] then t else Advance(Fold(t, es[..|es| - 1]), es[|es| - 1])
  }

  ghost predicate Stands(s: State, t: Standing) { s.received == t.received && s.features == InForce(t) }

  // Steps on other events leave the features alone.
  lemma OthersKeepFeatures(s: State, e: Event, mask: Mask)
    requires !CapsArrive(e) && !ReadyArrives(e)
    ensures var t := Step(s, e, mask).state; t.features == s.features && t.received == s.received
  {
    hide Filter, Choose, DecodeList, DecodeFileRequest, DecodeFileResponse, Answer, FeaturesOf, Negotiate;
  }

  lemma CapsStand(s: State, t: Standing, e: Event, mask: Mask)
    requires Stands(s, t) && CapsArrive(e)
    ensures Stands(Step(s, e, mask).state, Advance(t, e))
  {
    hide ParseCaps, FeaturesOf;
  }

  lemma ReadyStands(s: State, t: Standing, e: Event, mask: Mask)
    requires Stands(s, t) && ReadyArrives(e)
    ensures Stands(Step(s, e, mask).state, Advance(t, e))
  {
    hide OnMonitorReady, FeaturesOf;
    HandshakeSettles(s, mask);
  }

  /** In every run the five features in force are the fold of the messages received. */
  lemma {:induction false} FeaturesAreFold(s: State, es: seq<Event>, mask: Mask)
    ensures Stands(Run(s, es, mask).state, Fold(Standing(s.received, s.features, None), es))
    decreases |es|
  {
    hide Step, CapsArrive, ReadyArrives, Advance, InForce;
    if es == [] {
      assert InForce(Standing(s.received, s.features, None)) == s.features by { NothingLate(s.received, s.features); }
    } else {
      FeaturesAreFold(s, es[..|es| - 1], mask);
      var u, t, e := Run(s, es[..|es| - 1], mask).state, Fold(Standing(s.received, s.features, None), es[..|es| - 1]), es[|es| - 1];
      if CapsArrive(e) {
        CapsStand(u, t, e, mask);
      } else if ReadyArrives(e) {
        ReadyStands(u, t, e, mask);
      } else {
        OthersKeepFeatures(u, e, mask);
        OthersStand(t, e);
      }
    }
  }

  lemma NothingLate(received: bool, f: Features)
    ensures InForce(Standing(received, f, None)) == f
  {
  }

  lemma OthersStand(t: Standing, e: Event)
    requires !CapsArrive(e) && !ReadyArrives(e)
    ensures Advance(t, e) == t
  {
  }

  // What a handshake in state s agrees on.
  ghost function AfterHandshake(s: State): Standing {
    Standing(s.received, Both(WithDefaults(s).features, FeaturesOf(OFFERED)), None)
  }

  lemma {:induction false} FoldAgreesOnOffered(t: Standing, es: seq<Event>)
    requires !t.agreed.lock && !t.agreed.huge && (t.late.Some? ==> t.received)
    ensures var u := Fold(t, es); !u.agreed.lock && !u.agreed.huge && (u.late.Some? ==> u.received)
    ensures (!t.received ==> Both(Allowance(t), FeaturesOf(OFFERED)) == t.agreed) ==>
      var u := Fold(t, es); !u.received ==> Both(Allowance(u), FeaturesOf(OFFERED)) == u.agreed
    decreases |es|
  {
    OfferedFeatures();
    hide FeaturesOf, WordOf, CapsArrive, ReadyArrives;
    if es != [] {
      FoldAgreesOnOffered(t, es[..|es| - 1]);
    }
  }

  /** After a handshake, whatever happens, the five features in force are those of the last flag
      word since the last monitor ready, or, if there was none, those that one agreed on.  So the
      agreement stands if and only if that word is missing or names the same features; every
      feature is still allowed and offered if and only if it is missing or names neither locking
      nor huge files; and huge-file support is on if and only if that word has bit 5. */
  lemma LateCapsExact(s: State, es: seq<Event>, mask: Mask)
    ensures var after, t := Run(OnMonitorReady(s, mask).state, es, mask).state, Fold(AfterHandshake(s), es);
      after.features == InForce(t) &&
      (after.features == t.agreed <==> t.late.None? || FeaturesOf(t.late.value) == t.agreed) &&
      (Settled(after) <==> t.late.None? || (!FeaturesOf(t.late.value).lock && !FeaturesOf(t.late.value).huge)) &&
      (after.features.huge <==> t.late.Some? && t.late.value / 32 % 2 == 1)
  {
    OfferedFeatures();
    HandshakeSettles(s, mask);
    FeaturesAreFold(OnMonitorReady(s, mask).state, es, mask);
    FoldAgreesOnOffered(AfterHandshake(s), es);
    var after, t := Run(OnMonitorReady(s, mask).state, es, mask).state, Fold(AfterHandshake(s), es);
    assert t.late.Some? ==> FeaturesOf(t.late.value).huge == (t.late.value / 32 % 2 == 1);
    hide Run, Fold, OnMonitorReady, FeaturesOf;
    SettledIs(after, t);
  }

  lemma SettledIs(s: State, t: Standing)
    requires Stands(s, t) && !t.agreed.lock && !t.agreed.huge && (t.late.Some? ==> t.received)
    requires !t.received ==> Both(Allowance(t), FeaturesOf(OFFERED)) == t.agreed
    ensures Settled(s) <==> t.late.None? || (!FeaturesOf(t.late.value).lock && !FeaturesOf(t.late.value).huge)
  {
    OfferedFeatures();
    hide FeaturesOf;
  }

  lemma {:induction false} FoldWithoutCaps(s: State, es: seq<Event>, mask: Mask)
    requires forall i | 0 <= i < |es| :: !CapsArrive(es[i])
    ensures Fold(AfterHandshake(s), es) == AfterHandshake(s)
    decreases |es|
  {
    OfferedFeatures();
    hide FeaturesOf, CapsArrive, ReadyArrives;
    if es != [] {
      FoldWithoutCaps(s, es[..|es| - 1], mask);
    }
  }

  /** From a handshake until the next server capability packet, every feature in force is the
      conjunction of what the state allowed and what the client offers. */
  lemma AgreedUntilNextCaps(s: State, es: seq<Event>, mask: Mask)
    requires forall i | 0 <= i < |es| :: !CapsArrive(es[i])
    ensures Run(OnMonitorReady(s, mask).state, es, mask).state.features ==
      Both(WithDefaults(s).features, FeaturesOf(OFFERED))
  {
    hide FeaturesOf, Run, OnMonitorReady, Fold;
    LateCapsExact(s, es, mask);
    FoldWithoutCaps(s, es, mask);
  }

  /** Huge-file support is never offered, so after a handshake it is off until the server sends
      another capability packet. */
  lemma HugeStaysOff(s: State, es: seq<Event>, mask: Mask)
    requires forall i | 0 <= i < |es| :: !CapsArrive(es[i])
    ensures !Run(OnMonitorReady(s, mask).state, es, mask).state.features.huge
  {
    AgreedUntilNextCaps(s, es, mask);
    OfferedFeatures();
  }

  /** A capability packet after the reply does overwrite the agreement: huge-file support is on
      although the client never offered it. */
  lemma LateCapsOverwrite(s: State, mask: Mask)
    ensures var packet := Encode(Packet(CB_CLIP_CAPS, 0, EncodeCaps(2, 32)));
      Receive(OnMonitorReady(s, mask).state, packet, mask).state.features.huge
  {
    hide OnMonitorReady;
    CapsRoundTrip(2, 32);
    ParseHeaderOfEncode(Packet(CB_CLIP_CAPS, 0, EncodeCaps(2, 32)));
    assert FeaturesOf(32).huge;
  }

  /** In every run from the start in which no server flag word has been seen, exactly one feature
      can be on: "no file paths", and it is on from the first monitor ready. */
  lemma {:induction false} WithoutServerCaps(es: seq<Event>, mask: Mask)
    ensures var s := Run(START, es, mask).state;
      !s.received ==>
        s.features == Features(false, false, exists i | 0 <= i < |es| :: ReadyArrives(es[i]), false, false)
    decreases |es|
  {
    hide Step, CapsArrive, ReadyArrives, OnMonitorReady, FeaturesOf;
    if es != [] {
      var before, e := es[..|es| - 1], es[|es| - 1];
      var s := Run(START, before, mask).state;
      WithoutServerCaps(before, mask);
      OfferedFeatures();
      if CapsArrive(e) {
        CapsAreSeen(s, e, mask);
      } else if ReadyArrives(e) {
        ReadyStands(s, Standing(s.received, s.features, None), e, mask);
        ReadyWithoutCaps(s, e);
        assert ReadyArrives(es[|es| - 1]);
      } else {
        OthersKeepFeatures(s, e, mask);
      }
      assert forall i | 0 <= i < |before| :: es[i] == before[i];
    }
  }

  // A capability packet without a flag word changes nothing; any other is remembered.
  lemma CapsAreSeen(s: State, e: Event, mask: Mask)
    requires CapsArrive(e)
    ensures var t := Step(s, e, mask).state; t.received || t == s
    ensures !ReadyArrives(e)
  {
    hide ParseCaps, FeaturesOf;
  }

  lemma ReadyWithoutCaps(s: State, e: Event)
    requires ReadyArrives(e)
    ensures var t := Advance(Standing(s.received, s.features, None), e);
      !CapsArrive(e) && t.received == s.received &&
      (!s.received ==> InForce(t) == Features(false, false, true, false, false))
  {
    OfferedFeatures();
    hide FeaturesOf;
  }
}
