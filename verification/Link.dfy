/**
 The engine, its session and the peer's session run together, joined by two
 queues of packets.  That chunks, buffers and handler threads amount to such
 queues is proved in the stack.
 */
module Link {
  import opened FormatList
  import opened Wire
  import opened Pdu
  import opened FormatFilter
  import opened Capabilities
  import opened Serving
  import opened Session
  import opened Stack
  import opened Download
  import Engine
  import EngineSafety

  // A packet under way; a file request or response carries the number of the request it is about
  // and of the batch that was being worked on.
  datatype Parcel = Parcel(out: Out, serial: nat, batch: nat)

  datatype Pair = Pair(
    client: State,
    server: State,
    clientUp: bool,             // handler threads that have not ended
    serverUp: bool,
    toServer: seq<Parcel>,
    toClient: seq<Parcel>,
    // history
    events: seq<Event>,         // what the client's session has gone through
    acts: seq<Engine.Action>)   // what its engine has

  datatype Move =
    | Works(a: Engine.Action)   // any step of the engine but the two that meet the channel
    | Submits                   // the newest request is handed to the client's session
    | ServerHears
    | ClientHears
    | ClientDoes(e: Event)      // anything else that happens to the client's session
    | ServerDoes(e: Event)      // anything else that happens to the server's

  function Start(client: State, server: State): Pair { Pair(client, server, true, true, [], [], [], []) }

  function Parcels(outs: seq<Out>, serial: nat, batch: nat): (ps: seq<Parcel>)
    ensures |ps| == |outs| && forall i | 0 <= i < |outs| :: ps[i] == Parcel(outs[i], serial, batch)
  {
    seq(|outs|, i requires 0 <= i < |outs| => Parcel(outs[i], serial, batch))
  }

  // What the engine makes of the session's answer to a request.
  function VerdictOf(e: Effect): Engine.Verdict {
    if e.status != RcOk then Engine.Rejected else if e.outs == [] then Engine.Dropped else Engine.Transmitted
  }

  // The response callback.
  function RepliesOf(handed: seq<Handed>): seq<Engine.Action> {
    if |handed| == 1 && handed[0].HandedFileResponse? then
      var r := handed[0].response;
      [Engine.Reply(r.streamId, r.msgFlags == CB_RESPONSE_OK, r.data)]
    else []
  }

  // File requests come from the engine alone, and responses from the peer.
  ghost predicate ClientMay(p: Pair, e: Event) {
    !e.LocalFileRequest? && !MessageArrives(e, CB_FILECONTENTS_RESPONSE) && (e.Arrives? ==> p.clientUp)
  }

  // Responses come from the file callback alone, and requests from the client.
  ghost predicate ServerMay(p: Pair, e: Event) {
    !e.LocalFileResponse? && !MessageArrives(e, CB_FILECONTENTS_REQUEST) && (e.Arrives? ==> p.serverUp)
  }

  ghost function Submit(p: Pair, cmask: Mask): Pair {
    var s := Engine.Run(p.acts);
    if !Engine.Enabled(s, Engine.HandOver(Engine.Transmitted)) || s.drawn == [] then p
    else
      var r := s.drawn[|s.drawn| - 1];
      var e := SendFileRequest(p.client, r, cmask);
      p.(client := e.state, events := p.events + [LocalFileRequest(r)],
         toServer := p.toServer + Parcels(e.outs, |s.drawn| - 1, s.worker.job.target.batch),
         acts := p.acts + [Engine.HandOver(VerdictOf(e))])
  }

  ghost function HearServer(p: Pair, smask: Mask): Pair
    requires p.toServer != []
  {
    var t := p.toServer[0];
    var e := Receive(p.server, Encode(PacketOf(t.out)), smask);
    if !p.serverUp || !Packable(e) then p
    else
      p.(server := e.state, serverUp := e.status == RcOk, toServer := p.toServer[1..],
         toClient := p.toClient + Parcels(e.outs, t.serial, t.batch))
  }

  ghost function HearClient(p: Pair, cmask: Mask): Pair
    requires p.toClient != []
  {
    var message := Encode(PacketOf(p.toClient[0].out));
    var e := Receive(p.client, message, cmask);
    if !p.clientUp || !Packable(e) then p
    else
      p.(client := e.state, clientUp := e.status == RcOk, toClient := p.toClient[1..],
         toServer := p.toServer + Parcels(e.outs, 0, 0),
         events := p.events + [Arrives(message)], acts := p.acts + RepliesOf(e.handed))
  }

  ghost function Proceed(p: Pair, m: Move, cmask: Mask, smask: Mask): Pair {
    match m
    case Works(a) => if a.HandOver? || a.Reply? then p else p.(acts := p.acts + [a])
    case Submits => Submit(p, cmask)
    case ServerHears => if p.toServer == [] then p else HearServer(p, smask)
    case ClientHears => if p.toClient == [] then p else HearClient(p, cmask)
    case ClientDoes(e) =>
      var f := Step(p.client, e, cmask);
      if !ClientMay(p, e) || !Packable(f) then p
      else
        p.(client := f.state, clientUp := p.clientUp && (e.Arrives? ==> f.status == RcOk),
           toServer := p.toServer + Parcels(f.outs, 0, 0), events := p.events + [e])
    case ServerDoes(e) =>
      var f := Step(p.server, e, smask);
      if !ServerMay(p, e) || !Packable(f) then p
      else
        p.(server := f.state, serverUp := p.serverUp && (e.Arrives? ==> f.status == RcOk),
           toClient := p.toClient + Parcels(f.outs, 0, 0))
  }

  ghost function Runs(p: Pair, ms: seq<Move>, cmask: Mask, smask: Mask): Pair
    decreases |ms|
  {
    if ms == [] then p else Proceed(Runs(p, ms[..|ms| - 1], cmask, smask), ms[|ms| - 1], cmask, smask)
  }

  // ---- what kinds of packets and callbacks there are ------------------------------------

  ghost predicate WellMade(o: Out) {
    Sendable(PacketOf(o)) && (o.ErrorOut? ==> o.msgType in {CB_FORMAT_DATA_RESPONSE, CB_FILECONTENTS_RESPONSE})
  }

  ghost predicate Kinds(e: Effect, request: bool, response: bool, handing: bool) {
    && (forall o | o in e.outs ::
          (o.FileRequestOut? ==> request) && (o.FileResponseOut? ==> response) &&
          (o.ErrorOut? ==> o.msgType in {CB_FORMAT_DATA_RESPONSE, CB_FILECONTENTS_RESPONSE}))
    && (forall h | h in e.handed :: h.HandedFileResponse? ==> handing)
  }

  lemma ReceiveKinds(s: State, message: bytes, mask: Mask)
    ensures Kinds(Receive(s, message, mask), false, MessageArrives(Arrives(message), CB_FILECONTENTS_REQUEST),
                  MessageArrives(Arrives(message), CB_FILECONTENTS_RESPONSE))
  {
    hide Filter, Choose, DecodeList, ParseCaps, DecodeFileRequest, DecodeFileResponse, Answer, FeaturesOf, Negotiate;
  }

  lemma StepKinds(s: State, e: Event, mask: Mask)
    ensures Kinds(Step(s, e, mask), e.LocalFileRequest?, e.LocalFileResponse? || MessageArrives(e, CB_FILECONTENTS_REQUEST),
                  MessageArrives(e, CB_FILECONTENTS_RESPONSE))
  {
    hide Filter, Negotiate, FeaturesOf, Receive;
    if e.Arrives? {
      ReceiveKinds(s, e.message, mask);
    }
  }

  // ---- what is under way ------------------------------------------------------------------

  // A parcel about the outstanding request was sent for the batch now worked on.
  ghost predicate RightBatch(t: Parcel, s: Engine.State) {
    EngineSafety.Asking(s.worker) && t.serial == |s.drawn| - 1 ==> t.batch == s.worker.job.target.batch
  }

  // A request under way is one the engine built and handed over.
  ghost predicate RequestKnown(t: Parcel, s: Engine.State) {
    t.out.FileRequestOut? ==>
      t.serial in s.transmitted && t.serial < |s.drawn| && s.drawn[t.serial] == t.out.request && RightBatch(t, s)
  }

  // A response under way is good, answers such a request under its id, and, for the batch b, with
  // what the peer's list has.
  ghost predicate ResponseKnown(t: Parcel, s: Engine.State, b: nat, peer: seq<Served>) {
    t.out.FileResponseOut? ==>
      var r := t.out.response;
      t.serial in s.transmitted && t.serial < |s.drawn| && s.drawn[t.serial].streamId == r.streamId && RightBatch(t, s) &&
      r.msgFlags == CB_RESPONSE_OK && (t.batch == b ==> Answer(peer, s.drawn[t.serial]) == Ok(r.data))
  }

  ghost predicate Known(p: Pair, s: Engine.State, b: nat, peer: seq<Served>) {
    && (forall i | 0 <= i < |p.toServer| :: WellMade(p.toServer[i].out) && RequestKnown(p.toServer[i], s))
    && (forall i | 0 <= i < |p.toClient| :: WellMade(p.toClient[i].out) && ResponseKnown(p.toClient[i], s, b, peer))
  }

  // The engine's history grows, and a request once outstanding keeps its job.
  ghost predicate Grows(s: Engine.State, t: Engine.State) {
    && s.drawn <= t.drawn && s.transmitted <= t.transmitted
    && (EngineSafety.Asking(t.worker) && |t.drawn| == |s.drawn| ==>
          EngineSafety.Asking(s.worker) && t.worker.job == s.worker.job)
  }

  lemma StepGrows(s: Engine.State, a: Engine.Action)
    requires Engine.Sound(s)
    ensures Grows(s, Engine.Step(s, a))
  {
    hide Engine.RequestFor, NextCount, Draw, Engine.JobsOf, Engine.TopsOf, Engine.FoldersOf;
  }

  lemma KnownGrows(p: Pair, s: Engine.State, t: Engine.State, b: nat, peer: seq<Served>)
    requires Known(p, s, b, peer) && Grows(s, t)
    ensures Known(p, t, b, peer)
  {
    hide Answer, WellMade;
  }

  lemma StillKnown(p: Pair, a: Engine.Action, b: nat, peer: seq<Served>)
    requires Known(p, Engine.Run(p.acts), b, peer)
    ensures Known(p, Engine.Run(p.acts + [a]), b, peer)
    ensures Engine.Run(p.acts + [a]) == Engine.Step(Engine.Run(p.acts), a)
  {
    hide Known, Engine.Step;
    assert (p.acts + [a])[..|p.acts|] == p.acts;
    StepGrows(Engine.Run(p.acts), a);
    KnownGrows(p, Engine.Run(p.acts), Engine.Run(p.acts + [a]), b, peer);
  }

  // ---- the moves -----------------------------------------------------------------------------

  // A response is heard before 2^32 - 1 newer requests are built; a request of the batch is
  // answered from the peer's list.
  ghost predicate FairMove(p: Pair, m: Move, b: nat, peer: seq<Served>) {
    match m
    case ClientHears =>
      p.toClient != [] && p.toClient[0].out.FileResponseOut? ==>
        |Engine.Run(p.acts).drawn| <= p.toClient[0].serial + UINT32_MAX
    case ServerHears =>
      p.toServer != [] && p.toServer[0].out.FileRequestOut? && p.toServer[0].batch == b ==> p.server.files == peer
    case _ => true
  }

  ghost predicate Fair(p: Pair, ms: seq<Move>, b: nat, peer: seq<Served>, cmask: Mask, smask: Mask)
    decreases |ms|
  {
    ms != [] ==>
      var before := ms[..|ms| - 1];
      Fair(p, before, b, peer, cmask, smask) && FairMove(Runs(p, before, cmask, smask), ms[|ms| - 1], b, peer)
  }

  lemma SoundOuts(e: Effect, request: bool, response: bool, handing: bool)
    requires Kinds(e, request, response, handing) && Packable(e)
    ensures forall o | o in e.outs :: WellMade(o)
  {
    hide PacketOf, Sendable;
  }

  lemma SubmitKnown(p: Pair, b: nat, peer: seq<Served>, cmask: Mask)
    requires Known(p, Engine.Run(p.acts), b, peer)
    ensures Known(Submit(p, cmask), Engine.Run(Submit(p, cmask).acts), b, peer)
  {
    hide Engine.Run, Engine.Step, Known;
    var s := Engine.Run(p.acts);
    if Engine.Enabled(s, Engine.HandOver(Engine.Transmitted)) && s.drawn != [] {
      var e := SendFileRequest(p.client, s.drawn[|s.drawn| - 1], cmask);
      var a := Engine.HandOver(VerdictOf(e));
      StillKnown(p, a, b, peer);
      HandedOver(s, VerdictOf(e));
      AddRequest(p, Submit(p, cmask), Engine.Step(s, a), b, peer, e.outs, |s.drawn| - 1, s.worker.job.target.batch);
    }
  }

  lemma HandedOver(s: Engine.State, v: Engine.Verdict)
    requires Engine.Sound(s) && Engine.Enabled(s, Engine.HandOver(v)) && s.drawn != []
    ensures var t := Engine.Step(s, Engine.HandOver(v));
      t.drawn == s.drawn && (v.Transmitted? ==> |s.drawn| - 1 in t.transmitted) &&
      t.worker.Busy? && t.worker.job == s.worker.job
  {
  }

  lemma AddRequest(p: Pair, q: Pair, s: Engine.State, b: nat, peer: seq<Served>, outs: seq<Out>, serial: nat, batch: nat)
    requires Known(p, s, b, peer) && q.toClient == p.toClient && q.toServer == p.toServer + Parcels(outs, serial, batch)
    requires serial < |s.drawn| && (outs != [] ==> serial in s.transmitted && outs == [FileRequestOut(s.drawn[serial])])
    requires s.worker.Busy? && s.worker.job.target.batch == batch
    ensures Known(q, s, b, peer)
  {
    hide Answer;
  }

  lemma ServerHearsKnown(p: Pair, b: nat, peer: seq<Served>, smask: Mask)
    requires Known(p, Engine.Run(p.acts), b, peer) && FairMove(p, ServerHears, b, peer) && p.toServer != []
    ensures Known(HearServer(p, smask), Engine.Run(p.acts), b, peer)
  {
    hide Engine.Run, Receive, Encode, PacketOf, Answer;
    var s, t := Engine.Run(p.acts), p.toServer[0];
    var e := Receive(p.server, Encode(PacketOf(t.out)), smask);
    if p.serverUp && Packable(e) {
      ReceiveKinds(p.server, Encode(PacketOf(t.out)), smask);
      SoundOuts(e, false, MessageArrives(Arrives(Encode(PacketOf(t.out))), CB_FILECONTENTS_REQUEST),
                MessageArrives(Arrives(Encode(PacketOf(t.out))), CB_FILECONTENTS_RESPONSE));
      if t.out.FileRequestOut? {
        RequestHeard(p.server, t.out.request, smask);
      } else {
        NotARequest(t.out);
      }
    }
  }

  // Responses the server makes answer the request from its list, and are good.
  lemma RequestHeard(server: State, r: FileRequest, smask: Mask)
    ensures var e := Receive(server, Encode(PacketOf(FileRequestOut(r))), smask);
      forall o | o in e.outs && o.FileResponseOut? ::
        o.response.msgFlags == CB_RESPONSE_OK && o.response.streamId == r.streamId &&
        Answer(server.files, r) == Ok(o.response.data)
  {
    hide Receive, Encode, Answer;
    ReceiveIsHear(server, FileRequestOut(r), smask);
  }

  lemma NotARequest(o: Out)
    requires WellMade(o) && !o.FileRequestOut?
    ensures !MessageArrives(Arrives(Encode(PacketOf(o))), CB_FILECONTENTS_REQUEST)
  {
    ParseHeaderOfEncode(PacketOf(o));
  }

  lemma NotAResponse(o: Out)
    requires WellMade(o) && !o.FileResponseOut? && !o.ErrorOut?
    ensures !MessageArrives(Arrives(Encode(PacketOf(o))), CB_FILECONTENTS_RESPONSE)
  {
    ParseHeaderOfEncode(PacketOf(o));
  }

  // Only a response makes the client's engine see a reply: that response.
  lemma HeardReplies(client: State, o: Out, cmask: Mask)
    requires WellMade(o)
    ensures var e := Receive(client, Encode(PacketOf(o)), cmask);
      RepliesOf(e.handed) ==
        if o.FileResponseOut? then [Engine.Reply(o.response.streamId, o.response.msgFlags == CB_RESPONSE_OK, o.response.data)]
        else []
  {
    hide Receive, Encode, PacketOf;
    var e := Receive(client, Encode(PacketOf(o)), cmask);
    if o.FileResponseOut? || o.ErrorOut? {
      assert Audible(o);
      ReceiveIsHear(client, o, cmask);
    } else {
      ReceiveKinds(client, Encode(PacketOf(o)), cmask);
      NotAResponse(o);
      assert forall h | h in e.handed :: !h.HandedFileResponse?;
    }
  }

  // Packets that are no requests join the queue to the server; the head may leave the other.
  lemma QueuesKnown(p: Pair, q: Pair, s: Engine.State, b: nat, peer: seq<Served>, outs: seq<Out>, heard: bool)
    requires Known(p, s, b, peer) && q.toServer == p.toServer + Parcels(outs, 0, 0)
    requires if heard then p.toClient != [] && q.toClient == p.toClient[1..] else q.toClient == p.toClient
    requires forall o | o in outs :: WellMade(o) && !o.FileRequestOut?
    ensures Known(q, s, b, peer)
  {
    hide Answer, WellMade;
  }

  lemma ClientHearsKnown(p: Pair, b: nat, peer: seq<Served>, cmask: Mask)
    requires Known(p, Engine.Run(p.acts), b, peer) && p.toClient != []
    ensures Known(HearClient(p, cmask), Engine.Run(HearClient(p, cmask).acts), b, peer)
  {
    hide Engine.Run, Receive, Encode, PacketOf, Answer, Known;
    var o := p.toClient[0].out;
    var message := Encode(PacketOf(o));
    var e, q := Receive(p.client, message, cmask), HearClient(p, cmask);
    assert WellMade(o) by { HeadIsSound(p, Engine.Run(p.acts), b, peer); }
    HeardReplies(p.client, o, cmask);
    if p.clientUp && Packable(e) {
      ReceiveKinds(p.client, message, cmask);
      SoundOuts(e, false, MessageArrives(Arrives(message), CB_FILECONTENTS_REQUEST),
                MessageArrives(Arrives(message), CB_FILECONTENTS_RESPONSE));
      if RepliesOf(e.handed) != [] {
        StillKnown(p, RepliesOf(e.handed)[0], b, peer);
        assert q.acts == p.acts + [RepliesOf(e.handed)[0]];
      } else {
        assert q.acts == p.acts;
      }
      QueuesKnown(p, q, Engine.Run(q.acts), b, peer, e.outs, true);
    }
  }

  lemma HeadIsSound(p: Pair, s: Engine.State, b: nat, peer: seq<Served>)
    requires Known(p, s, b, peer) && p.toClient != []
    ensures WellMade(p.toClient[0].out) && ResponseKnown(p.toClient[0], s, b, peer)
  {
  }

  lemma ServerDoesKnown(p: Pair, q: Pair, s: Engine.State, b: nat, peer: seq<Served>, outs: seq<Out>)
    requires Known(p, s, b, peer) && q.toServer == p.toServer && q.toClient == p.toClient + Parcels(outs, 0, 0)
    requires forall o | o in outs :: WellMade(o) && !o.FileResponseOut?
    ensures Known(q, s, b, peer)
  {
    hide Answer, WellMade;
  }

  lemma GoKnown(p: Pair, m: Move, b: nat, peer: seq<Served>, cmask: Mask, smask: Mask)
    requires Known(p, Engine.Run(p.acts), b, peer) && FairMove(p, m, b, peer)
    ensures var q := Proceed(p, m, cmask, smask); Known(q, Engine.Run(q.acts), b, peer)
  {
    hide Known, Submit, HearServer, HearClient, FairMove, Step, Engine.Run;
    var s, q := Engine.Run(p.acts), Proceed(p, m, cmask, smask);
    match m {
      case Works(a) =>
        StillKnown(p, a, b, peer);
        SameQueues(p, q, Engine.Run(p.acts + [a]), b, peer);
      case Submits => SubmitKnown(p, b, peer, cmask);
      case ServerHears =>
        if p.toServer != [] {
          ServerHearsKnown(p, b, peer, smask);
          assert HearServer(p, smask).acts == p.acts by { ServerLeavesEngine(p, smask); }
        }
      case ClientHears =>
        if p.toClient != [] {
          ClientHearsKnown(p, b, peer, cmask);
        }
      case ClientDoes(e) =>
        var f := Step(p.client, e, cmask);
        if ClientMay(p, e) && Packable(f) {
          StepKinds(p.client, e, cmask);
          SoundOuts(f, false, e.LocalFileResponse? || MessageArrives(e, CB_FILECONTENTS_REQUEST), false);
          QueuesKnown(p, q, s, b, peer, f.outs, false);
        }
      case ServerDoes(e) =>
        var f := Step(p.server, e, smask);
        if ServerMay(p, e) && Packable(f) {
          StepKinds(p.server, e, smask);
          SoundOuts(f, e.LocalFileRequest?, false, MessageArrives(e, CB_FILECONTENTS_RESPONSE));
          ServerDoesKnown(p, q, s, b, peer, f.outs);
        }
    }
  }

  lemma SameQueues(p: Pair, q: Pair, s: Engine.State, b: nat, peer: seq<Served>)
    requires Known(p, s, b, peer) && q.toServer == p.toServer && q.toClient == p.toClient
    ensures Known(q, s, b, peer)
  {
  }

  lemma ServerLeavesEngine(p: Pair, smask: Mask)
    requires p.toServer != []
    ensures HearServer(p, smask).acts == p.acts
  {
  }

  lemma {:induction false} RunKnown(client: State, server: State, ms: seq<Move>, b: nat, peer: seq<Served>, cmask: Mask, smask: Mask)
    requires Fair(Start(client, server), ms, b, peer, cmask, smask)
    ensures var p := Runs(Start(client, server), ms, cmask, smask); Known(p, Engine.Run(p.acts), b, peer)
    decreases |ms|
  {
    hide Known, Proceed, FairMove, Engine.Run;
    if ms == [] {
      assert Known(Start(client, server), Engine.Run([]), b, peer) by { StartKnown(client, server, b, peer); }
    } else {
      RunKnown(client, server, ms[..|ms| - 1], b, peer, cmask, smask);
      GoKnown(Runs(Start(client, server), ms[..|ms| - 1], cmask, smask), ms[|ms| - 1], b, peer, cmask, smask);
    }
  }

  lemma StartKnown(client: State, server: State, b: nat, peer: seq<Served>)
    ensures Known(Start(client, server), Engine.Run([]), b, peer)
  {
  }
}
