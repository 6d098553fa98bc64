/**
 The whole stack: what one endpoint sends, cut into chunks, reassembled and
 dispatched by another endpoint running the same code.
 */
module Stack {
  import opened Wire
  import opened Pdu
  import opened FormatList
  import opened ListForms
  import opened FormatFilter
  import opened Capabilities
  import opened Serving
  import opened Session
  import Reassembly

  // ---- one packet ------------------------------------------------------------------------

  // A list in the other name form is read as what it is not, or refused.
  function HearList(s: State, fs: seq<Format>, long: bool, mask: Mask): Effect {
    if long == s.features.long then OnList(s, CarriedAll(fs, long, false), mask)
    else
      match DecodeList(EncodeList(fs, long, false), s.features.long, false)
      case Err(status) => Quietly(s, status)
      case Ok(misread) => OnList(s, misread, mask)
  }

  // The effect, on the receiving session, of a packet its peer sent.
  function Hear(s: State, o: Out, mask: Mask): Effect {
    match o
    case CapsOut(_, flags) => Quietly(ApplyCaps(s, [flags]), RcOk)
    case ListOut(fs, long) => HearList(s, fs, long, mask)
    case DataRequestOut(id) => OnDataRequest(s, id, mask)
    case DataResponseOut(flags, data) => OnDataResponse(s, flags, data, mask)
    case FileRequestOut(r) => if ValidFileRequest(r) then OnFileRequest(s, r, mask) else Quietly(s, BadArguments)
    case FileResponseOut(r) => Effect(s, [], [HandedFileResponse(r)], RcOk)
    case ErrorOut(msgType) =>
      if msgType == CB_FORMAT_DATA_RESPONSE then OnDataResponse(s, CB_RESPONSE_FAIL, [], mask)
      else Quietly(s, InvalidData)
  }

  // The sizes the sender asserts, and names of plain bytes.
  ghost predicate Audible(o: Out) {
    && Sendable(PacketOf(o))
    && (o.ListOut? ==> Plain(o.formats))
    && (o.ErrorOut? ==> o.msgType in {CB_FORMAT_DATA_RESPONSE, CB_FILECONTENTS_RESPONSE})
  }

  lemma ListBody(fs: seq<Format>, long: bool)
    requires Plain(fs)
    ensures DecodeList(EncodeList(fs, long, false), long, false) == Ok(CarriedAll(fs, long, false))
  {
    if long {
      LongRoundTrip(fs);
    } else {
      ShortRoundTrip(fs, false);
    }
  }

  /** One packet, received whole, has exactly the effect specified for it: what its sender meant,
      but that an error reply to a file request carries no stream id and is refused, and that a
      list in the name form not expected is what the other reader makes of its bytes. */
  lemma ReceiveIsHear(s: State, o: Out, mask: Mask)
    requires Audible(o)
    ensures Receive(s, Encode(PacketOf(o)), mask) == Hear(s, o, mask)
  {
    hide OnList, OnDataRequest, OnDataResponse, OnFileRequest, DecodeList, EncodeList, CarriedAll,
         ParseCaps, EncodeCaps, FileRequestFields, EncodeFileRequest, ValidFileRequest, Plain, ApplyCaps;
    var p := PacketOf(o);
    ParseHeaderOfEncode(p);
    assert p.body[..|p.body|] == p.body;
    match o {
      case CapsOut(version, flags) => CapsRoundTrip(version, flags);
      case ListOut(fs, long) =>
        ListBody(fs, long);
      case DataRequestOut(id) =>
        Get32OfLe32(id, []);
        assert Le32(id) + [] == Le32(id);
      case DataResponseOut(_, _) =>
      case FileRequestOut(r) => FileRequestRoundTrip(r);
      case FileResponseOut(r) => FileResponseRoundTrip(r);
      case ErrorOut(_) =>
    }
  }

  // The packets whose handling returns an error: an error reply to a file request, a file request
  // the reader refuses, one the file callback has no answer to, and a list in a name form not
  // expected that does not happen to be readable in the other.
  ghost predicate Refused(s: State, o: Out, mask: Mask) {
    || (o.ErrorOut? && o.msgType != CB_FORMAT_DATA_RESPONSE)
    || (o.FileRequestOut? &&
        (!ValidFileRequest(o.request) || (LocalToRemoteFiles in mask && Unanswerable(s.files, o.request))))
    || (o.ListOut? && !Readable(o.formats, o.long, s.features.long))
  }

  /** Receiving the bytes of a packet fails if and only if it is one of those. */
  lemma ReceiveFails(s: State, o: Out, mask: Mask)
    requires Audible(o)
    ensures Receive(s, Encode(PacketOf(o)), mask).status != RcOk <==> Refused(s, o, mask)
  {
    hide Receive, PacketOf, Encode;
    ReceiveIsHear(s, o, mask);
    HearFails(s, o, mask);
  }

  lemma HearFails(s: State, o: Out, mask: Mask)
    requires o.ListOut? ==> Plain(o.formats)
    ensures Hear(s, o, mask).status != RcOk <==> Refused(s, o, mask)
  {
    hide Answer, Filter, Choose, ValidFileRequest, Unanswerable, Plain, Readable, DecodeList, EncodeList;
    if o.FileRequestOut? {
      AnswerFails(s.files, o.request);
    } else if o.ListOut? {
      ReadableIsAccepted(o.formats, o.long, s.features.long);
      if o.long == s.features.long {
        SameFormReadable(o.formats, o.long);
      } else {
        DecodedIsNotOk(EncodeList(o.formats, o.long, false), s.features.long);
      }
    }
  }

  lemma SameFormReadable(fs: seq<Format>, long: bool)
    ensures Readable(fs, long, long)
  {
  }

  lemma DecodedIsNotOk(b: bytes, long: bool)
    ensures var r := DecodeList(b, long, false); r.Err? ==> r.status != RcOk
  {
  }

  // ---- lists of packets ----------------------------------------------------------------------

  function Wires(outs: seq<Out>): (wires: seq<bytes>)
    ensures |wires| == |outs| && forall i | 0 <= i < |outs| :: wires[i] == Encode(PacketOf(outs[i]))
  {
    seq(|outs|, i requires 0 <= i < |outs| => Encode(PacketOf(outs[i])))
  }

  lemma WiresAppend(a: seq<Out>, b: seq<Out>)
    ensures Wires(a + b) == Wires(a) + Wires(b)
  {
    hide PacketOf, Encode;
  }

  function Then(e: Effect, f: Effect): Effect {
    Effect(f.state, e.outs + f.outs, e.handed + f.handed, f.status)
  }

  // The effects of the packets in order.  A handler thread ends at the first error; a handler
  // called inside the callback goes on.
  function HearAll(s: State, outs: seq<Out>, mask: Mask, stopping: bool): Effect
    decreases |outs|
  {
    if outs == [] then Quietly(s, RcOk)
    else
      var before := HearAll(s, outs[..|outs| - 1], mask, stopping);
      if stopping && before.status != RcOk then before
      else Then(before, Hear(before.state, outs[|outs| - 1], mask))
  }

  ghost predicate AllAudible(outs: seq<Out>) { forall i | 0 <= i < |outs| :: Audible(outs[i]) }

  lemma HearOneMore(s: State, outs: seq<Out>, mask: Mask, stopping: bool, k: nat)
    requires k < |outs|
    ensures var before := HearAll(s, outs[..k], mask, stopping);
      HearAll(s, outs[..k + 1], mask, stopping) ==
        if stopping && before.status != RcOk then before else Then(before, Hear(before.state, outs[k], mask))
  {
    assert outs[..k + 1][..k] == outs[..k] && outs[..k + 1][k] == outs[k];
  }

  /** Hearing on past a packet means that it did not fail: an error stays. */
  lemma {:induction false} ErrorStays(s: State, outs: seq<Out>, mask: Mask, n: nat)
    requires n <= |outs| && HearAll(s, outs[..n], mask, true).status != RcOk
    ensures HearAll(s, outs, mask, true).status != RcOk
    decreases |outs|
  {
    hide Hear;
    if n < |outs| {
      assert outs[..|outs| - 1][..n] == outs[..n];
      ErrorStays(s, outs[..|outs| - 1], mask, n);
    } else {
      assert outs[..n] == outs;
    }
  }

  /** No packet of a list fails if and only if none is refused in the state the ones before it
      have led to. */
  lemma {:induction false} NoneFails(s: State, outs: seq<Out>, mask: Mask)
    requires AllAudible(outs)
    ensures HearAll(s, outs, mask, true).status == RcOk <==>
      forall i | 0 <= i < |outs| :: !Refused(HearAll(s, outs[..i], mask, true).state, outs[i], mask)
    decreases |outs|
  {
    hide Hear, Refused, HearAll, Audible;
    if outs == [] {
      NothingHeard(s, mask);
    } else {
      var n := |outs| - 1;
      var before := outs[..n];
      NoneFails(s, before, mask);
      assert Audible(outs[n]);
      PlainIfList(outs[n]);
      HearFails(HearAll(s, before, mask, true).state, outs[n], mask);
      HearOneMore(s, outs, mask, true, n);
      assert outs[..n + 1] == outs;
      forall i | 0 <= i < n
        ensures before[..i] == outs[..i] && before[i] == outs[i]
      {
      }
    }
  }

  lemma NothingHeard(s: State, mask: Mask)
    ensures HearAll(s, [], mask, true).status == RcOk
  {
  }

  lemma PlainIfList(o: Out)
    requires Audible(o)
    ensures o.ListOut? ==> Plain(o.formats)
  {
  }

  // ---- the endpoint: channel, handler and session together -------------------------------------

  datatype Endpoint = Endpoint(
    channel: Reassembly.Channel,
    session: State,
    outs: seq<Out>,
    handedOn: seq<Handed>,
    performed: seq<Event>)      // the session events so far

  datatype Happening =
    | ChunkArrives(chunk: Reassembly.Chunk)
    | ThreadTurn
    | QuitAsked
    | Locally(event: Event)     // anything the client does by itself

  function Begin(threaded: bool, s: State): Endpoint { Endpoint(Reassembly.Fresh(threaded), s, [], [], []) }

  function Perform(p: Endpoint, e: Event, mask: Mask): Endpoint {
    var f := Step(p.session, e, mask);
    p.(session := f.state, outs := p.outs + f.outs, handedOn := p.handedOn + f.handed, performed := p.performed + [e])
  }

  // The message the happening makes the handler run on.
  function Next(c: Reassembly.Channel, h: Happening, slack: Reassembly.Slack): Option<bytes> {
    match h
    case ChunkArrives(chunk) =>
      var o := Reassembly.Post(c.partial, chunk, slack).1;
      if !c.threaded && o.Delivered? then Some(o.message) else None
    case ThreadTurn =>
      if c.running && c.queue != [] && c.queue[0].Message? then Some(c.queue[0].body) else None
    case _ => None
  }

  // The channel's part, given what the handler says.
  function ChannelStep(c: Reassembly.Channel, h: Happening, ok: bool, slack: Reassembly.Slack): Reassembly.Channel {
    match h
    case ChunkArrives(chunk) => Reassembly.Step(c, Reassembly.Arrive(chunk, ok), slack)
    case ThreadTurn => Reassembly.Step(c, Reassembly.Consume(ok), slack)
    case QuitAsked => Reassembly.Step(c, Reassembly.AskQuit, slack)
    case Locally(_) => c
  }

  // The verdict of the handler is the status of the session's receive step.
  function Happen(p: Endpoint, h: Happening, mask: Mask, slack: Reassembly.Slack): Endpoint {
    var next := Next(p.channel, h, slack);
    var ok := next.Some? ==> Receive(p.session, next.value, mask).status == RcOk;
    var q := p.(channel := ChannelStep(p.channel, h, ok, slack));
    if next.Some? then Perform(q, Arrives(next.value), mask)
    else if h.Locally? && !h.event.Arrives? then Perform(q, h.event, mask)
    else q
  }

  function Go(p: Endpoint, hs: seq<Happening>, mask: Mask, slack: Reassembly.Slack): Endpoint
    decreases |hs|
  {
    if hs == [] then p else Happen(Go(p, hs[..|hs| - 1], mask, slack), hs[|hs| - 1], mask, slack)
  }

  function Chunks(hs: seq<Happening>): seq<Reassembly.Chunk>
    decreases |hs|
  {
    if hs == [] then []
    else Chunks(hs[..|hs| - 1]) + if hs[|hs| - 1].ChunkArrives? then [hs[|hs| - 1].chunk] else []
  }

  // ---- what the session has seen -----------------------------------------------------------------

  function Heard(es: seq<Event>): seq<bytes>
    decreases |es|
  {
    if es == [] then []
    else Heard(es[..|es| - 1]) + if es[|es| - 1].Arrives? then [es[|es| - 1].message] else []
  }

  // The i-th event performed is a message whose handling failed.
  ghost predicate FailedAt(s: State, es: seq<Event>, mask: Mask, i: nat)
    requires i < |es|
  {
    es[i].Arrives? && Receive(Run(s, es[..i], mask).state, es[i].message, mask).status != RcOk
  }

  // The session's history is a run; its messages are those handled; a thread handles nothing
  // after a failure.
  ghost predicate Consistent(p: Endpoint, s: State, mask: Mask) {
    && (var e := Run(s, p.performed, mask); p.session == e.state && p.outs == e.outs && p.handedOn == e.handed)
    && Heard(p.performed) == p.channel.handled
    && (p.channel.threaded ==>
          forall i | 0 <= i < |p.performed| && FailedAt(s, p.performed, mask, i) ::
            !p.channel.running && forall j | i < j < |p.performed| :: !p.performed[j].Arrives?)
  }

  lemma PerformConsistent(p: Endpoint, q: Endpoint, e: Event, s: State, mask: Mask)
    requires Consistent(p, s, mask)
    requires q.session == p.session && q.outs == p.outs && q.handedOn == p.handedOn && q.performed == p.performed
    requires q.channel.threaded == p.channel.threaded
    requires q.channel.handled == if e.Arrives? then p.channel.handled + [e.message] else p.channel.handled
    requires p.channel.threaded && !p.channel.running ==> !e.Arrives? && !q.channel.running
    requires p.channel.threaded && e.Arrives? && Receive(p.session, e.message, mask).status != RcOk ==> !q.channel.running
    ensures Consistent(Perform(q, e, mask), s, mask)
  {
    hide Step, Receive;
    var all := p.performed + [e];
    assert all[..|all| - 1] == p.performed;
    var t := Perform(q, e, mask);
    if t.channel.threaded {
      forall i | 0 <= i < |all| && FailedAt(s, all, mask, i)
        ensures !t.channel.running && forall j | i < j < |all| :: !all[j].Arrives?
      {
        if i < |p.performed| {
          assert all[..i] == p.performed[..i];
          assert FailedAt(s, p.performed, mask, i);
        } else {
          assert all[..i] == p.performed;
        }
      }
    }
  }

  lemma IdleConsistent(p: Endpoint, q: Endpoint, s: State, mask: Mask)
    requires Consistent(p, s, mask) && q == p.(channel := q.channel)
    requires q.channel.threaded == p.channel.threaded && q.channel.handled == p.channel.handled
    requires !p.channel.running ==> !q.channel.running
    ensures Consistent(q, s, mask)
  {
  }

  lemma ChannelMoves(c: Reassembly.Channel, h: Happening, ok: bool, slack: Reassembly.Slack)
    ensures var d, next := ChannelStep(c, h, ok, slack), Next(c, h, slack);
      d.threaded == c.threaded && (!c.running ==> !d.running) &&
      d.handled == (if next.Some? then c.handled + [next.value] else c.handled) &&
      (c.threaded && next.Some? ==> c.running && d.running == ok)
  {
    hide Reassembly.Post;
  }

  lemma HappenConsistent(p: Endpoint, h: Happening, s: State, mask: Mask, slack: Reassembly.Slack)
    requires Consistent(p, s, mask)
    ensures Consistent(Happen(p, h, mask, slack), s, mask)
  {
    hide ChannelStep, Receive, Perform, Consistent;
    var next := Next(p.channel, h, slack);
    var ok := next.Some? ==> Receive(p.session, next.value, mask).status == RcOk;
    var q := p.(channel := ChannelStep(p.channel, h, ok, slack));
    ChannelMoves(p.channel, h, ok, slack);
    if next.Some? {
      PerformConsistent(p, q, Arrives(next.value), s, mask);
    } else if h.Locally? && !h.event.Arrives? {
      assert q == p by { LocalLeavesChannel(p, h, ok, slack); }
      PerformConsistent(p, q, h.event, s, mask);
    } else {
      IdleConsistent(p, q, s, mask);
    }
  }

  lemma LocalLeavesChannel(p: Endpoint, h: Happening, ok: bool, slack: Reassembly.Slack)
    requires h.Locally?
    ensures ChannelStep(p.channel, h, ok, slack) == p.channel
  {
  }

  /** In every interleaving of callback, handler thread, quit and the client's own calls the
      session has gone through a run whose messages are, in order, those handled; a handler
      thread handles no message after the first one that fails. */
  lemma {:induction false} EndpointHistory(threaded: bool, s: State, hs: seq<Happening>, mask: Mask, slack: Reassembly.Slack)
    ensures Consistent(Go(Begin(threaded, s), hs, mask, slack), s, mask)
    decreases |hs|
  {
    hide Happen, Consistent;
    if hs == [] {
      assert Consistent(Begin(threaded, s), s, mask) by { BeginConsistent(threaded, s, mask); }
    } else {
      EndpointHistory(threaded, s, hs[..|hs| - 1], mask, slack);
      HappenConsistent(Go(Begin(threaded, s), hs[..|hs| - 1], mask, slack), hs[|hs| - 1], s, mask, slack);
    }
  }

  lemma BeginConsistent(threaded: bool, s: State, mask: Mask)
    ensures Consistent(Begin(threaded, s), s, mask)
  {
  }

  // ---- the queue between chunks and session ----------------------------------------------------

  ghost predicate Queued(p: Endpoint, cs: seq<Reassembly.Chunk>, threaded: bool, slack: Reassembly.Slack) {
    var c := p.channel;
    Reassembly.QueueUsed(c) && c.threaded == threaded &&
    (c.partial, c.handled + Reassembly.Messages(c.queue)) == Reassembly.Feed(Reassembly.NoBuffer, cs, slack)
  }

  lemma HappenQueued(p: Endpoint, h: Happening, cs: seq<Reassembly.Chunk>, threaded: bool, mask: Mask, slack: Reassembly.Slack)
    requires Queued(p, cs, threaded, slack)
    ensures Queued(Happen(p, h, mask, slack), if h.ChunkArrives? then cs + [h.chunk] else cs, threaded, slack)
  {
    hide Receive, Reassembly.Step, Reassembly.Feed, Reassembly.Post, Reassembly.QueueUsed;
    var next := Next(p.channel, h, slack);
    var ok := next.Some? ==> Receive(p.session, next.value, mask).status == RcOk;
    match h {
      case ChunkArrives(chunk) =>
        Reassembly.StepIsFifo(p.channel, Reassembly.Arrive(chunk, ok), slack);
        Reassembly.FeedAppend(Reassembly.NoBuffer, cs, [chunk], slack);
        Reassembly.FeedOne(p.channel.partial, chunk, slack);
      case ThreadTurn => Reassembly.StepIsFifo(p.channel, Reassembly.Consume(ok), slack);
      case QuitAsked => Reassembly.StepIsFifo(p.channel, Reassembly.AskQuit, slack);
      case Locally(_) =>
    }
  }

  /** In every interleaving, handled messages followed by queued ones are what reassembly
      delivered. */
  lemma {:induction false} EndpointQueue(threaded: bool, s: State, hs: seq<Happening>, mask: Mask, slack: Reassembly.Slack)
    ensures Queued(Go(Begin(threaded, s), hs, mask, slack), Chunks(hs), threaded, slack)
    decreases |hs|
  {
    hide Happen, Queued;
    if hs == [] {
      assert Queued(Begin(threaded, s), [], threaded, slack) by { BeginQueued(threaded, s, slack); }
    } else {
      EndpointQueue(threaded, s, hs[..|hs| - 1], mask, slack);
      HappenQueued(Go(Begin(threaded, s), hs[..|hs| - 1], mask, slack), hs[|hs| - 1], Chunks(hs[..|hs| - 1]), threaded, mask, slack);
      assert Chunks(hs[..|hs| - 1]) + [] == Chunks(hs[..|hs| - 1]);
    }
  }

  lemma BeginQueued(threaded: bool, s: State, slack: Reassembly.Slack)
    ensures Queued(Begin(threaded, s), [], threaded, slack)
  {
    Reassembly.FeedNone(Reassembly.NoBuffer, slack);
    assert [] + Reassembly.Messages([]) == [];
  }

  /** At every moment of every interleaving, with any part of the chunks arrived, the messages
      handled and then those queued are a beginning of the packets sent, and all of them once
      every chunk is in. */
  lemma HandledInOrder(threaded: bool, s: State, outs: seq<Out>, cs: seq<Reassembly.Chunk>, hs: seq<Happening>,
                       mask: Mask, slack: Reassembly.Slack)
    requires Reassembly.Carries(cs, Wires(outs)) && Chunks(hs) <= cs
    ensures var c := Go(Begin(threaded, s), hs, mask, slack).channel;
      c.handled + Reassembly.Messages(c.queue) <= Wires(outs) &&
      (Chunks(hs) == cs ==> c.handled + Reassembly.Messages(c.queue) == Wires(outs) && c.partial == Reassembly.NoBuffer)
  {
    hide Go, Reassembly.Feed, Reassembly.Carries;
    EndpointQueue(threaded, s, hs, mask, slack);
    Reassembly.RunDelivers(cs, Wires(outs), slack);
    Reassembly.FeedPrefix(Reassembly.NoBuffer, Chunks(hs), cs, slack);
  }

  // ---- the packets of a peer -----------------------------------------------------------------------

  ghost predicate OnlyChannel(hs: seq<Happening>) { forall i | 0 <= i < |hs| :: !hs[i].Locally? }

  ghost predicate NoQuit(hs: seq<Happening>) { forall i | 0 <= i < |hs| :: !hs[i].QuitAsked? }

  // The endpoint has heard exactly the first packets, none of them after a failed one.
  ghost predicate HasHeard(p: Endpoint, s: State, outs: seq<Out>, mask: Mask) {
    var k, stopping := |p.channel.handled|, p.channel.threaded;
    && k <= |outs| && p.channel.handled == Wires(outs[..k])
    && (var e := HearAll(s, outs[..k], mask, stopping); p.session == e.state && p.outs == e.outs && p.handedOn == e.handed)
    && (stopping && k > 0 ==> HearAll(s, outs[..k - 1], mask, true).status == RcOk)
    && (stopping && p.channel.running ==> HearAll(s, outs[..k], mask, true).status == RcOk)
  }

  // Without a quit the thread runs until a packet fails.
  ghost predicate StopsOnlyOnError(p: Endpoint, s: State, outs: seq<Out>, mask: Mask)
    requires |p.channel.handled| <= |outs|
  {
    && Reassembly.Quit !in p.channel.queue
    && (!p.channel.running ==> HearAll(s, outs[..|p.channel.handled|], mask, true).status != RcOk)
  }

  // The next packet is handled.
  lemma HearNext(p: Endpoint, d: Reassembly.Channel, s: State, outs: seq<Out>, mask: Mask)
    requires HasHeard(p, s, outs, mask) && AllAudible(outs)
    requires var k := |p.channel.handled|;
      k < |outs| && d.threaded == p.channel.threaded && d.handled == p.channel.handled + [Encode(PacketOf(outs[k]))] &&
      (p.channel.threaded ==> p.channel.running) &&
      (p.channel.threaded ==> d.running == (Receive(p.session, Encode(PacketOf(outs[k])), mask).status == RcOk))
    ensures var q := Perform(p.(channel := d), Arrives(Encode(PacketOf(outs[|p.channel.handled|]))), mask);
      HasHeard(q, s, outs, mask) &&
      (d.threaded && !d.running ==> HearAll(s, outs[..|d.handled|], mask, true).status != RcOk)
  {
    hide Hear, Receive, PacketOf, Encode, Audible, HearAll;
    var k, stopping := |p.channel.handled|, p.channel.threaded;
    assert Audible(outs[k]);
    ReceiveIsHear(p.session, outs[k], mask);
    HearOneMore(s, outs, mask, stopping, k);
    WiresAppend(outs[..k], [outs[k]]);
    assert outs[..k + 1] == outs[..k] + [outs[k]];
  }

  lemma HappenHears(p: Endpoint, h: Happening, s: State, outs: seq<Out>, mask: Mask, slack: Reassembly.Slack)
    requires HasHeard(p, s, outs, mask) && AllAudible(outs) && !h.Locally?
    requires Happen(p, h, mask, slack).channel.handled <= Wires(outs)
    ensures HasHeard(Happen(p, h, mask, slack), s, outs, mask)
    ensures p.channel.threaded && StopsOnlyOnError(p, s, outs, mask) && !h.QuitAsked? ==>
      StopsOnlyOnError(Happen(p, h, mask, slack), s, outs, mask)
  {
    hide Receive, HearAll, PacketOf, Encode, AllAudible, Reassembly.Post;
    var next := Next(p.channel, h, slack);
    var ok := next.Some? ==> Receive(p.session, next.value, mask).status == RcOk;
    ChannelMoves(p.channel, h, ok, slack);
    if next.Some? {
      var d := ChannelStep(p.channel, h, ok, slack);
      assert d.handled[|p.channel.handled|] == Wires(outs)[|p.channel.handled|];
      HearNext(p, d, s, outs, mask);
    }
  }

  /** Packets written, length-patched, cut into any FIRST .. LAST chunks with suspend and resume
      chunks strewn in, reassembled and dispatched: in every interleaving the session is that of
      the packets handled so far, in order, up to and including the first one that fails, if a
      thread handles them; and when every chunk is in, no quit was asked for and nothing is left
      to do, that is all of the packets if and only if none before the last one fails. */
  lemma WholeStack(threaded: bool, s: State, outs: seq<Out>, cs: seq<Reassembly.Chunk>, hs: seq<Happening>,
                   mask: Mask, slack: Reassembly.Slack)
    requires Reassembly.Carries(cs, Wires(outs)) && Chunks(hs) <= cs
    requires AllAudible(outs) && OnlyChannel(hs)
    ensures var p := Go(Begin(threaded, s), hs, mask, slack);
      var k := |p.channel.handled|;
      HasHeard(p, s, outs, mask) && p.channel.threaded == threaded &&
      (Chunks(hs) == cs && !threaded ==> k == |outs|) &&
      (Chunks(hs) == cs && threaded && NoQuit(hs) && (p.channel.running ==> p.channel.queue == []) ==>
        (k == |outs| || HearAll(s, outs[..k], mask, true).status != RcOk) &&
        (k == |outs| <==> outs == [] || HearAll(s, outs[..|outs| - 1], mask, true).status == RcOk))
  {
    hide Go, Reassembly.Carries, HearAll, AllAudible, Reassembly.Feed;
    HeardSoFar(threaded, s, outs, cs, hs, mask, slack);
    HandledInOrder(threaded, s, outs, cs, hs, mask, slack);
    EndpointQueue(threaded, s, hs, mask, slack);
    var p := Go(Begin(threaded, s), hs, mask, slack);
    var k := |p.channel.handled|;
    if p.channel.queue == [] {
      assert p.channel.handled + Reassembly.Messages([]) == p.channel.handled;
    }
    if threaded && k < |outs| && HearAll(s, outs[..k], mask, true).status != RcOk {
      assert outs[..|outs| - 1][..k] == outs[..k];
      ErrorStays(s, outs[..|outs| - 1], mask, k);
    }
  }

  lemma {:induction false} HeardSoFar(threaded: bool, s: State, outs: seq<Out>, cs: seq<Reassembly.Chunk>, hs: seq<Happening>,
                                      mask: Mask, slack: Reassembly.Slack)
    requires Reassembly.Carries(cs, Wires(outs)) && Chunks(hs) <= cs
    requires AllAudible(outs) && OnlyChannel(hs)
    ensures var p := Go(Begin(threaded, s), hs, mask, slack);
      HasHeard(p, s, outs, mask) && p.channel.threaded == threaded &&
      (threaded && NoQuit(hs) ==> StopsOnlyOnError(p, s, outs, mask))
    decreases |hs|
  {
    hide Happen, Reassembly.Carries, HearAll, AllAudible, HasHeard, StopsOnlyOnError, Queued;
    HandledInOrder(threaded, s, outs, cs, hs, mask, slack);
    EndpointQueue(threaded, s, hs, mask, slack);
    QueuedMode(Go(Begin(threaded, s), hs, mask, slack), Chunks(hs), threaded, slack);
    if hs == [] {
      BeginHeard(threaded, s, outs, mask);
    } else {
      var before, h := hs[..|hs| - 1], hs[|hs| - 1];
      assert Chunks(before) <= Chunks(hs);
      HeardSoFar(threaded, s, outs, cs, before, mask, slack);
      HappenHears(Go(Begin(threaded, s), before, mask, slack), h, s, outs, mask, slack);
    }
  }

  lemma QueuedMode(p: Endpoint, cs: seq<Reassembly.Chunk>, threaded: bool, slack: Reassembly.Slack)
    requires Queued(p, cs, threaded, slack)
    ensures p.channel.threaded == threaded
  {
  }

  lemma BeginHeard(threaded: bool, s: State, outs: seq<Out>, mask: Mask)
    ensures HasHeard(Begin(threaded, s), s, outs, mask) && StopsOnlyOnError(Begin(threaded, s), s, outs, mask)
  {
    assert outs[..0] == [] && Wires([]) == [];
  }
}
