/**
 Reassembly of channel chunks into messages (MS-RDPBCGR section 3.1.5.2.2.1),
 and the queue between the channel callback and the handler thread.
 */
module Reassembly {
  import opened Wire
  import opened Stream
  import opened Pdu

  datatype Chunk = Chunk(data: bytes, total: nat, first: bool, last: bool, suspend: bool, resume: bool)

  predicate Control(c: Chunk) { c.suspend || c.resume }

  // The message under construction: bytes so far and the capacity of their buffer.
  datatype Partial = NoBuffer | Buffer(written: bytes, capacity: nat)

  ghost predicate Fits(p: Partial) { p.Buffer? ==> |p.written| <= p.capacity }

  // How much the stream library over-allocates, given the capacity it has and the one it needs.
  type Slack = (nat, nat) -> nat

  function Grown(capacity: nat, needed: nat, slack: Slack): (c: nat)
    ensures c >= needed
  {
    if capacity < needed then needed + slack(capacity, needed) else capacity
  }

  datatype Outcome = Quiet(status: Status) | Delivered(message: bytes)

  function Begin(p: Partial, c: Chunk, slack: Slack): Partial {
    if !c.first then p
    else if p.NoBuffer? then Buffer([], c.total)
    else p.(capacity := Grown(p.capacity, c.total, slack))
  }

  function Post(p: Partial, c: Chunk, slack: Slack): (r: (Partial, Outcome))
    ensures Fits(p) ==> Fits(r.0)
  {
    if Control(c) then (p, Quiet(RcOk))
    else
      var begun := Begin(p, c, slack);
      if begun.NoBuffer? then (NoBuffer, Quiet(NoMemory))
      else
        var written := begun.written + c.data;
        var filled := Buffer(written, Grown(begun.capacity, |written|, slack));
        if !c.last then (filled, Quiet(RcOk))
        else if filled.capacity != |written| then (filled, Quiet(InternalError))
        else (NoBuffer, Delivered(written))
  }

  // ---- the handler object ------------------------------------------------------

  datatype Item = Message(body: bytes) | Quit

  // Messages go through a queue to a handler thread, or, with threads disabled, straight to the
  // message handler.
  datatype Channel = Channel(threaded: bool, partial: Partial, queue: seq<Item>, handled: seq<bytes>, running: bool)

  function Fresh(threaded: bool): Channel { Channel(threaded, NoBuffer, [], [], true) }

  // `ok` is the verdict of the message handler, where the event runs it.
  datatype Event = Arrive(chunk: Chunk, ok: bool) | Consume(ok: bool) | AskQuit

  function Step(s: Channel, e: Event, slack: Slack): Channel {
    match e
    case Arrive(c, ok) =>
      var (p, o) := Post(s.partial, c, slack);
      if o.Quiet? then s.(partial := p)
      else if s.threaded then s.(partial := p, queue := s.queue + [Message(o.message)])
      else s.(partial := p, handled := s.handled + [o.message])
    case Consume(ok) =>
      if !s.running || s.queue == [] then s
      else if s.queue[0].Quit? then s.(queue := s.queue[1..], running := false)
      else s.(queue := s.queue[1..], handled := s.handled + [s.queue[0].body], running := ok)
    case AskQuit => if s.threaded then s.(queue := s.queue + [Quit]) else s
  }

  class Handler {
    const slack: Slack
    const threaded: bool
    var dataIn: WStream?
    var queue: seq<Item>
    var handled: seq<bytes>
    var running: bool

    constructor (slack: Slack, threaded: bool)
      ensures Valid() && View() == Fresh(threaded) && this.slack == slack
    {
      this.slack, this.threaded := slack, threaded;
      dataIn, queue, handled, running := null, [], [], true;
    }

    ghost predicate Valid()
      reads this, dataIn
    {
      dataIn != null ==> dataIn.Valid() && dataIn.length == dataIn.buffer.Length
    }

    ghost function Buffers(): set<object?>
      reads this, dataIn
    {
      if dataIn == null then {} else {dataIn, dataIn.buffer}
    }

    ghost function View(): Channel
      requires Valid()
      reads this, dataIn, Buffers()
    {
      Channel(threaded, if dataIn == null then NoBuffer else Buffer(dataIn.Written(), dataIn.buffer.Length),
              queue, handled, running)
    }

    // The channel callback: one chunk.  `ok` is what the message handler says if it runs here.
    method PostMessage(c: Chunk, ok: bool) returns (status: Status)
      requires Valid()
      modifies this, Buffers()
      ensures Valid() && fresh(Buffers() - old(Buffers()))
      ensures View() == Step(old(View()), Arrive(c, ok), slack)
      ensures status == match Post(old(View()).partial, c, slack).1
                        case Quiet(s) => s
                        case Delivered(_) => if threaded || ok then RcOk else InternalError
    {
      if c.suspend || c.resume {
        return RcOk;
      }
      BeginIfFirst(c);
      if dataIn == null {
        return NoMemory;
      }
      Append(c.data);
      if c.last {
        if dataIn.buffer.Length != dataIn.pos {
          return InternalError;
        }
        var message := dataIn.buffer[..dataIn.pos];
        dataIn := null;
        if !threaded {
          handled := handled + [message];
          return if ok then RcOk else InternalError;
        }
        queue := queue + [Message(message)];
      }
      status := RcOk;
    }

    method BeginIfFirst(c: Chunk)
      requires Valid()
      modifies this`dataIn, Buffers()
      ensures Valid() && fresh(Buffers() - old(Buffers()))
      ensures View() == old(View()).(partial := Begin(old(View()).partial, c, slack))
    {
      if c.first {
        if dataIn != null {
          dataIn.EnsureCapacity(c.total, c.total + slack(dataIn.buffer.Length, c.total));
        } else {
          dataIn := new WStream(c.total);
          assert dataIn.Written() == [];
        }
      }
    }

    method Append(data: bytes)
      requires Valid() && dataIn != null
      modifies Buffers()
      ensures Valid() && dataIn == old(dataIn) && fresh(Buffers() - old(Buffers()))
      ensures var p := old(View()).partial;
        var written := p.written + data;
        View() == old(View()).(partial := Buffer(written, Grown(p.capacity, |written|, slack)))
    {
      var needed := dataIn.pos + |data|;
      dataIn.EnsureCapacity(needed, needed + slack(dataIn.buffer.Length, needed));
      dataIn.Write(data);
    }

    // One turn of the handler thread; `ok` is the verdict of the message handler.
    method ThreadTurn(ok: bool)
      requires Valid()
      modifies this`queue, this`handled, this`running
      ensures Valid() && View() == Step(old(View()), Consume(ok), slack)
    {
      if running && queue != [] {
        var item := queue[0];
        queue := queue[1..];
        match item {
          case Quit => running := false;
          case Message(m) =>
            handled := handled + [m];
            running := ok;
        }
      }
    }

    method PostQuit()
      requires Valid()
      modifies this`queue
      ensures Valid() && View() == Step(old(View()), AskQuit, slack)
    {
      if threaded {
        queue := queue + [Quit];
      }
    }
  }

  // ---- whole runs of chunks --------------------------------------------------------

  function Deliveries(o: Outcome): seq<bytes> { if o.Delivered? then [o.message] else [] }

  function Feed(p: Partial, cs: seq<Chunk>, slack: Slack): (r: (Partial, seq<bytes>))
    ensures Fits(p) ==> Fits(r.0)
    decreases |cs|
  {
    if cs == [] then (p, [])
    else
      var (p1, o) := Post(p, cs[0], slack);
      var (p2, ms) := Feed(p1, cs[1..], slack);
      (p2, Deliveries(o) + ms)
  }

  lemma FeedNone(p: Partial, slack: Slack)
    ensures Feed(p, [], slack) == (p, [])
  {
  }

  lemma FeedOne(p: Partial, c: Chunk, slack: Slack)
    ensures var (q, o) := Post(p, c, slack);
      Feed(p, [c], slack) == (q, Deliveries(o))
  {
    hide Post;
    var (q, o) := Post(p, c, slack);
    assert [c][1..] == [] && [c][0] == c;
    assert Feed(q, [], slack) == (q, []);
    assert Feed(p, [c], slack) == (q, Deliveries(o) + []);
    assert Deliveries(o) + [] == Deliveries(o);
  }

  lemma {:induction false} FeedAppend(p: Partial, a: seq<Chunk>, b: seq<Chunk>, slack: Slack)
    ensures var (p1, ms1) := Feed(p, a, slack);
      var (p2, ms2) := Feed(p1, b, slack);
      Feed(p, a + b, slack) == (p2, ms1 + ms2)
    decreases |a|
  {
    hide Post;
    if a == [] {
      assert a + b == b;
      assert [] + Feed(p, b, slack).1 == Feed(p, b, slack).1;
    } else {
      assert (a + b)[1..] == a[1..] + b;
      var (p1, o) := Post(p, a[0], slack);
      FeedAppend(p1, a[1..], b, slack);
      var (p2, ms) := Feed(p1, a[1..], slack);
      var tail := Feed(p2, b, slack).1;
      assert Deliveries(o) + (ms + tail) == (Deliveries(o) + ms) + tail;
    }
  }

  function Held(p: Partial): bytes { if p.Buffer? then p.written else [] }

  // The data the reassembler takes in: not that of control chunks, nor of chunks
  // that arrive without FIRST while nothing is under construction.
  function TakenFrom(p: Partial, c: Chunk): bytes {
    if Control(c) || (p.NoBuffer? && !c.first) then [] else c.data
  }

  function Taken(p: Partial, cs: seq<Chunk>, slack: Slack): bytes
    decreases |cs|
  {
    if cs == [] then []
    else
      TakenFrom(p, cs[0]) + Taken(Post(p, cs[0], slack).0, cs[1..], slack)
  }

  lemma PostConserves(p: Partial, c: Chunk, slack: Slack)
    ensures var (q, o) := Post(p, c, slack);
      Held(p) + TakenFrom(p, c) == Concat(Deliveries(o)) + Held(q)
  {
    var (q, o) := Post(p, c, slack);
    if o.Delivered? {
      assert [o.message][1..] == [];
      assert Concat(Deliveries(o)) == o.message + [];
    }
  }

  lemma Regroup(h: bytes, a: bytes, rest: bytes, first: bytes, h1: bytes, ms: bytes, q: bytes)
    requires h + a == first + h1 && h1 + rest == ms + q
    ensures h + (a + rest) == (first + ms) + q
  {
    assert h + (a + rest) == (h + a) + rest;
    assert (first + h1) + rest == first + (h1 + rest);
    assert first + (ms + q) == (first + ms) + q;
  }

  /** Whatever the chunks, no byte is lost, doubled or moved: what was held and taken in is,
      in order, what was delivered followed by what is still held. */
  lemma {:induction false} Conservation(p: Partial, cs: seq<Chunk>, slack: Slack)
    ensures var (q, ms) := Feed(p, cs, slack);
      Held(p) + Taken(p, cs, slack) == Concat(ms) + Held(q)
    decreases |cs|
  {
    hide Post, Held, TakenFrom, Deliveries;
    if cs != [] {
      var (p1, o) := Post(p, cs[0], slack);
      var (q, ms) := Feed(p1, cs[1..], slack);
      PostConserves(p, cs[0], slack);
      Conservation(p1, cs[1..], slack);
      ConcatAppend(Deliveries(o), ms);
      Regroup(Held(p), TakenFrom(p, cs[0]), Taken(p1, cs[1..], slack),
              Concat(Deliveries(o)), Held(p1), Concat(ms), Held(q));
    }
  }

  /** A delivered message is, byte for byte, the data taken in since the buffer was last empty. */
  lemma DeliveredIsWhole(cs: seq<Chunk>, slack: Slack)
    requires |Feed(NoBuffer, cs, slack).1| == 1 && Feed(NoBuffer, cs, slack).0 == NoBuffer
    ensures Feed(NoBuffer, cs, slack).1 == [Taken(NoBuffer, cs, slack)]
  {
    var ms := Feed(NoBuffer, cs, slack).1;
    Conservation(NoBuffer, cs, slack);
    assert ms[1..] == [] && Concat(ms) == ms[0] + [];
    assert [] + Taken(NoBuffer, cs, slack) == Taken(NoBuffer, cs, slack) && Concat(ms) + [] == ms[0];
  }

  function NonControl(cs: seq<Chunk>): (r: seq<Chunk>)
    ensures forall i | 0 <= i < |r| :: !Control(r[i])
  {
    if cs == [] then [] else (if Control(cs[0]) then [] else [cs[0]]) + NonControl(cs[1..])
  }

  lemma {:induction false} ControlInvisible(p: Partial, cs: seq<Chunk>, slack: Slack)
    ensures Feed(p, NonControl(cs), slack) == Feed(p, cs, slack)
    decreases |cs|
  {
    if cs != [] {
      var p1 := Post(p, cs[0], slack).0;
      ControlInvisible(p1, cs[1..], slack);
      if !Control(cs[0]) {
        assert NonControl(cs)[1..] == NonControl(cs[1..]);
      } else {
        assert NonControl(cs) == NonControl(cs[1..]);
        assert Deliveries(Post(p, cs[0], slack).1) + Feed(p1, cs[1..], slack).1 == Feed(p1, cs[1..], slack).1;
      }
    }
  }

  function Payload(cs: seq<Chunk>): bytes {
    if cs == [] then [] else cs[0].data + Payload(cs[1..])
  }

  // The chunks after the first one of a message.
  ghost predicate IsTail(cs: seq<Chunk>) {
    && |cs| > 0
    && forall i | 0 <= i < |cs| :: !Control(cs[i]) && !cs[i].first && (cs[i].last <==> i == |cs| - 1)
  }

  // One message, cut anywhere into FIRST .. LAST chunks.
  ghost predicate IsMessage(cs: seq<Chunk>, m: bytes) {
    && |cs| > 0
    && cs[0].first && cs[0].total == |m| && !Control(cs[0])
    && (cs[0].last <==> |cs| == 1)
    && (|cs| > 1 ==> IsTail(cs[1..]))
    && Payload(cs) == m
  }

  // A tail completes what is held into one message, or leaves it behind undelivered.
  lemma {:induction false} FeedTail(w: bytes, capacity: nat, cs: seq<Chunk>, slack: Slack)
    requires IsTail(cs) && |w| <= capacity
    ensures var whole := w + Payload(cs);
      var (q, ms) := Feed(Buffer(w, capacity), cs, slack);
      ((ms == [whole] && q == NoBuffer) || (ms == [] && q.Buffer? && q.written == whole)) &&
      (capacity >= |whole| ==> (ms == [whole] <==> capacity == |whole|))
    decreases |cs|
  {
    var written := w + cs[0].data;
    var room := Grown(capacity, |written|, slack);
    if |cs| == 1 {
      assert Payload(cs) == cs[0].data;
      assert cs[1..] == [];
    } else {
      FeedTail(written, room, cs[1..], slack);
      assert w + Payload(cs) == written + Payload(cs[1..]);
      assert Post(Buffer(w, capacity), cs[0], slack) == (Buffer(written, room), Quiet(RcOk));
    }
  }

  // The states in which a message of `n` bytes can be built cleanly.
  ghost predicate Clean(p: Partial, n: nat, slack: Slack) {
    p.NoBuffer? || (p.written == [] && Grown(p.capacity, n, slack) == n)
  }

  // The capacity once the first chunk has announced a message of n bytes.
  function Announced(p: Partial, n: nat, slack: Slack): nat {
    if p.NoBuffer? then n else Grown(p.capacity, n, slack)
  }

  ghost predicate WholeOrLeft(r: (Partial, seq<bytes>), whole: bytes, room: nat) {
    ((r.1 == [whole] && r.0 == NoBuffer) || (r.1 == [] && r.0.Buffer? && r.0.written == whole)) &&
    (room >= |whole| ==> (r.1 == [whole] <==> room == |whole|))
  }

  lemma OneChunkFed(p: Partial, c: Chunk, slack: Slack)
    requires IsMessage([c], c.data) && Fits(p)
    ensures WholeOrLeft(Feed(p, [c], slack), Held(p) + c.data, Announced(p, |c.data|, slack))
  {
    assert [c][0] == c;
    FeedOne(p, c, slack);
  }

  lemma ManyChunksFed(p: Partial, cs: seq<Chunk>, m: bytes, slack: Slack)
    requires IsMessage(cs, m) && Fits(p) && |cs| > 1
    ensures WholeOrLeft(Feed(p, cs, slack), Held(p) + m, Announced(p, |m|, slack))
  {
    hide Payload, IsTail;
    var written := Held(p) + cs[0].data;
    var room := Grown(Announced(p, |m|, slack), |written|, slack);
    PayloadSplit(cs);
    assert written + Payload(cs[1..]) == Held(p) + m;
    FeedTail(written, room, cs[1..], slack);
    assert Post(p, cs[0], slack) == (Buffer(written, room), Quiet(RcOk));
    var ms := Feed(Buffer(written, room), cs[1..], slack).1;
    assert [] + ms == ms;
  }

  lemma PayloadSplit(cs: seq<Chunk>)
    requires cs != []
    ensures Payload(cs) == cs[0].data + Payload(cs[1..])
  {
  }

  lemma MessageFed(p: Partial, cs: seq<Chunk>, m: bytes, slack: Slack)
    requires IsMessage(cs, m) && Fits(p)
    ensures WholeOrLeft(Feed(p, cs, slack), Held(p) + m, Announced(p, |m|, slack))
  {
    hide WholeOrLeft, Feed;
    if |cs| == 1 {
      assert cs == [cs[0]] && cs[1..] == [] && cs[0].data + [] == cs[0].data;
      PayloadSplit(cs);
      assert m == cs[0].data && Payload([cs[0]]) == m;
      OneChunkFed(p, cs[0], slack);
    } else {
      ManyChunksFed(p, cs, m, slack);
    }
  }

  /** A well-formed message comes out as itself exactly when there is no buffer, or an empty one
      whose capacity the announcement brings to the length of the message: anything else left
      behind is prepended to it or swallows it. */
  lemma MessageIntact(p: Partial, cs: seq<Chunk>, m: bytes, slack: Slack)
    requires IsMessage(cs, m) && Fits(p)
    ensures Feed(p, cs, slack).1 == [m] <==> Clean(p, |m|, slack)
    ensures Clean(p, |m|, slack) ==> Feed(p, cs, slack).0 == NoBuffer
    ensures Feed(p, cs, slack).1 == [Held(p) + m] || Feed(p, cs, slack).1 == []
  {
    hide Feed;
    MessageFed(p, cs, m, slack);
    if Held(p) == [] {
      assert Held(p) + m == m;
    } else {
      assert |Held(p) + m| > |m|;
      assert [Held(p) + m][0] != [m][0];
    }
  }

  /** A last chunk that does not complete what was announced fails and leaves its bytes behind:
      no message after it is delivered as itself. */
  lemma FailedLastLeaves(cs: seq<Chunk>, m: bytes, slack: Slack)
    requires IsMessage(cs, m)
    ensures var left := Post(NoBuffer, Chunk([7], 2, true, true, false, false), slack);
      left == (Buffer([7], 2), Quiet(InternalError)) && Feed(left.0, cs, slack).1 != [m]
  {
    hide Feed;
    assert [] + [7] == [7];
    MessageIntact(Buffer([7], 2), cs, m, slack);
  }

  /** A message begun without a byte leaves none behind, but its capacity: a shorter message
      after it is swallowed. */
  lemma EmptyFirstSwallows(cs: seq<Chunk>, m: bytes, slack: Slack)
    requires IsMessage(cs, m) && |m| < 10
    ensures var begun := Post(NoBuffer, Chunk([], 10, true, false, false, false), slack);
      begun == (Buffer([], 10), Quiet(RcOk)) && Held(begun.0) == [] && Feed(begun.0, cs, slack).1 != [m]
  {
    hide Feed;
    MessageIntact(Buffer([], 10), cs, m, slack);
  }

  // A run of well-formed messages, with control chunks strewn in anywhere.
  ghost predicate Carries(cs: seq<Chunk>, ms: seq<bytes>)
    decreases ms
  {
    if ms == [] then NonControl(cs) == []
    else exists k | 0 <= k <= |cs| :: IsMessage(NonControl(cs[..k]), ms[0]) && Carries(cs[k..], ms[1..])
  }

  /** Such a run delivers exactly its messages, in order, once each. */
  lemma {:induction false} RunDelivers(cs: seq<Chunk>, ms: seq<bytes>, slack: Slack)
    requires Carries(cs, ms)
    ensures Feed(NoBuffer, cs, slack) == (NoBuffer, ms)
    decreases ms
  {
    hide IsMessage, Post, Feed, NonControl;
    if ms == [] {
      ControlInvisible(NoBuffer, cs, slack);
      FeedNone(NoBuffer, slack);
    } else {
      var k :| 0 <= k <= |cs| && IsMessage(NonControl(cs[..k]), ms[0]) && Carries(cs[k..], ms[1..]);
      ControlInvisible(NoBuffer, cs[..k], slack);
      MessageIntact(NoBuffer, NonControl(cs[..k]), ms[0], slack);
      RunDelivers(cs[k..], ms[1..], slack);
      FeedAppend(NoBuffer, cs[..k], cs[k..], slack);
      assert cs[..k] + cs[k..] == cs;
      assert [ms[0]] + ms[1..] == ms;
    }
  }

  // ---- callback, queue and thread interleaved ------------------------------------------

  function Run(s: Channel, es: seq<Event>, slack: Slack): Channel
    decreases |es|
  {
    if es == [] then s else Step(Run(s, es[..|es| - 1], slack), es[|es| - 1], slack)
  }

  function Arrivals(es: seq<Event>): seq<Chunk>
    decreases |es|
  {
    if es == [] then []
    else
      var e := es[|es| - 1];
      Arrivals(es[..|es| - 1]) + if e.Arrive? then [e.chunk] else []
  }

  function Messages(q: seq<Item>): seq<bytes> {
    if q == [] then [] else (if q[0].Message? then [q[0].body] else []) + Messages(q[1..])
  }

  lemma {:induction false} MessagesAppend(a: seq<Item>, b: seq<Item>)
    ensures Messages(a + b) == Messages(a) + Messages(b)
  {
    if a == [] {
      assert a + b == b;
    } else {
      assert (a + b)[1..] == a[1..] + b;
      MessagesAppend(a[1..], b);
    }
  }

  // With threads disabled nothing is ever queued.
  ghost predicate QueueUsed(s: Channel) { !s.threaded ==> s.queue == [] }

  lemma StepIsFifo(s: Channel, e: Event, slack: Slack)
    requires QueueUsed(s)
    ensures var t := Step(s, e, slack);
      QueueUsed(t) && t.threaded == s.threaded &&
      t.partial == (if e.Arrive? then Post(s.partial, e.chunk, slack).0 else s.partial) &&
      t.handled + Messages(t.queue) ==
        if e.Arrive? then s.handled + Messages(s.queue) + Deliveries(Post(s.partial, e.chunk, slack).1)
        else s.handled + Messages(s.queue)
  {
    hide Post;
    match e {
      case Arrive(c, ok) =>
        var o := Post(s.partial, c, slack).1;
        if o.Delivered? {
          assert [Message(o.message)][1..] == [];
          MessagesAppend(s.queue, [Message(o.message)]);
        }
      case Consume(ok) =>
        if s.running && s.queue != [] && s.queue[0].Message? {
          var m := s.queue[0].body;
          assert s.handled + ([m] + Messages(s.queue[1..])) == (s.handled + [m]) + Messages(s.queue[1..]);
        }
      case AskQuit =>
        assert [Quit][1..] == [];
        MessagesAppend(s.queue, [Quit]);
    }
  }

  lemma FreshUnused(threaded: bool)
    ensures QueueUsed(Fresh(threaded))
  {
  }

  /** Under every interleaving of callback, handler thread and quit, what was handled followed
      by what is queued is what reassembly delivered: nothing is lost, repeated or overtaken. */
  lemma {:induction false} QueueIsFifo(threaded: bool, es: seq<Event>, slack: Slack)
    ensures var s := Run(Fresh(threaded), es, slack);
      QueueUsed(s) && s.threaded == threaded &&
      (s.partial, s.handled + Messages(s.queue)) == Feed(NoBuffer, Arrivals(es), slack)
    decreases |es|
  {
    hide Post, Step, QueueUsed, Feed;
    if es == [] {
      FeedNone(NoBuffer, slack);
      assert QueueUsed(Fresh(threaded)) by { FreshUnused(threaded); }
      assert Fresh(threaded).handled + Messages(Fresh(threaded).queue) == [];
    } else {
      var before, e := es[..|es| - 1], es[|es| - 1];
      QueueIsFifo(threaded, before, slack);
      var s := Run(Fresh(threaded), before, slack);
      StepIsFifo(s, e, slack);
      if e.Arrive? {
        FeedAppend(NoBuffer, Arrivals(before), [e.chunk], slack);
        FeedOne(s.partial, e.chunk, slack);
      } else {
        assert Arrivals(es) == Arrivals(before);
      }
    }
  }

  /** Chunks still to come only add to what is delivered. */
  lemma FeedPrefix(p: Partial, some: seq<Chunk>, cs: seq<Chunk>, slack: Slack)
    requires some <= cs
    ensures Feed(p, some, slack).1 <= Feed(p, cs, slack).1
  {
    FeedAppend(p, some, cs[|some|..], slack);
    assert cs == some + cs[|some|..];
  }

  // ---- quitting -----------------------------------------------------------------------------

  // Events in which every handler succeeds.
  ghost predicate AllSucceed(es: seq<Event>) { forall i | 0 <= i < |es| :: es[i].Consume? ==> es[i].ok }

  ghost predicate QuitAt(q: seq<Item>, k: nat) { k < |q| && q[k].Quit? && forall i | 0 <= i < k :: q[i].Message? }

  function Consumed(es: seq<Event>): nat
    decreases |es|
  {
    if es == [] then 0 else Consumed(es[..|es| - 1]) + if es[|es| - 1].Consume? then 1 else 0
  }

  // From a state with a quit behind k messages, after n turns of the thread.
  ghost predicate Quitting(s: Channel, k: nat, n: nat, t: Channel)
    requires k < |s.queue|
  {
    var j := Min(n, k + 1);
    t.threaded && s.queue[j..] <= t.queue && t.running == (n <= k) && t.handled == s.handled + Messages(s.queue[..Min(n, k)])
  }

  lemma OneMoreMessage(q: seq<Item>, n: nat)
    requires n < |q| && q[n].Message?
    ensures Messages(q[..n + 1]) == Messages(q[..n]) + [q[n].body]
  {
    assert q[..n + 1] == q[..n] + [q[n]];
    MessagesAppend(q[..n], [q[n]]);
    assert [q[n]][1..] == [];
  }

  lemma QuittingStep(s: Channel, k: nat, n: nat, t: Channel, e: Event, slack: Slack)
    requires QuitAt(s.queue, k) && Quitting(s, k, n, t) && (e.Consume? ==> e.ok)
    ensures Quitting(s, k, if e.Consume? then n + 1 else n, Step(t, e, slack))
  {
    hide Post, Messages;
    if e.Consume? && n <= k {
      assert t.queue[0] == s.queue[n..][0] == s.queue[n];
      assert t.queue[1..][..|s.queue| - n - 1] == s.queue[n + 1..];
      if n < k {
        OneMoreMessage(s.queue, n);
      }
    }
  }

  /** Once a quit is queued behind k messages, and as long as their handlers succeed, the thread's
      first k turns handle exactly those, in order, the next one ends it, and nothing that arrives
      meanwhile or afterwards is handled. */
  lemma {:induction false} QuitIsLast(s: Channel, k: nat, es: seq<Event>, slack: Slack)
    requires s.threaded && s.running && QuitAt(s.queue, k) && AllSucceed(es)
    ensures Quitting(s, k, Consumed(es), Run(s, es, slack))
    decreases |es|
  {
    hide Step, Quitting;
    if es == [] {
      assert Quitting(s, k, 0, s) by { NothingConsumed(s, k); }
    } else {
      QuitIsLast(s, k, es[..|es| - 1], slack);
      QuittingStep(s, k, Consumed(es[..|es| - 1]), Run(s, es[..|es| - 1], slack), es[|es| - 1], slack);
    }
  }

  lemma NothingConsumed(s: Channel, k: nat)
    requires s.threaded && s.running && k < |s.queue|
    ensures Quitting(s, k, 0, s)
  {
    assert s.queue[0..] == s.queue && s.queue[..0] == [];
    assert s.handled + [] == s.handled;
  }

  /** A chunk is refused in exactly two cases: it does not begin a message while none is under
      construction, or it ends one that does not fill its buffer. */
  lemma ChunkRefused(p: Partial, c: Chunk, slack: Slack)
    requires Fits(p)
    ensures var (q, o) := Post(p, c, slack);
      (o == Quiet(NoMemory) <==> !c.suspend && !c.resume && !c.first && p == NoBuffer) &&
      (o == Quiet(InternalError) ==> c.last && q.Buffer? && |q.written| < q.capacity) &&
      (o.Quiet? ==> o.status in {RcOk, NoMemory, InternalError}) &&
      (o == Quiet(RcOk) ==> c.suspend || c.resume || !c.last) && (o.Delivered? ==> c.last && q == NoBuffer)
  {
  }
}
