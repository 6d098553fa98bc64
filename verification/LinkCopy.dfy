/**
 What the engine's theorems assume of replies and refusals holds when it runs
 against a peer's session over the channel; so the forest arrives, and the size
 limit is the one the capability packets leave in force.
 */
module LinkCopy {
  import opened Pdu
  import opened FormatFilter
  import opened Serving
  import opened Session
  import opened Download
  import opened Link
  import opened FileWalk
  import opened Forest
  import opened ForestCopy
  import Engine
  import EngineSafety
  import EngineContent

  // ---- honesty ---------------------------------------------------------------------------

  lemma HonestOneMore(acts: seq<Engine.Action>, a: Engine.Action, peer: seq<Served>, b: nat)
    requires EngineContent.Honest(acts, peer, b) && EngineContent.HonestStep(Engine.Run(acts), a, peer, b)
    ensures EngineContent.Honest(acts + [a], peer, b)
  {
    hide EngineContent.HonestStep;
    assert (acts + [a])[..|acts|] == acts;
  }

  // A parcel heard in time is no answer to anything but what it was sent for.
  lemma TimelyIsHonest(s: Engine.State, t: Parcel, b: nat, peer: seq<Served>)
    requires EngineSafety.Numbered(s) && EngineSafety.Matched(s)
    requires t.out.FileResponseOut? && ResponseKnown(t, s, b, peer) && |s.drawn| <= t.serial + UINT32_MAX
    ensures var r := t.out.response;
      EngineContent.HonestStep(s, Engine.Reply(r.streamId, r.msgFlags == CB_RESPONSE_OK, r.data), peer, b)
  {
    hide Answer, IdOf;
    var r := t.out.response;
    if EngineSafety.Asking(s.worker) && s.drawn != [] && r.streamId == s.drawn[|s.drawn| - 1].streamId {
      EngineSafety.NewestAnswered(s, r.streamId, t.serial);
      EngineSafety.LastId(s);
      assert EngineSafety.Answers(s, r.streamId, t.serial);
    }
  }

  lemma GoHonest(p: Pair, m: Move, b: nat, peer: seq<Served>, cmask: Mask, smask: Mask)
    requires Known(p, Engine.Run(p.acts), b, peer) && FairMove(p, m, b, peer)
    requires EngineContent.Honest(p.acts, peer, b)
    ensures EngineContent.Honest(Proceed(p, m, cmask, smask).acts, peer, b)
  {
    hide Known, EngineContent.Honest, Engine.Run, Receive, Encode, PacketOf, SendFileRequest, Packable, Step;
    match m {
      case Works(a) =>
        if !a.Reply? {
          HonestOneMore(p.acts, a, peer, b);
        }
      case Submits =>
        var s := Engine.Run(p.acts);
        if s.drawn != [] {
          HonestOneMore(p.acts, Engine.HandOver(VerdictOf(SendFileRequest(p.client, s.drawn[|s.drawn| - 1], cmask))), peer, b);
        }
      case ClientHears =>
        if p.toClient != [] {
          HeadIsSound(p, Engine.Run(p.acts), b, peer);
          var t := p.toClient[0];
          HeardReplies(p.client, t.out, cmask);
          if t.out.FileResponseOut? {
            var r := t.out.response;
            EngineSafety.RunMatched(p.acts);
            TimelyIsHonest(Engine.Run(p.acts), t, b, peer);
            HonestOneMore(p.acts, Engine.Reply(r.streamId, r.msgFlags == CB_RESPONSE_OK, r.data), peer, b);
          } else {
            assert p.acts + [] == p.acts;
          }
        }
      case _ =>
    }
  }

  /** Whatever the two sessions and the engine do, an endpoint running this code is honest about
      every batch whose requests it answers from the list that was copied, as long as no response
      is 2^32 - 1 or more requests late. */
  lemma {:induction false} LinkIsHonest(client: State, server: State, ms: seq<Move>, b: nat, peer: seq<Served>,
                                        cmask: Mask, smask: Mask)
    requires Fair(Start(client, server), ms, b, peer, cmask, smask)
    ensures EngineContent.Honest(Runs(Start(client, server), ms, cmask, smask).acts, peer, b)
    decreases |ms|
  {
    hide Known, Proceed, FairMove, Engine.Run, EngineContent.HonestStep;
    if ms != [] {
      var before := ms[..|ms| - 1];
      LinkIsHonest(client, server, before, b, peer, cmask, smask);
      RunKnown(client, server, before, b, peer, cmask, smask);
      GoHonest(Runs(Start(client, server), before, cmask, smask), ms[|ms| - 1], b, peer, cmask, smask);
    }
  }

  // ---- the limit in force -------------------------------------------------------------------

  lemma GoEvents(p: Pair, m: Move, first: State, cmask: Mask, smask: Mask)
    requires p.client == Run(first, p.events, cmask).state
    ensures var q := Proceed(p, m, cmask, smask);
      p.events <= q.events && q.client == Run(first, q.events, cmask).state
  {
    hide Run, Receive, Encode, PacketOf, Packable, SendFileRequest, ClientMay, ServerMay, Engine.Run;
    var q := Proceed(p, m, cmask, smask);
    if q.events != p.events {
      var e := q.events[|p.events|];
      assert q.events == p.events + [e];
      EventOneMore(first, p.events, e, cmask);
      assert q.client == Step(p.client, e, cmask).state;
    } else {
      assert q.client == p.client;
    }
  }

  lemma EventOneMore(first: State, es: seq<Event>, e: Event, mask: Mask)
    ensures Run(first, es + [e], mask).state == Step(Run(first, es, mask).state, e, mask).state
  {
    assert (es + [e])[..|es|] == es;
  }

  /** The client's session goes through a run of its own. */
  lemma {:induction false} ClientIsRun(client: State, server: State, ms: seq<Move>, cmask: Mask, smask: Mask)
    ensures var p := Runs(Start(client, server), ms, cmask, smask);
      p.client == Run(client, p.events, cmask).state
    decreases |ms|
  {
    hide Proceed;
    if ms != [] {
      ClientIsRun(client, server, ms[..|ms| - 1], cmask, smask);
      GoEvents(Runs(Start(client, server), ms[..|ms| - 1], cmask, smask), ms[|ms| - 1], client, cmask, smask);
    }
  }

  // After a handshake in state `first`: has the last flag word since the last monitor ready bit 5?
  ghost predicate HugeWord(first: State, es: seq<Event>) {
    var t := Fold(AfterHandshake(first), es);
    t.late.Some? && t.late.value / 32 % 2 == 1
  }

  // Whenever a request of the batch is handed over, that is the answer.
  ghost predicate LimitIs(first: State, p: Pair, ms: seq<Move>, huge: bool, b: nat, cmask: Mask, smask: Mask)
    decreases |ms|
  {
    ms != [] ==>
      var before := ms[..|ms| - 1];
      var q := Runs(p, before, cmask, smask);
      LimitIs(first, p, before, huge, b, cmask, smask) &&
      (ms[|ms| - 1].Submits? && EngineContent.WorksOn(Engine.Run(q.acts), b) ==> HugeWord(first, q.events) == huge)
  }

  ghost predicate NoCaps(es: seq<Event>) { forall i | 0 <= i < |es| :: !CapsArrive(es[i]) }

  lemma PrefixNoCaps(es: seq<Event>, fs: seq<Event>)
    requires es <= fs && NoCaps(fs)
    ensures NoCaps(es)
  {
    hide CapsArrive;
    assert forall i | 0 <= i < |es| :: es[i] == fs[i];
  }

  lemma {:induction false} LimitWithoutCaps(first: State, p: Pair, ms: seq<Move>, b: nat, cmask: Mask, smask: Mask)
    requires NoCaps(Runs(p, ms, cmask, smask).events)
    ensures LimitIs(first, p, ms, false, b, cmask, smask)
    decreases |ms|
  {
    hide Proceed, NoCaps, EngineContent.WorksOn, HugeWord;
    if ms != [] {
      var before := ms[..|ms| - 1];
      var q := Runs(p, before, cmask, smask);
      EventsGrow(q, ms[|ms| - 1], cmask, smask);
      PrefixNoCaps(q.events, Runs(p, ms, cmask, smask).events);
      LimitWithoutCaps(first, p, before, b, cmask, smask);
      NoHugeWord(first, q.events, cmask);
    }
  }

  lemma EventsGrow(p: Pair, m: Move, cmask: Mask, smask: Mask)
    ensures p.events <= Proceed(p, m, cmask, smask).events
  {
    hide Receive, Encode, PacketOf, Packable, SendFileRequest, ClientMay, ServerMay, Engine.Run, Step;
  }

  lemma NoHugeWord(first: State, es: seq<Event>, mask: Mask)
    requires NoCaps(es)
    ensures !HugeWord(first, es)
  {
    hide Fold, CapsArrive;
    FoldWithoutCaps(first, es, mask);
  }

  // ---- an undisturbed batch ------------------------------------------------------------------

  // The engine is never stopped, and the batch's files can be opened and written.
  ghost predicate Calm(p: Pair, ms: seq<Move>, b: nat, cmask: Mask, smask: Mask)
    decreases |ms|
  {
    ms != [] ==>
      var before := ms[..|ms| - 1];
      Calm(p, before, b, cmask, smask) && CalmMove(Runs(p, before, cmask, smask), ms[|ms| - 1], b)
  }

  ghost predicate CalmMove(p: Pair, m: Move, b: nat) {
    m.Works? ==> !m.a.Stop? && (m.a.Take? && EngineContent.WorksOn(Engine.Run(p.acts), b) ==> m.a.io)
  }

  lemma UndisturbedOneMore(acts: seq<Engine.Action>, a: Engine.Action, huge: bool, b: nat)
    requires EngineContent.Undisturbed(acts, huge, b) && EngineContent.UndisturbedStep(Engine.Run(acts), a, huge, b)
    ensures EngineContent.Undisturbed(acts + [a], huge, b)
  {
    hide EngineContent.UndisturbedStep;
    assert (acts + [a])[..|acts|] == acts;
  }

  // The session refuses exactly what the limit check does, and hands on everything else.
  lemma VerdictIsLimit(client: State, r: FileRequest, cmask: Mask)
    requires RemoteToLocalFiles in cmask
    ensures VerdictOf(SendFileRequest(client, r, cmask)) ==
      if BeyondLimit(r, client.features.huge) then Engine.Rejected else Engine.Transmitted
  {
  }

  lemma GoUndisturbed(p: Pair, m: Move, b: nat, peer: seq<Served>, huge: bool, cmask: Mask, smask: Mask)
    requires Known(p, Engine.Run(p.acts), b, peer) && CalmMove(p, m, b) && RemoteToLocalFiles in cmask
    requires m.Submits? && EngineContent.WorksOn(Engine.Run(p.acts), b) ==> p.client.features.huge == huge
    requires EngineContent.Undisturbed(p.acts, huge, b)
    ensures EngineContent.Undisturbed(Proceed(p, m, cmask, smask).acts, huge, b)
  {
    hide Known, EngineContent.Undisturbed, EngineContent.WorksOn, Engine.Run, Receive, Encode, PacketOf, SendFileRequest,
         BeyondLimit, Packable, Step;
    match m {
      case Works(a) =>
        if !a.Reply? && !a.HandOver? {
          UndisturbedOneMore(p.acts, a, huge, b);
        }
      case Submits =>
        var s := Engine.Run(p.acts);
        if s.drawn != [] {
          var r := s.drawn[|s.drawn| - 1];
          VerdictIsLimit(p.client, r, cmask);
          UndisturbedOneMore(p.acts, Engine.HandOver(VerdictOf(SendFileRequest(p.client, r, cmask))), huge, b);
        }
      case ClientHears =>
        if p.toClient != [] {
          HeadIsSound(p, Engine.Run(p.acts), b, peer);
          var t := p.toClient[0];
          HeardReplies(p.client, t.out, cmask);
          if t.out.FileResponseOut? {
            var r := t.out.response;
            UndisturbedOneMore(p.acts, Engine.Reply(r.streamId, true, r.data), huge, b);
          } else {
            assert p.acts + [] == p.acts;
          }
        }
      case _ =>
    }
  }

  /** A calm engine whose session may receive files is undisturbed: its requests are refused by the
      limit alone, which is the one the last flag word leaves in force, and every reply is good. */
  lemma {:induction false} LinkIsUndisturbed(first: State, server: State, ms: seq<Move>, b: nat, peer: seq<Served>,
                                             huge: bool, cmask: Mask, smask: Mask)
    requires var p := Start(OnMonitorReady(first, cmask).state, server);
      Fair(p, ms, b, peer, cmask, smask) && Calm(p, ms, b, cmask, smask) &&
      LimitIs(first, p, ms, huge, b, cmask, smask) && RemoteToLocalFiles in cmask
    ensures EngineContent.Undisturbed(
      Runs(Start(OnMonitorReady(first, cmask).state, server), ms, cmask, smask).acts, huge, b)
    decreases |ms|
  {
    hide Known, Proceed, FairMove, Engine.Run, EngineContent.UndisturbedStep, EngineContent.WorksOn, CalmMove, OnMonitorReady, HugeWord;
    if ms != [] {
      var before := ms[..|ms| - 1];
      var client := OnMonitorReady(first, cmask).state;
      var p := Runs(Start(client, server), before, cmask, smask);
      LinkIsUndisturbed(first, server, before, b, peer, huge, cmask, smask);
      RunKnown(client, server, before, b, peer, cmask, smask);
      ClientIsRun(client, server, before, cmask, smask);
      HugeIsWord(first, p.events, cmask);
      GoUndisturbed(p, ms[|ms| - 1], b, peer, huge, cmask, smask);
    }
  }

  lemma HugeIsWord(first: State, es: seq<Event>, mask: Mask)
    ensures Run(OnMonitorReady(first, mask).state, es, mask).state.features.huge == HugeWord(first, es)
  {
    hide Fold, Run, OnMonitorReady;
    LateCapsExact(first, es, mask);
  }

  // ---- the theorem -----------------------------------------------------------------------------

  /** A forest copied between two endpoints running this code.  After a handshake, with both
      sessions doing whatever else they do, let the forest be copied as batch b, its requests be
      answered from its list, and the engine be calm.  Once the batch is finished the forest has
      arrived whole, byte for byte, if and only if every file is smaller than 2^32, or the last
      flag word since the last monitor ready had bit 5. */
  lemma LinkedForest(first: State, server: State, ms: seq<Move>, roots: seq<Entry>, b: nat, huge: bool, cmask: Mask, smask: Mask)
    requires var p0 := Start(OnMonitorReady(first, cmask).state, server);
      Fair(p0, ms, b, PeerOf(Items(roots)), cmask, smask) && Calm(p0, ms, b, cmask, smask) &&
      LimitIs(first, p0, ms, huge, b, cmask, smask) && RemoteToLocalFiles in cmask
    requires var acts := Runs(Start(OnMonitorReady(first, cmask).state, server), ms, cmask, smask).acts;
      Copies(acts, b, roots) &&
      var s := Engine.Run(acts); b < |s.batches| && s.batches[b].remaining == 0
    ensures var s := Engine.Run(Runs(Start(OnMonitorReady(first, cmask).state, server), ms, cmask, smask).acts);
      Rooted(roots) &&
      (AllSaved(s, b) <==> AllSmall(Items(roots), huge)) && (AllSaved(s, b) ==> Whole(s, b, roots))
  {
    hide Runs, Engine.Run, OnMonitorReady, Fair, Calm, LimitIs, Copies, AllSaved, AllSmall, Whole, PeerOf, Items,
         EngineContent.Honest, EngineContent.Undisturbed;
    var client := OnMonitorReady(first, cmask).state;
    var acts, peer := Runs(Start(client, server), ms, cmask, smask).acts, PeerOf(Items(roots));
    LinkIsHonest(client, server, ms, b, peer, cmask, smask);
    LinkIsUndisturbed(first, server, ms, b, peer, huge, cmask, smask);
    FewItems(acts, b, roots);
    CopiedIffSmall(roots, acts, b, huge);
    if AllSaved(Engine.Run(acts), b) {
      ForestCopied(roots, acts, b);
    }
  }

  /** Without a capability packet since the handshake, that is if and only if every file is smaller
      than 2^32. */
  lemma LinkedForestWithoutCaps(first: State, server: State, ms: seq<Move>, roots: seq<Entry>, b: nat, cmask: Mask, smask: Mask)
    requires var p0 := Start(OnMonitorReady(first, cmask).state, server);
      Fair(p0, ms, b, PeerOf(Items(roots)), cmask, smask) && Calm(p0, ms, b, cmask, smask) && RemoteToLocalFiles in cmask
    requires var p := Runs(Start(OnMonitorReady(first, cmask).state, server), ms, cmask, smask);
      NoCaps(p.events) && Copies(p.acts, b, roots) &&
      var s := Engine.Run(p.acts); b < |s.batches| && s.batches[b].remaining == 0
    ensures var s := Engine.Run(Runs(Start(OnMonitorReady(first, cmask).state, server), ms, cmask, smask).acts);
      Rooted(roots) &&
      (AllSaved(s, b) <==> AllSmall(Items(roots), false)) && (AllSaved(s, b) ==> Whole(s, b, roots))
  {
    hide Runs, Engine.Run, OnMonitorReady, Fair, Calm, LimitIs, Copies, AllSaved, AllSmall, Whole, PeerOf, Items, NoCaps;
    LimitWithoutCaps(first, Start(OnMonitorReady(first, cmask).state, server), ms, b, cmask, smask);
    LinkedForest(first, server, ms, roots, b, false, cmask, smask);
  }
}
