/**
 The interleaved engine against the sequential download: every download that
 returned did what one run of the plain loop does on the outcomes of its waits.
 */
module EngineSequential {
  import opened Wire
  import opened Pdu
  import opened Download
  import opened Engine
  import opened EngineSafety
  import opened EngineRequests

  // What the download can use of the reply it has waited for.
  function Usable(s: State, io: bool): Option<bytes>
    requires s.worker.Busy?
  {
    if io && (s.worker.transfer.Fetching? ==> s.worker.job.target in s.disk) then Waited(s) else None
  }

  // What became of the requests of a run, in the order they were built: nothing for a refused one.
  ghost function Outcomes(acts: seq<Action>): seq<Option<bytes>>
    decreases |acts|
  {
    if acts == [] then []
    else
      var before, a := acts[..|acts| - 1], acts[|acts| - 1];
      Outcomes(before) + Outcome(Run(before), a)
  }

  ghost function Outcome(s: State, a: Action): seq<Option<bytes>> {
    if !Enabled(s, a) then []
    else match a case Take(io) => [Usable(s, io)] case Clear => [None] case _ => []
  }

  // The net that gave these outcomes.
  function NetOf(outcomes: seq<Option<bytes>>): Net {
    (k: nat, r: FileRequest) => if k < |outcomes| then outcomes[k] else None
  }

  // The download, whose first request was number `first`, is that of the sequential loop.
  ghost predicate AsInSequence(net: Net, first: nat, d: Done) {
    var index, size := d.job.listIndex, SizeReply(net, first, d.job.listIndex);
    && (if d.saved then Downloaded(net, first, index) == Some(d.content) else Downloaded(net, first, index) == None)
    && d.asked == [SizeRequest(IdOf(first), index)] +
         (if size.Some? then Asked(net, first + 1, index, size.value, 0) else [])
  }

  // The download under way has got as far as the loop has with the first n outcomes.
  ghost predicate SoFar(net: Net, first: nat, n: nat, s: State)
    requires s.worker.Busy?
  {
    var index, target := s.worker.job.listIndex, s.worker.job.target;
    match s.worker.transfer
    case AskingSize => n == first
    case Fetching(size, offset) =>
      && target in s.disk && offset < size
      && SizeReply(net, first, index) == Some(size)
      && Continues(Fetch(net, first + 1, index, size, 0), s.disk[target], Fetch(net, n, index, size, offset))
      && Past(s) + Asked(net, n, index, size, offset) ==
           [SizeRequest(IdOf(first), index)] + Asked(net, first + 1, index, size, 0)
  }

  // The requests whose waits are over.
  function Past(s: State): seq<FileRequest> {
    if Asking(s.worker) && s.asked != [] then s.asked[..|s.asked| - 1] else s.asked
  }

  ghost predicate LogInSequence(net: Net, log: seq<Done>) {
    forall i | 0 <= i < |log| :: AsInSequence(net, |AllAsked(log[..i])|, log[i])
  }

  ghost predicate InSequence(net: Net, n: nat, s: State) {
    && |s.drawn| == n + (if Asking(s.worker) then 1 else 0)
    && (s.worker.Busy? ==> SoFar(net, |AllAsked(s.log)|, n, s))
    && LogInSequence(net, s.log)
  }

  lemma LogGrows(net: Net, log: seq<Done>, d: Done)
    requires LogInSequence(net, log) && AsInSequence(net, |AllAsked(log)|, d)
    ensures LogInSequence(net, log + [d])
  {
    hide AsInSequence;
    var all := log + [d];
    assert all[..|log|] == log;
    forall i | 0 <= i < |all|
      ensures AsInSequence(net, |AllAsked(all[..i])|, all[i])
    {
      assert i < |log| ==> all[..i] == log[..i];
    }
  }

  // A download whose last wait brought nothing it could use.
  lemma FailInSequence(net: Net, n: nat, s: State)
    requires Shared(s) && InSequence(net, n, s) && Asking(s.worker)
    requires match s.worker.transfer
      case AskingSize => SizeReply(net, n, s.worker.job.listIndex) == None
      case Fetching(size, offset) => (
        offset < size &&
        var count := NextCount(size, offset);
        var reply := net(n, RangeRequest(IdOf(n), s.worker.job.listIndex, offset, count));
        reply == None || |reply.value| != count)
    ensures InSequence(net, n + 1, Fail(s))
  {
    hide LogInSequence, AllAsked, LogAsks, IdOf, NextCount, Fetch, Asked, Ranges;
    var first, index := |AllAsked(s.log)|, s.worker.job.listIndex;
    var d := Done(s.worker.job, false, [], s.asked, OpenedSize(s.worker.transfer));
    match s.worker.transfer {
      case AskingSize => assert s.asked == [SizeRequest(IdOf(first), index)] + [];
      case Fetching(size, offset) =>
        FetchStep(net, Fetch(net, first + 1, index, size, 0), s.disk[s.worker.job.target], n, index, size, offset);
        assert first + |Past(s)| == n;
        assert s.asked == Past(s) + ([RangeRequest(IdOf(n), index, offset, NextCount(size, offset))] + []);
    }
    assert AsInSequence(net, first, d);
    LogGrows(net, s.log, d);
  }

  lemma ContinueInSequence(net: Net, n: nat, s: State, size: u64, offset: u64, content: bytes)
    requires Shared(s) && LogInSequence(net, s.log) && s.worker.Busy? && |s.drawn| == n && offset <= size
    requires var first, index := |AllAsked(s.log)|, s.worker.job.listIndex;
      SizeReply(net, first, index) == Some(size) &&
      Continues(Fetch(net, first + 1, index, size, 0), content, Fetch(net, n, index, size, offset)) &&
      s.asked + Asked(net, n, index, size, offset) ==
        [SizeRequest(IdOf(first), index)] + Asked(net, first + 1, index, size, 0)
    ensures InSequence(net, n, Continue(s, s.worker.job, size, offset, content))
  {
    hide LogInSequence, AllAsked, LogAsks, IdOf, Fetch, Asked, Ranges, Shared;
    var first, index := |AllAsked(s.log)|, s.worker.job.listIndex;
    if offset == size {
      FetchDone(net, n, index, size, offset);
      assert content + [] == content && s.asked + [] == s.asked;
      var d := Done(s.worker.job, true, content, s.asked, size);
      assert AsInSequence(net, first, d);
      LogGrows(net, s.log, d);
    }
  }

  lemma TakeInSequence(net: Net, n: nat, s: State, io: bool)
    requires Sound(s) && Shared(s) && InSequence(net, n, s) && Enabled(s, Take(io))
    requires forall r :: net(n, r) == Usable(s, io)
    ensures InSequence(net, n + 1, DoTake(s, io))
  {
    hide Fail, Continue, NextCount, IdOf, AllAsked, LogAsks, Ranges, Fetch, Asked, LogInSequence;
    var t, reply, index, first := s.(pending := EMPTY), Usable(s, io), s.worker.job.listIndex, |AllAsked(s.log)|;
    ClearedShared(s);
    ClearedInSequence(net, n, s);
    match s.worker.transfer {
      case AskingSize =>
        if reply.Some? && |reply.value| >= 8 {
          var size := Get64(reply.value);
          SizeInSequence(net, n, t, size);
          ContinueInSequence(net, n + 1, t, size, 0, []);
        } else {
          FailInSequence(net, n, t);
        }
      case Fetching(size, offset) =>
        var target := s.worker.job.target;
        if reply.Some? && |reply.value| == NextCount(size, offset) {
          NextCountBounds(size, offset);
          RangeInSequence(net, n, t, size, offset, reply.value);
          ContinueInSequence(net, n + 1, t, size, offset + |reply.value|, t.disk[target] + reply.value);
        } else {
          FailInSequence(net, n, t);
        }
    }
  }

  lemma ClearedInSequence(net: Net, n: nat, s: State)
    requires InSequence(net, n, s)
    ensures InSequence(net, n, s.(pending := EMPTY))
  {
    hide LogInSequence, AllAsked, IdOf, Fetch, Asked, SizeReply, Continues;
  }

  lemma SizeInSequence(net: Net, n: nat, s: State, size: u64)
    requires Shared(s) && InSequence(net, n, s) && Asking(s.worker) && s.worker.transfer.AskingSize?
    requires SizeReply(net, n, s.worker.job.listIndex) == Some(size)
    ensures var first, index := |AllAsked(s.log)|, s.worker.job.listIndex;
      first == n && Continues(Fetch(net, first + 1, index, size, 0), [], Fetch(net, n + 1, index, size, 0)) &&
      s.asked + Asked(net, n + 1, index, size, 0) == [SizeRequest(IdOf(first), index)] + Asked(net, first + 1, index, size, 0)
  {
    hide LogInSequence, AllAsked, LogAsks, IdOf, Fetch, Asked;
    var all := Fetch(net, n + 1, s.worker.job.listIndex, size, 0);
    if all.Some? {
      assert [] + all.value == all.value;
    }
  }

  lemma RangeInSequence(net: Net, n: nat, s: State, size: u64, offset: u64, data: bytes)
    requires Shared(s) && InSequence(net, n, s) && Asking(s.worker) && s.worker.transfer == Fetching(size, offset)
    requires offset < size && |data| == NextCount(size, offset) && forall r :: net(n, r) == Some(data)
    ensures var first, index, target := |AllAsked(s.log)|, s.worker.job.listIndex, s.worker.job.target;
      target in s.disk && SizeReply(net, first, index) == Some(size) &&
      Continues(Fetch(net, first + 1, index, size, 0), s.disk[target] + data,
                Fetch(net, n + 1, index, size, offset + |data|)) &&
      s.asked + Asked(net, n + 1, index, size, offset + |data|) ==
        [SizeRequest(IdOf(first), index)] + Asked(net, first + 1, index, size, 0)
  {
    hide LogInSequence, AllAsked, LogAsks, IdOf, Fetch, Asked, Ranges, NextCount, Continues;
    var first, index, target := |AllAsked(s.log)|, s.worker.job.listIndex, s.worker.job.target;
    var r, rest := RangeRequest(IdOf(n), index, offset, NextCount(size, offset)), Asked(net, n + 1, index, size, offset + |data|);
    FetchStep(net, Fetch(net, first + 1, index, size, 0), s.disk[target], n, index, size, offset);
    assert net(n, r) == Some(data);
    assert s.asked == Past(s) + [r];
    assert Past(s) + ([r] + rest) == s.asked + rest;
  }

  lemma ClearInSequence(net: Net, n: nat, s: State)
    requires Sound(s) && Shared(s) && InSequence(net, n, s) && Enabled(s, Clear)
    requires forall r :: net(n, r) == None
    ensures InSequence(net, n + 1, Step(s, Clear))
  {
    hide Fail, NextCount, IdOf, AllAsked, LogAsks, Ranges, Fetch, Asked, LogInSequence;
    ClearedShared(s);
    ClearedInSequence(net, n, s);
    FailInSequence(net, n, s.(pending := EMPTY));
  }

  lemma ArmInSequence(net: Net, n: nat, s: State)
    requires Sound(s) && InSequence(net, n, s) && Enabled(s, Arm)
    ensures InSequence(net, n, DoArm(s))
  {
    hide NextCount, RequestFor, Draw, IdOf, AllAsked, Fetch, Asked, SizeReply, Continues, LogInSequence;
    var t := DoArm(s);
    assert t.asked[..|s.asked|] == s.asked;
  }

  lemma SameInSequence(net: Net, n: nat, s: State, t: State)
    requires Shared(s) && InSequence(net, n, s) && SameRequests(s, t)
    ensures InSequence(net, n, t)
  {
    hide NextCount, IdOf, AllAsked, Fetch, Asked, SizeReply, Continues, LogInSequence, LogAsks, Ranges, Full;
    if t.worker.Busy? && !s.worker.Busy? {
      assert AllAsked(s.log) + [] == AllAsked(s.log);
    }
  }

  lemma StepInSequence(net: Net, n: nat, s: State, a: Action)
    requires Sound(s) && Shared(s) && InSequence(net, n, s)
    requires forall o, r | o in Outcome(s, a) :: net(n, r) == o
    ensures InSequence(net, n + |Outcome(s, a)|, Step(s, a))
  {
    hide DoArm, DoTake, Fail, Shared, InSequence, SameRequests, Usable;
    if !Enabled(s, a) {
      NotEnabled(s, a);
    } else {
      match a {
        case Arm => ArmInSequence(net, n, s);
        case Take(io) =>
          assert Usable(s, io) in Outcome(s, a);
          TakeInSequence(net, n, s, io);
        case Clear =>
          assert None in Outcome(s, a);
          ClearInSequence(net, n, s);
        case _ =>
          RestKeeps(s, a);
          SameInSequence(net, n, s, Apply(s, a));
      }
    }
  }

  lemma {:induction false} RunInSequence(acts: seq<Action>, outcomes: seq<Option<bytes>>)
    requires Outcomes(acts) <= outcomes
    ensures InSequence(NetOf(outcomes), |Outcomes(acts)|, Run(acts))
    decreases |acts|
  {
    hide Step, Shared, InSequence, Outcome;
    if acts == [] {
      assert InSequence(NetOf(outcomes), 0, INIT) by { InitInSequence(NetOf(outcomes)); }
    } else {
      var before, a := acts[..|acts| - 1], acts[|acts| - 1];
      var n, s := |Outcomes(before)|, Run(before);
      RunInSequence(before, outcomes);
      RunShared(before);
      forall o, r | o in Outcome(s, a)
        ensures NetOf(outcomes)(n, r) == o
      {
        assert |Outcome(s, a)| == 1 by { OneOutcome(s, a); }
        assert o == Outcome(s, a)[0] == Outcomes(acts)[n];
      }
      StepInSequence(NetOf(outcomes), n, s, a);
    }
  }

  lemma OneOutcome(s: State, a: Action)
    ensures |Outcome(s, a)| <= 1
  {
  }

  lemma InitInSequence(net: Net)
    ensures InSequence(net, 0, INIT)
  {
  }

  /** In every interleaving each download that returned is one run of the sequential loop over
      what its waits brought: same requests in the same order under the same ids, same verdict,
      same bytes. */
  lemma EngineIsSequential(acts: seq<Action>)
    ensures var log, net := Run(acts).log, NetOf(Outcomes(acts));
      forall i | 0 <= i < |log| ::
        var d, first := log[i], |AllAsked(log[..i])|;
        var index := d.job.listIndex;
        var size := SizeReply(net, first, index);
        (d.saved <==> Downloaded(net, first, index).Some?) &&
        (d.saved ==> d.content == Downloaded(net, first, index).value) &&
        d.asked == [SizeRequest(IdOf(first), index)] +
          (if size.Some? then Asked(net, first + 1, index, size.value, 0) else [])
  {
    hide Run, SizeReply, Downloaded, Asked, AllAsked, Outcomes, IdOf;
    RunInSequence(acts, Outcomes(acts));
    var log, net := Run(acts).log, NetOf(Outcomes(acts));
    forall i | 0 <= i < |log|
      ensures AsInSequence(net, |AllAsked(log[..i])|, log[i])
    {
    }
  }
}
