/**
 Which requests the engine makes, in every interleaving and from any peer.
 */
module EngineRequests {
  import opened Wire
  import opened Pdu
  import opened Download
  import opened Engine
  import opened EngineSafety

  // The requests of the downloads that returned, in order.
  function AllAsked(log: seq<Done>): seq<FileRequest>
    decreases |log|
  {
    if log == [] then [] else AllAsked(log[..|log| - 1]) + log[|log| - 1].asked
  }

  // All a download asks for, its first request being the k-th: the size, then every range.
  function Full(k: nat, listIndex: u32, size: u64): seq<FileRequest> {
    [SizeRequest(IdOf(k), listIndex)] + Ranges(k + 1, listIndex, size, 0)
  }

  ghost predicate AsksInOrder(first: nat, d: Done) {
    d.asked != [] && d.asked <= Full(first, d.job.listIndex, d.size) &&
    (d.saved ==> d.asked == Full(first, d.job.listIndex, d.size) && |d.content| == d.size)
  }

  // The requests of the download under way, and what is still to come.
  ghost predicate Underway(first: nat, s: State)
    requires s.worker.Busy?
  {
    var index, target, preparing := s.worker.job.listIndex, s.worker.job.target, s.worker.phase.Preparing?;
    match s.worker.transfer
    case AskingSize => s.asked == if preparing then [] else [SizeRequest(IdOf(first), index)]
    case Fetching(size, offset) =>
      && target in s.disk && |s.disk[target]| == offset < size
      && (preparing || s.asked != [])
      && var past := if preparing then s.asked else s.asked[..|s.asked| - 1];
         past + Ranges(first + |past|, index, size, offset) == Full(first, index, size) &&
         (!preparing ==> s.asked == past + [RangeRequest(IdOf(first + |past|), index, offset, NextCount(size, offset))])
  }

  ghost predicate LogAsks(log: seq<Done>) {
    forall i | 0 <= i < |log| :: AsksInOrder(|AllAsked(log[..i])|, log[i])
  }

  ghost predicate Shared(s: State) {
    && s.drawn == AllAsked(s.log) + s.asked
    && (if s.worker.Busy? then Underway(|AllAsked(s.log)|, s) else s.asked == [])
    && LogAsks(s.log)
  }

  lemma LogOneMore(log: seq<Done>, d: Done)
    requires LogAsks(log) && AsksInOrder(|AllAsked(log)|, d)
    ensures AllAsked(log + [d]) == AllAsked(log) + d.asked && LogAsks(log + [d])
  {
    hide AsksInOrder;
    var all := log + [d];
    assert all[..|log|] == log;
    forall i | 0 <= i < |all|
      ensures AsksInOrder(|AllAsked(all[..i])|, all[i])
    {
      assert i < |log| ==> all[..i] == log[..i];
    }
  }

  lemma NextRange(k: nat, listIndex: u32, size: u64, offset: u64)
    requires offset < size
    ensures var count := NextCount(size, offset);
      Ranges(k, listIndex, size, offset) ==
        [RangeRequest(IdOf(k), listIndex, offset, count)] + Ranges(k + 1, listIndex, size, offset + count)
  {
  }

  lemma FailShared(s: State)
    requires Shared(s) && s.worker.Busy? && !s.worker.phase.Preparing?
    ensures Shared(Fail(s))
  {
    hide LogAsks, AllAsked, IdOf, NextCount;
    var index, first, size := s.worker.job.listIndex, |AllAsked(s.log)|, OpenedSize(s.worker.transfer);
    if s.worker.transfer.Fetching? {
      var past := s.asked[..|s.asked| - 1];
      NextRange(first + |past|, index, size, s.worker.transfer.offset);
      assert Full(first, index, size)[..|s.asked|] == s.asked;
    }
    var d := Done(s.worker.job, false, [], s.asked, size);
    LogOneMore(s.log, d);
    assert AllAsked(s.log + [d]) + [] == s.drawn;
  }

  lemma SavedShared(s: State, size: u64, content: bytes)
    requires Shared(s) && s.worker.Busy? && s.asked == Full(|AllAsked(s.log)|, s.worker.job.listIndex, size)
    requires |content| == size
    ensures Shared(Continue(s, s.worker.job, size, size, content))
  {
    hide LogAsks, AllAsked, Full;
    var d := Done(s.worker.job, true, content, s.asked, size);
    FullIsSome(|AllAsked(s.log)|, s.worker.job.listIndex, size);
    LogOneMore(s.log, d);
    assert AllAsked(s.log + [d]) + [] == s.drawn;
  }

  lemma FullIsSome(k: nat, listIndex: u32, size: u64)
    ensures Full(k, listIndex, size) != []
  {
  }

  // The requests so far and the ranges from the new offset are still all there is to ask.
  lemma ContinueShared(s: State, size: u64, offset: u64, content: bytes)
    requires Shared(s) && s.worker.Busy? && offset <= size && |content| == offset
    requires var first, index := |AllAsked(s.log)|, s.worker.job.listIndex;
      s.asked + Ranges(first + |s.asked|, index, size, offset) == Full(first, index, size)
    ensures Shared(Continue(s, s.worker.job, size, offset, content))
  {
    hide LogAsks, AllAsked, Full;
    if offset == size {
      assert s.asked + [] == s.asked;
      SavedShared(s, size, content);
    }
  }

  lemma TakeShared(s: State, io: bool)
    requires Sound(s) && Shared(s) && Enabled(s, Take(io))
    ensures Shared(DoTake(s, io))
  {
    hide Fail, Continue, NextCount, IdOf, AllAsked, LogAsks, Ranges, Full;
    var t, reply := s.(pending := EMPTY), Waited(s);
    SameRequestsShared(s, t);
    FailShared(t);
    match s.worker.transfer {
      case AskingSize =>
        if reply.Some? && |reply.value| >= 8 {
          SizeTaken(t, Get64(reply.value));
          ContinueShared(t, Get64(reply.value), 0, []);
        }
      case Fetching(size, offset) =>
        if reply.Some? && |reply.value| == NextCount(size, offset) && s.worker.job.target in s.disk {
          NextCountBounds(size, offset);
          RangeTaken(t, size, offset);
          ContinueShared(t, size, offset + |reply.value|, s.disk[s.worker.job.target] + reply.value);
        }
    }
  }

  lemma SizeTaken(s: State, size: u64)
    requires Shared(s) && s.worker.Busy? && s.worker.transfer.AskingSize? && !s.worker.phase.Preparing?
    ensures var first, index := |AllAsked(s.log)|, s.worker.job.listIndex;
      s.asked + Ranges(first + |s.asked|, index, size, 0) == Full(first, index, size)
  {
    hide AllAsked, LogAsks, IdOf, Ranges;
  }

  lemma RangeTaken(s: State, size: u64, offset: u64)
    requires Shared(s) && s.worker.Busy? && s.worker.transfer == Fetching(size, offset) && !s.worker.phase.Preparing?
    requires offset < size
    ensures var first, index := |AllAsked(s.log)|, s.worker.job.listIndex;
      s.asked + Ranges(first + |s.asked|, index, size, offset + NextCount(size, offset)) == Full(first, index, size)
  {
    hide AllAsked, LogAsks, IdOf, Ranges, Full, NextCount;
    var first, index, past := |AllAsked(s.log)|, s.worker.job.listIndex, s.asked[..|s.asked| - 1];
    var rest := Ranges(first + |s.asked|, index, size, offset + NextCount(size, offset));
    NextRange(first + |past|, index, size, offset);
    assert past + ([s.asked[|past|]] + rest) == s.asked + rest;
  }

  lemma ArmShared(s: State)
    requires Sound(s) && Numbered(s) && Shared(s) && Enabled(s, Arm)
    ensures Shared(DoArm(s))
  {
    hide Draw, Counter, IdOf, NextCount, Ranges, Full, AllAsked, LogAsks;
    DrawIsIdOf(|s.drawn|);
    var t := DoArm(s);
    assert t.asked[..|s.asked|] == s.asked;
    assert t.drawn == AllAsked(s.log) + t.asked;
  }

  // The other steps leave requests, log and disk alone; the worker goes on waiting, has been
  // handed a job, or has none.
  ghost predicate SameRequests(s: State, t: State) {
    && t.drawn == s.drawn && t.asked == s.asked && t.log == s.log && t.disk == s.disk
    && (if t.worker.Busy? && s.worker.Busy?
        then t.worker.job == s.worker.job && t.worker.transfer == s.worker.transfer &&
             t.worker.phase.Preparing? == s.worker.phase.Preparing?
        else !s.worker.Busy? && (t.worker.Busy? ==> t.worker.transfer.AskingSize? && t.worker.phase.Preparing?))
  }

  lemma RestKeeps(s: State, a: Action)
    requires Sound(s) && Enabled(s, a) && !a.Arm? && !a.Take? && !a.Clear?
    ensures SameRequests(s, Apply(s, a))
  {
    hide JobsOf, TopsOf, FoldersOf;
  }

  lemma SameRequestsShared(s: State, t: State)
    requires Shared(s) && SameRequests(s, t)
    ensures Shared(t)
  {
    hide AllAsked, LogAsks, IdOf, Ranges, Full, NextCount;
  }

  lemma SharedStep(s: State, a: Action)
    requires Sound(s) && Numbered(s) && Shared(s)
    ensures Shared(Step(s, a))
  {
    hide DoArm, DoTake, Fail, Shared, Numbered, SameRequests;
    if !Enabled(s, a) {
      NotEnabled(s, a);
    } else {
      match a {
        case Arm => ArmShared(s);
        case Take(io) => TakeShared(s, io);
        case Clear =>
          ClearedShared(s);
          FailShared(s.(pending := EMPTY));
        case _ =>
          RestKeeps(s, a);
          SameRequestsShared(s, Apply(s, a));
      }
    }
  }

  lemma ClearedShared(s: State)
    requires Shared(s)
    ensures Shared(s.(pending := EMPTY))
  {
  }

  lemma {:induction false} RunShared(acts: seq<Action>)
    ensures Shared(Run(acts))
    decreases |acts|
  {
    hide Step, Shared, Numbered, Matched;
    if acts == [] {
      assert Shared(INIT) by { InitShared(); }
    } else {
      RunShared(acts[..|acts| - 1]);
      RunMatched(acts[..|acts| - 1]);
      SharedStep(Run(acts[..|acts| - 1]), acts[|acts| - 1]);
    }
  }

  lemma InitShared()
    ensures Shared(INIT)
  {
  }

  /** In every interleaving, whatever comes from the peer, the requests built are those of the
      downloads that returned, one after the other, then those of the one under way.  Each
      download asked for the size and then a beginning of the partition of its file into 64 KiB
      ranges; one that saved its file asked for the whole partition, one range per started
      chunk, and saved as many bytes as the size announced. */
  lemma RequestsArePartition(acts: seq<Action>)
    ensures var s := Run(acts);
      s.drawn == AllAsked(s.log) + s.asked &&
      forall i | 0 <= i < |s.log| ::
        var d, first := s.log[i], |AllAsked(s.log[..i])|;
        d.asked != [] && d.asked[..1] == [SizeRequest(IdOf(first), d.job.listIndex)] &&
        d.asked[1..] <= Ranges(first + 1, d.job.listIndex, d.size, 0) &&
        (d.saved ==>
          d.asked[1..] == Ranges(first + 1, d.job.listIndex, d.size, 0) &&
          |d.asked| == 1 + (d.size + CHUNK - 1) / CHUNK && |d.content| == d.size)
  {
    hide Run, IdOf, Ranges;
    RunShared(acts);
    var s := Run(acts);
    forall i | 0 <= i < |s.log|
      ensures var d, first := s.log[i], |AllAsked(s.log[..i])|;
        d.asked != [] && d.asked[..1] == [SizeRequest(IdOf(first), d.job.listIndex)] &&
        d.asked[1..] <= Ranges(first + 1, d.job.listIndex, d.size, 0) &&
        (d.saved ==>
          d.asked[1..] == Ranges(first + 1, d.job.listIndex, d.size, 0) &&
          |d.asked| == 1 + (d.size + CHUNK - 1) / CHUNK && |d.content| == d.size)
    {
      PartitionOf(|AllAsked(s.log[..i])|, s.log[i]);
    }
  }

  lemma PartitionOf(first: nat, d: Done)
    requires AsksInOrder(first, d)
    ensures d.asked[..1] == [SizeRequest(IdOf(first), d.job.listIndex)]
    ensures d.asked[1..] <= Ranges(first + 1, d.job.listIndex, d.size, 0)
    ensures d.saved ==>
      d.asked[1..] == Ranges(first + 1, d.job.listIndex, d.size, 0) &&
      |d.asked| == 1 + (d.size + CHUNK - 1) / CHUNK && |d.content| == d.size
  {
    hide IdOf, Ranges;
    RangesPartition(first + 1, d.job.listIndex, d.size, 0);
  }

  // A request the engine builds: one flag, no lock id, 24 bytes; the size of a file, or at most
  // 64 KiB of it.
  ghost predicate Shaped(r: FileRequest, listIndex: u32) {
    && r.listIndex == listIndex && r.clipDataId == None && |EncodeFileRequest(r)| == 24
    && ((r.dwFlags == 1 && r.cbRequested == 8 && r.positionLow == 0 && r.positionHigh == 0) ||
        (r.dwFlags == 2 && 0 < r.cbRequested <= 65536))
  }

  lemma {:induction false} RangesShaped(k: nat, listIndex: u32, size: u64, offset: nat)
    ensures forall r | r in Ranges(k, listIndex, size, offset) :: Shaped(r, listIndex)
    decreases size - offset
  {
    hide IdOf, Low32, High32, EncodeFileRequest;
    if offset < size {
      RangesShaped(k + 1, listIndex, size, offset + NextCount(size, offset));
      var rest := Ranges(k + 1, listIndex, size, offset + NextCount(size, offset));
      assert Ranges(k, listIndex, size, offset)[1..] == rest;
    }
  }

  lemma FullShaped(k: nat, listIndex: u32, size: u64)
    ensures forall r | r in Full(k, listIndex, size) :: Shaped(r, listIndex)
  {
    hide Shaped, IdOf, Ranges;
    RangesShaped(k + 1, listIndex, size, 0);
    assert Shaped(SizeRequest(IdOf(k), listIndex), listIndex) by { SizeShaped(IdOf(k), listIndex); }
  }

  lemma SizeShaped(id: u32, listIndex: u32)
    ensures Shaped(SizeRequest(id, listIndex), listIndex)
  {
    hide EncodeFileRequest;
  }

  // The requests of the download under way are a beginning of all it may ask for.
  lemma UnderwayShaped(s: State)
    requires Shared(s) && s.worker.Busy?
    ensures forall r | r in s.asked :: Shaped(r, s.worker.job.listIndex)
  {
    hide Shaped, IdOf, Ranges, LogAsks, AllAsked, NextCount;
    var first, index := |AllAsked(s.log)|, s.worker.job.listIndex;
    match s.worker.transfer {
      case AskingSize => SizeShaped(IdOf(first), index);
      case Fetching(size, offset) =>
        FullShaped(first, index, size);
        var past := if s.worker.phase.Preparing? then s.asked else s.asked[..|s.asked| - 1];
        assert forall r | r in past :: r in Full(first, index, size);
        if !s.worker.phase.Preparing? {
          NextRange(first + |past|, index, size, offset);
          assert Ranges(first + |past|, index, size, offset)[0] in Ranges(first + |past|, index, size, offset);
        }
    }
  }

  // A request of the run is one of a download that returned, or of the one under way.
  lemma {:induction false} AskedSomewhere(log: seq<Done>, r: FileRequest)
    requires r in AllAsked(log)
    ensures exists i | 0 <= i < |log| :: r in log[i].asked
    decreases |log|
  {
    var before := log[..|log| - 1];
    if r in AllAsked(before) {
      AskedSomewhere(before, r);
      var i :| 0 <= i < |before| && r in before[i].asked;
      assert r in log[i].asked;
    }
  }

  /** In every interleaving each request built is for the file its job names and has exactly this
      shape on the wire. */
  lemma RequestsAreShaped(acts: seq<Action>)
    ensures var s := Run(acts);
      (forall i, r | 0 <= i < |s.log| && r in s.log[i].asked :: Shaped(r, s.log[i].job.listIndex)) &&
      (s.worker.Busy? ==> forall r | r in s.asked :: Shaped(r, s.worker.job.listIndex)) &&
      (forall r | r in s.drawn ::
         || (exists i | 0 <= i < |s.log| :: r in s.log[i].asked && Shaped(r, s.log[i].job.listIndex))
         || (s.worker.Busy? && r in s.asked && Shaped(r, s.worker.job.listIndex)))
  {
    hide Run, Shaped, Underway, AsksInOrder, AllAsked;
    RunShared(acts);
    var s := Run(acts);
    forall i, r | 0 <= i < |s.log| && r in s.log[i].asked
      ensures Shaped(r, s.log[i].job.listIndex)
    {
      InOrderShaped(|AllAsked(s.log[..i])|, s.log[i]);
    }
    if s.worker.Busy? {
      UnderwayShaped(s);
    }
    forall r | r in s.drawn && r !in s.asked
      ensures exists i | 0 <= i < |s.log| :: r in s.log[i].asked && Shaped(r, s.log[i].job.listIndex)
    {
      AskedSomewhere(s.log, r);
    }
  }

  lemma InOrderShaped(first: nat, d: Done)
    requires AsksInOrder(first, d)
    ensures forall r | r in d.asked :: Shaped(r, d.job.listIndex)
  {
    hide Shaped, Full;
    FullShaped(first, d.job.listIndex, d.size);
    assert forall i | 0 <= i < |d.asked| :: d.asked[i] == Full(first, d.job.listIndex, d.size)[i];
  }
}
