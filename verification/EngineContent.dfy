/**
 What ends up on disk, in every interleaving, of a batch whose requests the peer
 answers honestly; what it answers for other batches does not matter.
 */
module EngineContent {
  import opened Wire
  import opened Pdu
  import opened FileWalk
  import opened Serving
  import opened Download
  import opened Engine
  import opened EngineSafety
  import Session

  // The bytes a peer has for a list index; a directory counts as empty.
  function PeerBytes(peer: seq<Served>, i: nat): Contents
    requires i < |peer|
  {
    if peer[i].isDir then [] else peer[i].data
  }

  // The worker is busy with a job of the batch.
  ghost predicate WorksOn(s: State, b: nat) { s.worker.Busy? && s.worker.job.target.batch == b }

  // While a request of the batch is outstanding, every good reply under its id carries the answer,
  // from the peer's list at the time the batch was copied, to a request the peer got, within the
  // window of that request.  Bad replies, and replies under other ids, may come at any time.
  ghost predicate Honest(acts: seq<Action>, peer: seq<Served>, b: nat)
    decreases |acts|
  {
    acts != [] ==>
      var before, a := acts[..|acts| - 1], acts[|acts| - 1];
      Honest(before, peer, b) && HonestStep(Engine.Run(before), a, peer, b)
  }

  ghost predicate HonestStep(s: State, a: Action, peer: seq<Served>, b: nat) {
    a.Reply? && a.ok && Enabled(s, a) && WorksOn(s, b) && Asking(s.worker) &&
    s.drawn != [] && a.streamId == s.drawn[|s.drawn| - 1].streamId ==>
      exists serial: nat :: Answers(s, a.streamId, serial) && Answer(peer, s.drawn[serial]) == Ok(a.data)
  }

  // A good reply accepted for the outstanding request is the peer's answer to that request.
  ghost predicate Genuine(s: State, peer: seq<Served>, b: nat) {
    WorksOn(s, b) && Asking(s.worker) && s.accepted.Some? && s.accepted.value.ok ==>
      s.drawn != [] && |s.drawn| - 1 in s.transmitted &&
      Answer(peer, s.drawn[|s.drawn| - 1]) == Ok(s.accepted.value.data)
  }

  lemma ReplyGenuine(s: State, a: Action, peer: seq<Served>, b: nat)
    requires Sound(s) && Numbered(s) && Matched(s) && Genuine(s, peer, b) && HonestStep(s, a, peer, b)
    requires a.Reply? && Enabled(s, a)
    ensures Genuine(Step(s, a), peer, b)
  {
    hide Answer, IdOf;
    ReplyTaken(s, a);
    if Asking(s.worker) {
      LastId(s);
    }
    if WorksOn(s, b) && Asking(s.worker) && a.streamId == IdOf(|s.drawn| - 1) && a.ok {
      var serial: nat :| Answers(s, a.streamId, serial) && Answer(peer, s.drawn[serial]) == Ok(a.data);
      NewestAnswered(s, a.streamId, serial);
    }
  }

  lemma GenuineStep(s: State, a: Action, peer: seq<Served>, b: nat)
    requires Sound(s) && Numbered(s) && Matched(s) && Genuine(s, peer, b) && HonestStep(s, a, peer, b)
    ensures Genuine(Step(s, a), peer, b)
  {
    hide DoReply, RequestFor, NextCount, JobsOf, TopsOf, FoldersOf, Answer, Numbered, Matched, HonestStep;
    if a.Reply? && Enabled(s, a) {
      ReplyGenuine(s, a, peer, b);
    }
  }

  // The pending request is the one for the current transfer; what is on disk is the beginning
  // of the peer's file; what was saved for the batch is the whole of it.
  ghost predicate Faithful(s: State, peer: seq<Served>, b: nat) {
    && (WorksOn(s, b) && s.worker.transfer.Fetching? ==>
          OnTheWay(peer, s.worker.job, s.worker.transfer.fileSize, s.worker.transfer.offset, s.disk))
    && (WorksOn(s, b) && Asking(s.worker) ==>
          && s.drawn != []
          && s.drawn[|s.drawn| - 1] == RequestFor(s.worker.job, s.worker.transfer, IdOf(|s.drawn| - 1)))
    && (forall i | 0 <= i < |s.log| && s.log[i].saved && s.log[i].job.target.batch == b ::
          var index := s.log[i].job.listIndex;
          index < |peer| && s.log[i].content == PeerBytes(peer, index))
  }

  ghost predicate OnTheWay(peer: seq<Served>, job: Job, fileSize: u64, offset: u64, disk: map<Target, bytes>) {
    job.listIndex < |peer| &&
    var data := PeerBytes(peer, job.listIndex);
    fileSize == |data| && offset < fileSize && job.target in disk && disk[job.target] == data[..offset]
  }

  lemma SizeAnswer(peer: seq<Served>, id: u32, listIndex: u32)
    requires Answer(peer, SizeRequest(id, listIndex)).Ok?
    ensures var data := Answer(peer, SizeRequest(id, listIndex)).value;
      |data| == 8 && listIndex < |peer| && Get64(data) == |PeerBytes(peer, listIndex)|
  {
    var n := |PeerBytes(peer, listIndex)|;
    Get64OfLe64(n, []);
    assert Le64(n) + [] == Le64(n);
  }

  lemma RangeAnswer(peer: seq<Served>, id: u32, listIndex: u32, offset: nat)
    requires listIndex < |peer| && offset < |PeerBytes(peer, listIndex)|
    ensures var data := PeerBytes(peer, listIndex);
      var count := NextCount(|data|, offset);
      Answer(peer, RangeRequest(id, listIndex, offset, count)) == Ok(data[offset..offset + count]) &&
      data[..offset] + data[offset..offset + count] == data[..offset + count]
  {
    hide Low32, High32, Join64, NextCount;
    var n := |PeerBytes(peer, listIndex)|;
    NextCountBounds(n, offset);
    SplitJoin64(offset, 0, 0);
    assert Min(offset + NextCount(n, offset), n) == offset + NextCount(n, offset);
  }

  lemma ContinueFaithful(s: State, job: Job, fileSize: u64, offset: u64, content: bytes, peer: seq<Served>, b: nat)
    requires Faithful(s, peer, b)
    requires job.target.batch == b ==>
      job.listIndex < |peer| &&
      var data := PeerBytes(peer, job.listIndex);
      fileSize == |data| && offset <= |data| && content == data[..offset]
    ensures Faithful(Continue(s, job, fileSize, offset, content), peer, b)
  {
    if job.target.batch == b {
      var data := PeerBytes(peer, job.listIndex);
      assert data[..|data|] == data;
    }
  }

  lemma FailFaithful(s: State, peer: seq<Served>, b: nat)
    requires Faithful(s, peer, b) && s.worker.Busy?
    ensures Faithful(Fail(s), peer, b)
  {
  }

  lemma TakeFaithful(s: State, io: bool, peer: seq<Served>, b: nat)
    requires Sound(s) && Matched(s) && Genuine(s, peer, b) && Faithful(s, peer, b) && Enabled(s, Take(io))
    ensures Faithful(DoTake(s, io), peer, b)
  {
    hide Fail, Continue, Answer, NextCount, IdOf;
    var t, job, reply := s.(pending := EMPTY), s.worker.job, Waited(s);
    assert Faithful(t, peer, b);
    FailFaithful(t, peer, b);
    match s.worker.transfer {
      case AskingSize =>
        if reply.Some? && |reply.value| >= 8 {
          if job.target.batch == b {
            SizeReplied(s, peer, b);
          }
          ContinueFaithful(t, job, Get64(reply.value), 0, [], peer, b);
        }
      case Fetching(fileSize, offset) =>
        if reply.Some? && |reply.value| == NextCount(fileSize, offset) && job.target in t.disk {
          NextCountBounds(fileSize, offset);
          if job.target.batch == b {
            RangeReplied(s, peer, b);
          }
          ContinueFaithful(t, job, fileSize, offset + |reply.value|, t.disk[job.target] + reply.value, peer, b);
        }
    }
  }

  // A good reply to the size request of the batch's job.
  lemma SizeReplied(s: State, peer: seq<Served>, b: nat)
    requires Sound(s) && Matched(s) && Genuine(s, peer, b) && Faithful(s, peer, b) && Enabled(s, Take(true))
    requires WorksOn(s, b) && s.worker.transfer.AskingSize? && Waited(s).Some?
    ensures var data, index := Waited(s).value, s.worker.job.listIndex;
      |data| == 8 && index < |peer| && Get64(data) == |PeerBytes(peer, index)| && PeerBytes(peer, index)[..0] == []
  {
    hide Answer, IdOf;
    var id, index := IdOf(|s.drawn| - 1), s.worker.job.listIndex;
    assert Answer(peer, SizeRequest(id, index)) == Ok(Waited(s).value);
    SizeAnswer(peer, id, index);
  }

  // A good reply to a range request of the batch's job.
  lemma RangeReplied(s: State, peer: seq<Served>, b: nat)
    requires Sound(s) && Matched(s) && Genuine(s, peer, b) && Faithful(s, peer, b) && Enabled(s, Take(true))
    requires WorksOn(s, b) && s.worker.transfer.Fetching? && Waited(s).Some?
    ensures var size, offset, job := s.worker.transfer.fileSize, s.worker.transfer.offset, s.worker.job;
      job.listIndex < |peer| && offset < size && job.target in s.disk &&
      var data, reply := PeerBytes(peer, job.listIndex), Waited(s).value;
      size == |data| && |reply| == NextCount(size, offset) && offset + |reply| <= size &&
      s.disk[job.target] + reply == data[..offset + |reply|]
  {
    hide Answer, NextCount, IdOf;
    var size, offset, job := s.worker.transfer.fileSize, s.worker.transfer.offset, s.worker.job;
    var id := IdOf(|s.drawn| - 1);
    assert Answer(peer, RangeRequest(id, job.listIndex, offset, NextCount(size, offset))) == Ok(Waited(s).value);
    RangeAnswer(peer, id, job.listIndex, offset);
    NextCountBounds(size, offset);
  }

  lemma ArmFaithful(s: State, peer: seq<Served>, b: nat)
    requires Sound(s) && Numbered(s) && Faithful(s, peer, b) && Enabled(s, Arm)
    ensures Faithful(DoArm(s), peer, b)
  {
    hide NextCount, RequestFor, Draw, Counter, IdOf;
    DrawIsIdOf(|s.drawn|);
  }

  lemma FaithfulStep(s: State, a: Action, peer: seq<Served>, b: nat)
    requires Sound(s) && Numbered(s) && Matched(s) && Genuine(s, peer, b) && Faithful(s, peer, b)
    ensures Faithful(Step(s, a), peer, b)
  {
    hide DoTake, DoArm, Fail, NextCount, RequestFor, Answer, IdOf, JobsOf, TopsOf, FoldersOf, OnTheWay, Matched, Numbered;
    if Enabled(s, a) {
      if a.Arm? {
        ArmFaithful(s, peer, b);
      } else if a.Take? {
        TakeFaithful(s, a.io, peer, b);
      } else if a.Clear? {
        FailFaithful(s.(pending := EMPTY), peer, b);
      }
    }
  }

  lemma {:induction false} RunFaithful(acts: seq<Action>, peer: seq<Served>, b: nat)
    requires Honest(acts, peer, b)
    ensures var s := Engine.Run(acts); Genuine(s, peer, b) && Faithful(s, peer, b)
    decreases |acts|
  {
    hide Step, Genuine, Faithful, HonestStep, Numbered, Matched;
    if acts == [] {
      InitFaithful(peer, b);
    } else {
      var before, a := acts[..|acts| - 1], acts[|acts| - 1];
      RunFaithful(before, peer, b);
      RunMatched(before);
      GenuineStep(Engine.Run(before), a, peer, b);
      FaithfulStep(Engine.Run(before), a, peer, b);
    }
  }

  lemma InitFaithful(peer: seq<Served>, b: nat)
    ensures Genuine(INIT, peer, b) && Faithful(INIT, peer, b)
  {
  }

  /** In every interleaving with a peer honest about a batch, with late, repeated and lost replies,
      whatever is saved for the batch is the peer's file for that list index, byte for byte. */
  lemma SavedIsRemote(acts: seq<Action>, peer: seq<Served>, b: nat)
    requires Honest(acts, peer, b)
    ensures var log := Engine.Run(acts).log;
      forall i | 0 <= i < |log| && log[i].saved && log[i].job.target.batch == b ::
        log[i].job.listIndex < |peer| && log[i].content == PeerBytes(peer, log[i].job.listIndex)
  {
    RunFaithful(acts, peer, b);
  }

  // ---- the 32-bit limit ------------------------------------------------------------------------

  // Every request of the batch that reached the peer had passed the sender's limit check.
  ghost predicate Gated(acts: seq<Action>, huge: bool, b: nat)
    decreases |acts|
  {
    acts != [] ==>
      var before, a := acts[..|acts| - 1], acts[|acts| - 1];
      Gated(before, huge, b) && GatedStep(Engine.Run(before), a, huge, b)
  }

  ghost predicate GatedStep(s: State, a: Action, huge: bool, b: nat) {
    a == HandOver(Transmitted) && Enabled(s, a) && WorksOn(s, b) ==>
      s.drawn != [] && !Session.BeyondLimit(s.drawn[|s.drawn| - 1], huge)
  }

  ghost predicate Limited(s: State, huge: bool, b: nat) {
    && (WorksOn(s, b) && Asking(s.worker) && |s.drawn| - 1 in s.transmitted ==>
          s.drawn != [] && !Session.BeyondLimit(s.drawn[|s.drawn| - 1], huge))
    && (forall i | 0 <= i < |s.log| && s.log[i].saved && s.log[i].job.target.batch == b ::
          huge || |s.log[i].content| <= UINT32_MAX)
  }

  // The limit check on a range: its end.
  lemma RangeWithinLimit(id: u32, listIndex: u32, offset: u64, count: u32, huge: bool)
    ensures Session.BeyondLimit(RangeRequest(id, listIndex, offset, count), huge) <==>
      !huge && offset + count > UINT32_MAX
  {
    SplitJoin64(offset, 0, 0);
  }

  lemma TakeLimited(s: State, io: bool, peer: seq<Served>, huge: bool, b: nat)
    requires Sound(s) && Matched(s) && Genuine(s, peer, b) && Faithful(s, peer, b) && Limited(s, huge, b) && Enabled(s, Take(io))
    ensures Limited(DoTake(s, io), huge, b)
  {
    hide Answer, NextCount, IdOf;
    var job, reply := s.worker.job, Waited(s);
    if reply.Some? && s.worker.transfer.Fetching? && WorksOn(s, b) {
      var size, offset := s.worker.transfer.fileSize, s.worker.transfer.offset;
      var count := NextCount(size, offset);
      NextCountBounds(size, offset);
      RangeWithinLimit(IdOf(|s.drawn| - 1), job.listIndex, offset, count, huge);
    }
  }

  lemma LimitedStep(s: State, a: Action, peer: seq<Served>, huge: bool, b: nat)
    requires Sound(s) && Numbered(s) && Matched(s) && Genuine(s, peer, b) && Faithful(s, peer, b)
    requires Limited(s, huge, b) && GatedStep(s, a, huge, b)
    ensures Limited(Step(s, a), huge, b)
  {
    hide DoTake, NextCount, RequestFor, Draw, Counter, IdOf, JobsOf, TopsOf, FoldersOf, Matched, Genuine, Faithful;
    if a.Take? && Enabled(s, a) {
      TakeLimited(s, a.io, peer, huge, b);
    }
  }

  lemma {:induction false} RunLimited(acts: seq<Action>, peer: seq<Served>, huge: bool, b: nat)
    requires Honest(acts, peer, b) && Gated(acts, huge, b)
    ensures Limited(Engine.Run(acts), huge, b)
    decreases |acts|
  {
    hide Step, Genuine, Faithful, HonestStep, GatedStep, Numbered, Matched;
    if acts != [] {
      var before, a := acts[..|acts| - 1], acts[|acts| - 1];
      RunFaithful(before, peer, b);
      RunMatched(before);
      RunLimited(before, peer, huge, b);
      LimitedStep(Engine.Run(before), a, peer, huge, b);
    }
  }

  /** In every interleaving, with huge-file support off, no file of 2^32 bytes or more is saved for
      the batch. */
  lemma SavedFitsLimit(acts: seq<Action>, peer: seq<Served>, b: nat)
    requires Honest(acts, peer, b) && Gated(acts, false, b)
    ensures var log := Engine.Run(acts).log;
      forall i | 0 <= i < |log| && log[i].saved && log[i].job.target.batch == b ::
        log[i].job.listIndex < |peer| && |PeerBytes(peer, log[i].job.listIndex)| < 0x1_0000_0000
  {
    hide Engine.Run, Honest, Gated;
    RunFaithful(acts, peer, b);
    RunLimited(acts, peer, false, b);
  }

  // ---- what is saved, exactly ------------------------------------------------------------------

  // The worker is never stopped; while the batch is worked on files can be opened and written, the
  // channel refuses a request exactly when the limit check does and loses none, and no reply is a
  // failure.
  ghost predicate Undisturbed(acts: seq<Action>, huge: bool, b: nat)
    decreases |acts|
  {
    acts != [] ==>
      var before, a := acts[..|acts| - 1], acts[|acts| - 1];
      Undisturbed(before, huge, b) && UndisturbedStep(Engine.Run(before), a, huge, b)
  }

  ghost predicate UndisturbedStep(s: State, a: Action, huge: bool, b: nat) {
    match a
    case Stop => false
    case Take(io) => WorksOn(s, b) ==> io
    case Reply(_, ok, _) => WorksOn(s, b) ==> ok
    case HandOver(v) =>
      Enabled(s, a) && WorksOn(s, b) ==>
        s.drawn != [] && v == if Session.BeyondLimit(s.drawn[|s.drawn| - 1], huge) then Rejected else Transmitted
    case _ => true
  }

  ghost predicate ForFiles(jobs: seq<Job>, peer: seq<Served>, b: nat) {
    forall i | 0 <= i < |jobs| && jobs[i].target.batch == b :: jobs[i].listIndex < |peer| && !peer[jobs[i].listIndex].isDir
  }

  // A download fails only at the limit check, and only for a file too large for it.
  ghost predicate FailsOnlyByLimit(s: State, peer: seq<Served>, huge: bool, b: nat) {
    && !s.stopped
    && (WorksOn(s, b) && Asking(s.worker) && s.accepted.Some? ==> s.accepted.value.ok)
    && (WorksOn(s, b) && Asking(s.worker) && s.worker.phase.Refused? ==>
          s.drawn != [] && Session.BeyondLimit(s.drawn[|s.drawn| - 1], huge))
    && (forall i | 0 <= i < |s.log| && !s.log[i].saved && s.log[i].job.target.batch == b ::
          var index := s.log[i].job.listIndex;
          !huge && index < |peer| && |PeerBytes(peer, index)| > UINT32_MAX)
  }

  lemma ClearFailsByLimit(s: State, peer: seq<Served>, huge: bool, b: nat)
    requires Sound(s) && Faithful(s, peer, b) && FailsOnlyByLimit(s, peer, huge, b) && Enabled(s, Clear)
    ensures FailsOnlyByLimit(Step(s, Clear), peer, huge, b)
  {
    hide NextCount, IdOf;
    var job, id := s.worker.job, IdOf(|s.drawn| - 1);
    if s.worker.transfer.Fetching? && WorksOn(s, b) {
      var size, offset := s.worker.transfer.fileSize, s.worker.transfer.offset;
      RangeWithinLimit(id, job.listIndex, offset, NextCount(size, offset), huge);
      NextCountBounds(size, offset);
    }
  }

  // An undisturbed wait returns what the download needs.
  lemma TakeGoesOn(s: State, io: bool, peer: seq<Served>, huge: bool, b: nat)
    requires Sound(s) && Matched(s) && Genuine(s, peer, b) && Faithful(s, peer, b) && FailsOnlyByLimit(s, peer, huge, b)
    requires Enabled(s, Take(io)) && (WorksOn(s, b) ==> io)
    ensures FailsOnlyByLimit(DoTake(s, io), peer, huge, b)
  {
    hide Fail, Continue, Answer, NextCount, IdOf;
    var t, job, reply := s.(pending := EMPTY), s.worker.job, Waited(s);
    if WorksOn(s, b) {
      assert reply.Some?;
      if s.worker.transfer.AskingSize? {
        SizeReplied(s, peer, b);
      } else {
        RangeReplied(s, peer, b);
      }
    } else {
      OtherFails(t, peer, huge, b);
    }
    match s.worker.transfer {
      case AskingSize =>
        if reply.Some? && |reply.value| >= 8 {
          ContinueFails(t, job, Get64(reply.value), 0, [], peer, huge, b);
        }
      case Fetching(fileSize, offset) =>
        if reply.Some? && |reply.value| == NextCount(fileSize, offset) && job.target in t.disk {
          NextCountBounds(fileSize, offset);
          ContinueFails(t, job, fileSize, offset + |reply.value|, t.disk[job.target] + reply.value, peer, huge, b);
        }
    }
  }

  // A failed download of another batch.
  lemma OtherFails(s: State, peer: seq<Served>, huge: bool, b: nat)
    requires FailsOnlyByLimit(s, peer, huge, b) && s.worker.Busy? && !WorksOn(s, b)
    ensures FailsOnlyByLimit(Fail(s), peer, huge, b)
  {
  }

  lemma ContinueFails(s: State, job: Job, fileSize: u64, offset: u64, content: bytes, peer: seq<Served>, huge: bool, b: nat)
    requires FailsOnlyByLimit(s, peer, huge, b)
    ensures FailsOnlyByLimit(Continue(s, job, fileSize, offset, content), peer, huge, b)
  {
  }

  lemma FailsOnlyByLimitStep(s: State, a: Action, peer: seq<Served>, huge: bool, b: nat)
    requires Sound(s) && Numbered(s) && Matched(s) && Genuine(s, peer, b) && Faithful(s, peer, b)
    requires FailsOnlyByLimit(s, peer, huge, b) && UndisturbedStep(s, a, huge, b)
    ensures FailsOnlyByLimit(Step(s, a), peer, huge, b)
  {
    hide DoTake, Fail, NextCount, RequestFor, Draw, IdOf, JobsOf, TopsOf, FoldersOf, Numbered, Matched, Genuine, Faithful;
    if Enabled(s, a) {
      if a.Take? {
        TakeGoesOn(s, a.io, peer, huge, b);
      } else if a.Clear? {
        ClearFailsByLimit(s, peer, huge, b);
      }
    }
  }

  lemma {:induction false} RunFailsOnlyByLimit(acts: seq<Action>, peer: seq<Served>, huge: bool, b: nat)
    requires Honest(acts, peer, b) && Undisturbed(acts, huge, b)
    ensures FailsOnlyByLimit(Engine.Run(acts), peer, huge, b) && Gated(acts, huge, b)
    decreases |acts|
  {
    hide Step, Genuine, Faithful, HonestStep, Numbered, Matched, FailsOnlyByLimit;
    if acts == [] {
      InitFails(peer, huge, b);
    } else {
      var before, a := acts[..|acts| - 1], acts[|acts| - 1];
      RunFaithful(before, peer, b);
      RunMatched(before);
      RunFailsOnlyByLimit(before, peer, huge, b);
      FailsOnlyByLimitStep(Engine.Run(before), a, peer, huge, b);
    }
  }

  lemma InitFails(peer: seq<Served>, huge: bool, b: nat)
    ensures FailsOnlyByLimit(INIT, peer, huge, b)
  {
  }

  /** In every interleaving in which the batch is not disturbed and the peer is honest about it, a
      download of the batch that returned has saved its file if and only if huge-file support is on or the file is smaller than 2^32. */
  lemma SavedExactly(acts: seq<Action>, peer: seq<Served>, huge: bool, b: nat)
    requires Honest(acts, peer, b) && Undisturbed(acts, huge, b)
    requires ForFiles(Engine.Run(acts).enqueued, peer, b)
    ensures var log := Engine.Run(acts).log;
      forall i | 0 <= i < |log| && log[i].job.target.batch == b ::
        var index := log[i].job.listIndex;
        index < |peer| && (log[i].saved <==> huge || |peer[index].data| < 0x1_0000_0000)
  {
    hide Engine.Run, Honest, Undisturbed, Gated;
    RunFailsOnlyByLimit(acts, peer, huge, b);
    RunFaithful(acts, peer, b);
    RunLimited(acts, peer, huge, b);
    JobsInTurn(acts);
    var s := Engine.Run(acts);
    forall i | 0 <= i < |s.log|
      ensures s.enqueued[i] == s.log[i].job
    {
      assert LogJobs(s.log)[i] == s.log[i].job;
    }
  }

  // ---- the disk ------------------------------------------------------------------------------

  // No two jobs of the batch share a target; jobs of different batches never do.
  ghost predicate DistinctTargets(jobs: seq<Job>, b: nat) {
    forall i, j | 0 <= i < j < |jobs| && jobs[i].target.batch == b :: jobs[i].target != jobs[j].target
  }

  // The file open for writing.
  function Writing(w: Worker): Option<Target> {
    if w.Busy? && w.transfer.Fetching? then Some(w.job.target) else None
  }

  lemma StepKeepsDisk(s: State, a: Action)
    requires Sound(s) && !a.Take? && !a.Clear?
    ensures var t := Step(s, a); t.disk == s.disk && t.log == s.log && Writing(t.worker) == Writing(s.worker)
  {
    hide NextCount, RequestFor, Draw, JobsOf, TopsOf, FoldersOf;
  }

  // Of the batch, the disk holds what the log says was saved, nothing of what failed, and at most
  // the file being written besides.
  ghost predicate DiskMatchesLog(s: State, b: nat) {
    && (forall i | 0 <= i < |s.log| && s.log[i].job.target.batch == b ::
          if s.log[i].saved then s.log[i].job.target in s.disk && s.disk[s.log[i].job.target] == s.log[i].content
          else s.log[i].job.target !in s.disk)
    && (forall t | t in s.disk && t.batch == b ::
          Writing(s.worker) == Some(t) || exists i | 0 <= i < |s.log| :: s.log[i].job.target == t)
  }

  // The current job's target is none of the finished ones.
  ghost predicate CurrentIsNew(s: State, b: nat) {
    WorksOn(s, b) ==> forall i | 0 <= i < |s.log| :: s.log[i].job.target != s.worker.job.target
  }

  lemma CurrentIsNewHolds(s: State, b: nat)
    requires InTurn(s) && DistinctTargets(s.enqueued, b)
    ensures CurrentIsNew(s, b)
  {
    if WorksOn(s, b) {
      assert s.enqueued[|s.log|] == s.worker.job;
    }
    forall i | 0 <= i < |s.log|
      ensures s.enqueued[i] == s.log[i].job
    {
      assert LogJobs(s.log)[i] == s.log[i].job;
    }
  }

  lemma FailDisk(s: State, b: nat)
    requires DiskMatchesLog(s, b) && CurrentIsNew(s, b) && s.worker.Busy?
    ensures DiskMatchesLog(Fail(s), b)
  {
    var t := Fail(s);
    forall x | x in t.disk && x.batch == b
      ensures exists i | 0 <= i < |t.log| :: t.log[i].job.target == x
    {
      assert x in s.disk;
      var i :| 0 <= i < |s.log| && s.log[i].job.target == x;
      assert t.log[i] == s.log[i];
    }
  }

  // The log's part of the disk does not feel a write to the current target.
  lemma WriteKeepsLog(s: State, content: bytes, b: nat)
    requires DiskMatchesLog(s, b) && CurrentIsNew(s, b) && s.worker.Busy?
    ensures var disk := s.disk[s.worker.job.target := content];
      (forall i | 0 <= i < |s.log| && s.log[i].job.target.batch == b ::
         if s.log[i].saved then s.log[i].job.target in disk && disk[s.log[i].job.target] == s.log[i].content
         else s.log[i].job.target !in disk) &&
      (forall x | x in disk && x.batch == b && x != s.worker.job.target ::
         exists i | 0 <= i < |s.log| :: s.log[i].job.target == x)
  {
  }

  // One more download in the log, whose target none of the others had.
  lemma LogsDisk(s: State, t: State, d: Done, b: nat)
    requires t.log == s.log + [d] && !t.worker.Busy?
    requires forall i | 0 <= i < |s.log| && s.log[i].job.target.batch == b ::
      if s.log[i].saved then s.log[i].job.target in t.disk && t.disk[s.log[i].job.target] == s.log[i].content
      else s.log[i].job.target !in t.disk
    requires forall x | x in t.disk && x.batch == b && x != d.job.target ::
      exists i | 0 <= i < |s.log| :: s.log[i].job.target == x
    requires if d.saved then d.job.target in t.disk && t.disk[d.job.target] == d.content else d.job.target !in t.disk
    ensures DiskMatchesLog(t, b)
  {
    assert t.log[|s.log|] == d;
    forall x | x in t.disk && x.batch == b
      ensures exists i | 0 <= i < |t.log| :: t.log[i].job.target == x
    {
      if x != d.job.target {
        var i :| 0 <= i < |s.log| && s.log[i].job.target == x;
        assert t.log[i] == s.log[i];
      }
    }
  }

  lemma ContinueDisk(s: State, fileSize: u64, offset: u64, content: bytes, b: nat)
    requires DiskMatchesLog(s, b) && CurrentIsNew(s, b) && s.worker.Busy?
    ensures DiskMatchesLog(Continue(s, s.worker.job, fileSize, offset, content), b)
  {
    WriteKeepsLog(s, content, b);
    if offset >= fileSize {
      hide DiskMatchesLog, CurrentIsNew;
      var t := Continue(s, s.worker.job, fileSize, offset, content);
      LogsDisk(s, t, Done(s.worker.job, true, content, s.asked, fileSize), b);
    }
  }

  lemma TakeDisk(s: State, io: bool, b: nat)
    requires Sound(s) && DiskMatchesLog(s, b) && CurrentIsNew(s, b) && Enabled(s, Take(io))
    ensures DiskMatchesLog(DoTake(s, io), b)
  {
    hide DiskMatchesLog, CurrentIsNew, NextCount, Fail, Continue;
    var t, reply := s.(pending := EMPTY), Waited(s);
    SameDisk(s, t, b);
    FailDisk(t, b);
    if reply.Some? {
      match s.worker.transfer {
        case AskingSize =>
          if |reply.value| >= 8 {
            ContinueDisk(t, Get64(reply.value), 0, [], b);
          }
        case Fetching(fileSize, offset) =>
          NextCountBounds(fileSize, offset);
          if |reply.value| == NextCount(fileSize, offset) && s.worker.job.target in t.disk {
            ContinueDisk(t, fileSize, offset + |reply.value|, t.disk[s.worker.job.target] + reply.value, b);
          }
      }
    }
  }

  lemma DiskStep(s: State, a: Action, b: nat)
    requires Sound(s) && DiskMatchesLog(s, b) && CurrentIsNew(s, b)
    ensures DiskMatchesLog(Step(s, a), b)
  {
    hide DoTake, DoEnqueue, DoArm, DoReply, DoHandOver, DoFinish, Fail, CurrentIsNew;
    if a.Take? {
      if Enabled(s, a) {
        TakeDisk(s, a.io, b);
      }
    } else if a.Clear? {
      if Enabled(s, a) {
        SameDisk(s, s.(pending := EMPTY), b);
        FailDisk(s.(pending := EMPTY), b);
      }
    } else {
      StepKeepsDisk(s, a);
    }
  }

  lemma SameDisk(s: State, t: State, b: nat)
    requires t == s.(pending := EMPTY) && DiskMatchesLog(s, b) && CurrentIsNew(s, b)
    ensures DiskMatchesLog(t, b) && CurrentIsNew(t, b)
  {
  }

  lemma EnqueuedGrows(s: State, a: Action)
    requires Sound(s)
    ensures s.enqueued <= Step(s, a).enqueued
  {
    hide NextCount, RequestFor, Draw, JobsOf, TopsOf, FoldersOf;
  }

  /** As long as no two jobs of a batch share a target, its part of the disk is exactly what the
      log says: saved files with their contents, no trace of failed, short or stopped downloads. */
  lemma {:induction false} DiskIsLog(acts: seq<Action>, b: nat)
    requires DistinctTargets(Engine.Run(acts).enqueued, b)
    ensures DiskMatchesLog(Engine.Run(acts), b)
    decreases |acts|
  {
    hide Step, DiskMatchesLog, CurrentIsNew, InTurn;
    if acts == [] {
      assert DiskMatchesLog(INIT, b) by { InitDisk(b); }
    } else {
      var before, a := acts[..|acts| - 1], acts[|acts| - 1];
      var s := Engine.Run(before);
      EnqueuedGrows(s, a);
      DiskIsLog(before, b);
      JobsInTurn(before);
      CurrentIsNewHolds(s, b);
      DiskStep(s, a, b);
    }
  }

  lemma InitDisk(b: nat)
    ensures DiskMatchesLog(INIT, b)
  {
  }
}
