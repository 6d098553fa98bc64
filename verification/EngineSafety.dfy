/**
 What holds in every interleaving of the remote-file engine.
 */
module EngineSafety {
  import opened Wire
  import opened Pdu
  import opened Paths
  import opened Download
  import opened Engine

  // ---- batch accounting ----------------------------------------------------------------

  function Count(jobs: seq<Job>, b: nat): nat {
    if jobs == [] then 0 else (if jobs[0].target.batch == b then 1 else 0) + Count(jobs[1..], b)
  }

  lemma {:induction false} CountAppend(x: seq<Job>, y: seq<Job>, b: nat)
    ensures Count(x + y, b) == Count(x, b) + Count(y, b)
  {
    if x == [] {
      assert x + y == y;
    } else {
      assert (x + y)[1..] == x[1..] + y;
      CountAppend(x[1..], y, b);
    }
  }

  lemma {:induction false} CountAll(jobs: seq<Job>, b: nat)
    requires forall i | 0 <= i < |jobs| :: jobs[i].target.batch == b
    ensures forall c: nat :: Count(jobs, c) == if c == b then |jobs| else 0
  {
    if jobs != [] {
      CountAll(jobs[1..], b);
    }
  }

  lemma {:induction false} CountNone(jobs: seq<Job>, b: nat)
    ensures Count(jobs, b) == 0 <==> forall i | 0 <= i < |jobs| :: jobs[i].target.batch != b
  {
    if jobs != [] {
      CountNone(jobs[1..], b);
      assert forall i | 0 < i < |jobs| :: jobs[i] == jobs[1..][i - 1];
      assert forall i | 0 <= i < |jobs| - 1 :: jobs[1..][i] == jobs[i + 1];
    }
  }

  // The job taken off the queue whose batch has not been told.
  predicate HasJob(w: Worker) { w.Busy? || w.Ended? }

  function InFlight(w: Worker, b: nat): nat { if HasJob(w) && w.job.target.batch == b then 1 else 0 }

  /** Enqueueing makes one job for each acceptable file entry, with its list index, and no other. */
  lemma {:induction false} JobsExact(files: seq<Offer>, n: nat, batch: nat, job: Job)
    requires n <= |files|
    ensures job in JobsOf(files, n, batch) <==>
      exists i | 0 <= i < n ::
        SafeRelativePath(files[i].displayName) != [] && !files[i].isDir && files[i].made &&
        job == Job(i % 0x1_0000_0000, Target(batch, SafeRelativePath(files[i].displayName)))
  {
    hide SafeRelativePath;
    if n > 0 {
      JobsExact(files, n - 1, batch, job);
    }
  }

  /** The jobs follow the order of the entries. */
  lemma {:induction false} JobsIncrease(files: seq<Offer>, n: nat, batch: nat)
    requires n <= |files| && n <= 0x1_0000_0000
    ensures var jobs := JobsOf(files, n, batch);
      (forall job | job in jobs :: job.listIndex < n) &&
      forall k, l | 0 <= k < l < |jobs| :: jobs[k].listIndex < jobs[l].listIndex
  {
    hide JobsOf, MakesJob;
    if n == 0 {
      assert JobsOf(files, 0, batch) == [] by { NoJobsYet(files, batch); }
    } else {
      JobsIncrease(files, n - 1, batch);
      var before, jobs := JobsOf(files, n - 1, batch), JobsOf(files, n, batch);
      NextEntry(files, n, batch);
      forall k, l | 0 <= k < l < |jobs|
        ensures jobs[k].listIndex < jobs[l].listIndex
      {
        assert jobs[k] == before[k] && before[k] in before;
        if l < |before| {
          assert jobs[l] == before[l];
        }
      }
    }
  }

  lemma NoJobsYet(files: seq<Offer>, batch: nat)
    ensures JobsOf(files, 0, batch) == []
  {
  }

  lemma NextEntry(files: seq<Offer>, n: nat, batch: nat)
    requires 0 < n <= |files|
    ensures var before, jobs := JobsOf(files, n - 1, batch), JobsOf(files, n, batch);
      if MakesJob(files[n - 1]) then |jobs| == |before| + 1 && jobs[..|before|] == before &&
        jobs[|before|].listIndex == (n - 1) % 0x1_0000_0000
      else jobs == before
  {
  }

  /** The folders made are those of the acceptable directory entries that could be made. */
  lemma {:induction false} FoldersExact(files: seq<Offer>, n: nat, batch: nat, t: Target)
    requires n <= |files|
    ensures t in FoldersOf(files, n, batch) <==>
      exists i | 0 <= i < n :: files[i].isDir && files[i].made && SafeRelativePath(files[i].displayName) != [] &&
        t == Target(batch, SafeRelativePath(files[i].displayName))
  {
    hide SafeRelativePath;
    if n > 0 {
      FoldersExact(files, n - 1, batch, t);
    }
  }

  /** Top names are taken in the order of the entries. */
  lemma {:induction false} TopsGrow(files: seq<Offer>, m: nat, n: nat)
    requires m <= n <= |files|
    ensures TopsOf(files, m) <= TopsOf(files, n)
    decreases n
  {
    hide SafeRelativePath, Top;
    if m < n {
      TopsGrow(files, m, n - 1);
    }
  }

  /** What enqueueing a list does to queue, batches and publications; without a root directory it
      makes no job, and its batch is never published. */
  lemma EnqueueExactly(s: State, files: seq<Offer>, rootMade: bool)
    requires Sound(s) && files != []
    ensures var t, id := Step(s, Enqueue(files, rootMade)), |s.batches|;
      var jobs, tops := JobsOf(files, |files|, id), TopsOf(files, |files|);
      t.worker == s.worker && t.pending == s.pending && t.disk == s.disk && t.contextSet &&
      t.jobs == (if rootMade then s.jobs + jobs else s.jobs) &&
      t.batches == s.batches + [if rootMade then Batch(|jobs|, tops, |jobs|) else Batch(0, [], 0)] &&
      t.published == (if rootMade && jobs == [] && tops != [] then s.published + [id] else s.published)
  {
    hide JobsOf, TopsOf, FoldersOf;
    assert s.published + [] == s.published;
  }

  /** A stop raises the flag and wakes the wait, and nothing else. */
  lemma StopWakes(s: State)
    requires Sound(s)
    ensures var t := Step(s, Stop);
      WaitOver(t) && t.pending.ready && t == s.(stopped := true, pending := t.pending) &&
      t.pending == s.pending.(ready := t.pending.ready)
  {
  }

  /** A worker that has left can be reaped and started again, and then takes the next job. */
  lemma RestartResumes(s: State)
    requires Sound(s) && s.stopped && s.worker.Exited? && s.contextSet && s.jobs != []
    ensures Step(Step(Step(s, Reap), Start), Pop) ==
      s.(stopped := false, jobs := s.jobs[1..], worker := Busy(s.jobs[0], AskingSize, Preparing))
  {
  }

  // Steps other than these three touch neither the queue nor the batches.
  predicate Quiet(a: Action) { !a.Enqueue? && !a.Pop? && !a.Finish? }

  ghost predicate SameBooks(s: State, t: State) {
    && t.jobs == s.jobs && t.batches == s.batches && t.published == s.published && t.contextSet == s.contextSet
    && HasJob(t.worker) == HasJob(s.worker) && (HasJob(s.worker) ==> t.worker.job == s.worker.job)
    && t.enqueued == s.enqueued
  }

  lemma QuietStep(s: State, a: Action)
    requires Sound(s) && Quiet(a)
    ensures SameBooks(s, Step(s, a))
  {
    hide NextCount, Draw, RequestFor, DoTake;
    if a.Take? && Enabled(s, a) {
      TakeKeepsBooks(s, a.io);
    }
  }

  lemma TakeKeepsBooks(s: State, io: bool)
    requires Sound(s) && Enabled(s, Take(io))
    ensures SameBooks(s, DoTake(s, io))
  {
    hide NextCount;
  }

  ghost predicate Accounted(s: State) {
    && (forall b | 0 <= b < |s.batches| :: s.batches[b].remaining == Count(s.jobs, b) + InFlight(s.worker, b))
    && (s.jobs != [] ==> s.contextSet)
  }

  lemma AccountedEnqueue(s: State, files: seq<Offer>, rootMade: bool)
    requires Sound(s) && Accounted(s)
    ensures Accounted(DoEnqueue(s, files, rootMade))
  {
    hide JobsOf, TopsOf, FoldersOf;
    var id, jobs := |s.batches|, JobsOf(files, |files|, |s.batches|);
    JobsOfBatch(files, |files|, id);
    CountAll(jobs, id);
    CountNone(s.jobs, id);
    forall b | 0 <= b <= id
      ensures Count(s.jobs + jobs, b) == Count(s.jobs, b) + Count(jobs, b)
    {
      CountAppend(s.jobs, jobs, b);
    }
  }

  lemma AccountedStep(s: State, a: Action)
    requires Sound(s) && Accounted(s)
    ensures Accounted(Step(s, a))
  {
    hide DoEnqueue, DoArm, DoTake, DoReply, DoHandOver, Fail;
    if Quiet(a) {
      QuietStep(s, a);
    } else if a.Enqueue? {
      AccountedEnqueue(s, a.files, a.rootMade);
    }
  }

  // Batches leave the queue in the order they entered it.
  ghost predicate Ordered(s: State) {
    && (forall i, j | 0 <= i < j < |s.jobs| :: s.jobs[i].target.batch <= s.jobs[j].target.batch)
    && (HasJob(s.worker) ==> forall i | 0 <= i < |s.jobs| :: s.worker.job.target.batch <= s.jobs[i].target.batch)
    && (forall b | 0 <= b < |s.batches| :: s.batches[b].remaining <= s.batches[b].size)
    && (forall p, b | 0 <= p < |s.batches| && 0 <= b < |s.batches| ::
          s.batches[p].size > 0 && s.batches[p].remaining == 0 && s.batches[b].remaining > 0 ==> p < b)
  }

  lemma OrderedEnqueue(s: State, files: seq<Offer>, rootMade: bool)
    requires Sound(s) && Accounted(s) && Ordered(s)
    ensures Ordered(DoEnqueue(s, files, rootMade))
  {
    hide JobsOf, TopsOf, FoldersOf, Count;
    JobsOfBatch(files, |files|, |s.batches|);
  }

  lemma OrderedFinish(s: State)
    requires Sound(s) && Accounted(s) && Ordered(s) && s.worker.Ended?
    ensures Ordered(DoFinish(s))
  {
    var b0, t := s.worker.job.target.batch, DoFinish(s);
    forall b | 0 <= b < |s.batches| && t.batches[b].remaining > 0
      ensures b0 <= b
    {
      if b != b0 {
        CountNone(s.jobs, b);
      }
    }
  }

  lemma OrderedStep(s: State, a: Action)
    requires Sound(s) && Accounted(s) && Ordered(s)
    ensures Ordered(Step(s, a))
  {
    hide DoEnqueue, DoArm, DoTake, DoReply, DoHandOver, Fail, DoFinish, Count;
    if Quiet(a) {
      QuietStep(s, a);
    } else if a.Enqueue? {
      OrderedEnqueue(s, a.files, a.rootMade);
    } else if a.Finish? && Enabled(s, a) {
      OrderedFinish(s);
    }
  }

  // A batch is published once it has a top path and no job left, and only then.
  ghost predicate PublishedOnce(s: State) {
    && (forall i | 0 <= i < |s.published| :: s.published[i] < |s.batches|)
    && (forall b | 0 <= b < |s.batches| ::
          multiset(s.published)[b] == if s.batches[b].tops != [] && s.batches[b].remaining == 0 then 1 else 0)
  }

  ghost predicate PublishedInOrder(s: State) {
    && (forall i | 0 <= i < |s.published| :: s.published[i] < |s.batches|)
    && (forall i, j | 0 <= i < j < |s.published| ::
          s.batches[s.published[i]].size > 0 && s.batches[s.published[j]].size > 0 ==> s.published[i] < s.published[j])
  }

  lemma PublishedAppend(published: seq<nat>, b: nat)
    ensures multiset(published + [b]) == multiset(published) + multiset{b}
  {
  }

  // A new batch at the end of the table, published at once or not.
  lemma NewBatch(s: State, t: State, batch: Batch)
    requires PublishedOnce(s) && t.batches == s.batches + [batch]
    requires t.published == if batch.tops != [] && batch.remaining == 0 then s.published + [|s.batches|] else s.published
    ensures PublishedOnce(t)
  {
    var id := |s.batches|;
    assert id !in s.published && id !in multiset(s.published);
    PublishedAppend(s.published, id);
  }

  lemma NewBatchInOrder(s: State, t: State, batch: Batch)
    requires PublishedInOrder(s) && t.batches == s.batches + [batch]
    requires t.published == s.published || t.published == s.published + [|s.batches|]
    ensures PublishedInOrder(t)
  {
  }

  lemma PublishedEnqueue(s: State, files: seq<Offer>, rootMade: bool)
    requires Sound(s) && PublishedOnce(s) && PublishedInOrder(s)
    ensures var t := DoEnqueue(s, files, rootMade); PublishedOnce(t) && PublishedInOrder(t)
  {
    hide JobsOf, TopsOf, FoldersOf, PublishedOnce, PublishedInOrder;
    assert s.published + [] == s.published;
    var t := DoEnqueue(s, files, rootMade);
    NewBatch(s, t, t.batches[|s.batches|]);
    NewBatchInOrder(s, t, t.batches[|s.batches|]);
  }

  lemma FinishCounts(s: State)
    requires Sound(s) && Accounted(s) && PublishedOnce(s) && s.worker.Ended?
    ensures PublishedOnce(DoFinish(s))
    ensures s.worker.job.target.batch !in s.published
    ensures forall i | 0 <= i < |s.published| :: s.batches[s.published[i]].remaining == 0
  {
    hide Count;
    var b0 := s.worker.job.target.batch;
    assert InFlight(s.worker, b0) == 1;
    assert s.batches[b0].remaining > 0;
    forall i | 0 <= i < |s.published|
      ensures s.published[i] != b0 && s.batches[s.published[i]].remaining == 0
    {
      assert s.published[i] in multiset(s.published);
    }
    assert s.published + [] == s.published;
    PublishedAppend(s.published, b0);
  }

  lemma FinishOrders(s: State)
    requires Sound(s) && Accounted(s) && Ordered(s) && PublishedOnce(s) && PublishedInOrder(s) && s.worker.Ended?
    ensures PublishedInOrder(DoFinish(s))
  {
    hide Count, PublishedOnce;
    FinishCounts(s);
    assert s.batches[s.worker.job.target.batch].remaining > 0;
  }

  lemma PublishedStep(s: State, a: Action)
    requires Sound(s) && Accounted(s) && Ordered(s) && PublishedOnce(s) && PublishedInOrder(s)
    ensures var t := Step(s, a); PublishedOnce(t) && PublishedInOrder(t)
  {
    hide DoEnqueue, DoArm, DoTake, DoReply, DoHandOver, Fail, DoFinish, Count, Accounted, Ordered;
    if Quiet(a) {
      QuietStep(s, a);
    } else if a.Enqueue? {
      PublishedEnqueue(s, a.files, a.rootMade);
    } else if a.Finish? && Enabled(s, a) {
      FinishCounts(s);
      FinishOrders(s);
    }
  }

  /** In every interleaving a batch's counter is its queued jobs plus its job in flight; it is
      published exactly when it has a top path and that number is zero, never twice; batches
      with jobs are published in the order they were enqueued. */
  lemma {:induction false} BatchAccounting(acts: seq<Action>)
    ensures var s := Run(acts); Accounted(s) && Ordered(s) && PublishedOnce(s) && PublishedInOrder(s)
    decreases |acts|
  {
    hide Accounted, Ordered, PublishedOnce, PublishedInOrder, Step;
    if acts == [] {
      InitAccounted();
    } else {
      BatchAccounting(acts[..|acts| - 1]);
      var s, a := Run(acts[..|acts| - 1]), acts[|acts| - 1];
      AccountedStep(s, a);
      OrderedStep(s, a);
      PublishedStep(s, a);
    }
  }

  lemma InitAccounted()
    ensures Accounted(INIT) && Ordered(INIT) && PublishedOnce(INIT) && PublishedInOrder(INIT)
  {
  }

  // ---- which reply a wait returns --------------------------------------------------------

  ghost predicate Numbered(s: State) {
    && s.counter == Counter(|s.drawn|)
    && (forall i | 0 <= i < |s.drawn| :: s.drawn[i].streamId == IdOf(i))
    && (forall k :: k in s.transmitted ==> k < |s.drawn|)
  }

  lemma NumberedStep(s: State, a: Action)
    requires Sound(s) && Numbered(s)
    ensures Numbered(Step(s, a))
  {
    hide Draw, Counter, IdOf, RequestFor, NextCount, JobsOf, TopsOf, FoldersOf;
    if a.Arm? && Enabled(s, a) {
      DrawIsIdOf(|s.drawn|);
      RequestHasId(s.worker.job, s.worker.transfer, IdOf(|s.drawn|));
    }
  }

  predicate Asking(w: Worker) { w.Busy? && !w.phase.Preparing? }

  // The slot belongs to the newest request, and holds what was last accepted for it.
  ghost predicate Matched(s: State) {
    && s.pending.active == Asking(s.worker)
    && s.pending.kind == (if !Asking(s.worker) then NoKind else if s.worker.transfer.AskingSize? then SizeKind else RangeKind)
    && (Asking(s.worker) ==> s.drawn != [] && s.pending.streamId == IdOf(|s.drawn| - 1))
    && (Asking(s.worker) && !s.worker.phase.Sent? ==> |s.drawn| - 1 !in s.transmitted)
    && (Asking(s.worker) && s.pending.ready && !s.stopped ==> s.accepted.Some?)
    && (Asking(s.worker) && s.accepted.Some? ==>
          var r := s.accepted.value;
          s.pending.ready && s.pending.ok == r.ok && s.pending.data == if r.ok then r.data else [])
  }

  lemma ArmMatched(s: State)
    requires Sound(s) && Numbered(s) && Enabled(s, Arm)
    ensures Matched(DoArm(s))
  {
    hide Draw, Counter, IdOf, RequestFor, NextCount;
    DrawIsIdOf(|s.drawn|);
  }

  lemma ReplyMatched(s: State, streamId: u32, ok: bool, data: bytes)
    requires Matched(s)
    ensures Matched(DoReply(s, streamId, ok, data))
  {
    hide IdOf;
  }

  lemma TakeMatched(s: State, io: bool)
    requires Sound(s) && Enabled(s, Take(io))
    ensures Matched(DoTake(s, io))
  {
    hide IdOf, NextCount;
  }

  lemma MatchedStep(s: State, a: Action)
    requires Sound(s) && Numbered(s) && Matched(s)
    ensures Matched(Step(s, a))
  {
    hide DoArm, DoReply, DoTake, Matched;
    if !Enabled(s, a) {
      NotEnabled(s, a);
    } else {
      match a {
        case Arm => ArmMatched(s);
        case Reply(streamId, ok, data) => ReplyMatched(s, streamId, ok, data);
        case Take(io) => TakeMatched(s, io);
        case _ => RestMatched(s, a);
      }
    }
  }

  lemma RestMatched(s: State, a: Action)
    requires Sound(s) && Matched(s) && Enabled(s, a) && !a.Arm? && !a.Reply? && !a.Take?
    ensures Matched(Apply(s, a))
  {
    hide IdOf, JobsOf, TopsOf, FoldersOf;
  }

  lemma NotEnabled(s: State, a: Action)
    requires Sound(s) && !Enabled(s, a)
    ensures Step(s, a) == s
  {
  }

  lemma {:induction false} RunMatched(acts: seq<Action>)
    ensures Numbered(Run(acts)) && Matched(Run(acts))
    decreases |acts|
  {
    hide Numbered, Matched, Step;
    if acts == [] {
      InitMatched();
    } else {
      RunMatched(acts[..|acts| - 1]);
      NumberedStep(Run(acts[..|acts| - 1]), acts[|acts| - 1]);
      MatchedStep(Run(acts[..|acts| - 1]), acts[|acts| - 1]);
    }
  }

  lemma InitMatched()
    ensures Numbered(INIT) && Matched(INIT)
  {
  }

  // The last reply of the run with the id of the newest request, since that request was built.
  ghost function LastReply(acts: seq<Action>): Option<Acceptance>
    decreases |acts|
  {
    if acts == [] then None
    else
      var before, a := acts[..|acts| - 1], acts[|acts| - 1];
      var s := Run(before);
      if a.Arm? && Enabled(s, a) then None
      else if a.Reply? && Enabled(s, a) && s.drawn != [] && a.streamId == s.drawn[|s.drawn| - 1].streamId
      then Some(Acceptance(a.ok, a.data))
      else LastReply(before)
  }

  // A step other than building a request and other than a reply.
  lemma OthersKeepAccepted(s: State, a: Action)
    requires Sound(s) && Enabled(s, a) && !a.Arm? && !a.Reply?
    ensures Step(s, a).accepted == s.accepted
    ensures Asking(Step(s, a).worker) ==> Asking(s.worker)
  {
    hide NextCount, JobsOf, TopsOf, FoldersOf;
  }

  lemma ReplyTaken(s: State, a: Action)
    requires Sound(s) && Numbered(s) && Matched(s) && a.Reply? && Enabled(s, a)
    ensures Asking(s.worker) && a.streamId == IdOf(|s.drawn| - 1) <==>
      s.pending.active && a.streamId == s.pending.streamId
    ensures var t := Step(s, a);
      if Asking(s.worker) && a.streamId == IdOf(|s.drawn| - 1) then t.accepted == Some(Acceptance(a.ok, a.data)) else t == s
  {
    hide IdOf;
  }

  lemma {:induction false} AcceptedIsLast(acts: seq<Action>)
    ensures Asking(Run(acts).worker) ==> Run(acts).accepted == LastReply(acts)
    decreases |acts|
  {
    hide Numbered, Matched, Asking, Step, IdOf;
    if acts != [] {
      var before, a := acts[..|acts| - 1], acts[|acts| - 1];
      var s := Run(before);
      AcceptedIsLast(before);
      RunMatched(before);
      if !Enabled(s, a) {
        NotEnabled(s, a);
      } else if a.Arm? {
        ArmForgets(s);
      } else if a.Reply? {
        ReplyTaken(s, a);
        if Asking(s.worker) {
          LastId(s);
        }
      } else {
        OthersKeepAccepted(s, a);
      }
    }
  }

  lemma ArmForgets(s: State)
    requires Sound(s) && Enabled(s, Arm)
    ensures Step(s, Arm).accepted == None
  {
    hide NextCount, RequestFor, Draw;
  }

  lemma LastId(s: State)
    requires Numbered(s) && Matched(s) && Asking(s.worker)
    ensures s.drawn != [] && s.drawn[|s.drawn| - 1].streamId == IdOf(|s.drawn| - 1)
  {
  }

  /** In every interleaving, whatever replies come from whomever, the wait ends, unless stopped,
      exactly when a reply with the id of the outstanding request has come since that was
      installed; it returns the data of the last such reply if that one is good, nothing if it is
      bad or if stopped.  A reply under any other id, or while nothing is outstanding, changes
      nothing at all. */
  lemma WaitDelivers(acts: seq<Action>)
    ensures var s := Run(acts);
      s.worker.Busy? && s.worker.phase.Sent? ==>
        (s.stopped ==> Waited(s) == None) &&
        (!s.stopped ==> (WaitOver(s) <==> LastReply(acts).Some?)) &&
        (!s.stopped && WaitOver(s) ==>
          var r := LastReply(acts).value; Waited(s) == if r.ok then Some(r.data) else None)
    ensures forall streamId, ok, data | |data| <= UINT32_MAX ::
      var s, t := Run(acts), Step(Run(acts), Reply(streamId, ok, data));
      if Asking(s.worker) && streamId == IdOf(|s.drawn| - 1) then t.accepted == Some(Acceptance(ok, data)) else t == s
  {
    hide IdOf, Step;
    var s := Run(acts);
    RunMatched(acts);
    AcceptedIsLast(acts);
    forall streamId, ok, data | |data| <= UINT32_MAX
      ensures var t := Step(s, Reply(streamId, ok, data));
        if Asking(s.worker) && streamId == IdOf(|s.drawn| - 1) then t.accepted == Some(Acceptance(ok, data)) else t == s
    {
      ReplyTaken(s, Reply(streamId, ok, data));
    }
  }

  // A reply under the id of a request the peer got, before 2^32 - 1 newer ones are built.
  ghost predicate Answers(s: State, streamId: u32, serial: nat) {
    serial in s.transmitted && serial < |s.drawn| <= serial + UINT32_MAX && s.drawn[serial].streamId == streamId
  }

  /** Such a reply is taken if and only if it answers the very request being waited for: ids that
      repeat never let a late reply pass for a new one within the window. */
  lemma OnlyTheNewestIsAnswered(acts: seq<Action>, streamId: u32, serial: nat)
    requires Answers(Run(acts), streamId, serial)
    ensures var s := Run(acts);
      Asking(s.worker) && streamId == IdOf(|s.drawn| - 1) <==>
        s.worker.Busy? && s.worker.phase.Sent? && serial == |s.drawn| - 1
  {
    hide Numbered, Matched, Asking, Run, IdOf;
    RunMatched(acts);
    NewestAnswered(Run(acts), streamId, serial);
  }

  lemma NewestAnswered(s: State, streamId: u32, serial: nat)
    requires Numbered(s) && Matched(s) && Answers(s, streamId, serial)
    ensures Asking(s.worker) && streamId == IdOf(|s.drawn| - 1) <==>
      s.worker.Busy? && s.worker.phase.Sent? && serial == |s.drawn| - 1
  {
    FreshWithinWindow(serial, |s.drawn| - 1);
  }

  // ---- every job once, in order -------------------------------------------------------------

  function LogJobs(log: seq<Done>): (jobs: seq<Job>)
    ensures |jobs| == |log| && forall i | 0 <= i < |log| :: jobs[i] == log[i].job
  {
    seq(|log|, i requires 0 <= i < |log| => log[i].job)
  }

  function Current(w: Worker): seq<Job> { if w.Busy? then [w.job] else [] }

  ghost predicate InTurn(s: State) { s.enqueued == LogJobs(s.log) + Current(s.worker) + s.jobs }

  lemma LogAppend(log: seq<Done>, d: Done)
    ensures LogJobs(log + [d]) == LogJobs(log) + [d.job]
  {
  }

  // A worker step that logs exactly when it leaves the job it was busy with.
  ghost predicate LogsOnLeaving(s: State, t: State) {
    || (t.log == s.log && Current(t.worker) == Current(s.worker))
    || (s.worker.Busy? && !t.worker.Busy? && |t.log| == |s.log| + 1 && t.log[..|s.log|] == s.log &&
        t.log[|s.log|].job == s.worker.job)
  }

  lemma StepLogs(s: State, a: Action)
    requires Sound(s) && !a.Pop?
    ensures LogsOnLeaving(s, Step(s, a))
  {
    hide Draw, RequestFor, NextCount, JobsOf, TopsOf, FoldersOf, DoTake, Fail;
    if Enabled(s, a) {
      if a.Take? {
        TakeLogs(s, a.io);
      } else if a.Clear? {
        FailLogs(s.(pending := EMPTY));
      }
    }
  }

  lemma FailLogs(s: State)
    requires s.worker.Busy?
    ensures LogsOnLeaving(s, Fail(s))
  {
  }

  lemma TakeLogs(s: State, io: bool)
    requires Sound(s) && Enabled(s, Take(io))
    ensures LogsOnLeaving(s, DoTake(s, io))
  {
    hide NextCount;
  }

  lemma InTurnQuiet(s: State, t: State)
    requires InTurn(s) && LogsOnLeaving(s, t) && t.jobs == s.jobs && t.enqueued == s.enqueued
    ensures InTurn(t)
  {
    hide LogJobs;
    if t.log != s.log {
      assert t.log == s.log + [t.log[|s.log|]];
      LogAppend(s.log, t.log[|s.log|]);
      assert LogJobs(s.log) + [s.worker.job] + s.jobs == LogJobs(t.log) + [] + t.jobs;
    }
  }

  lemma InTurnStep(s: State, a: Action)
    requires Sound(s) && Accounted(s) && InTurn(s)
    ensures InTurn(Step(s, a))
  {
    hide DoArm, DoTake, DoReply, DoHandOver, Fail, JobsOf, TopsOf, FoldersOf, LogJobs;
    if a.Pop? {
      if Enabled(s, a) {
        assert s.jobs == [s.jobs[0]] + s.jobs[1..];
      }
      return;
    }
    var t := Step(s, a);
    StepLogs(s, a);
    if Quiet(a) {
      QuietStep(s, a);
      InTurnQuiet(s, t);
    } else if a.Enqueue? {
      var head := LogJobs(s.log) + Current(s.worker);
      var jobs := JobsOf(a.files, |a.files|, |s.batches|);
      assert head + (s.jobs + jobs) == (head + s.jobs) + jobs;
    } else if Enabled(s, a) {
      assert Current(t.worker) == [];
    }
  }

  /** Every job is downloaded once, in the order of the queue: the enqueued jobs are those whose
      download returned, then the current one, then those waiting. */
  lemma {:induction false} JobsInTurn(acts: seq<Action>)
    ensures InTurn(Run(acts))
    decreases |acts|
  {
    hide InTurn, Step, Accounted, Ordered, PublishedOnce, PublishedInOrder;
    if acts == [] {
      InitInTurn();
    } else {
      JobsInTurn(acts[..|acts| - 1]);
      BatchAccounting(acts[..|acts| - 1]);
      InTurnStep(Run(acts[..|acts| - 1]), acts[|acts| - 1]);
    }
  }

  lemma InitInTurn()
    ensures InTurn(INIT)
  {
  }

  // ---- stopping ---------------------------------------------------------------------------

  // How many worker steps are left at most, once stopped.
  function Rank(w: Worker): nat {
    match w
    case Busy(_, _, Preparing) => 5
    case Busy(_, _, Armed) => 4
    case Busy(_, _, _) => 3
    case Ended(_) => 2
    case Idle => 1
    case _ => 0
  }

  predicate WorkerStep(a: Action) {
    a.Pop? || a.Arm? || a.HandOver? || a.Clear? || a.Take? || a.Finish? || a.Leave?
  }

  function Draws(w: Worker): nat { if Rank(w) == 5 then 1 else 0 }

  function Returns(w: Worker): nat { if w.Busy? then 1 else 0 }

  lemma StoppedStep(s: State, a: Action)
    requires Sound(s) && s.stopped && !a.Start?
    ensures var t := Step(s, a);
      t.stopped &&
      |t.drawn| + Draws(t.worker) <= |s.drawn| + Draws(s.worker) &&
      |t.log| + Returns(t.worker) <= |s.log| + Returns(s.worker) &&
      s.jobs <= t.jobs &&
      Rank(t.worker) + (if Enabled(s, a) && WorkerStep(a) then 1 else 0) <= Rank(s.worker)
  {
    hide Draw, RequestFor, NextCount, JobsOf, TopsOf, FoldersOf;
  }

  ghost function RunFrom(s: State, acts: seq<Action>): (t: State)
    requires Sound(s)
    ensures Sound(t)
    decreases |acts|
  {
    if acts == [] then s else Step(RunFrom(s, acts[..|acts| - 1]), acts[|acts| - 1])
  }

  // The worker steps that actually happen in a run.
  ghost function WorkerSteps(s: State, acts: seq<Action>): nat
    requires Sound(s)
    decreases |acts|
  {
    if acts == [] then 0
    else
      var before, a := acts[..|acts| - 1], acts[|acts| - 1];
      WorkerSteps(s, before) + if WorkerStep(a) && Enabled(RunFrom(s, before), a) then 1 else 0
  }

  /** Once the stop flag is set, and until a new worker is started, at most one more request is
      built, at most the current download returns, no job leaves the queue, and the worker takes
      at most five more steps. */
  lemma {:induction false} StopIsBounded(s: State, acts: seq<Action>)
    requires Sound(s) && s.stopped && forall i | 0 <= i < |acts| :: !acts[i].Start?
    ensures var t := RunFrom(s, acts);
      t.stopped &&
      |t.drawn| + Draws(t.worker) <= |s.drawn| + Draws(s.worker) <= |s.drawn| + 1 &&
      |t.log| + Returns(t.worker) <= |s.log| + Returns(s.worker) <= |s.log| + 1 &&
      s.jobs <= t.jobs &&
      WorkerSteps(s, acts) + Rank(t.worker) <= Rank(s.worker) <= 5
    decreases |acts|
  {
    hide Step;
    if acts != [] {
      StopIsBounded(s, acts[..|acts| - 1]);
      StoppedStep(RunFrom(s, acts[..|acts| - 1]), acts[|acts| - 1]);
    }
  }

  // What the worker does next, once stopped.
  function NextWorkerStep(w: Worker): Action {
    match w
    case Busy(_, _, Preparing) => Arm
    case Busy(_, _, Armed) => HandOver(Rejected)
    case Busy(_, _, Refused) => Clear
    case Busy(_, _, Sent) => Take(true)
    case Ended(_) => Finish
    case _ => Leave
  }

  /** A stopped worker is never stuck: until it has exited, its next step is enabled. */
  lemma StoppedNeverStuck(s: State)
    requires s.stopped && Rank(s.worker) > 0
    ensures Enabled(s, NextWorkerStep(s.worker)) && WorkerStep(NextWorkerStep(s.worker))
  {
  }

  // ---- progress ---------------------------------------------------------------------------

  // What is left to fetch; more than any file before the size is known.
  function Left(t: Transfer): int {
    match t
    case AskingSize => 0x1_0000_0000_0000_0000
    case Fetching(fileSize, offset) => fileSize - offset
  }

  function PhaseRank(p: Phase): nat {
    match p
    case Preparing => 3
    case Armed => 2
    case _ => 1
  }

  // The steps the current download can still take.
  function Measure(w: Worker): int {
    match w
    case Busy(_, t, phase) => 4 * Left(t) + PhaseRank(phase) + 1
    case Ended(_) => 1
    case _ => 0
  }

  /** Every download terminates if its waits do: each step of a worker with a job lowers a
      non-negative measure, and no other thread's step touches it. */
  lemma DownloadTerminates(s: State, a: Action)
    requires Sound(s) && HasJob(s.worker) && Enabled(s, a)
    ensures Measure(s.worker) > 0
    ensures var t := Step(s, a);
      if WorkerStep(a) then 0 <= Measure(t.worker) < Measure(s.worker) else t.worker == s.worker
  {
    hide Draw, RequestFor, JobsOf, TopsOf, FoldersOf;
  }

  /** A worker with a job is held up only in the wait, and there only while it is not stopped
      and no reply with the id of its request has come. */
  lemma OnlyTheWaitBlocks(acts: seq<Action>)
    ensures var s := Run(acts);
      HasJob(s.worker) &&
      !(s.worker.Busy? && s.worker.phase.Sent? && !s.stopped && LastReply(acts) == None) ==>
        Enabled(s, NextWorkerStep(s.worker)) && WorkerStep(NextWorkerStep(s.worker))
  {
    WaitDelivers(acts);
  }
}
