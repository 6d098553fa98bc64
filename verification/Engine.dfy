/**
 The remote-file engine as interleaved atomic steps: the worker thread, the
 response callback, the enqueue path and the stop path, one step per critical
 section or uninterrupted stretch of worker code.
 */
module Engine {
  import opened Wire
  import opened Pdu
  import opened Paths
  import opened Download

  datatype Target = Target(batch: nat, path: QString)

  datatype Job = Job(listIndex: u32, target: Target)

  datatype Batch = Batch(remaining: int, tops: seq<QString>, size: nat)   // size: jobs it was made with

  datatype Kind = NoKind | SizeKind | RangeKind

  datatype Pending = Pending(active: bool, ready: bool, ok: bool, streamId: u32, kind: Kind, data: bytes)

  const EMPTY := Pending(false, false, false, 0, NoKind, [])

  // Where the download of a job is.
  datatype Transfer = AskingSize | Fetching(fileSize: u64, offset: u64)

  // Where its next request is: not built, installed as pending, refused by the channel, waited for.
  datatype Phase = Preparing | Armed | Refused | Sent

  datatype Worker =
    | Absent                                              // no thread
    | Idle                                                // waiting for a job
    | Busy(job: Job, transfer: Transfer, phase: Phase)
    | Ended(job: Job)                                     // download returned, batch not yet told
    | Exited

  // A download that returned: what it saved, the requests it made, the size of the file it had
  // opened (0 if none).
  datatype Done = Done(job: Job, saved: bool, content: bytes, asked: seq<FileRequest>, size: u64)

  datatype Acceptance = Acceptance(ok: bool, data: bytes)

  datatype State = State(
    contextSet: bool,
    stopped: bool,
    pending: Pending,
    jobs: seq<Job>,
    counter: u32,
    worker: Worker,
    batches: seq<Batch>,           // by batch number
    published: seq<nat>,           // batch numbers, in order of publication
    disk: map<Target, bytes>,
    folders: set<Target>,
    // history
    drawn: seq<FileRequest>,       // every request built; its index is its serial number
    asked: seq<FileRequest>,       // those of the download under way
    transmitted: set<nat>,         // serials that reached the peer
    accepted: Option<Acceptance>,  // the last reply taken for the request now pending
    enqueued: seq<Job>,
    log: seq<Done>)                // downloads that returned

  const INIT := State(false, false, EMPTY, [], 1, Absent, [], [], map[], {}, [], [], {}, None, [], [])

  // ---- enqueueing --------------------------------------------------------------------

  // An entry of a remote file list, and whether its directory could be made.
  datatype Offer = Offer(displayName: QString, isDir: bool, made: bool)

  predicate MakesJob(f: Offer) { SafeRelativePath(f.displayName) != [] && !f.isDir && f.made }

  // Jobs, top names and folders of the first n entries.
  function JobsOf(files: seq<Offer>, n: nat, batch: nat): seq<Job>
    requires n <= |files|
  {
    if n == 0 then []
    else
      var f := files[n - 1];
      JobsOf(files, n - 1, batch) +
      if MakesJob(f) then [Job((n - 1) % 0x1_0000_0000, Target(batch, SafeRelativePath(f.displayName)))] else []
  }

  function TopsOf(files: seq<Offer>, n: nat): seq<QString>
    requires n <= |files|
  {
    if n == 0 then []
    else
      var path, before := SafeRelativePath(files[n - 1].displayName), TopsOf(files, n - 1);
      if path == [] || Top(path) in before then before else before + [Top(path)]
  }

  function FoldersOf(files: seq<Offer>, n: nat, batch: nat): set<Target>
    requires n <= |files|
  {
    if n == 0 then {}
    else
      var f := files[n - 1];
      var path := SafeRelativePath(f.displayName);
      FoldersOf(files, n - 1, batch) + if path != [] && f.isDir && f.made then {Target(batch, path)} else {}
  }

  // ---- the steps -----------------------------------------------------------------------

  datatype Verdict = Transmitted | Dropped | Rejected

  datatype Action =
    | Start
    | Enqueue(files: seq<Offer>, rootMade: bool)
    | Pop
    | Arm
    | HandOver(verdict: Verdict)
    | Clear
    | Reply(streamId: u32, ok: bool, data: bytes)
    | Take(io: bool)              // io: the file could be opened or written
    | Finish
    | Stop
    | Leave
    | Reap

  function RequestFor(job: Job, t: Transfer, id: u32): FileRequest
    requires t.Fetching? ==> t.offset < t.fileSize
  {
    match t
    case AskingSize => SizeRequest(id, job.listIndex)
    case Fetching(size, offset) => RangeRequest(id, job.listIndex, offset, NextCount(size, offset))
  }

  lemma RequestHasId(job: Job, t: Transfer, id: u32)
    requires t.Fetching? ==> t.offset < t.fileSize
    ensures RequestFor(job, t, id).streamId == id
  {
  }

  ghost predicate WaitOver(s: State) {
    s.stopped || (s.drawn != [] && s.pending.ready && s.pending.streamId == s.drawn[|s.drawn| - 1].streamId)
  }

  ghost predicate Enabled(s: State, a: Action) {
    match a
    case Start => s.worker.Absent?
    case Enqueue(files, _) => files != []
    case Pop => s.worker.Idle? && !s.stopped && s.jobs != []
    case Arm => s.worker.Busy? && s.worker.phase.Preparing?
    case HandOver(_) => s.worker.Busy? && s.worker.phase.Armed?
    case Clear => s.worker.Busy? && s.worker.phase.Refused?
    case Reply(_, _, data) => |data| <= UINT32_MAX     // from anyone, under any id
    case Take(_) => s.worker.Busy? && s.worker.phase.Sent? && WaitOver(s)
    case Finish => s.worker.Ended?
    case Stop => true
    case Leave => s.worker.Idle? && s.stopped
    case Reap => s.worker.Exited? && s.stopped
  }

  function DoEnqueue(s: State, files: seq<Offer>, rootMade: bool): State {
    var id := |s.batches|;
    if !rootMade then s.(contextSet := true, batches := s.batches + [Batch(0, [], 0)])
    else
      var jobs, tops := JobsOf(files, |files|, id), TopsOf(files, |files|);
      s.(contextSet := true,
         batches := s.batches + [Batch(|jobs|, tops, |jobs|)],
         jobs := s.jobs + jobs,
         enqueued := s.enqueued + jobs,
         folders := s.folders + FoldersOf(files, |files|, id),
         published := s.published + if jobs == [] && tops != [] then [id] else [])
  }

  // A job taken while no channel context is known is dropped.
  function DoPop(s: State): State
    requires s.jobs != []
  {
    if !s.contextSet then s.(jobs := s.jobs[1..])
    else s.(jobs := s.jobs[1..], worker := Busy(s.jobs[0], AskingSize, Preparing))
  }

  function DoArm(s: State): State
    requires s.worker.Busy? && (s.worker.transfer.Fetching? ==> s.worker.transfer.offset < s.worker.transfer.fileSize)
  {
    var (id, next) := Draw(s.counter);
    var t := s.worker.transfer;
    var request := RequestFor(s.worker.job, t, id);
    s.(pending := EMPTY.(active := true, streamId := id, kind := if t.AskingSize? then SizeKind else RangeKind),
       counter := next,
       drawn := s.drawn + [request],
       asked := s.asked + [request],
       accepted := None,
       worker := s.worker.(phase := Armed))
  }

  function DoHandOver(s: State, v: Verdict): State
    requires s.worker.Busy? && s.drawn != []
  {
    match v
    case Transmitted => s.(transmitted := s.transmitted + {|s.drawn| - 1}, worker := s.worker.(phase := Sent))
    case Dropped => s.(worker := s.worker.(phase := Sent))
    case Rejected => s.(worker := s.worker.(phase := Refused))
  }

  function DoReply(s: State, streamId: u32, ok: bool, data: bytes): State {
    if !s.pending.active || streamId != s.pending.streamId then s
    else s.(pending := s.pending.(ok := ok, ready := true, data := if ok then data else []),
            accepted := Some(Acceptance(ok, data)))
  }

  function OpenedSize(t: Transfer): u64 { if t.Fetching? then t.fileSize else 0 }

  // The download gives up; an open file is closed and removed.
  function Fail(s: State): State
    requires s.worker.Busy?
  {
    var job := s.worker.job;
    s.(worker := Ended(job), asked := [],
       log := s.log + [Done(job, false, [], s.asked, OpenedSize(s.worker.transfer))],
       disk := if s.worker.transfer.Fetching? then s.disk - {job.target} else s.disk)
  }

  // The download goes on with the next chunk, or is complete.
  function Continue(s: State, job: Job, fileSize: u64, offset: u64, content: bytes): State {
    var t := s.(disk := s.disk[job.target := content]);
    if offset < fileSize then t.(worker := Busy(job, Fetching(fileSize, offset), Preparing))
    else t.(worker := Ended(job), asked := [], log := s.log + [Done(job, true, content, s.asked, fileSize)])
  }

  // What the wait returns.
  function Waited(s: State): Option<bytes> {
    if s.stopped || !s.pending.ok then None else Some(s.pending.data)
  }

  function DoTake(s: State, io: bool): State
    requires s.worker.Busy? && (s.worker.transfer.Fetching? ==> s.worker.transfer.offset < s.worker.transfer.fileSize)
  {
    var job, reply, t := s.worker.job, Waited(s), s.(pending := EMPTY);
    match s.worker.transfer
    case AskingSize =>
      if reply == None || |reply.value| < 8 || !io then Fail(t) else Continue(t, job, Get64(reply.value), 0, [])
    case Fetching(fileSize, offset) =>
      if reply == None || |reply.value| != NextCount(fileSize, offset) || !io || job.target !in t.disk then Fail(t)
      else Continue(t, job, fileSize, offset + |reply.value|, t.disk[job.target] + reply.value)
  }

  function DoFinish(s: State): State
    requires s.worker.Ended? && s.worker.job.target.batch < |s.batches|
  {
    var b := s.worker.job.target.batch;
    var batch := s.batches[b].(remaining := s.batches[b].remaining - 1);
    s.(worker := Idle, batches := s.batches[b := batch],
       published := s.published + if batch.remaining == 0 && batch.tops != [] then [b] else [])
  }

  // The worker's place is consistent with what it is about to do.
  ghost predicate Sound(s: State) {
    && (s.worker.Busy? && s.worker.transfer.Fetching? ==> s.worker.transfer.offset < s.worker.transfer.fileSize)
    && (s.worker.Busy? && !s.worker.phase.Preparing? ==> s.drawn != [])
    && (s.worker.Ended? ==> s.worker.job.target.batch < |s.batches|)
    && (s.worker.Busy? ==> s.worker.job.target.batch < |s.batches|)
    && (forall i | 0 <= i < |s.jobs| :: s.jobs[i].target.batch < |s.batches|)
  }

  ghost function Apply(s: State, a: Action): State
    requires Sound(s) && Enabled(s, a)
  {
    match a
    case Start => s.(stopped := false, worker := Idle)
    case Enqueue(files, rootMade) => DoEnqueue(s, files, rootMade)
    case Pop => DoPop(s)
    case Arm => DoArm(s)
    case HandOver(v) => DoHandOver(s, v)
    case Clear => Fail(s.(pending := EMPTY))
    case Reply(streamId, ok, data) => DoReply(s, streamId, ok, data)
    case Take(io) => DoTake(s, io)
    case Finish => DoFinish(s)
    case Stop => s.(stopped := true, pending := s.pending.(ready := true))
    case Leave => s.(worker := Exited)
    case Reap => s.(worker := Absent)
  }

  lemma {:induction false} JobsOfBatch(files: seq<Offer>, n: nat, batch: nat)
    requires n <= |files|
    ensures forall i | 0 <= i < |JobsOf(files, n, batch)| :: JobsOf(files, n, batch)[i].target.batch == batch
  {
    if n > 0 {
      JobsOfBatch(files, n - 1, batch);
    }
  }

  lemma SoundStep(s: State, a: Action)
    requires Sound(s) && Enabled(s, a)
    ensures Sound(Apply(s, a))
  {
    hide NextCount, Draw, RequestFor, JobsOf, TopsOf, FoldersOf;
    if a.Enqueue? {
      JobsOfBatch(a.files, |a.files|, |s.batches|);
    }
  }

  // ---- runs --------------------------------------------------------------------------------

  // An action that is not enabled does not happen.
  ghost function Step(s: State, a: Action): State
    requires Sound(s)
    ensures Sound(Step(s, a))
  {
    if Enabled(s, a) then SoundStep(s, a); Apply(s, a) else s
  }

  // Any interleaving, from the start.
  ghost function Run(acts: seq<Action>): (s: State)
    ensures Sound(s)
    decreases |acts|
  {
    if acts == [] then INIT else Step(Run(acts[..|acts| - 1]), acts[|acts| - 1])
  }
}
