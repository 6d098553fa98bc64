/**
 The clipboard entry as an object.  Each method is one critical section, or one
 stretch of worker code between two of them, and is proved to be one step of the
 interleaving model.
 */
module Entry {
  import opened Wire
  import opened Pdu
  import opened Paths
  import opened Download
  import opened Engine

  class ClipboardEntry {
    var contextSet: bool                 // m_remote_context is known
    var stopped: bool
    var pending: Pending
    var jobs: seq<Job>
    var nextStreamId: u32
    var worker: Worker
    var batches: seq<Batch>              // the batches made so far, by number
    var published: seq<nat>
    var disk: map<Target, bytes>
    var folders: set<Target>
    ghost var drawn: seq<FileRequest>
    ghost var asked: seq<FileRequest>
    ghost var transmitted: set<nat>
    ghost var accepted: Option<Acceptance>
    ghost var enqueued: seq<Job>
    ghost var log: seq<Done>

    ghost function View(): State
      reads this
    {
      State(contextSet, stopped, pending, jobs, nextStreamId, worker, batches, published, disk, folders,
            drawn, asked, transmitted, accepted, enqueued, log)
    }

    constructor ()
      ensures View() == INIT
    {
      contextSet, stopped, pending, jobs, nextStreamId, worker := false, false, EMPTY, [], 1, Absent;
      batches, published, disk, folders := [], [], map[], {};
      drawn, asked, transmitted, accepted, enqueued, log := [], [], {}, None, [], [];
    }

    // ---- the receiving side's callbacks ----------------------------------------------

    method StartRemoteFileWorker()
      requires Sound(View())
      modifies this
      ensures View() == Step(old(View()), Start)
    {
      if !worker.Absent? {
        return;
      }
      stopped := false;
      worker := Idle;
    }

    method EnqueueRemoteFileList(files: seq<Offer>, rootMade: bool)
      requires Sound(View())
      modifies this
      ensures View() == if files == [] then old(View())
                        else Step(Step(old(View()), Start), Enqueue(files, rootMade))
    {
      if |files| == 0 {
        return;
      }
      StartRemoteFileWorker();
      EnqueueLocked(files, rootMade);
    }

    method EnqueueLocked(files: seq<Offer>, rootMade: bool)
      modifies this
      ensures View() == DoEnqueue(old(View()), files, rootMade)
    {
      hide JobsOf, TopsOf, FoldersOf;
      contextSet := true;
      if rootMade {
        MakeBatch(files);
      } else {
        batches := batches + [Batch(0, [], 0)];
      }
    }

    // A batch of the acceptable entries; without a job it is published at once.
    method MakeBatch(files: seq<Offer>)
      modifies this`jobs, this`enqueued, this`folders, this`batches, this`published
      ensures var id := |old(batches)|;
        var added, newTops := JobsOf(files, |files|, id), TopsOf(files, |files|);
        jobs == old(jobs) + added && enqueued == old(enqueued) + added &&
        folders == old(folders) + FoldersOf(files, |files|, id) &&
        batches == old(batches) + [Batch(|added|, newTops, |added|)] &&
        published == old(published) + if added == [] && newTops != [] then [id] else []
    {
      hide JobsOf, TopsOf, FoldersOf;
      var id := |batches|;
      var remaining, tops := FillQueue(files, id);
      batches := batches + [Batch(remaining, tops, remaining)];
      if remaining == 0 {
        PublishRemoteBatch(id);
      }
      assert published + [] == published;
    }

    // The loop over the list: jobs go to the queue, the batch collects its top names.
    method FillQueue(files: seq<Offer>, id: nat) returns (remaining: nat, tops: seq<QString>)
      modifies this`jobs, this`enqueued, this`folders
      ensures var added := JobsOf(files, |files|, id);
        jobs == old(jobs) + added && enqueued == old(enqueued) + added && remaining == |added|
      ensures tops == TopsOf(files, |files|) && folders == old(folders) + FoldersOf(files, |files|, id)
    {
      hide SafeRelativePath, Top;
      remaining, tops := 0, [];
      for i := 0 to |files|
        invariant jobs == old(jobs) + JobsOf(files, i, id) && enqueued == old(enqueued) + JobsOf(files, i, id)
        invariant remaining == |JobsOf(files, i, id)|
        invariant tops == TopsOf(files, i) && folders == old(folders) + FoldersOf(files, i, id)
      {
        var relativePath := SafeRelativePath(files[i].displayName);
        if relativePath == [] {
          continue;
        }
        if Top(relativePath) !in tops {
          tops := tops + [Top(relativePath)];
        }
        if files[i].isDir {
          if files[i].made {
            folders := folders + {Target(id, relativePath)};
          }
          continue;
        }
        if !files[i].made {
          continue;
        }
        var job := Job(i % 0x1_0000_0000, Target(id, relativePath));
        jobs := jobs + [job];
        remaining := remaining + 1;
        enqueued := enqueued + [job];
      }
    }

    method ServerFileContentsResponse(streamId: u32, responseOk: bool, data: bytes)
      requires Sound(View()) && |data| <= UINT32_MAX
      modifies this
      ensures View() == Step(old(View()), Reply(streamId, responseOk, data))
    {
      if !pending.active || streamId != pending.streamId {
        return;
      }
      pending := pending.(ok := responseOk, data := []);
      if pending.ok && |data| > 0 {
        pending := pending.(data := data);
      }
      pending := pending.(ready := true);
      accepted := Some(Acceptance(responseOk, data));
    }

    // ---- the worker --------------------------------------------------------------------

    method PopJob()
      requires Sound(View()) && Enabled(View(), Pop)
      modifies this
      ensures View() == Step(old(View()), Pop)
    {
      var job := jobs[0];
      jobs := jobs[1..];
      if contextSet {
        worker := Busy(job, AskingSize, Preparing);
      }
    }

    // Builds the next request and installs it in the slot.
    method InstallRequest() returns (request: FileRequest)
      requires Sound(View()) && Enabled(View(), Arm)
      modifies this
      ensures View() == Step(old(View()), Arm) && drawn == old(drawn) + [request]
    {
      hide Draw, NextCount, RequestFor, Step, Apply;
      ArmHappens(View());
      var streamId, next := DrawId(nextStreamId);
      nextStreamId := next;
      request := RequestFor(worker.job, worker.transfer, streamId);
      assert request.streamId == streamId by { RequestHasId(worker.job, worker.transfer, streamId); }
      FillSlot(request, if worker.transfer.AskingSize? then SizeKind else RangeKind);
      worker := worker.(phase := Armed);
    }

    // The slot is emptied and belongs to the request from here on.
    method FillSlot(request: FileRequest, kind: Kind)
      modifies this`pending, this`drawn, this`asked, this`accepted
      ensures pending == EMPTY.(active := true, streamId := request.streamId, kind := kind)
      ensures drawn == old(drawn) + [request] && asked == old(asked) + [request] && accepted == None
    {
      pending := EMPTY;
      pending := pending.(active := true, streamId := request.streamId, kind := kind);
      drawn, asked, accepted := drawn + [request], asked + [request], None;
    }

    // What the channel did with the request.
    method HandOverRequest(verdict: Verdict)
      requires Sound(View()) && Enabled(View(), HandOver(verdict))
      modifies this
      ensures View() == Step(old(View()), HandOver(verdict))
    {
      if verdict == Rejected {
        worker := worker.(phase := Refused);
      } else {
        worker := worker.(phase := Sent);
        if verdict == Transmitted {
          transmitted := transmitted + {|drawn| - 1};
        }
      }
    }

    method ClearRefused()
      requires Sound(View()) && Enabled(View(), Clear)
      modifies this
      ensures View() == Step(old(View()), Clear)
    {
      pending := EMPTY;
      GiveUp();
    }

    // The download returns without a file.
    method GiveUp()
      requires worker.Busy?
      modifies this
      ensures View() == Fail(old(View()))
    {
      if worker.transfer.Fetching? {
        disk := disk - {worker.job.target};
      }
      log := log + [Done(worker.job, false, [], asked, OpenedSize(worker.transfer))];
      asked := [];
      worker := Ended(worker.job);
    }

    // The end of the wait for the response with an id: its data, or nothing after a failure or
    // a stop; either way the slot is cleared.
    method WaitRemoteResponse(streamId: u32) returns (reply: Option<bytes>)
      requires stopped || (pending.ready && pending.streamId == streamId)
      modifies this`pending
      ensures pending == EMPTY && (reply.Some? <==> !stopped && old(pending.ok))
      ensures reply.Some? ==> old(pending.ready) && old(pending.streamId) == streamId && reply.value == old(pending.data)
    {
      if stopped || !pending.ok {
        pending := EMPTY;
        return None;
      }
      reply := Some(pending.data);
      pending := EMPTY;
    }

    // The file has grown to `content`: on to the next chunk, or done.
    method Advance(fileSize: u64, offset: u64, content: bytes)
      requires worker.Busy?
      modifies this
      ensures View() == Continue(old(View()), old(worker.job), fileSize, offset, content)
    {
      disk := disk[worker.job.target := content];
      if offset < fileSize {
        worker := Busy(worker.job, Fetching(fileSize, offset), Preparing);
      } else {
        log := log + [Done(worker.job, true, content, asked, fileSize)];
        asked := [];
        worker := Ended(worker.job);
      }
    }

    method ResumeDownload(streamId: u32, io: bool)
      requires Sound(View()) && Enabled(View(), Take(io))
      requires drawn != [] && streamId == drawn[|drawn| - 1].streamId
      modifies this
      ensures View() == Step(old(View()), Take(io))
    {
      hide Fail, Continue;
      var reply := WaitRemoteResponse(streamId);
      match worker.transfer {
        case AskingSize =>
          if reply == None || |reply.value| < 8 || !io {
            GiveUp();
          } else {
            Advance(Get64(reply.value), 0, []);
          }
        case Fetching(fileSize, offset) =>
          if reply == None || |reply.value| != NextCount(fileSize, offset) || !io || worker.job.target !in disk {
            GiveUp();
          } else {
            Advance(fileSize, offset + |reply.value|, disk[worker.job.target] + reply.value);
          }
      }
    }

    method FinishJob()
      requires Sound(View()) && Enabled(View(), Finish)
      modifies this
      ensures View() == Step(old(View()), Finish)
    {
      hide DoEnqueue, DoPop, DoArm, DoTake, DoReply, DoHandOver, Fail;
      var b := worker.job.target.batch;
      batches := batches[b := batches[b].(remaining := batches[b].remaining - 1)];
      if batches[b].remaining == 0 {
        PublishRemoteBatch(b);
      }
      worker := Idle;
    }

    method PublishRemoteBatch(b: nat)
      requires b < |batches|
      modifies this`published
      ensures published == old(published) + if batches[b].tops != [] then [b] else []
    {
      if batches[b].tops == [] {
        return;
      }
      published := published + [b];
    }

    // ---- stopping ------------------------------------------------------------------------

    method RaiseStop()
      requires Sound(View())
      modifies this
      ensures View() == Step(old(View()), Stop)
    {
      stopped := true;
      pending := pending.(ready := true);
    }

    method LeaveLoop()
      requires Sound(View()) && Enabled(View(), Leave)
      modifies this
      ensures View() == Step(old(View()), Leave)
    {
      worker := Exited;
    }

    method JoinWorker()
      requires Sound(View()) && Enabled(View(), Reap)
      modifies this
      ensures View() == Step(old(View()), Reap)
    {
      worker := Absent;
    }
  }

  lemma ArmHappens(s: State)
    requires Sound(s) && Enabled(s, Arm)
    ensures Step(s, Arm) == DoArm(s)
  {
  }
}
