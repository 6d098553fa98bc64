/**
 The end-to-end statement: walk, names, descriptors, jobs, downloads and disk.
 */
module ForestCopy {
  import opened Wire
  import opened Pdu
  import opened Paths
  import opened FileWalk
  import opened Serving
  import opened Download
  import opened Engine
  import opened EngineSafety
  import opened EngineContent
  import opened Forest

  // ---- the list that travels -----------------------------------------------------------

  function UrlsOf(roots: seq<Entry>): (urls: seq<Url>)
    ensures |urls| == |roots|
  {
    seq(|roots|, i requires 0 <= i < |roots| => Local(roots[i].at, roots[i].node))
  }

  ghost predicate Rooted(roots: seq<Entry>) { forall i | 0 <= i < |roots| :: roots[i].at != [] }

  // What the sender's list holds after the roots were copied.
  function SentList(roots: seq<Entry>): seq<Info>
    requires Rooted(roots)
  {
    PushAll([], Offered(UrlsOf(roots)))
  }

  // What the receiver makes of the descriptors, when every folder can be made.
  function Arrived(infos: seq<Info>): (offers: seq<Offer>)
    ensures |offers| == |infos|
  {
    seq(|infos|, i requires 0 <= i < |infos| =>
      var r := ReadDescriptor(FillDescriptor(infos[i]));
      Offer(r.displayName, r.isDir, true))
  }

  function PeerOf(xs: seq<Item>): (peer: seq<Served>)
    ensures |peer| == |xs|
  {
    seq(|xs|, i requires 0 <= i < |xs| => ServedOf(xs[i]))
  }

  ghost predicate Mirrors(infos: seq<Info>, xs: seq<Item>) {
    |infos| == |xs| && forall i | 0 <= i < |xs| :: IsUnder(xs[i]) && infos[i] == InfoOfItem(xs[i])
  }

  lemma {:induction false} OfferedMirrors(roots: seq<Entry>)
    requires Rooted(roots)
    ensures Mirrors(Offered(UrlsOf(roots)), Items(roots))
  {
    hide Preorder, InfoOf;
    if roots != [] {
      OfferedMirrors(roots[1..]);
      assert UrlsOf(roots)[1..] == UrlsOf(roots[1..]);
      var u := UrlsOf(roots)[0];
      var first, rest := OfUrl(u), Offered(UrlsOf(roots[1..]));
      assert Mirrors(first, ItemsOf(roots[0]));
      assert Offered(UrlsOf(roots)) == first + rest;
    }
  }

  lemma GoodIsRooted(roots: seq<Entry>)
    requires GoodForest(roots)
    ensures Rooted(roots)
  {
  }

  /** In a good forest nothing is dropped as a duplicate: the list is the walk, root by root. */
  lemma SentMirrors(roots: seq<Entry>)
    requires GoodForest(roots)
    ensures Rooted(roots) && Mirrors(SentList(roots), Items(roots))
  {
    hide GoodForest, InfoOf, PushAll;
    GoodIsRooted(roots);
    OfferedMirrors(roots);
    ForestItemsApart(roots);
    var infos, xs := Offered(UrlsOf(roots)), Items(roots);
    forall i | 0 <= i < |xs|
      ensures infos[i].localPath == xs[i].entry.at
    {
      PathOfInfo(xs[i]);
    }
    WalkKeepsFirsts(infos);
    FirstsOfDistinct(infos);
  }

  lemma PathOfInfo(x: Item)
    requires IsUnder(x)
    ensures InfoOfItem(x).localPath == x.entry.at && InfoOfItem(x).isDir == x.entry.node.Dir?
    ensures InfoOfItem(x).displayName == DisplayName(x.root, x.entry.at)
  {
  }

  /** The size announced for a listed node is the one its peer answers to a size request for that
      index: the length of the file, 0 for a directory. */
  lemma SizesAgree(roots: seq<Entry>, i: nat, r: FileRequest)
    requires GoodForest(roots) && i < |Items(roots)| && r.listIndex == i && WantsSize(r)
    ensures Rooted(roots) && |SentList(roots)| == |Items(roots)|
    ensures var n, a := Items(roots)[i].entry.node, Answer(PeerOf(Items(roots)), r);
      var announced := ReadDescriptor(FillDescriptor(SentList(roots)[i])).total;
      announced == (if n.Dir? then 0 else |n.data|) && a.Ok? && Get64(a.value) == announced &&
      PeerOf(Items(roots))[i].isDir == n.Dir?
  {
    hide GoodForest, Items, SentList, FillDescriptor, ReadDescriptor;
    SentMirrors(roots);
    var x := Items(roots)[i];
    DescriptorRoundTrip(InfoOfItem(x));
    SizeOfItem(x);
    AnswerIsSize(PeerOf(Items(roots)), r);
  }

  lemma SizeOfItem(x: Item)
    requires IsUnder(x)
    ensures SizeOf(InfoOfItem(x)) == if x.entry.node.Dir? then 0 else |x.entry.node.data|
  {
  }

  function Dest(x: Item): QString
    requires IsUnder(x)
  {
    Join(Rel(x), SLASH)
  }

  // Every display name fits a descriptor.
  ghost predicate AllFit(xs: seq<Item>) {
    forall i | 0 <= i < |xs| :: IsUnder(xs[i]) ==> NameFits(DisplayName(xs[i].root, xs[i].entry.at))
  }

  // The offers name the items' destinations.
  ghost predicate Names(offers: seq<Offer>, xs: seq<Item>) {
    && |offers| == |xs|
    && (forall i | 0 <= i < |xs| ::
          IsUnder(xs[i]) && offers[i].made && offers[i].isDir == xs[i].entry.node.Dir? &&
          Dest(xs[i]) != [] && SafeRelativePath(offers[i].displayName) == Dest(xs[i]))
    && (forall i, j | 0 <= i < j < |xs| :: Dest(xs[i]) != Dest(xs[j]))
  }

  lemma OfferOf(x: Item)
    requires GoodItem(x) && NameFits(DisplayName(x.root, x.entry.at))
    ensures var r := ReadDescriptor(FillDescriptor(InfoOfItem(x)));
      r.isDir == x.entry.node.Dir? && Dest(x) != [] && SafeRelativePath(r.displayName) == Dest(x)
  {
    hide SafeRelativePath, DisplayName, FillDescriptor, ReadDescriptor, NameFits;
    DescriptorRoundTrip(InfoOfItem(x));
    PathOfInfo(x);
    NameSurvives(x);
    JoinStart(Rel(x));
  }

  lemma DestApart(x: Item, y: Item)
    requires GoodItem(x) && GoodItem(y) && Rel(x) != Rel(y)
    ensures Dest(x) != Dest(y)
  {
    NameSurvives(x);
    NameSurvives(y);
    if Dest(x) == Dest(y) {
      JoinInjective(Rel(x), Rel(y));
    }
  }

  lemma ArrivedNames(roots: seq<Entry>)
    requires GoodForest(roots) && AllFit(Items(roots))
    ensures Rooted(roots) && Names(Arrived(SentList(roots)), Items(roots))
  {
    hide GoodForest, SentList, GoodItem, Rel, NameFits, Dest, FillDescriptor, ReadDescriptor, SafeRelativePath, InfoOfItem;
    SentMirrors(roots);
    ForestItemsApart(roots);
    var xs := Items(roots);
    forall i | 0 <= i < |xs|
      ensures var r := ReadDescriptor(FillDescriptor(InfoOfItem(xs[i])));
        r.isDir == xs[i].entry.node.Dir? && Dest(xs[i]) != [] && SafeRelativePath(r.displayName) == Dest(xs[i])
    {
      OfferOf(xs[i]);
    }
    forall i, j | 0 <= i < j < |xs|
      ensures Dest(xs[i]) != Dest(xs[j])
    {
      DestApart(xs[i], xs[j]);
    }
  }

  // ---- the jobs --------------------------------------------------------------------------

  function JobAt(xs: seq<Item>, i: nat, batch: nat): Job
    requires i < |xs| < 0x1_0000_0000 && IsUnder(xs[i])
  {
    Job(i, Target(batch, Dest(xs[i])))
  }

  // The job is the one for a listed file.
  ghost predicate IsJob(xs: seq<Item>, batch: nat, job: Job) {
    job.listIndex < |xs| < 0x1_0000_0000 && IsUnder(xs[job.listIndex]) &&
    xs[job.listIndex].entry.node.File? && job == JobAt(xs, job.listIndex, batch)
  }

  // The jobs are those of the files among the first n items, in order.
  ghost predicate JobList(xs: seq<Item>, n: nat, batch: nat, jobs: seq<Job>)
    requires n <= |xs| < 0x1_0000_0000 && forall i | 0 <= i < |xs| :: IsUnder(xs[i])
  {
    && (forall job | job in jobs :: IsJob(xs, batch, job) && job.listIndex < n)
    && (forall k, l | 0 <= k < l < |jobs| :: jobs[k].listIndex < jobs[l].listIndex)
    && (forall i | 0 <= i < n && xs[i].entry.node.File? :: JobAt(xs, i, batch) in jobs)
  }

  lemma JobListGrows(xs: seq<Item>, n: nat, batch: nat, jobs: seq<Job>)
    requires 0 < n <= |xs| < 0x1_0000_0000 && forall i | 0 <= i < |xs| :: IsUnder(xs[i])
    requires JobList(xs, n - 1, batch, jobs)
    ensures JobList(xs, n, batch, if xs[n - 1].entry.node.File? then jobs + [JobAt(xs, n - 1, batch)] else jobs)
  {
    hide Dest;
    if xs[n - 1].entry.node.File? {
      var job := JobAt(xs, n - 1, batch);
      assert IsJob(xs, batch, job);
      forall k, l | 0 <= k < l < |jobs + [job]|
        ensures (jobs + [job])[k].listIndex < (jobs + [job])[l].listIndex
      {
        assert l == |jobs| ==> jobs[k] in jobs;
      }
    }
  }

  lemma {:induction false} JobsAre(offers: seq<Offer>, xs: seq<Item>, n: nat, batch: nat)
    requires Names(offers, xs) && n <= |xs| < 0x1_0000_0000
    ensures (forall i | 0 <= i < |xs| :: IsUnder(xs[i])) && JobList(xs, n, batch, JobsOf(offers, n, batch))
  {
    hide JobsOf, JobAt, Dest, JobList;
    if n == 0 {
      NoJobs(offers, batch);
      assert JobList(xs, 0, batch, []) by { NoJobList(xs, batch); }
    } else {
      JobsAre(offers, xs, n - 1, batch);
      NextJob(offers, xs, n, batch);
      JobListGrows(xs, n, batch, JobsOf(offers, n - 1, batch));
    }
  }

  lemma NoJobList(xs: seq<Item>, batch: nat)
    requires |xs| < 0x1_0000_0000 && forall i | 0 <= i < |xs| :: IsUnder(xs[i])
    ensures JobList(xs, 0, batch, [])
  {
  }

  lemma NoJobs(offers: seq<Offer>, batch: nat)
    ensures JobsOf(offers, 0, batch) == []
  {
  }

  lemma NextJob(offers: seq<Offer>, xs: seq<Item>, n: nat, batch: nat)
    requires Names(offers, xs) && 0 < n <= |xs| < 0x1_0000_0000
    ensures var x, before := xs[n - 1], JobsOf(offers, n - 1, batch);
      IsUnder(x) &&
      JobsOf(offers, n, batch) == (if x.entry.node.File? then before + [JobAt(xs, n - 1, batch)] else before) &&
      (x.entry.node.File? ==> IsJob(xs, batch, JobAt(xs, n - 1, batch)))
  {
    hide SafeRelativePath, Dest;
    assert Dest(xs[n - 1]) != [];
  }

  // The jobs of a good forest have distinct targets.
  lemma OfferJobs(offers: seq<Offer>, xs: seq<Item>, b: nat)
    requires Names(offers, xs) && |xs| < 0x1_0000_0000
    ensures var jobs := JobsOf(offers, |offers|, b);
      (forall job | job in jobs :: IsJob(xs, b, job)) &&
      (forall i | 0 <= i < |xs| && xs[i].entry.node.File? :: JobAt(xs, i, b) in jobs) &&
      DistinctTargets(jobs, b)
  {
    hide JobsOf, Dest;
    JobsAre(offers, xs, |offers|, b);
    var jobs := JobsOf(offers, |offers|, b);
    forall k, l | 0 <= k < l < |jobs|
      ensures jobs[k].target != jobs[l].target
    {
      assert jobs[k] in jobs && jobs[l] in jobs;
      var x, y := jobs[k].listIndex, jobs[l].listIndex;
      assert jobs[k] == JobAt(xs, x, b) && jobs[l] == JobAt(xs, y, b);
      assert x < y && Dest(xs[x]) != Dest(xs[y]);
    }
  }

  lemma {:induction false} FoldersAre(offers: seq<Offer>, xs: seq<Item>, n: nat, batch: nat)
    requires Names(offers, xs) && n <= |xs|
    ensures forall i | 0 <= i < n && xs[i].entry.node.Dir? :: Target(batch, Dest(xs[i])) in FoldersOf(offers, n, batch)
    ensures forall t | t in FoldersOf(offers, n, batch) ::
      exists i | 0 <= i < n :: xs[i].entry.node.Dir? && t == Target(batch, Dest(xs[i]))
  {
    hide SafeRelativePath, Dest;
    if n > 0 {
      FoldersAre(offers, xs, n - 1, batch);
    }
  }

  // The entry is accepted, and this is the first component of its name.
  ghost predicate TopNamed(f: Offer, top: QString) {
    SafeRelativePath(f.displayName) != [] &&
    PathParts(f.displayName) != [] && PathParts(f.displayName)[0] == top
  }

  ghost predicate IsTop(files: seq<Offer>, n: nat, top: QString)
    requires n <= |files|
  {
    exists i | 0 <= i < n :: TopNamed(files[i], top)
  }

  lemma IsTopStep(files: seq<Offer>, n: nat, top: QString)
    requires 0 < n <= |files|
    ensures IsTop(files, n, top) <==> IsTop(files, n - 1, top) || TopNamed(files[n - 1], top)
  {
    hide TopNamed;
  }

  lemma TopNamedIs(f: Offer, top: QString)
    ensures TopNamed(f, top) <==> SafeRelativePath(f.displayName) != [] && top == Top(SafeRelativePath(f.displayName))
  {
    hide SafeRelativePath, Top, PathParts;
    if SafeRelativePath(f.displayName) != [] {
      TopIsFirst(f.displayName);
    }
  }

  /** For any list of offers the top names are, without repetition, exactly the first components
      of the accepted entries; every job lies under one of them. */
  lemma {:induction false} TopsCover(files: seq<Offer>, n: nat, batch: nat)
    requires n <= |files|
    ensures var tops := TopsOf(files, n);
      (forall i, j | 0 <= i < j < |tops| :: tops[i] != tops[j]) &&
      (forall top :: top in tops <==> IsTop(files, n, top)) &&
      (forall k | 0 <= k < |JobsOf(files, n, batch)| :: Top(JobsOf(files, n, batch)[k].target.path) in tops)
  {
    hide SafeRelativePath, Top, IsTop, TopNamed;
    if n == 0 {
      NoTops(files);
    } else {
      TopsCover(files, n - 1, batch);
      forall top
        ensures top in TopsOf(files, n) <==> IsTop(files, n, top)
      {
        IsTopStep(files, n, top);
        TopNamedIs(files[n - 1], top);
      }
    }
  }

  lemma NoTops(files: seq<Offer>)
    ensures forall top :: !IsTop(files, 0, top)
  {
  }

  // ---- runs in which a batch is made of these offers ------------------------------------------

  // Whatever else is copied in the run, before, meanwhile or after, the batch numbered b is made of
  // these offers.
  ghost predicate CopiedAs(acts: seq<Action>, b: nat, offers: seq<Offer>)
    decreases |acts|
  {
    acts != [] ==>
      var before, a := acts[..|acts| - 1], acts[|acts| - 1];
      CopiedAs(before, b, offers) &&
      (a.Enqueue? && |Engine.Run(before).batches| == b ==> a.files == offers && a.rootMade)
  }

  // Jobs and folders of the batch are those of its offers.
  ghost predicate Filed(s: State, b: nat, offers: seq<Offer>) {
    var jobs, folders := JobsOf(offers, |offers|, b), FoldersOf(offers, |offers|, b);
    && (forall i | 0 <= i < |s.enqueued| :: s.enqueued[i].target.batch < |s.batches|)
    && (forall t | t in s.folders :: t.batch < |s.batches|)
    && (forall i | 0 <= i < |s.enqueued| && s.enqueued[i].target.batch == b :: s.enqueued[i] in jobs)
    && (forall t | t in s.folders && t.batch == b :: t in folders)
    && (b < |s.batches| ==> (forall job | job in jobs :: job in s.enqueued) && folders <= s.folders)
    && (DistinctTargets(jobs, b) ==> DistinctTargets(s.enqueued, b))
  }

  lemma {:induction false} FoldersOfBatch(files: seq<Offer>, n: nat, batch: nat)
    requires n <= |files|
    ensures forall t | t in FoldersOf(files, n, batch) :: t.batch == batch
  {
    if n > 0 {
      FoldersOfBatch(files, n - 1, batch);
    }
  }

  lemma FiledEnqueue(s: State, files: seq<Offer>, rootMade: bool, b: nat, offers: seq<Offer>)
    requires Filed(s, b, offers) && (|s.batches| == b ==> files == offers && rootMade)
    ensures Filed(DoEnqueue(s, files, rootMade), b, offers)
  {
    hide JobsOf, TopsOf, FoldersOf;
    if rootMade {
      var id := |s.batches|;
      var t, jobs := DoEnqueue(s, files, true), JobsOf(files, |files|, id);
      JobsOfBatch(files, |files|, id);
      FoldersOfBatch(files, |files|, id);
      assert forall i | 0 <= i < |t.enqueued| ::
        t.enqueued[i] == if i < |s.enqueued| then s.enqueued[i] else jobs[i - |s.enqueued|];
    }
  }

  lemma FiledStep(s: State, a: Action, b: nat, offers: seq<Offer>)
    requires Sound(s) && Filed(s, b, offers) && (a.Enqueue? && |s.batches| == b ==> a.files == offers && a.rootMade)
    ensures Filed(Step(s, a), b, offers)
  {
    hide Filed, DoEnqueue;
    if a.Enqueue? {
      FiledEnqueue(s, a.files, a.rootMade, b, offers);
    } else {
      OthersFile(s, a);
      SameFiled(s, Step(s, a), b, offers);
    }
  }

  lemma OthersFile(s: State, a: Action)
    requires Sound(s) && !a.Enqueue?
    ensures var t := Step(s, a); t.enqueued == s.enqueued && t.folders == s.folders && |t.batches| == |s.batches|
  {
    hide RequestFor, NextCount, Draw, DoTake, Fail;
    if a.Take? && Enabled(s, a) {
      TakeFiles(s, a.io);
    } else if a.Clear? && Enabled(s, a) {
      FailFiles(s.(pending := EMPTY));
    }
  }

  lemma FailFiles(s: State)
    requires s.worker.Busy?
    ensures var t := Fail(s); t.enqueued == s.enqueued && t.folders == s.folders && t.batches == s.batches
  {
  }

  lemma TakeFiles(s: State, io: bool)
    requires Sound(s) && Enabled(s, Take(io))
    ensures var t := DoTake(s, io); t.enqueued == s.enqueued && t.folders == s.folders && t.batches == s.batches
  {
    hide NextCount;
  }

  lemma SameFiled(s: State, t: State, b: nat, offers: seq<Offer>)
    requires Filed(s, b, offers)
    requires t.enqueued == s.enqueued && t.folders == s.folders && |t.batches| == |s.batches|
    ensures Filed(t, b, offers)
  {
  }

  lemma {:induction false} RunFiled(acts: seq<Action>, b: nat, offers: seq<Offer>)
    requires CopiedAs(acts, b, offers)
    ensures Filed(Engine.Run(acts), b, offers)
    decreases |acts|
  {
    hide Step, Filed;
    if acts == [] {
      InitFiled(b, offers);
    } else {
      RunFiled(acts[..|acts| - 1], b, offers);
      FiledStep(Engine.Run(acts[..|acts| - 1]), acts[|acts| - 1], b, offers);
    }
  }

  lemma InitFiled(b: nat, offers: seq<Offer>)
    ensures Filed(INIT, b, offers)
  {
  }

  // A run in which a good forest is copied as batch b.
  ghost predicate Copies(acts: seq<Action>, b: nat, roots: seq<Entry>) {
    && GoodForest(roots) && AllFit(Items(roots)) && |Items(roots)| < 0x1_0000_0000
    && Rooted(roots) && CopiedAs(acts, b, Arrived(SentList(roots)))
  }

  // Then the jobs of the batch are those of the forest's files, its folders the directories.
  lemma BatchOfForest(acts: seq<Action>, b: nat, roots: seq<Entry>)
    requires Copies(acts, b, roots)
    ensures var s, xs := Engine.Run(acts), Items(roots);
      (forall i | 0 <= i < |xs| :: IsUnder(xs[i])) &&
      (forall job | job in s.enqueued && job.target.batch == b :: IsJob(xs, b, job)) &&
      (b < |s.batches| ==>
        forall i | 0 <= i < |xs| && xs[i].entry.node.File? :: JobAt(xs, i, b) in s.enqueued) &&
      DistinctTargets(s.enqueued, b)
    ensures var s, xs := Engine.Run(acts), Items(roots);
      (b < |s.batches| ==>
        forall i | 0 <= i < |xs| && xs[i].entry.node.Dir? :: Target(b, Dest(xs[i])) in s.folders) &&
      (forall t | t in s.folders && t.batch == b ::
         exists i | 0 <= i < |xs| :: xs[i].entry.node.Dir? && t == Target(b, Dest(xs[i])))
  {
    hide GoodForest, Items, SentList, Arrived, Dest, Names, Engine.Run, AllFit, IsJob, JobsOf, FoldersOf, DistinctTargets;
    var offers, xs := Arrived(SentList(roots)), Items(roots);
    ArrivedNames(roots);
    RunFiled(acts, b, offers);
    NamesLength(offers, xs);
    OfferJobs(offers, xs, b);
    FoldersAre(offers, xs, |offers|, b);
  }

  lemma NamesLength(offers: seq<Offer>, xs: seq<Item>)
    requires Names(offers, xs)
    ensures |offers| == |xs| && forall i | 0 <= i < |xs| :: IsUnder(xs[i])
  {
  }

  // ---- the theorem -----------------------------------------------------------------------------

  // Where a node at path p of a root lands, below the batch root.
  function Destination(root: Path, p: Path): QString
    requires root != [] && root <= p
  {
    Join([root[|root| - 1]] + p[|root|..], SLASH)
  }

  ghost predicate AllSaved(s: State, b: nat) {
    forall i | 0 <= i < |s.log| && s.log[i].job.target.batch == b :: s.log[i].saved
  }

  lemma PlaceInTurn(s: State, k: nat)
    requires InTurn(s) && k < |s.enqueued|
    ensures s.enqueued[k] ==
      if k < |s.log| then s.log[k].job
      else if k < |s.log| + |Current(s.worker)| then s.worker.job
      else s.jobs[k - |s.log| - |Current(s.worker)|]
  {
    if k < |s.log| {
      assert LogJobs(s.log)[k] == s.log[k].job;
    }
  }

  // A finished batch has all its jobs in the log.
  lemma FinishedIsLogged(s: State, b: nat, job: Job)
    requires Accounted(s) && InTurn(s) && b < |s.batches| && s.batches[b].remaining == 0
    requires job in s.enqueued && job.target.batch == b
    ensures exists i | 0 <= i < |s.log| :: s.log[i].job == job
  {
    var k :| 0 <= k < |s.enqueued| && s.enqueued[k] == job;
    CountNone(s.jobs, b);
    PlaceInTurn(s, k);
  }

  lemma FileArrived(roots: seq<Entry>, acts: seq<Action>, b: nat, i: nat)
    requires Copies(acts, b, roots) && Honest(acts, PeerOf(Items(roots)), b)
    requires var s := Engine.Run(acts); b < |s.batches| && s.batches[b].remaining == 0 && AllSaved(s, b)
    requires i < |Items(roots)| && Items(roots)[i].entry.node.File?
    ensures var s, x := Engine.Run(acts), Items(roots)[i];
      IsUnder(x) && Target(b, Dest(x)) in s.disk && s.disk[Target(b, Dest(x))] == x.entry.node.data
  {
    hide Copies, Items, Honest, Dest, Accounted, Ordered, PublishedOnce, PublishedInOrder, Engine.Run;
    var s, xs := Engine.Run(acts), Items(roots);
    BatchOfForest(acts, b, roots);
    FewItems(acts, b, roots);
    var job := JobAt(xs, i, b);
    BatchAccounting(acts);
    JobsInTurn(acts);
    FinishedIsLogged(s, b, job);
    var k :| 0 <= k < |s.log| && s.log[k].job == job;
    DiskIsLog(acts, b);
    SavedIsRemote(acts, PeerOf(xs), b);
    assert s.log[k].saved;
  }

  lemma FewItems(acts: seq<Action>, b: nat, roots: seq<Entry>)
    requires Copies(acts, b, roots)
    ensures |Items(roots)| < 0x1_0000_0000 && Rooted(roots)
  {
  }

  // What is on disk for a finished batch belongs to a listed file.
  lemma NothingElse(roots: seq<Entry>, acts: seq<Action>, b: nat, t: Target)
    requires Copies(acts, b, roots)
    requires var s := Engine.Run(acts); b < |s.batches| && s.batches[b].remaining == 0
    requires t in Engine.Run(acts).disk && t.batch == b
    ensures exists x | x in Items(roots) :: IsUnder(x) && x.entry.node.File? && t == Target(b, Dest(x))
  {
    hide Copies, Items, Dest, Ordered, PublishedOnce, PublishedInOrder, Engine.Run;
    var s, xs := Engine.Run(acts), Items(roots);
    BatchOfForest(acts, b, roots);
    FewItems(acts, b, roots);
    BatchAccounting(acts);
    JobsInTurn(acts);
    DiskIsLog(acts, b);
    if Writing(s.worker) != Some(t) {
      var k :| 0 <= k < |s.log| && s.log[k].job.target == t;
      assert s.enqueued[k] == LogJobs(s.log)[k];
      assert IsJob(xs, b, s.log[k].job);
      var x := xs[s.log[k].job.listIndex];
      assert x in xs;
    }
  }

  // The batch's disk and folders are the forest, each node at its relative path.
  ghost predicate Whole(s: State, b: nat, roots: seq<Entry>)
    requires Rooted(roots)
  {
    && (forall k, p, n | 0 <= k < |roots| && Within(roots[k].at, roots[k].node, p, n) ::
          roots[k].at <= p &&
          var t := Target(b, Destination(roots[k].at, p));
          if n.File? then t in s.disk && s.disk[t] == n.data else t in s.folders)
    && (forall t | t in s.disk && t.batch == b :: Stems(roots, t, true))
    && (forall t | t in s.folders && t.batch == b :: Stems(roots, t, false))
  }

  /** Copying a good forest reproduces it.  In every interleaving of every run in which the forest
      is copied as batch b and the peer answers the requests of that batch honestly, whatever else
      is copied and answered in the run, once the batch's jobs have all been saved each file of
      each root's tree is on disk at its relative path with the sender's bytes, each directory has
      been made, and the batch's disk and folders hold nothing else. */
  lemma ForestCopied(roots: seq<Entry>, acts: seq<Action>, b: nat)
    requires Copies(acts, b, roots) && Honest(acts, PeerOf(Items(roots)), b)
    requires var s := Engine.Run(acts); b < |s.batches| && s.batches[b].remaining == 0 && AllSaved(s, b)
    ensures Rooted(roots) && Whole(Engine.Run(acts), b, roots)
  {
    hide Engine.Run, Honest, Copies, Items, ItemsOf, AllSaved;
    var xs := Items(roots);
    FewItems(acts, b, roots);
    BatchOfForest(acts, b, roots);
    forall k, p, n | 0 <= k < |roots| && Within(roots[k].at, roots[k].node, p, n)
      ensures roots[k].at <= p &&
        var s, t := Engine.Run(acts), Target(b, Destination(roots[k].at, p));
        if n.File? then t in s.disk && s.disk[t] == n.data else t in s.folders
    {
      var x := ItemOfNode(roots, k, p, n);
      var i :| 0 <= i < |xs| && xs[i] == x;
      if n.File? {
        FileArrived(roots, acts, b, i);
      }
    }
    forall t | t in Engine.Run(acts).disk && t.batch == b
      ensures Stems(roots, t, true)
    {
      NothingElse(roots, acts, b, t);
      var x :| x in xs && IsUnder(x) && x.entry.node.File? && t == Target(b, Dest(x));
      ItemStems(roots, x, t);
    }
    forall t | t in Engine.Run(acts).folders && t.batch == b
      ensures Stems(roots, t, false)
    {
      var i :| 0 <= i < |xs| && xs[i].entry.node.Dir? && t == Target(b, Dest(xs[i]));
      ItemStems(roots, xs[i], t);
    }
  }

  // The target is that of a file, or of a directory, of the forest.
  ghost predicate Stems(roots: seq<Entry>, t: Target, file: bool)
    requires Rooted(roots)
  {
    exists k, p, n :: (
      0 <= k < |roots| && Within(roots[k].at, roots[k].node, p, n) && n.File? == file &&
      roots[k].at <= p && t.path == Destination(roots[k].at, p))
  }

  lemma ItemStems(roots: seq<Entry>, x: Item, t: Target)
    requires Rooted(roots) && x in Items(roots) && IsUnder(x) && t.path == Dest(x)
    ensures Stems(roots, t, x.entry.node.File?)
  {
    var k := NodeOfItem(roots, x);
    assert t.path == Destination(roots[k].at, x.entry.at);
  }

  // Every file of the forest is small enough for the limit check, if there is one.
  ghost predicate AllSmall(xs: seq<Item>, huge: bool) {
    huge || forall i | 0 <= i < |xs| && xs[i].entry.node.File? :: |xs[i].entry.node.data| < 0x1_0000_0000
  }

  /** If the batch is not disturbed, it has, once finished, all its files saved, so the forest is
      copied whole, if and only if huge-file support is on or every file is smaller than 2^32. */
  lemma CopiedIffSmall(roots: seq<Entry>, acts: seq<Action>, b: nat, huge: bool)
    requires Copies(acts, b, roots) && Honest(acts, PeerOf(Items(roots)), b) && Undisturbed(acts, huge, b)
    requires var s := Engine.Run(acts); b < |s.batches| && s.batches[b].remaining == 0
    ensures AllSaved(Engine.Run(acts), b) <==> AllSmall(Items(roots), huge)
  {
    hide Copies, Items, Dest, Engine.Run, Honest, Undisturbed, Accounted, Ordered, PublishedOnce, PublishedInOrder;
    var s, xs := Engine.Run(acts), Items(roots);
    BatchOfForest(acts, b, roots);
    FewItems(acts, b, roots);
    forall i | 0 <= i < |s.enqueued| && s.enqueued[i].target.batch == b
      ensures s.enqueued[i].listIndex < |xs| && xs[s.enqueued[i].listIndex].entry.node.File?
    {
      assert s.enqueued[i] in s.enqueued;
    }
    SavedExactly(acts, PeerOf(xs), huge, b);
    BatchAccounting(acts);
    JobsInTurn(acts);
    forall i | 0 <= i < |s.log|
      ensures s.log[i].job in s.enqueued
    {
      PlaceInTurn(s, i);
    }
    if AllSaved(s, b) && !huge {
      forall i | 0 <= i < |xs| && xs[i].entry.node.File?
        ensures |xs[i].entry.node.data| < 0x1_0000_0000
      {
        FinishedIsLogged(s, b, JobAt(xs, i, b));
      }
    }
  }

  lemma ItemOfNode(roots: seq<Entry>, k: nat, p: Path, n: Node) returns (x: Item)
    requires k < |roots| && Within(roots[k].at, roots[k].node, p, n) && Rooted(roots)
    ensures x in Items(roots) && x == Item(roots[k].at, Entry(p, n)) && IsUnder(x)
    ensures Dest(x) == Destination(roots[k].at, p)
  {
    hide Preorder, Within, Items;
    PreorderCovers(roots[k].at, roots[k].node, p, n);
    x := Item(roots[k].at, Entry(p, n));
    var i :| 0 <= i < |Preorder(roots[k].at, roots[k].node)| && Preorder(roots[k].at, roots[k].node)[i] == Entry(p, n);
    assert ItemsOf(roots[k])[i] == x;
    RootsAreListed(roots, k, x);
  }

  lemma NodeOfItem(roots: seq<Entry>, x: Item) returns (k: nat)
    requires x in Items(roots) && IsUnder(x)
    ensures k < |roots| && x.root == roots[k].at
    ensures Within(roots[k].at, roots[k].node, x.entry.at, x.entry.node)
    ensures Dest(x) == Destination(roots[k].at, x.entry.at)
  {
    ItemRoots(roots);
    k :| 0 <= k < |roots| && x in ItemsOf(roots[k]);
    PreorderCovers(roots[k].at, roots[k].node, x.entry.at, x.entry.node);
  }
}
