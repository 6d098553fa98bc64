/**
 One remote file: the download that asks for its size and then for its bytes in
 64 KiB pieces, over any net and against a cooperative peer.
 */
module Download {
  import opened Wire
  import opened Pdu
  import opened FormatFilter
  import opened Serving
  import opened Session
  import opened Stack

  // ---- stream ids ----------------------------------------------------------------------

  // The id of the k-th request, and the counter after k requests.
  function IdOf(k: nat): (id: u32)
    ensures id != 0
  {
    k % UINT32_MAX + 1
  }

  function Counter(k: nat): u32 { if k > 0 && k % UINT32_MAX == 0 then 0 else k % UINT32_MAX + 1 }

  // Zero is skipped when the 32-bit counter wraps.
  function Draw(counter: u32): (u32, u32) {
    var next := (counter + 1) % 0x1_0000_0000;
    if counter == 0 then (next, (next + 1) % 0x1_0000_0000) else (counter, next)
  }

  method DrawId(counter: u32) returns (streamId: u32, next: u32)
    ensures (streamId, next) == Draw(counter) && streamId != 0
  {
    streamId := counter;
    next := (counter + 1) % 0x1_0000_0000;
    if streamId == 0 {
      streamId := next;
      next := (next + 1) % 0x1_0000_0000;
    }
  }

  lemma DrawIsIdOf(k: nat)
    ensures Draw(Counter(k)) == (IdOf(k), Counter(k + 1))
  {
    var m := k % UINT32_MAX;
    assert (k + 1) % UINT32_MAX == if m + 1 == UINT32_MAX then 0 else m + 1;
  }

  /** Two requests share an id exactly when a multiple of 2^32 - 1 requests lies between them. */
  lemma IdsRepeat(j: nat, k: nat)
    ensures IdOf(j) == IdOf(k) <==> (k - j) % UINT32_MAX == 0
  {
    var dj, dk := j / UINT32_MAX, k / UINT32_MAX;
    assert k - j == UINT32_MAX * (dk - dj) + (k % UINT32_MAX - j % UINT32_MAX);
  }

  lemma FreshWithinWindow(j: nat, k: nat)
    requires j <= k < j + UINT32_MAX
    ensures IdOf(j) == IdOf(k) <==> j == k
  {
    IdsRepeat(j, k);
  }

  // ---- the requests ----------------------------------------------------------------------

  const CHUNK := 0x1_0000

  function SizeRequest(id: u32, listIndex: u32): FileRequest {
    FileRequest(id, listIndex, FILECONTENTS_SIZE, 0, 0, 8, None)
  }

  function RangeRequest(id: u32, listIndex: u32, offset: u64, count: u32): FileRequest {
    FileRequest(id, listIndex, FILECONTENTS_RANGE, Low32(offset), High32(offset), count, None)
  }

  function NextCount(fileSize: u64, offset: u64): u32
    requires offset < fileSize
  {
    Min(CHUNK, fileSize - offset)
  }

  // All ranges from an offset to the end, ids from the k-th on.
  function Ranges(k: nat, listIndex: u32, fileSize: u64, offset: nat): seq<FileRequest>
    decreases fileSize - offset
  {
    if offset >= fileSize then []
    else
      var count := NextCount(fileSize, offset);
      [RangeRequest(IdOf(k), listIndex, offset, count)] + Ranges(k + 1, listIndex, fileSize, offset + count)
  }

  lemma FirstRange(k: nat, listIndex: u32, offset: u64, count: u32)
    ensures var r := RangeRequest(IdOf(k), listIndex, offset, count);
      Join64(r.positionLow, r.positionHigh) == offset && r.cbRequested == count && r.streamId == IdOf(k)
  {
    SplitJoin64(offset, 0, 0);
  }

  /** The ranges cut the rest of the file into consecutive pieces of 64 KiB, the last one
      shorter or equal: one per started chunk. */
  lemma {:induction false} RangesPartition(k: nat, listIndex: u32, fileSize: u64, offset: nat)
    requires offset <= fileSize
    ensures var rs := Ranges(k, listIndex, fileSize, offset);
      |rs| == (fileSize - offset + CHUNK - 1) / CHUNK &&
      forall i | 0 <= i < |rs| ::
        Join64(rs[i].positionLow, rs[i].positionHigh) == offset + CHUNK * i &&
        rs[i].cbRequested == Min(CHUNK, fileSize - (offset + CHUNK * i)) && rs[i].cbRequested > 0 &&
        rs[i].streamId == IdOf(k + i)
    decreases fileSize - offset
  {
    hide Low32, High32, Join64, IdOf;
    if offset < fileSize {
      var count := NextCount(fileSize, offset);
      RangesPartition(k + 1, listIndex, fileSize, offset + count);
      FirstRange(k, listIndex, offset, count);
      var rs, rest := Ranges(k, listIndex, fileSize, offset), Ranges(k + 1, listIndex, fileSize, offset + count);
      if count < CHUNK {
        assert rest == [];
      }
      forall i | 0 < i < |rs|
        ensures Join64(rs[i].positionLow, rs[i].positionHigh) == offset + CHUNK * i
        ensures rs[i].cbRequested == Min(CHUNK, fileSize - (offset + CHUNK * i)) && rs[i].cbRequested > 0
        ensures rs[i].streamId == IdOf(k + i)
      {
        assert rs[i] == rest[i - 1];
      }
    }
  }

  // ---- the download ------------------------------------------------------------------------

  // What became of the k-th request: the data of its good reply, or nothing when it was
  // refused by the channel, answered with a failure, or cut short by a stop.  A peer that has no
  // answer sends no reply at all; the wait for it returns, with nothing, only at a stop.
  type Net = (nat, FileRequest) -> Option<bytes>

  // Bytes that cannot be written to the local file end a download like a bad reply.
  function Through(net: Net, writes: nat -> bool): Net {
    (k: nat, r: FileRequest) => if WantsSize(r) || writes(k) then net(k, r) else None
  }

  // The bytes from an offset on, if every reply is good and has the length asked for.
  function Fetch(net: Net, k: nat, listIndex: u32, fileSize: u64, offset: nat): Option<bytes>
    decreases fileSize - offset
  {
    if offset >= fileSize then Some([])
    else
      var count := NextCount(fileSize, offset);
      match net(k, RangeRequest(IdOf(k), listIndex, offset, count))
      case None => None
      case Some(data) =>
        if |data| != count then None
        else
          match Fetch(net, k + 1, listIndex, fileSize, offset + count)
          case None => None
          case Some(rest) => Some(data + rest)
  }

  // The ranges asked for until the end or the first bad reply.
  function Asked(net: Net, k: nat, listIndex: u32, fileSize: u64, offset: nat): seq<FileRequest>
    decreases fileSize - offset
  {
    if offset >= fileSize then []
    else
      var count := NextCount(fileSize, offset);
      var r := RangeRequest(IdOf(k), listIndex, offset, count);
      match net(k, r)
      case None => [r]
      case Some(data) => [r] + if |data| != count then [] else Asked(net, k + 1, listIndex, fileSize, offset + count)
  }

  /** A download never asks outside the partition; it saves as many bytes as the size announced,
      and only after asking for every range. */
  lemma {:induction false} FetchAsksPartition(net: Net, k: nat, listIndex: u32, fileSize: u64, offset: nat)
    requires offset <= fileSize
    ensures var asked, all := Asked(net, k, listIndex, fileSize, offset), Ranges(k, listIndex, fileSize, offset);
      asked <= all &&
      (Fetch(net, k, listIndex, fileSize, offset).Some? ==>
        asked == all && |Fetch(net, k, listIndex, fileSize, offset).value| == fileSize - offset)
    decreases fileSize - offset
  {
    if offset < fileSize {
      var count := NextCount(fileSize, offset);
      FetchAsksPartition(net, k + 1, listIndex, fileSize, offset + count);
    }
  }

  function SizeReply(net: Net, k: nat, listIndex: u32): Option<u64> {
    match net(k, SizeRequest(IdOf(k), listIndex))
    case None => None
    case Some(data) => if |data| < 8 then None else Some(Get64(data))
  }

  // The whole download: the saved bytes, if it succeeds.
  function Downloaded(net: Net, k: nat, listIndex: u32): Option<bytes> {
    match SizeReply(net, k, listIndex)
    case None => None
    case Some(size) => Fetch(net, k + 1, listIndex, size, 0)
  }

  class Downloader {
    const net: Net
    const writes: nat -> bool       // can the data of the k-th request be written?
    var nextStreamId: u32
    var disk: map<QString, bytes>
    var asked: seq<FileRequest>     // every request of this object, in order

    constructor (net: Net, writes: nat -> bool)
      ensures Valid() && asked == [] && disk == map[] && this.net == net && this.writes == writes
    {
      this.net, this.writes := net, writes;
      nextStreamId, disk, asked := 1, map[], [];
    }

    ghost predicate Valid()
      reads this
    {
      nextStreamId == Counter(|asked|)
    }

    method NextRemoteStreamId() returns (streamId: u32)
      requires Valid()
      modifies this`nextStreamId
      ensures streamId == IdOf(|asked|) && nextStreamId == Counter(|asked| + 1)
    {
      DrawIsIdOf(|asked|);
      var id, next := DrawId(nextStreamId);
      streamId, nextStreamId := id, next;
    }

    // Sends the request and waits for what becomes of it.
    method Ask(r: FileRequest) returns (reply: Option<bytes>)
      requires nextStreamId == Counter(|asked| + 1)
      modifies this`asked
      ensures Valid() && asked == old(asked) + [r] && reply == net(|old(asked)|, r)
    {
      reply := net(|asked|, r);
      asked := asked + [r];
    }

    method RequestRemoteSize(listIndex: u32) returns (size: Option<u64>)
      requires Valid()
      modifies this`nextStreamId, this`asked
      ensures Valid() && size == SizeReply(net, |old(asked)|, listIndex)
      ensures asked == old(asked) + [SizeRequest(IdOf(|old(asked)|), listIndex)]
    {
      var streamId := NextRemoteStreamId();
      var reply := Ask(SizeRequest(streamId, listIndex));
      if reply == None || |reply.value| < 8 {
        return None;
      }
      size := Some(Get64(reply.value));
    }

    method RequestRemoteRange(listIndex: u32, offset: u64, count: u32) returns (data: Option<bytes>)
      requires Valid()
      modifies this`nextStreamId, this`asked
      ensures Valid()
      ensures var r := RangeRequest(IdOf(|old(asked)|), listIndex, offset, count);
        var reply := net(|old(asked)|, r);
        asked == old(asked) + [r] &&
        data == if reply.Some? && |reply.value| == count then reply else None
    {
      var streamId := NextRemoteStreamId();
      var reply := Ask(RangeRequest(streamId, listIndex, offset, count));
      data := if reply.Some? && |reply.value| == count then reply else None;
    }

    // The chunk loop over an open, empty file.
    method FetchRanges(listIndex: u32, fileSize: u64, path: QString) returns (saved: bool)
      requires Valid() && path in disk && disk[path] == []
      modifies this
      ensures Valid()
      ensures var got := Fetch(Through(net, writes), |old(asked)|, listIndex, fileSize, 0);
        saved == got.Some? && disk == if saved then old(disk)[path := got.value] else old(disk) - {path}
      ensures asked == old(asked) + Asked(Through(net, writes), |old(asked)|, listIndex, fileSize, 0)
    {
      hide Fetch, Asked, NextCount;
      var offset := 0;
      ghost var before := asked;
      ghost var all := Fetch(Through(net, writes), |asked|, listIndex, fileSize, 0);
      ghost var allAsked := Asked(Through(net, writes), |asked|, listIndex, fileSize, 0);
      assert all.Some? ==> [] + all.value == all.value;
      while offset < fileSize
        invariant Valid() && offset <= fileSize
        invariant path in disk && disk == old(disk)[path := disk[path]]
        invariant Continues(all, disk[path], Fetch(Through(net, writes), |asked|, listIndex, fileSize, offset))
        invariant asked + Asked(Through(net, writes), |asked|, listIndex, fileSize, offset) == before + allAsked
        decreases fileSize - offset
      {
        var bytesToRequest := NextCount(fileSize, offset);
        FetchStep(Through(net, writes), all, disk[path], |asked|, listIndex, fileSize, offset);
        NextCountBounds(fileSize, offset);
        ghost var sofar, r := asked, RangeRequest(IdOf(|asked|), listIndex, offset, bytesToRequest);
        var chunk := RequestRemoteRange(listIndex, offset, bytesToRequest);
        if chunk == None || !writes(|asked| - 1) {
          assert sofar + ([r] + []) == sofar + [r];
          disk := disk - {path};
          return false;
        }
        ghost var rest := Asked(Through(net, writes), |asked|, listIndex, fileSize, offset + |chunk.value|);
        assert sofar + ([r] + rest) == (sofar + [r]) + rest;
        disk := disk[path := disk[path] + chunk.value];
        offset := offset + |chunk.value|;
      }
      FetchDone(Through(net, writes), |asked|, listIndex, fileSize, offset);
      assert asked + [] == asked;
      assert disk[path] + [] == disk[path];
      saved := true;
    }

    method DownloadRemoteFile(listIndex: u32, path: QString, canOpen: bool) returns (saved: bool)
      requires Valid()
      modifies this
      ensures Valid()
      ensures saved == (canOpen && Downloaded(Through(net, writes), |old(asked)|, listIndex).Some?)
      ensures var size := SizeReply(net, |old(asked)|, listIndex);
        disk == (if saved then old(disk)[path := Downloaded(Through(net, writes), |old(asked)|, listIndex).value]
                 else if canOpen && size.Some? then old(disk) - {path}
                 else old(disk)) &&
        asked == old(asked) + [SizeRequest(IdOf(|old(asked)|), listIndex)] +
          (if canOpen && size.Some? then Asked(Through(net, writes), |old(asked)| + 1, listIndex, size.value, 0) else [])
    {
      var size := RequestRemoteSize(listIndex);
      if size == None || !canOpen {
        assert asked + [] == asked;
        return false;
      }
      disk := disk[path := []];
      saved := FetchRanges(listIndex, size.value, path);
    }
  }

  lemma NextCountBounds(fileSize: u64, offset: u64)
    requires offset < fileSize
    ensures 0 < NextCount(fileSize, offset) <= fileSize - offset
  {
  }

  lemma FetchDone(net: Net, k: nat, listIndex: u32, fileSize: u64, offset: nat)
    requires offset >= fileSize
    ensures Fetch(net, k, listIndex, fileSize, offset) == Some([])
    ensures Asked(net, k, listIndex, fileSize, offset) == []
  {
  }

  ghost predicate Continues(all: Option<bytes>, got: bytes, rest: Option<bytes>) {
    all == if rest.None? then None else Some(got + rest.value)
  }

  // One turn of the loop, seen from the specification.
  lemma FetchStep(net: Net, all: Option<bytes>, got: bytes, k: nat, listIndex: u32, fileSize: u64, offset: nat)
    requires offset < fileSize && Continues(all, got, Fetch(net, k, listIndex, fileSize, offset))
    ensures var count := NextCount(fileSize, offset);
      var r := RangeRequest(IdOf(k), listIndex, offset, count);
      var reply := net(k, r);
      var good := reply.Some? && |reply.value| == count;
      (good ==> Continues(all, got + reply.value, Fetch(net, k + 1, listIndex, fileSize, offset + count))) &&
      (!good ==> all == None) &&
      Asked(net, k, listIndex, fileSize, offset) ==
        [r] + (if good then Asked(net, k + 1, listIndex, fileSize, offset + count) else [])
  {
    var count := NextCount(fileSize, offset);
    var reply := net(k, RangeRequest(IdOf(k), listIndex, offset, count));
    if reply.Some? && |reply.value| == count {
      var rest := Fetch(net, k + 1, listIndex, fileSize, offset + count);
      if rest.Some? {
        assert got + (reply.value + rest.value) == (got + reply.value) + rest.value;
      }
    }
  }

  // ---- against a cooperative peer ------------------------------------------------------------

  // Requests pass the sender's own limit check and are answered by the serving half.
  function Cooperative(files: seq<Served>, huge: bool): Net {
    (k: nat, r: FileRequest) =>
      if BeyondLimit(r, huge) then None
      else match Answer(files, r) case Err(_) => None case Ok(data) => Some(data)
  }

  // The first offset at which a full chunk runs past 2^32 - 1.
  const LIMIT := 0xFFFF_0000

  lemma RangeReply(files: seq<Served>, huge: bool, k: nat, listIndex: u32, offset: nat)
    requires listIndex < |files| && !files[listIndex].isDir && offset < |files[listIndex].data|
    ensures var data := files[listIndex].data;
      var count := NextCount(|data|, offset);
      var reply := Cooperative(files, huge)(k, RangeRequest(IdOf(k), listIndex, offset, count));
      reply == if huge || offset + count <= UINT32_MAX then Some(data[offset..offset + count]) else None
  {
    SplitJoin64(offset, 0, 0);
  }

  /** With huge-file support, or below the limit, the rest of the file arrives unchanged. */
  lemma {:induction false} CooperativeFetch(files: seq<Served>, huge: bool, k: nat, listIndex: u32, offset: nat)
    requires listIndex < |files| && !files[listIndex].isDir && offset <= |files[listIndex].data|
    requires huge || |files[listIndex].data| <= UINT32_MAX
    ensures var data := files[listIndex].data;
      Fetch(Cooperative(files, huge), k, listIndex, |data|, offset) == Some(data[offset..])
    decreases |files[listIndex].data| - offset
  {
    var data := files[listIndex].data;
    if offset < |data| {
      var count := NextCount(|data|, offset);
      RangeReply(files, huge, k, listIndex, offset);
      CooperativeFetch(files, huge, k + 1, listIndex, offset + count);
      assert data[offset..offset + count] + data[offset + count..] == data[offset..];
    }
  }

  /** Without it a larger file fails, at the limit, after every full chunk below it. */
  lemma {:induction false} TooLargeFetch(files: seq<Served>, k: nat, listIndex: u32, offset: nat)
    requires listIndex < |files| && !files[listIndex].isDir && |files[listIndex].data| > UINT32_MAX
    requires offset <= LIMIT && offset % CHUNK == 0
    ensures var size, net := |files[listIndex].data|, Cooperative(files, false);
      var asked := Asked(net, k, listIndex, size, offset);
      Fetch(net, k, listIndex, size, offset) == None &&
      |asked| == (LIMIT - offset) / CHUNK + 1 &&
      Join64(asked[|asked| - 1].positionLow, asked[|asked| - 1].positionHigh) == LIMIT
    decreases LIMIT - offset
  {
    hide Cooperative, Answer, Low32, High32, Join64;
    var data := files[listIndex].data;
    var net := Cooperative(files, false);
    SplitJoin64(offset, 0, 0);
    RangeReply(files, false, k, listIndex, offset);
    assert NextCount(|data|, offset) == CHUNK;
    if offset < LIMIT {
      assert offset + CHUNK <= LIMIT;
      TooLargeFetch(files, k + 1, listIndex, offset + CHUNK);
      var rest := Asked(net, k + 1, listIndex, |data|, offset + CHUNK);
      var asked := Asked(net, k, listIndex, |data|, offset);
      assert asked[|asked| - 1] == rest[|rest| - 1];
    }
  }

  /** A file arrives from a cooperative peer if and only if huge-file support is on or its size
      is below 2^32; what arrives is the file. */
  lemma SizeThreshold(files: seq<Served>, huge: bool, k: nat, listIndex: u32)
    requires listIndex < |files| && !files[listIndex].isDir
    ensures var data, got := files[listIndex].data, Downloaded(Cooperative(files, huge), k, listIndex);
      (got.Some? <==> huge || |data| < 0x1_0000_0000) && (got.Some? ==> got.value == data)
  {
    var data := files[listIndex].data;
    var net := Cooperative(files, huge);
    Get64OfLe64(|data|, []);
    assert Le64(|data|) + [] == Le64(|data|);
    assert SizeReply(net, k, listIndex) == Some(|data|);
    if huge || |data| <= UINT32_MAX {
      CooperativeFetch(files, huge, k + 1, listIndex, 0);
      assert data[0..] == data;
    } else {
      TooLargeFetch(files, k + 1, listIndex, 0);
    }
  }

  /** A larger file costs 65535 good chunks and one refused request before it fails. */
  lemma TooLargeAsks(files: seq<Served>, k: nat, listIndex: u32)
    requires listIndex < |files| && !files[listIndex].isDir && |files[listIndex].data| > UINT32_MAX
    ensures var asked := Asked(Cooperative(files, false), k, listIndex, |files[listIndex].data|, 0);
      |asked| == 65535 + 1 && Join64(asked[65535].positionLow, asked[65535].positionHigh) == LIMIT
  {
    TooLargeFetch(files, k, listIndex, 0);
  }

  /** From a handshake until the next server capability packet a file arrives from a cooperative
      peer if and only if its size is below 2^32. */
  lemma ThresholdAfterHandshake(s: State, es: seq<Event>, mask: Mask, files: seq<Served>, k: nat, listIndex: u32)
    requires forall i | 0 <= i < |es| :: !CapsArrive(es[i])
    requires listIndex < |files| && !files[listIndex].isDir
    ensures var t := Run(OnMonitorReady(s, mask).state, es, mask).state;
      Downloaded(Cooperative(files, t.features.huge), k, listIndex).Some? <==>
        |files[listIndex].data| < 0x1_0000_0000
  {
    HugeStaysOff(s, es, mask);
    SizeThreshold(files, false, k, listIndex);
  }

  /** The reader never refuses what the engine builds, and no answer to it is longer than 64 KiB,
      so that it always fits a packet. */
  lemma EngineRequestsAreValid(files: seq<Served>, id: u32, listIndex: u32, fileSize: u64, offset: u64)
    requires offset < fileSize
    ensures var r := SizeRequest(id, listIndex);
      ValidFileRequest(r) && (Answer(files, r).Ok? ==> |Answer(files, r).value| == 8)
    ensures var r := RangeRequest(id, listIndex, offset, NextCount(fileSize, offset));
      ValidFileRequest(r) && WantsRange(r) && 0 < r.cbRequested <= CHUNK &&
      (Answer(files, r).Ok? ==> 0 < |Answer(files, r).value| <= CHUNK < UINT32_MAX - 20)
  {
    hide Low32, High32, Join64;
    var r := RangeRequest(id, listIndex, offset, NextCount(fileSize, offset));
    if Answer(files, r).Ok? {
      AnswerLength(files, r);
    }
  }

  /** A valid request that passes the limit reaches the peer's callback as it was built; the
      peer's answer, if it has one, goes out at once and comes back under the same id with its
      bytes; if it has none, nothing goes out and the handler fails. */
  lemma Exchange(client: State, server: State, clientMask: Mask, serverMask: Mask, r: FileRequest)
    requires RemoteToLocalFiles in clientMask && LocalToRemoteFiles in serverMask
    requires ValidFileRequest(r) && !BeyondLimit(r, client.features.huge)
    ensures SendFileRequest(client, r, clientMask).outs == [FileRequestOut(r)]
    ensures var got := Receive(server, Encode(PacketOf(FileRequestOut(r))), serverMask);
      got.handed == [HandedFileRequest(r)] &&
      match Answer(server.files, r)
      case Err(status) => Unanswerable(server.files, r) && got.outs == [] && got.status == status == ResponseFail
      case Ok(data) =>
        var reply := FileResponse(CB_RESPONSE_OK, r.streamId, data);
        got.outs == [FileResponseOut(reply)] && got.status == RcOk &&
        (|data| <= UINT32_MAX - 20 ==>
          Receive(client, Encode(PacketOf(FileResponseOut(reply))), clientMask) ==
            Effect(client, [], [HandedFileResponse(reply)], RcOk))
  {
    hide Receive, Encode, Answer, Unanswerable;
    ReceiveIsHear(server, FileRequestOut(r), serverMask);
    AnswerFails(server.files, r);
    if Answer(server.files, r).Ok? && |Answer(server.files, r).value| <= UINT32_MAX - 20 {
      ReceiveIsHear(client, FileResponseOut(FileResponse(CB_RESPONSE_OK, r.streamId, Answer(server.files, r).value)), clientMask);
    }
  }
}
