/**
 The serving half: what the client answers to a peer's file contents requests.
 */
module Serving {
  import opened Wire
  import opened Pdu
  import opened FileWalk

  // A listed file, unchanged since it was listed.
  datatype Served = Served(isDir: bool, data: Contents)

  function Answer(files: seq<Served>, r: FileRequest): Result<bytes> {
    if r.listIndex >= |files| then Err(ResponseFail)
    else
      var f := files[r.listIndex];
      if WantsSize(r) then Ok(Le64(if f.isDir then 0 else |f.data|))
      else if !WantsRange(r) || f.isDir then Err(ResponseFail)
      else
        var offset := Join64(r.positionLow, r.positionHigh);
        if offset >= |f.data| then Err(ResponseFail)
        else Ok(f.data[offset..Min(offset + r.cbRequested, |f.data|)])
  }

  // The requests that get no answer: an index beyond the list, neither kind asked for, a range
  // of a directory, or an offset at or past the end.
  predicate Unanswerable(files: seq<Served>, r: FileRequest) {
    || r.listIndex >= |files|
    || (!WantsSize(r) &&
        (!WantsRange(r) || files[r.listIndex].isDir ||
         Join64(r.positionLow, r.positionHigh) >= |files[r.listIndex].data|))
  }

  lemma AnswerFails(files: seq<Served>, r: FileRequest)
    ensures Answer(files, r).Err? <==> Unanswerable(files, r)
    ensures Answer(files, r).Err? ==> Answer(files, r).status == ResponseFail
  {
  }

  lemma AnswerLength(files: seq<Served>, r: FileRequest)
    requires Answer(files, r).Ok?
    ensures |Answer(files, r).value| <= Max(8, r.cbRequested)
  {
  }

  // ---- what an answer holds -------------------------------------------------------------------

  /** A size request is answered with the 64-bit size, 0 for a directory, whatever else it asks. */
  lemma AnswerIsSize(files: seq<Served>, r: FileRequest)
    requires r.listIndex < |files| && WantsSize(r)
    ensures var f, a := files[r.listIndex], Answer(files, r);
      a.Ok? && |a.value| == 8 && Get64(a.value) == if f.isDir then 0 else |f.data|
  {
    var f := files[r.listIndex];
    var n: u64 := if f.isDir then 0 else |f.data|;
    Get64OfLe64(n, []);
    assert Le64(n) + [] == Le64(n);
  }

  /** A range request inside a file is answered with the bytes from its offset on, as many as asked
      for or as there are. */
  lemma AnswerIsRange(files: seq<Served>, r: FileRequest)
    requires r.listIndex < |files| && !WantsSize(r) && WantsRange(r) && !files[r.listIndex].isDir
    requires Join64(r.positionLow, r.positionHigh) < |files[r.listIndex].data|
    ensures var data, offset, a := files[r.listIndex].data, Join64(r.positionLow, r.positionHigh), Answer(files, r);
      a.Ok? &&
      |a.value| == (if r.cbRequested <= |data| - offset then r.cbRequested else |data| - offset) &&
      forall i | 0 <= i < |a.value| :: a.value[i] == data[offset + i]
  {
  }

  // The request for the piece of a file at an offset.
  function PieceAt(listIndex: u32, offset: u64, count: u32): FileRequest {
    FileRequest(0, listIndex, FILECONTENTS_RANGE, Low32(offset), High32(offset), count, None)
  }

  // The answers to requests for consecutive pieces, joined, until one brings nothing.
  function Pieces(files: seq<Served>, listIndex: u32, offset: u64, count: u32): bytes
    requires listIndex < |files| && count > 0
    decreases |files[listIndex].data| - offset
  {
    match Answer(files, PieceAt(listIndex, offset, count))
    case Err(_) => []
    case Ok(piece) =>
      if offset + count >= |files[listIndex].data| then piece
      else piece + Pieces(files, listIndex, offset + count, count)
  }

  /** Whatever the size of the pieces, the last one shorter or not, the answers join to the file. */
  lemma {:induction false} PiecesAreFile(files: seq<Served>, listIndex: u32, offset: u64, count: u32)
    requires listIndex < |files| && count > 0 && !files[listIndex].isDir && offset < |files[listIndex].data|
    ensures Pieces(files, listIndex, offset, count) == files[listIndex].data[offset..]
    decreases |files[listIndex].data| - offset
  {
    hide Answer, Low32, High32, Join64;
    var data, r := files[listIndex].data, PieceAt(listIndex, offset, count);
    SplitJoin64(offset, 0, 0);
    AnswerIsRange(files, r);
    var piece := Answer(files, r).value;
    if offset + count < |data| {
      PiecesAreFile(files, listIndex, offset + count, count);
      assert piece == data[offset..offset + count];
      assert data[offset..] == data[offset..offset + count] + data[offset + count..];
    } else {
      assert piece == data[offset..];
    }
  }
}
