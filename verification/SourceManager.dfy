/** Status files of nodes, and the multipart upload of the source archive. */
module SourceManager {
  import opened Common

  /** A node's status file: present fields as the node wrote them. */
  datatype NodeOutcome = NodeOutcome(success: Option<bool>, startedAt: Option<nat>, finishedAt: Option<nat>)

  datatype ReconcileResult =
    | Completed(success: bool, startedAt: Option<nat>, finishedAt: nat)
    | InProgress(startedAtMs: nat)
    | StillRunning
    | TransientReadError

  function FromOutcome(outcome: NodeOutcome): ReconcileResult {
    match (outcome.success, outcome.finishedAt, outcome.startedAt)
    case (Some(success), Some(finished), started) => Completed(success, started, finished)
    case (_, _, Some(started)) => InProgress(started)
    case _ => StillRunning
  }

  /** A verdict needs both the flag and the finish time; a half-written file never counts as one. */
  lemma CompletedNeedsBoth(outcome: NodeOutcome)
    ensures var r := FromOutcome(outcome);
      && (r.Completed? <==> outcome.success.Some? && outcome.finishedAt.Some?)
      && (r.Completed? ==> Some(r.success) == outcome.success && Some(r.finishedAt) == outcome.finishedAt)
      && (r.InProgress? <==> !r.Completed? && outcome.startedAt.Some?)
      && (r.InProgress? ==> Some(r.startedAtMs) == outcome.startedAt)
      && !r.TransientReadError?
  {
  }

  // ---------- multipart upload ----------

  newtype byte = x: int | 0 <= x < 256

  /** 8 MiB; the store demands at least 5 MiB of every part but the last. */
  const PART_SIZE: nat := 8 * 1024 * 1024

  datatype Frame = Data(bytes: seq<byte>) | Trailers | Broken

  datatype SourceError = Download | S3

  datatype Part = Part(number: nat, bytes: seq<byte>)

  function Body(frames: seq<Frame>): seq<byte> {
    if frames == [] then []
    else
      var last := frames[|frames| - 1];
      Body(frames[..|frames| - 1]) + if last.Data? then last.bytes else []
  }

  /** How the body must be cut, however it arrived. */
  function Chunks(body: seq<byte>): seq<seq<byte>> {
    if body == [] then []
    else if |body| <= PART_SIZE then [body]
    else [body[..PART_SIZE]] + Chunks(body[PART_SIZE..])
  }

  function Joined(chunks: seq<seq<byte>>): seq<byte> {
    if chunks == [] then [] else Joined(chunks[..|chunks| - 1]) + chunks[|chunks| - 1]
  }

  function Numbered(chunks: seq<seq<byte>>): seq<Part> {
    seq(|chunks|, i requires 0 <= i < |chunks| => Part(i + 1, chunks[i]))
  }

  ghost predicate AllFull(chunks: seq<seq<byte>>) {
    forall i :: 0 <= i < |chunks| ==> |chunks[i]| == PART_SIZE
  }

  lemma {:induction false} JoinedFront(first: seq<byte>, rest: seq<seq<byte>>)
    ensures Joined([first] + rest) == first + Joined(rest)
  {
    if rest == [] {
      assert ([first] + rest)[..0] == [];
    } else {
      var n := |rest| - 1;
      JoinedFront(first, rest[..n]);
      assert ([first] + rest)[..n + 1] == [first] + rest[..n];
      Regroup(first, Joined(rest[..n]), rest[n]);
    }
  }

  lemma CutOne(first: seq<byte>, rest: seq<byte>)
    requires |first| == PART_SIZE
    ensures Chunks(first + rest) == [first] + Chunks(rest)
  {
    var body := first + rest;
    assert body[..PART_SIZE] == first && body[PART_SIZE..] == rest;
    if rest == [] {
      assert body == first && [first] + Chunks(rest) == [first];
    }
  }

  /** Full chunks cut off the front are the first chunks. */
  lemma {:induction false} ChunksAfterFull(full: seq<seq<byte>>, tail: seq<byte>)
    requires AllFull(full)
    ensures Chunks(Joined(full) + tail) == full + Chunks(tail)
  {
    if full == [] {
      assert Joined(full) + tail == tail;
    } else {
      var first, rest := full[0], full[1..];
      assert full == [first] + rest;
      JoinedFront(first, rest);
      ChunksAfterFull(rest, tail);
      CutOne(first, Joined(rest) + tail);
      Regroup(first, Joined(rest), tail);
      Regroup([first], rest, Chunks(tail));
    }
  }

  /** Nothing is lost, repeated or reordered; every part but the last is full; none is empty. */
  lemma {:induction false} ChunksConserve(body: seq<byte>)
    ensures var chunks := Chunks(body);
      && Joined(chunks) == body
      && AllFull(chunks[..if chunks == [] then 0 else |chunks| - 1])
      && forall i :: 0 <= i < |chunks| ==> 0 < |chunks[i]| <= PART_SIZE
    decreases |body|
  {
    if body == [] {
    } else if |body| <= PART_SIZE {
      assert Chunks(body)[..0] == [];
    } else {
      var first, rest := body[..PART_SIZE], body[PART_SIZE..];
      ChunksConserve(rest);
      var chunks, tail := Chunks(body), Chunks(rest);
      assert chunks == [first] + tail && tail != [];
      JoinedFront(first, tail);
      assert chunks[..|chunks| - 1] == [first] + tail[..|tail| - 1];
    }
  }

  lemma {:induction false} BodySplits(frames: seq<Frame>, k: nat)
    requires k <= |frames|
    ensures Body(frames) == Body(frames[..k]) + Body(frames[k..])
  {
    if k == |frames| {
      assert frames[..k] == frames;
    } else {
      var n := |frames| - 1;
      BodySplits(frames[..n], k);
      assert frames[..n][..k] == frames[..k] && frames[k..][..n - k] == frames[..n][k..];
    }
  }

  /** The body is what the data frames carry, in their order. */
  lemma BodyIs(frames: seq<Frame>, bytes: seq<byte>)
    ensures Body(frames + [Data(bytes)]) == Body(frames) + bytes
    ensures Body(frames + [Trailers]) == Body(frames)
    ensures Body([]) == []
  {
    assert (frames + [Data(bytes)])[..|frames|] == frames && (frames + [Trailers])[..|frames|] == frames;
  }

  function BytesOf(parts: seq<Part>): seq<seq<byte>> {
    seq(|parts|, i requires 0 <= i < |parts| => parts[i].bytes)
  }

  lemma UploadConserves(body: seq<byte>, parts: seq<Part>)
    requires parts == Numbered(Chunks(body))
    ensures Joined(BytesOf(parts)) == body
    ensures forall i :: 0 <= i < |parts| ==>
      && parts[i].number == i + 1 && 0 < |parts[i].bytes| <= PART_SIZE
      && (i < |parts| - 1 ==> |parts[i].bytes| == PART_SIZE >= 5 * 1024 * 1024)
  {
    ChunksConserve(body);
    var chunks := Chunks(body);
    assert BytesOf(parts) == chunks;
    forall i | 0 <= i < |parts| - 1
      ensures |parts[i].bytes| == PART_SIZE
    {
      assert chunks[..|chunks| - 1][i] == chunks[i];
    }
  }

  /** A part cut so far is a part of the whole upload. */
  lemma PartIsCounted(frames: seq<Frame>, next: nat, full: seq<seq<byte>>, buffer: seq<byte>)
    requires next <= |frames| && AllFull(full) && buffer != []
    requires Body(frames[..next]) == Joined(full) + buffer
    ensures |full| < |Chunks(Body(frames))|
  {
    BodySplits(frames, next);
    OneMoreChunk(full, buffer, Body(frames[next..]));
  }

  lemma OneMoreChunk(full: seq<seq<byte>>, buffer: seq<byte>, rest: seq<byte>)
    requires AllFull(full) && buffer != []
    ensures |full| < |Chunks((Joined(full) + buffer) + rest)|
  {
    ChunksAfterFull(full, buffer + rest);
    Regroup(Joined(full), buffer, rest);
    assert |buffer + rest| > 0;
  }

  /** The last part, cut when the body has ended; `full` are the parts before it. */
  lemma LastPart(full: seq<seq<byte>>, buffer: seq<byte>)
    requires AllFull(full) && |buffer| < PART_SIZE
    ensures buffer == [] ==> Chunks(Joined(full) + buffer) == full
    ensures buffer != [] ==> Chunks(Joined(full) + buffer) == full + [buffer]
  {
    ChunksAfterFull(full, buffer);
  }

  datatype Filled = Full | BodyDone | Fault

  /** Reads frames until the buffer holds a part or the body ends. `uploaded` is what was cut off
      the buffer before. */
  method FillBuffer(frames: seq<Frame>, from: nat, kept: seq<byte>, ghost uploaded: seq<byte>)
    returns (next: nat, buffer: seq<byte>, filled: Filled)
    requires from <= |frames| && Broken !in frames[..from]
    requires Body(frames[..from]) == uploaded + kept
    ensures from <= next <= |frames|
    ensures filled.Fault? ==> Broken in frames
    ensures !filled.Fault? ==> Broken !in frames[..next] && Body(frames[..next]) == uploaded + buffer
    ensures filled.BodyDone? ==> next == |frames| && |buffer| < PART_SIZE
    ensures filled.Full? ==> |buffer| >= PART_SIZE && (next == from ==> buffer == kept)
  {
    next, buffer := from, kept;
    while |buffer| < PART_SIZE
      invariant from <= next <= |frames| && Broken !in frames[..next]
      invariant Body(frames[..next]) == uploaded + buffer
      invariant next == from ==> buffer == kept
      decreases |frames| - next
    {
      if next == |frames| {
        return next, buffer, BodyDone;
      }
      var frame := frames[next];
      assert frames[..next + 1] == frames[..next] + [frame];
      next := next + 1;
      match frame {
        case Broken => return next, buffer, Fault;
        case Trailers =>
        case Data(bytes) =>
          Regroup(uploaded, buffer, bytes);
          buffer := buffer + bytes;
      }
    }
    filled := Full;
  }

  /** One part off the front of the buffer: a full one, or all there is. */
  method CutPart(buffer: seq<byte>) returns (bytes: seq<byte>, rest: seq<byte>)
    requires buffer != []
    ensures buffer == bytes + rest && 0 < |bytes| <= PART_SIZE
    ensures |buffer| >= PART_SIZE ==> |bytes| == PART_SIZE
    ensures |buffer| <= PART_SIZE ==> bytes == buffer && rest == []
  {
    if |buffer| > PART_SIZE {
      bytes, rest := buffer[..PART_SIZE], buffer[PART_SIZE..];
    } else {
      bytes, rest := buffer, [];
    }
  }

  lemma JoinedMore(full: seq<seq<byte>>, bytes: seq<byte>)
    ensures Joined(full + [bytes]) == Joined(full) + bytes
  {
    assert (full + [bytes])[..|full|] == full;
  }

  lemma NumberedMore(full: seq<seq<byte>>, bytes: seq<byte>)
    ensures Numbered(full + [bytes]) == Numbered(full) + [Part(|full| + 1, bytes)]
  {
  }

  lemma OneMorePart(full: seq<seq<byte>>, bytes: seq<byte>, rest: seq<byte>)
    ensures Joined(full + [bytes]) + rest == Joined(full) + (bytes + rest)
  {
    JoinedMore(full, bytes);
    Regroup(Joined(full), bytes, rest);
  }

  lemma NothingYet()
    ensures Body([]) == [] && Joined([]) == [] && Numbered([]) == []
  {
  }

  /** Reads the body frame by frame and uploads part by part. `refused` are the part numbers
      whose upload the store fails. */
  method UploadParts(frames: seq<Frame>, refused: set<nat>) returns (result: Result<seq<Part>, SourceError>)
    ensures result.Ok? ==> result.value == Numbered(Chunks(Body(frames)))
    ensures result.Ok? ==> Joined(BytesOf(result.value)) == Body(frames)
    ensures result.Ok? ==> forall i :: 0 <= i < |result.value| ==>
      && result.value[i].number == i + 1 && 0 < |result.value[i].bytes| <= PART_SIZE
      && (i < |result.value| - 1 ==> |result.value[i].bytes| == PART_SIZE >= 5 * 1024 * 1024)
    ensures result.Ok? <==> Broken !in frames && forall p :: p in refused ==> p == 0 || p > |Chunks(Body(frames))|
    ensures result == Err(Download) ==> Broken in frames
    ensures result == Err(S3) ==> exists p :: p in refused && 1 <= p
  {
    hide Body, Chunks, Joined, Numbered;
    NothingYet();
    var parts: seq<Part>, partNumber, buffer: seq<byte>, next := [], 1, [], 0;
    ghost var full: seq<seq<byte>>, whole := [], Chunks(Body(frames));
    while true
      invariant next <= |frames| && Broken !in frames[..next]
      invariant Body(frames[..next]) == Joined(full) + buffer
      invariant AllFull(full) && parts == Numbered(full) && partNumber == |full| + 1
      invariant forall p :: p in refused ==> p == 0 || p > |full|
      decreases |frames| - next, |buffer|
    {
      var filled, bytes;
      next, buffer, filled := FillBuffer(frames, next, buffer, Joined(full));
      if filled.Fault? {
        return Err(Download);
      }
      if filled.BodyDone? {
        assert frames[..next] == frames;
        LastPart(full, buffer);
        assert whole == if buffer == [] then full else full + [buffer];
      }
      if buffer == [] {
        UploadConserves(Body(frames), parts);
        return Ok(parts);
      }
      PartIsCounted(frames, next, full, buffer);
      bytes, buffer := CutPart(buffer);
      if partNumber in refused {
        assert partNumber <= |whole|;
        return Err(S3);
      }
      OneMorePart(full, bytes, buffer);
      NumberedMore(full, bytes);
      parts := parts + [Part(partNumber, bytes)];
      partNumber := partNumber + 1;
      full := full + [bytes];
      if filled.BodyDone? {
        assert full == whole;
        UploadConserves(Body(frames), parts);
        return Ok(parts);
      }
    }
  }
}
