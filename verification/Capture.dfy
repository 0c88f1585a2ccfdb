/** The capture process as a chunked byte stream, exact frame reads, and the
    handle that owns at most one process. */
module Capture {
  import opened Machine
  import opened Wire
  import opened WireCodec

  /** What the next read of stdout does: hands over at most `limit` bytes, or fails. */
  datatype ReadEvent = Deliver(limit: nat) | Fails

  /** A running process: its identity, everything it ever writes, how much of it
      was read, and the chunking of the reads to come. After the last event stdout
      is closed. */
  datatype Pipe = Pipe(pid: nat, stream: Bytes, position: nat, script: seq<ReadEvent>)

  datatype Chunk = Got(bytes: Bytes) | ReadFailed

  /** `read_stdout` into a buffer with `space` bytes left; no bytes means end of file. */
  function ReadStdout(p: Pipe, space: nat): (Pipe, Chunk)
  {
    if p.script == [] || p.position >= |p.stream| then (p, Got([]))
    else match p.script[0]
      case Fails => (p.(script := p.script[1..]), ReadFailed)
      case Deliver(limit) =>
        var n := Min(Min(limit, space), |p.stream| - p.position);
        (p.(script := p.script[1..], position := p.position + n),
         Got(p.stream[p.position..p.position + n]))
  }

  datatype ReadFailure = Eof(bytesRead: nat) | ReadError(bytesRead: nat)

  /** Continues a frame read of which `got` is already in the buffer. */
  function ReadRest(p: Pipe, got: Bytes): (Pipe, Result<PcmFrame, ReadFailure>)
    requires |got| <= PCM_PAYLOAD_BYTES
    decreases PCM_PAYLOAD_BYTES - |got|
  {
    if |got| == PCM_PAYLOAD_BYTES then (p, Ok(got))
    else
      var (after, chunk) := ReadStdout(p, PCM_PAYLOAD_BYTES - |got|);
      match chunk
      case ReadFailed => (after, Err(ReadError(|got|)))
      case Got(bytes) => if bytes == [] then (after, Err(Eof(|got|))) else ReadRest(after, got + bytes)
  }

  function ReadOneFrame(p: Pipe): (Pipe, Result<PcmFrame, ReadFailure>) { ReadRest(p, []) }

  lemma ReadStdoutTakesNext(p: Pipe, space: nat)
    ensures var (after, chunk) := ReadStdout(p, space);
      after.stream == p.stream && after.pid == p.pid &&
      match chunk
      case ReadFailed => after.position == p.position
      case Got(bytes) =>
        |bytes| <= space && after.position == p.position + |bytes| &&
        (bytes != [] ==> after.position <= |p.stream| && bytes == p.stream[p.position..after.position])
  {
  }

  lemma JoinSlices(s: Bytes, a: nat, b: nat, c: nat)
    requires a <= b <= c <= |s|
    ensures s[a..b] + s[b..c] == s[a..c]
  {
  }

  lemma {:induction false} ReadRestIsContiguous(p: Pipe, start: nat, got: Bytes)
    requires |got| <= PCM_PAYLOAD_BYTES
    requires start + |got| == p.position
    requires got != [] ==> p.position <= |p.stream| && got == p.stream[start..p.position]
    ensures var (after, r) := ReadRest(p, got);
      after.stream == p.stream && after.pid == p.pid &&
      match r
      case Ok(pcm) =>
        after.position == start + PCM_PAYLOAD_BYTES <= |p.stream| && pcm == p.stream[start..after.position]
      case Err(f) => start + f.bytesRead == after.position && f.bytesRead < PCM_PAYLOAD_BYTES
    decreases PCM_PAYLOAD_BYTES - |got|
  {
    if |got| < PCM_PAYLOAD_BYTES {
      ReadStdoutTakesNext(p, PCM_PAYLOAD_BYTES - |got|);
      var (after, chunk) := ReadStdout(p, PCM_PAYLOAD_BYTES - |got|);
      if chunk.Got? && chunk.bytes != [] {
        if got != [] {
          JoinSlices(p.stream, start, p.position, after.position);
        }
        assert got + chunk.bytes == p.stream[start..after.position];
        ReadRestIsContiguous(after, start, got + chunk.bytes);
      }
    }
  }

  /** Whatever the chunk sizes, a frame that is read is exactly the next 480 bytes
      of the stream; a read that fails has consumed exactly the bytes it reports,
      fewer than a frame, and they are lost. */
  lemma FrameIsNextBlock(p: Pipe)
    ensures var (after, r) := ReadOneFrame(p);
      after.stream == p.stream && after.pid == p.pid &&
      match r
      case Ok(pcm) =>
        after.position == p.position + PCM_PAYLOAD_BYTES <= |p.stream| && pcm == p.stream[p.position..after.position]
      case Err(f) => after.position == p.position + f.bytesRead && f.bytesRead < PCM_PAYLOAD_BYTES
  {
    ReadRestIsContiguous(p, p.position, []);
  }

  // ------------------------------------------------------------ when a read succeeds

  /** The next reads hand over `need` bytes before any of them fails or returns nothing,
      as long as the stream lasts. */
  predicate Supplies(script: seq<ReadEvent>, need: nat)
    decreases |script|
  {
    need == 0 ||
    (script != [] && script[0].Deliver? && script[0].limit > 0 &&
     Supplies(script[1..], need - Min(script[0].limit, need)))
  }

  /** The next reads hand over `got` bytes, as long as the stream lasts, and then one fails. */
  predicate Breaks(script: seq<ReadEvent>, got: nat)
    decreases |script|
  {
    script != [] &&
    if script[0].Fails? then got == 0
    else 0 < script[0].limit <= got && Breaks(script[1..], got - script[0].limit)
  }

  lemma {:induction false} RestIsSupplied(p: Pipe, got: Bytes)
    requires |got| <= PCM_PAYLOAD_BYTES
    ensures var need := PCM_PAYLOAD_BYTES - |got|;
      ReadRest(p, got).1.Ok? <==> need == 0 || (Supplies(p.script, need) && p.position + need <= |p.stream|)
    decreases PCM_PAYLOAD_BYTES - |got|
  {
    var need := PCM_PAYLOAD_BYTES - |got|;
    var (after, chunk) := ReadStdout(p, need);
    if need > 0 && chunk.Got? && chunk.bytes != [] {
      RestIsSupplied(after, got + chunk.bytes);
    }
  }

  lemma {:induction false} RestBreaks(p: Pipe, got: Bytes, n: int)
    requires |got| <= PCM_PAYLOAD_BYTES
    ensures var r := ReadRest(p, got).1;
      (r.Err? ==> r.error.bytesRead >= |got|) &&
      (r.Err? && r.error.ReadError? && r.error.bytesRead == |got| + n <==>
        0 <= n < PCM_PAYLOAD_BYTES - |got| && p.position + n < |p.stream| && Breaks(p.script, n))
    decreases PCM_PAYLOAD_BYTES - |got|
  {
    var need := PCM_PAYLOAD_BYTES - |got|;
    var (after, chunk) := ReadStdout(p, need);
    if need > 0 && chunk.Got? && chunk.bytes != [] {
      RestBreaks(after, got + chunk.bytes, n - |chunk.bytes|);
    }
  }

  /** A frame is read exactly when the reads supply 480 bytes and the stream still has
      them; a read error after n bytes is reported exactly when a read fails after n
      bytes; every other failure is an end of file. */
  lemma ReadsExactlyWhenSupplied(p: Pipe, n: nat)
    ensures var r := ReadOneFrame(p).1;
      (r.Ok? <==> Supplies(p.script, 480) && p.position + 480 <= |p.stream|) &&
      (r == Err(ReadError(n)) <==> n < 480 && p.position + n < |p.stream| && Breaks(p.script, n))
  {
    RestIsSupplied(p, []);
    RestBreaks(p, [], n);
  }

  /** The source's loop over a fixed buffer. */
  method ReadOneFrameInto(p: Pipe) returns (after: Pipe, result: Result<PcmFrame, ReadFailure>)
    ensures (after, result) == ReadOneFrame(p)
  {
    var frame := new U8[PCM_PAYLOAD_BYTES](_ => 0);
    var bytesRead := 0;
    ghost var got := [];
    after := p;
    while bytesRead < frame.Length
      invariant bytesRead <= frame.Length && got == frame[..bytesRead]
      invariant ReadRest(after, got) == ReadOneFrame(p)
      decreases frame.Length - bytesRead
    {
      ReadStdoutTakesNext(after, frame.Length - bytesRead);
      var (next, chunk) := ReadStdout(after, frame.Length - bytesRead);
      after := next;
      if chunk.ReadFailed? {
        return after, Err(ReadError(bytesRead));
      }
      if chunk.bytes == [] {
        return after, Err(Eof(bytesRead));
      }
      CopyFromSlice(frame, bytesRead, chunk.bytes);
      bytesRead := bytesRead + |chunk.bytes|;
      got := got + chunk.bytes;
      assert frame[..bytesRead] == frame[..][..bytesRead] == got;
    }
    assert frame[..bytesRead] == frame[..];
    result := Ok(frame[..]);
  }

  // ------------------------------------------------------------ the handle

  /** How a process that closed stdout turns out to have ended. */
  datatype Exit = Exited(success: bool, endpointMissing: bool) | ReapFailed

  datatype CaptureError =
    | SpawnFailed
    | NotRunning
    | StdoutRead(bytesRead: nat)
    | EndpointNotFound
    | StdoutClosed(bytesRead: nat)
    | StopFailed

  datatype Handle = Handle(process: Option<Pipe>, lastAcquired: Option<nat>)

  datatype CapturedFrame = CapturedFrame(pcm: PcmFrame, acquiredAt: nat)

  const NO_CAPTURE := Handle(None, None)

  /** `spawn` is the process that a launch yields, if it succeeds. */
  function StartCapture(h: Handle, spawn: Option<Pipe>): (Handle, Result<(), CaptureError>)
  {
    if h.process.Some? then (h, Ok(()))
    else if spawn.None? then (h, Err(SpawnFailed))
    else (h.(process := spawn), Ok(()))
  }

  function StopCapture(h: Handle, stopOk: bool): (Handle, Result<(), CaptureError>)
  {
    if h.process.None? then (h, Ok(()))
    else (h.(process := None), if stopOk then Ok(()) else Err(StopFailed))
  }

  function ReadCapture(h: Handle, observedAt: nat, exit: Exit): (Handle, Result<CapturedFrame, CaptureError>)
  {
    if h.process.None? then (h, Err(NotRunning))
    else
      var (after, read) := ReadOneFrame(h.process.value);
      match read
      case Ok(pcm) =>
        var acquired := if h.lastAcquired.None? then observedAt else Max(h.lastAcquired.value, observedAt);
        (Handle(Some(after), Some(acquired)), Ok(CapturedFrame(pcm, acquired)))
      case Err(Eof(n)) =>
        (h.(process := None),
         Err(if exit.ReapFailed? then StdoutRead(n)
             else if !exit.success && exit.endpointMissing then EndpointNotFound
             else StdoutClosed(n)))
      case Err(ReadError(n)) => (h.(process := Some(after)), Err(StdoutRead(n)))
  }

  /** Acquisition times never run backwards, even when the clock does. */
  lemma AcquisitionIsMonotonic(h: Handle, observedAt: nat, exit: Exit)
    ensures var (after, r) := ReadCapture(h, observedAt, exit);
      (h.lastAcquired.Some? ==> after.lastAcquired.Some? && after.lastAcquired.value >= h.lastAcquired.value) &&
      (r.Ok? ==> r.value.acquiredAt >= observedAt && after.lastAcquired == Some(r.value.acquiredAt))
  {
  }

  /** What each way of reading a frame leaves behind: a frame keeps the process, a read
      error keeps it too and reports the bytes lost, and an end of file gives it up, as
      a missing endpoint exactly when the process failed and said so. Without a process
      nothing is read. */
  lemma ReadOutcomesAreExact(h: Handle, observedAt: nat, exit: Exit)
    ensures var (after, r) := ReadCapture(h, observedAt, exit);
      if h.process.None? then after == h && r == Err(NotRunning)
      else
        var (pipe, read) := ReadOneFrame(h.process.value);
        match read
        case Ok(pcm) =>
          after.process == Some(pipe) && r.Ok? && r.value.pcm == pcm &&
          after.lastAcquired == Some(r.value.acquiredAt) &&
          r.value.acquiredAt == if h.lastAcquired.Some? then Max(h.lastAcquired.value, observedAt) else observedAt
        case Err(ReadError(n)) =>
          after == h.(process := Some(pipe)) && r == Err(StdoutRead(n))
        case Err(Eof(n)) =>
          after == h.(process := None) &&
          (r == Err(StdoutRead(n)) <==> exit.ReapFailed?) &&
          (r == Err(EndpointNotFound) <==> exit.Exited? && !exit.success && exit.endpointMissing) &&
          (r == Err(StdoutClosed(n)) <==> exit.Exited? && (exit.success || !exit.endpointMissing))
  {
    hide ReadOneFrame;
  }

  class CaptureHandle {
    var process: Option<Pipe>
    var lastAcquiredAt: Option<nat>

    function View(): Handle
      reads this
    {
      Handle(process, lastAcquiredAt)
    }

    constructor ()
      ensures View() == NO_CAPTURE
    {
      process, lastAcquiredAt := None, None;
    }

    method Start(spawn: Option<Pipe>) returns (result: Result<(), CaptureError>)
      modifies this
      ensures (View(), result) == StartCapture(old(View()), spawn)
    {
      if process.None? {
        if spawn.None? {
          return Err(SpawnFailed);
        }
        process := spawn;
      }
      result := Ok(());
    }

    method Stop(stopOk: bool) returns (result: Result<(), CaptureError>)
      modifies this
      ensures (View(), result) == StopCapture(old(View()), stopOk)
      ensures process.None?
    {
      if process.None? {
        return Ok(());
      }
      process := None;
      result := if stopOk then Ok(()) else Err(StopFailed);
    }

    method ReadFrame(observedAt: nat, exit: Exit) returns (result: Result<CapturedFrame, CaptureError>)
      modifies this
      ensures (View(), result) == ReadCapture(old(View()), observedAt, exit)
    {
      if process.None? {
        return Err(NotRunning);
      }
      var after, read := ReadOneFrameInto(process.value);
      if read.Ok? {
        var acquiredAt := if lastAcquiredAt.None? then observedAt else Max(lastAcquiredAt.value, observedAt);
        process := Some(after);
        lastAcquiredAt := Some(acquiredAt);
        return Ok(CapturedFrame(read.value, acquiredAt));
      }
      if read.error.ReadError? {
        process := Some(after);
        return Err(StdoutRead(read.error.bytesRead));
      }
      process := None;
      result := Err(
        if exit.ReapFailed? then StdoutRead(read.error.bytesRead)
        else if !exit.success && exit.endpointMissing then EndpointNotFound
        else StdoutClosed(read.error.bytesRead));
    }
  }
}
