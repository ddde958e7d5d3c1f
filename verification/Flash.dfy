/** Phase 4's write loop: what one round does, the serial arm, and what a whole flash means. */
module Flash {
  import opened Options
  import opened Bytes
  import opened Geometry
  import opened Readers
  import opened Devices
  import opened Pace

  datatype FlashError =
    | Cancelled
    | CapacityExceeded          // the pre-check: the chunk would pass the device's end
    | OutOfSpace                // the device itself reported ENOSPC or a stalled write
    | WriteFailed(kind: IoKind)
    | ReadError(kind: IoKind)
    | FcntlFailed
    | SyncFailed
    | OutOfMemory
    | ZeroThrottle
    | ProtocolViolation

  /** Everything the environment decides outside the reader, the flag and the clock. */
  datatype Faults = Faults(
    enable: Fcntl,              // set_direct(true) before the loop
    tail: Fcntl,                // set_direct(false) before the tail write
    finish: Fcntl,              // set_direct(false) after the loop
    syncFails: bool,
    tears: map<nat, Tear>,
    buffers: nat)               // how many aligned buffers can be allocated

  function ChunkEndWithin(offset: nat, len: nat, devSize: u64): (end: Option<nat>)
  {
    if offset + len <= U64_MAX && offset + len <= devSize then Some(offset + len) else None
  }

  datatype ChunkOutcome = Continue(end: nat) | Done(end: nat) | Aborted(error: FlashError)

  datatype ChunkResult = ChunkResult(outcome: ChunkOutcome, disk: Disk)

  function WriteError(kind: IoKind): (e: FlashError)
    ensures e.OutOfSpace? || e.WriteFailed?
  {
    if kind.StorageFull? || kind.WriteZero? then OutOfSpace else WriteFailed(kind)
  }

  /** `process_chunk`: nothing for an empty chunk, a direct write for a full one, a buffered write
      that ends the loop for anything between. */
  function ChunkStep(faults: Faults, devSize: u64, disk: Disk, chunk: seq<byte>, offset: nat): (r: ChunkResult)
    ensures |r.disk.bytes| == |disk.bytes|
    ensures r.outcome.Continue? ==> |chunk| == BUF_SIZE && r.outcome.end == offset + |chunk| <= devSize
    ensures r.outcome.Done? ==> |chunk| != BUF_SIZE && r.outcome.end == offset + |chunk|
    ensures r.outcome.Aborted? ==> r.outcome.error != Cancelled && r.outcome.error != ProtocolViolation
  {
    if chunk == [] then ChunkResult(Done(offset), disk)
    else
      var fits := ChunkEndWithin(offset, |chunk|, devSize);
      if fits.None? then ChunkResult(Aborted(CapacityExceeded), disk)
      else if |chunk| == BUF_SIZE then
        var w := WriteAllAt(disk, chunk, offset, faults.tears);
        ChunkResult(if w.error.Some? then Aborted(WriteError(w.error.value)) else Continue(fits.value), w.disk)
      else
        var f := SetDirect(disk, false, faults.tail);
        if f.error.Some? then ChunkResult(Aborted(FcntlFailed), f.disk)
        else
          var w := WriteAllAt(f.disk, chunk, offset, faults.tears);
          ChunkResult(if w.error.Some? then Aborted(WriteError(w.error.value)) else Done(fits.value), w.disk)
  }

  /** A flash about to enter its loop: the bytes the reader will deliver and the device they go to. */
  datatype Job = Job(stream: seq<byte>, ending: Ending, disk: Disk, devSize: u64, faults: Faults)

  datatype Cursor = Cursor(disk: Disk, offset: nat)

  /** How a write loop ended, before the post-loop work. */
  datatype Outcome = Finished(total: nat) | Stopped(error: FlashError) | Unwinding

  datatype Round = Next(cursor: Cursor) | Stop(outcome: Outcome, disk: Disk)

  /** One round of the loop: fill a buffer, then process it. */
  function RoundStep(job: Job, c: Cursor): (r: Round)
    requires c.offset <= |job.stream|
    ensures r.Next? ==> r.cursor.offset == c.offset + BUF_SIZE <= |job.stream|
    ensures r.Stop? ==> r.outcome != Stopped(Cancelled)
  {
    match FillOutcome(job.stream[c.offset..], job.ending, BUF_SIZE)
    case ReadFailed(k) => Stop(Stopped(ReadError(k)), c.disk)
    case Unwound => Stop(Unwinding, c.disk)
    case Filled(n) =>
      RoundOf(ChunkStep(job.faults, job.devSize, c.disk, job.stream[c.offset..c.offset + n], c.offset))
  }

  function RoundOf(w: ChunkResult): Round
  {
    match w.outcome
    case Continue(end) => Next(Cursor(w.disk, end))
    case Done(end) => Stop(Finished(end), w.disk)
    case Aborted(e) => Stop(Stopped(e), w.disk)
  }

  /** Where the loop stands after `k` full chunks, if it gets that far. */
  function After(job: Job, k: nat): (r: Option<Cursor>)
    ensures r.Some? ==> r.value.offset == k * BUF_SIZE <= |job.stream|
  {
    if k == 0 then Some(Cursor(job.disk, 0))
    else match After(job, k - 1)
      case None => None
      case Some(c) =>
        match RoundStep(job, c)
        case Next(c') => Some(c')
        case Stop(_, _) => None
  }

  /** A write loop for `job` may end after `k` full chunks with this outcome and device: either the
      next round ends it, or the cancel check at the top of that round does. */
  ghost predicate LoopEnds(job: Job, k: nat, outcome: Outcome, disk: Disk)
  {
    && After(job, k).Some?
    && var c := After(job, k).value;
       RoundStep(job, c) == Stop(outcome, disk) || (outcome == Stopped(Cancelled) && disk == c.disk)
  }

  datatype Report = Ok(total: nat) | Err(error: FlashError) | Panicked

  datatype Settled = Settled(report: Report, disk: Disk)

  /** The post-loop work shared by both arms: on success clear `O_DIRECT` and sync. */
  function Settle(faults: Faults, outcome: Outcome, disk: Disk): (r: Settled)
    ensures r.disk.bytes == disk.bytes && r.disk.log == disk.log
  {
    match outcome
    case Stopped(e) => Settled(Err(e), disk)
    case Unwinding => Settled(Panicked, disk)
    case Finished(total) =>
      var f := SetDirect(disk, false, faults.finish);
      if f.error.Some? then Settled(Err(FcntlFailed), f.disk)
      else if faults.syncFails then Settled(Err(SyncFailed), f.disk)
      else Settled(Ok(total), f.disk)
  }

  // ---- The serial arm -------------------------------------------------------------------------

  method ProcessChunk(dev: Device, buf: array<byte>, filled: nat, offset: nat, devSize: u64, faults: Faults,
                      ghost chunk: seq<byte>)
    returns (r: ChunkOutcome)
    requires buf.Length == BUF_SIZE && filled <= BUF_SIZE && buf != dev.data
    requires chunk == buf[..filled]
    modifies dev, dev.data
    ensures ChunkResult(r, dev.State()) == ChunkStep(faults, devSize, old(dev.State()), chunk, offset)
  {
    if filled == 0 { return Done(offset); }
    var fits := ChunkEndWithin(offset, filled, devSize);
    if fits == None { return Aborted(CapacityExceeded); }
    if filled == BUF_SIZE {
      var w := dev.WriteAt(buf[..filled], offset, faults.tears);
      return if w.Some? then Aborted(WriteError(w.value)) else Continue(fits.value);
    }
    var ok := dev.SetFlag(false, faults.tail);
    if !ok { return Aborted(FcntlFailed); }
    var w := dev.WriteAt(buf[..filled], offset, faults.tears);
    return if w.Some? then Aborted(WriteError(w.value)) else Done(fits.value);
  }

  method FlashFinalize(dev: Device, faults: Faults) returns (r: Option<FlashError>)
    modifies dev
    ensures r.None? <==>
      (faults.finish == Works || (faults.finish == SetFails && !old(dev.direct))) && !faults.syncFails
    ensures faults.syncFails ==> r.Some?
    ensures r.Some? ==> r == Some(if dev.direct || faults.finish == GetFails then FcntlFailed else SyncFailed)
    ensures r.None? ==> !dev.direct
    ensures forall total ::
      Settled(if r.Some? then Err(r.value) else Ok(total), dev.State())
        == Settle(faults, Finished(total), old(dev.State()))
  {
    var ok := dev.SetFlag(false, faults.finish);
    if !ok { return Some(FcntlFailed); }
    if faults.syncFails { return Some(SyncFailed); }
    return None;
  }

  function JobOf(script: Script, disk: Disk, devSize: u64, faults: Faults): Job
  {
    Job(Stream(script), EndingOf(script), disk, devSize, faults)
  }

  /** What a flash arm that started on `disk` and needs `buffers` buffers may report: a setup
      failure with no byte written, or the settled end of a write loop that ran `k` full chunks. */
  ghost predicate Flashes(script: Script, disk: Disk, devSize: u64, throttle: Option<u64>, faults: Faults,
                          buffers: nat, k: nat, r: Report, after: Disk)
  {
    var f := SetDirect(disk, true, faults.enable);
    if f.error.Some? then r == Err(FcntlFailed) && after == f.disk
    else if faults.buffers < buffers || throttle == Some(0) then
      && after == f.disk
      && (r == Err(OutOfMemory) || r == Err(ZeroThrottle))
      && (r == Err(OutOfMemory) ==> faults.buffers < buffers)
      && (r == Err(ZeroThrottle) ==> throttle == Some(0))
    else exists o, d ::
      && LoopEnds(JobOf(script, f.disk, devSize, faults), k, o, d)
      && Settled(r, after) == Settle(faults, o, d)
  }

  datatype WriteStep = Wrote(end: nat) | Ended(outcome: Outcome)

  /** One pass of the write loop below its cancel check: fill, then process. */
  method WriteRound(dev: Device, reader: Reader, buf: array<byte>, offset: nat, devSize: u64, faults: Faults,
                    ghost job: Job, ghost c: Cursor)
    returns (step: WriteStep)
    requires buf.Length == BUF_SIZE && buf != dev.data
    requires c == Cursor(dev.State(), offset) && offset <= |job.stream|
    requires Stream(reader.script) == job.stream[offset..] && EndingOf(reader.script) == job.ending
    requires job.devSize == devSize && job.faults == faults
    modifies dev, dev.data, reader, buf
    ensures RoundStep(job, c) == (match step
              case Wrote(end) => Next(Cursor(dev.State(), end))
              case Ended(outcome) => Stop(outcome, dev.State()))
    ensures step.Wrote? ==>
      Stream(reader.script) == job.stream[step.end..] && EndingOf(reader.script) == job.ending
  {
    hide ChunkStep;
    var fill := FillBuffer(reader, buf);
    assert dev.State() == c.disk;
    match fill
    case ReadFailed(kind) => step := Ended(Stopped(ReadError(kind)));
    case Unwound => step := Ended(Unwinding);
    case Filled(n) =>
      ghost var chunk := job.stream[offset..offset + n];
      assert job.stream[offset..][..n] == chunk && job.stream[offset..][n..] == job.stream[offset + n..];
      var outcome := ProcessChunk(dev, buf, n, offset, devSize, faults, chunk);
      match outcome
      case Continue(end) => step := Wrote(end);
      case Done(end) => step := Ended(Finished(end));
      case Aborted(e) => step := Ended(Stopped(e));
  }

  lemma OneWriteAtMost(faults: Faults, devSize: u64, disk: Disk, chunk: seq<byte>, at: nat)
    ensures |ChunkStep(faults, devSize, disk, chunk, at).disk.log| <= |disk.log| + 1
  {
    hide Landed, WriteFailure;
  }

  lemma RoundWritesOnce(job: Job, c: Cursor)
    requires c.offset <= |job.stream|
    ensures var r := RoundStep(job, c);
            |(if r.Next? then r.cursor.disk else r.disk).log| <= |c.disk.log| + 1
  {
    var fill := FillOutcome(job.stream[c.offset..], job.ending, BUF_SIZE);
    if fill.Filled? {
      OneWriteAtMost(job.faults, job.devSize, c.disk, job.stream[c.offset..c.offset + fill.n], c.offset);
    }
    hide ChunkStep;
  }

  /** Every write needed one load of the flag that saw it clear: of all writes issued after the flag
      is set, only the one whose round has already looked at it is made. */
  predicate Prompt(clear: Option<nat>, logged: nat, clear': Option<nat>, logged': nat)
  {
    clear.Some? ==> clear'.Some? && logged' + clear'.value <= logged + clear.value
  }

  /** The write loop of `flash_serial`; `k` counts the full chunks written. */
  method WriteLoop(dev: Device, reader: Reader, devSize: u64, target: Target, faults: Faults,
                   cancel: CancelFlag, clock: Clock, ghost job: Job)
    returns (outcome: Outcome, k: nat)
    requires job == JobOf(reader.script, dev.State(), devSize, faults)
    modifies dev, dev.data, reader, cancel, clock
    ensures LoopEnds(job, k, outcome, dev.State())
    ensures outcome == Stopped(Cancelled) ==> old(cancel.clear).Some?
    ensures old(cancel.IsSet()) ==> outcome == Stopped(Cancelled) && k == 0
    ensures OnlyLoads(old(cancel.clear), cancel.clear)
    ensures Prompt(old(cancel.clear), |old(dev.log)|, cancel.clear, |dev.log|)
    ensures clock.now >= old(clock.now)
    ensures cancel.IsSet() || clock.now >= old(clock.now) + Due(target, k)
  {
    hide RoundStep;
    ghost var begun := clock.now;
    var buf := new byte[BUF_SIZE](_ => 0);
    var offset: nat := 0;
    ghost var c := Cursor(dev.State(), 0);
    k := 0;
    while true
      invariant c == Cursor(dev.State(), offset)
      invariant After(job, k) == Some(c)
      invariant Stream(reader.script) == job.stream[offset..] && EndingOf(reader.script) == job.ending
      invariant OnlyLoads(old(cancel.clear), cancel.clear)
      invariant old(cancel.IsSet()) ==> cancel.IsSet() && k == 0
      invariant Prompt(old(cancel.clear), |old(dev.log)|, cancel.clear, |dev.log|)
      invariant clock.now >= begun
      invariant cancel.IsSet() || clock.now >= begun + Due(target, k)
      decreases |job.stream| - offset
    {
      var raised := cancel.Load();
      if raised { return Stopped(Cancelled), k; }
      var started := clock.now;
      clock.Spend();
      assert dev.State() == c.disk;
      RoundWritesOnce(job, c);
      var step := WriteRound(dev, reader, buf, offset, devSize, faults, job, c);
      if step.Ended? { return step.outcome, k; }
      offset, k, c := step.end, k + 1, Cursor(dev.State(), step.end);
      PaceChunk(target, started, cancel, clock);
    }
  }

  /** `flash_serial`. */
  method FlashSerial(dev: Device, reader: Reader, devSize: u64, throttle: Option<u64>, faults: Faults,
                     cancel: CancelFlag, clock: Clock)
    returns (r: Report, k: nat)
    modifies dev, dev.data, reader, cancel, clock
    ensures Flashes(old(reader.script), old(dev.State()), devSize, throttle, faults, 1, k, r, dev.State())
    ensures r == Err(Cancelled) ==> old(cancel.clear).Some?
    ensures old(cancel.IsSet()) && faults.enable == Works && 1 <= faults.buffers && throttle != Some(0) ==>
      r == Err(Cancelled)
    ensures OnlyLoads(old(cancel.clear), cancel.clear)
    ensures Prompt(old(cancel.clear), |old(dev.log)|, cancel.clear, |dev.log|)
    ensures clock.now >= old(clock.now)
    ensures !cancel.IsSet() && throttle.Some? && 0 < k ==>
      k * BUF_SIZE * NANOS < throttle.value * ((clock.now - old(clock.now)) + k)
  {
    hide LoopEnds, SetDirect, Stream, EndingOf, Due;
    k := 0;
    SetDirectMeaning(dev.State(), true, faults.enable);
    var enabled := dev.SetFlag(true, faults.enable);
    if !enabled { return Err(FcntlFailed), 0; }
    if faults.buffers == 0 { return Err(OutOfMemory), 0; }
    var target := ChunkTarget(throttle);
    if target == ZeroRate { return Err(ZeroThrottle), 0; }
    ghost var job := JobOf(reader.script, dev.State(), devSize, faults);
    var outcome: Outcome;
    outcome, k := WriteLoop(dev, reader, devSize, target, faults, cancel, clock, job);
    if !cancel.IsSet() { Throttled(throttle, k, clock.now - old(clock.now)); }
    ghost var d := dev.State();
    match outcome
    case Stopped(e) => r := Err(e);
    case Unwinding => r := Panicked;
    case Finished(total) =>
      var error := FlashFinalize(dev, faults);
      r := if error.Some? then Err(error.value) else Ok(total);
    assert Settled(r, dev.State()) == Settle(faults, outcome, d);
  }
}
