/** Phase 5b's compare loop: what one round does, the serial arm, and what a verdict means. */
module Verify {
  import opened Options
  import opened Bytes
  import opened Geometry
  import opened Readers
  import opened Devices
  import opened Pace

  datatype VerifyError =
    | Cancelled
    | DeviceUnreadable
    | ImageError(kind: IoKind)     // UnexpectedEof when the image is too short
    | Mismatch(offset: nat)        // absolute offset of the first differing byte
    | OutOfMemory
    | ZeroThrottle
    | ProtocolViolation

  /** The first index at which two equally long byte strings differ. */
  function FirstDiff(a: seq<byte>, b: seq<byte>): (r: Option<nat>)
    requires |a| == |b|
    ensures r.None? ==> a == b
    ensures r.Some? ==> r.value < |a| && a[r.value] != b[r.value] && a[..r.value] == b[..r.value]
  {
    if a == [] then None
    else if a[0] != b[0] then Some(0)
    else
      var rest := FirstDiff(a[1..], b[1..]);
      assert a == [a[0]] + a[1..] && b == [b[0]] + b[1..];
      if rest.None? then None
      else
        assert a[..rest.value + 1] == [a[0]] + a[1..][..rest.value];
        assert b[..rest.value + 1] == [b[0]] + b[1..][..rest.value];
        Some(rest.value + 1)
  }

  /** `compare_chunk`: `None` on agreement, else the absolute offset reported. Unequal lengths count
      as a difference at the chunk's start. */
  function CompareChunk(dev: seq<byte>, img: seq<byte>, offset: nat): (r: Option<nat>)
    ensures r.None? <==> dev == img
    ensures |dev| != |img| ==> r == Some(offset)
    ensures r.Some? && |dev| == |img| ==>
      && offset <= r.value < offset + |dev|
      && dev[r.value - offset] != img[r.value - offset]
      && dev[..r.value - offset] == img[..r.value - offset]
  {
    if dev == img then None
    else if |dev| != |img| then Some(offset)
    else Some(offset + FirstDiff(dev, img).value)
  }

  /** A verification about to enter its loop: `total` bytes of the image against the device. */
  datatype Check = Check(stream: seq<byte>, ending: Ending, disk: Disk, total: nat, unreadable: set<nat>)

  datatype Verdict = Agreed | Rejected(error: VerifyError) | Unwinding

  datatype Round = Next(offset: nat) | Stop(verdict: Verdict)

  /** One round: read the device, read as much of the image, compare. */
  function RoundStep(c: Check, offset: nat): (r: Round)
    requires offset <= Min(c.total, |c.stream|)
    ensures r.Next? ==> offset < r.offset <= Min(c.total, |c.stream|)
    ensures r.Stop? && r.verdict.Rejected? ==> r.verdict.error != Cancelled && r.verdict.error != ProtocolViolation
  {
    var len := Min(c.total - offset, BUF_SIZE);
    if len == 0 then Stop(Agreed)
    else if !Readable(c.disk, offset, len, c.unreadable) then Stop(Rejected(DeviceUnreadable))
    else match ExactOutcome(c.stream[offset..], c.ending, len)
      case ReadFailed(k) => Stop(Rejected(ImageError(k)))
      case Unwound => Stop(Unwinding)
      case Filled(_) =>
        var diff := CompareChunk(c.disk.bytes[offset..offset + len], c.stream[offset..offset + len], offset);
        if diff.Some? then Stop(Rejected(Mismatch(diff.value))) else Next(offset + len)
  }

  /** The offset after `k` rounds that all agreed. */
  function After(c: Check, k: nat): (r: Option<nat>)
    ensures r.Some? ==> r.value <= Min(c.total, |c.stream|)
  {
    if k == 0 then Some(0)
    else if After(c, k - 1).None? then None
    else match RoundStep(c, After(c, k - 1).value)
      case Next(offset) => Some(offset)
      case Stop(_) => None
  }

  /** A compare loop for `c` may end after `k` agreeing rounds with this verdict. The serial loop
      tests `remaining > 0` before it looks at the flag; the pipelined one also looks at it after
      the last round's sleep, which `late` admits. */
  ghost predicate LoopEnds(c: Check, k: nat, verdict: Verdict, late: bool)
  {
    && After(c, k).Some?
    && var offset := After(c, k).value;
       || RoundStep(c, offset) == Stop(verdict)
       || (verdict == Rejected(Cancelled) && (late || offset < c.total))
  }

  datatype Report = Ok | Err(error: VerifyError) | Panicked

  function Conclude(verdict: Verdict): Report
  {
    match verdict
    case Agreed => Ok
    case Rejected(e) => Err(e)
    case Unwinding => Panicked
  }

  // ---- The serial arm -------------------------------------------------------------------------

  datatype CompareStep = Matched(len: nat) | Ended(verdict: Verdict)

  /** One pass of the compare loop below its cancel check. */
  method CompareRound(dev: Device, reader: Reader, devBuf: array<byte>, imgBuf: array<byte>, offset: nat, len: nat,
                      unreadable: set<nat>, ghost c: Check)
    returns (step: CompareStep)
    requires devBuf.Length == imgBuf.Length == BUF_SIZE && devBuf != dev.data && imgBuf != dev.data && devBuf != imgBuf
    requires c.disk == dev.State() && c.unreadable == unreadable && offset <= Min(c.total, |c.stream|)
    requires 0 < len == Min(c.total - offset, BUF_SIZE)
    requires Stream(reader.script) == c.stream[offset..] && EndingOf(reader.script) == c.ending
    modifies reader, devBuf, imgBuf
    ensures RoundStep(c, offset) == (match step
              case Matched(n) => Next(offset + n)
              case Ended(v) => Stop(v))
    ensures step.Matched? ==>
      step.len == len && Stream(reader.script) == c.stream[offset + len..] && EndingOf(reader.script) == c.ending
  {
    hide CompareChunk, ExactOutcome, Stream, EndingOf;
    var readable := dev.ReadInto(devBuf, len, offset, unreadable);
    if !readable { return Ended(Rejected(DeviceUnreadable)); }
    ghost var onDevice := devBuf[..len];
    var fill := FillExact(reader, imgBuf, len);
    match fill
    case ReadFailed(kind) => step := Ended(Rejected(ImageError(kind)));
    case Unwound => step := Ended(Unwinding);
    case Filled(_) =>
      assert devBuf[..len] == onDevice == c.disk.bytes[offset..offset + len];
      assert imgBuf[..len] == c.stream[offset..offset + len];
      assert c.stream[offset..][len..] == c.stream[offset + len..];
      var diff := CompareChunk(devBuf[..len], imgBuf[..len], offset);
      step := if diff.Some? then Ended(Rejected(Mismatch(diff.value))) else Matched(len);
  }

  function CheckOf(script: Script, disk: Disk, total: nat, unreadable: set<nat>): Check
  {
    Check(Stream(script), EndingOf(script), disk, total, unreadable)
  }

  /** Every round needed one load of the flag that saw it clear: of the rounds after the flag is set,
      only the one that has already looked at it is compared. */
  predicate Prompt(before: Option<nat>, after: Option<nat>, rounds: nat)
  {
    before.Some? ==> after.Some? && rounds + after.value <= before.value
  }

  method CompareLoop(dev: Device, reader: Reader, total: nat, target: Target, unreadable: set<nat>,
                     cancel: CancelFlag, clock: Clock, ghost c: Check)
    returns (verdict: Verdict, k: nat)
    requires c == CheckOf(reader.script, dev.State(), total, unreadable)
    modifies reader, cancel, clock
    ensures LoopEnds(c, k, verdict, false)
    ensures verdict == Rejected(Cancelled) ==> old(cancel.clear).Some?
    ensures old(cancel.IsSet()) ==> k == 0 && verdict == if total == 0 then Agreed else Rejected(Cancelled)
    ensures OnlyLoads(old(cancel.clear), cancel.clear)
    ensures Prompt(old(cancel.clear), cancel.clear,
                   if verdict == Agreed || verdict == Rejected(Cancelled) then k else k + 1)
    ensures clock.now >= old(clock.now)
    ensures cancel.IsSet() || clock.now >= old(clock.now) + Due(target, k)
  {
    hide RoundStep;
    var devBuf := new byte[BUF_SIZE](_ => 0);
    var imgBuf := new byte[BUF_SIZE](_ => 0);
    var remaining: nat := total;
    var offset: nat := 0;
    k := 0;
    while remaining > 0
      invariant offset + remaining == total && dev.State() == c.disk
      invariant After(c, k) == Some(offset)
      invariant Stream(reader.script) == c.stream[offset..] && EndingOf(reader.script) == c.ending
      invariant OnlyLoads(old(cancel.clear), cancel.clear)
      invariant old(cancel.IsSet()) ==> cancel.IsSet() && k == 0 && remaining == total
      invariant Prompt(old(cancel.clear), cancel.clear, k)
      invariant clock.now >= old(clock.now)
      invariant cancel.IsSet() || clock.now >= old(clock.now) + Due(target, k)
    {
      var raised := cancel.Load();
      if raised { return Rejected(Cancelled), k; }
      var started := clock.now;
      clock.Spend();
      var len := Min(remaining, BUF_SIZE);
      var step := CompareRound(dev, reader, devBuf, imgBuf, offset, len, unreadable, c);
      if step.Ended? { return step.verdict, k; }
      remaining, offset, k := remaining - len, offset + len, k + 1;
      PaceChunk(target, started, cancel, clock);
    }
    NothingLeft(c, offset);
    return Agreed, k;
  }

  lemma NothingLeft(c: Check, offset: nat)
    requires offset == c.total <= |c.stream|
    ensures RoundStep(c, offset) == Stop(Agreed)
  {
  }

  /** What a verify arm that needs `buffers` buffers may report. */
  ghost predicate Verifies(script: Script, disk: Disk, total: nat, throttle: Option<u64>, unreadable: set<nat>,
                           memory: nat, buffers: nat, late: bool, k: nat, r: Report)
  {
    if memory < buffers || throttle == Some(0) then
      && (r == Err(OutOfMemory) || r == Err(ZeroThrottle))
      && (r == Err(OutOfMemory) ==> memory < buffers)
      && (r == Err(ZeroThrottle) ==> throttle == Some(0))
    else exists v ::
      LoopEnds(CheckOf(script, disk, total, unreadable), k, v, late) && r == Conclude(v)
  }

  /** `verify_serial`. */
  method VerifySerial(dev: Device, reader: Reader, total: nat, throttle: Option<u64>, unreadable: set<nat>,
                      memory: nat, cancel: CancelFlag, clock: Clock)
    returns (r: Report, k: nat)
    modifies reader, cancel, clock
    ensures Verifies(old(reader.script), old(dev.State()), total, throttle, unreadable, memory, 2, false, k, r)
    ensures r == Err(Cancelled) ==> old(cancel.clear).Some?
    ensures old(cancel.IsSet()) && 0 < total && 2 <= memory && throttle != Some(0) ==> r == Err(Cancelled)
    ensures OnlyLoads(old(cancel.clear), cancel.clear)
    ensures Prompt(old(cancel.clear), cancel.clear, k)
    ensures clock.now >= old(clock.now)
    ensures !cancel.IsSet() ==> clock.now >= old(clock.now) + Due(ChunkTarget(throttle), k)
  {
    if memory < 2 { return Err(OutOfMemory), 0; }
    var target := ChunkTarget(throttle);
    if target == ZeroRate { return Err(ZeroThrottle), 0; }
    ghost var c := CheckOf(reader.script, dev.State(), total, unreadable);
    var verdict;
    verdict, k := CompareLoop(dev, reader, total, target, unreadable, cancel, clock, c);
    r := Conclude(verdict);
  }
}
