/** What every flash achieves, whichever arm ran it: stated about `LoopEnds`, the relation both
    arms are proved to meet. */
module FlashMeaning {
  import opened Options
  import opened Bytes
  import opened Geometry
  import opened Readers
  import opened Devices
  import opened Flash

  /** The writes of the first `k` full chunks. */
  function FullWrites(k: nat, direct: bool): seq<Pwrite>
  {
    if k == 0 then [] else FullWrites(k - 1, direct) + [Pwrite((k - 1) * BUF_SIZE, BUF_SIZE, direct)]
  }

  /** The device a loop has written the first `k` chunks to, and nothing else. */
  ghost predicate WrittenUpTo(job: Job, k: nat, disk: Disk)
  {
    && k * BUF_SIZE <= |job.stream|
    && k * BUF_SIZE <= |job.disk.bytes|
    && (0 < k ==> k * BUF_SIZE <= job.devSize)
    && disk == Disk(Splice(job.disk.bytes, 0, job.stream[..k * BUF_SIZE]), job.disk.direct,
                    job.disk.log + FullWrites(k, job.disk.direct))
  }

  lemma {:induction false} AfterMeaning(job: Job, k: nat)
    requires After(job, k).Some?
    ensures WrittenUpTo(job, k, After(job, k).value.disk)
  {
    hide RoundStep;
    if k == 0 {
      assert Splice(job.disk.bytes, 0, job.stream[..0]) == job.disk.bytes;
    } else {
      AfterMeaning(job, k - 1);
      NextMultiple(k - 1, BUF_SIZE);
      var c := After(job, k - 1).value;
      NextMeaning(job, c);
      var chunk := job.stream[c.offset..c.offset + BUF_SIZE];
      SpliceExtend(job.disk.bytes, job.stream[..c.offset], chunk);
      assert job.stream[..k * BUF_SIZE] == job.stream[..c.offset] + chunk;
    }
  }

  lemma NextMeaning(job: Job, c: Cursor)
    requires c.offset <= |job.stream| && RoundStep(job, c).Next?
    ensures var end, chunk := c.offset + BUF_SIZE, job.stream[c.offset..c.offset + BUF_SIZE];
            && end <= Min(job.devSize, |c.disk.bytes|)
            && RoundStep(job, c).cursor == Cursor(
                 Disk(Splice(c.disk.bytes, c.offset, chunk), c.disk.direct,
                      c.disk.log + [Pwrite(c.offset, BUF_SIZE, c.disk.direct)]), end)
  {
    hide ChunkStep;
    ContinueMeaning(job.faults, job.devSize, c.disk, job.stream[c.offset..c.offset + BUF_SIZE], c.offset);
  }

  lemma ContinueMeaning(faults: Faults, devSize: u64, disk: Disk, chunk: seq<byte>, at: nat)
    ensures var w := ChunkStep(faults, devSize, disk, chunk, at);
            w.outcome.Continue? ==>
              && at + |chunk| <= |disk.bytes|
              && w.disk == Disk(Splice(disk.bytes, at, chunk), disk.direct,
                                disk.log + [Pwrite(at, |chunk|, disk.direct)])
  {
  }

  lemma DoneMeaning(faults: Faults, devSize: u64, disk: Disk, chunk: seq<byte>, at: nat)
    requires at <= |disk.bytes|
    ensures var w := ChunkStep(faults, devSize, disk, chunk, at);
            w.outcome.Done? ==>
              && at + |chunk| <= |disk.bytes|
              && w.disk.bytes == Splice(disk.bytes, at, chunk)
              && (chunk == [] ==> w.disk == disk)
              && (chunk != [] ==> at + |chunk| <= devSize && !w.disk.direct
                                  && w.disk.log == disk.log + [Pwrite(at, |chunk|, false)])
  {
  }

  /** `Ok` means everything: the stream ended cleanly, all of it is on the device, nothing else of
      the device changed, and no write passed `devSize`. */
  lemma FinishedMeaning(job: Job, k: nat, total: nat, disk: Disk)
    requires LoopEnds(job, k, Finished(total), disk)
    ensures job.ending == Eof && total == |job.stream| <= |job.disk.bytes|
    ensures 0 < total ==> total <= job.devSize
    ensures disk.bytes == Splice(job.disk.bytes, 0, job.stream)
  {
    hide ChunkStep;
    AfterMeaning(job, k);
    var c := After(job, k).value;
    var rest := job.stream[c.offset..];
    hide After;
    DoneMeaning(job.faults, job.devSize, c.disk, rest, c.offset);
    assert rest == job.stream[c.offset..c.offset + |rest|];
    SpliceExtend(job.disk.bytes, job.stream[..c.offset], rest);
    assert job.stream == job.stream[..c.offset] + rest;
  }

  /** However a loop ends, the device below the last full chunk holds exactly the stream. */
  lemma PrefixMeaning(job: Job, k: nat, outcome: Outcome, disk: Disk)
    requires LoopEnds(job, k, outcome, disk)
    ensures |disk.bytes| == |job.disk.bytes| && k * BUF_SIZE <= Min(|disk.bytes|, |job.stream|)
    ensures disk.bytes[..k * BUF_SIZE] == job.stream[..k * BUF_SIZE]
  {
    AfterMeaning(job, k);
    var c := After(job, k).value;
    SplicePrefix(job.disk.bytes, job.stream[..k * BUF_SIZE]);
    if RoundStep(job, c) == Stop(outcome, disk) {
      RoundKeepsBelow(job, c);
    }
  }

  lemma RoundKeepsBelow(job: Job, c: Cursor)
    requires c.offset <= |job.stream| && c.offset <= |c.disk.bytes|
    ensures var r := RoundStep(job, c);
            var d := if r.Next? then r.cursor.disk else r.disk;
            |d.bytes| == |c.disk.bytes| && d.bytes[..c.offset] == c.disk.bytes[..c.offset]
  {
    var fill := FillOutcome(job.stream[c.offset..], job.ending, BUF_SIZE);
    if fill.Filled? {
      LandedBelow(c.disk.bytes, job.stream[c.offset..c.offset + fill.n], c.offset, job.faults.tears);
    }
  }

  lemma LandedBelow(bytes: seq<byte>, data: seq<byte>, at: nat, tears: map<nat, Tear>)
    requires at <= |bytes|
    ensures Landed(bytes, data, at, tears)[..at] == bytes[..at]
  {
  }

  // ---- The `O_DIRECT` discipline ------------------------------------------------------------

  /** From `log[from]` on: a write made with `O_DIRECT` on is a whole aligned buffer; a shorter one
      is made with it off and is the last; and none passes `devSize`. */
  ghost predicate Disciplined(log: seq<Pwrite>, from: nat, devSize: nat)
  {
    && from <= |log|
    && forall i | from <= i < |log| ::
         && log[i].at + log[i].len <= devSize
         && (if log[i].direct then log[i].len == BUF_SIZE && log[i].at % BUF_SIZE == 0
             else log[i].len < BUF_SIZE && i == |log| - 1)
  }

  lemma {:induction false} FullWritesAt(k: nat, direct: bool, i: nat)
    requires i < k
    ensures |FullWrites(k, direct)| == k && FullWrites(k, direct)[i] == Pwrite(i * BUF_SIZE, BUF_SIZE, direct)
  {
    FullWritesLength(k - 1, direct);
    if i < k - 1 { FullWritesAt(k - 1, direct, i); }
  }

  lemma {:induction false} FullWritesLength(k: nat, direct: bool)
    ensures |FullWrites(k, direct)| == k
  {
    if k > 0 { FullWritesLength(k - 1, direct); }
  }

  /** The last write a round may add: at its own offset, inside the device, direct exactly if full. */
  lemma RoundWrites(job: Job, c: Cursor)
    requires c.offset <= |job.stream| && c.disk.direct
    ensures var r := RoundStep(job, c);
            var d := if r.Next? then r.cursor.disk else r.disk;
            || d.log == c.disk.log
            || exists w :: d.log == c.disk.log + [w] && w.at == c.offset && w.at + w.len <= job.devSize
                           && w.len <= BUF_SIZE && w.direct == (w.len == BUF_SIZE)
  {
    var fill := FillOutcome(job.stream[c.offset..], job.ending, BUF_SIZE);
    if fill.Filled? {
      ChunkWrites(job.faults, job.devSize, c.disk, job.stream[c.offset..c.offset + fill.n], c.offset);
      hide ChunkStep;
    }
  }

  lemma ChunkWrites(faults: Faults, devSize: u64, disk: Disk, chunk: seq<byte>, at: nat)
    requires disk.direct && |chunk| <= BUF_SIZE
    ensures var d := ChunkStep(faults, devSize, disk, chunk, at).disk;
            || d.log == disk.log
            || (d.log == disk.log + [Pwrite(at, |chunk|, |chunk| == BUF_SIZE)] && at + |chunk| <= devSize)
  {
    hide Landed, WriteFailure;
  }

  /** Every write of a flash that entered its loop with `O_DIRECT` on keeps the discipline. */
  lemma DirectDiscipline(job: Job, k: nat, o: Outcome, d: Disk)
    requires LoopEnds(job, k, o, d) && job.disk.direct
    ensures Disciplined(d.log, |job.disk.log|, job.devSize)
  {
    hide RoundStep;
    AfterMeaning(job, k);
    var c := After(job, k).value;
    FullWritesLength(k, true);
    forall i | 0 <= i < k
      ensures c.disk.log[|job.disk.log| + i] == Pwrite(i * BUF_SIZE, BUF_SIZE, true)
      ensures (i * BUF_SIZE) % BUF_SIZE == 0 && i * BUF_SIZE + BUF_SIZE <= job.devSize
    {
      FullWritesAt(k, true, i);
      MultipleOf(i);
      Scale(i + 1, k, BUF_SIZE);
      NextMultiple(i, BUF_SIZE);
    }
    forall i | |job.disk.log| <= i < |c.disk.log|
      ensures c.disk.log[i] == Pwrite((i - |job.disk.log|) * BUF_SIZE, BUF_SIZE, true)
    {
      assert c.disk.log[|job.disk.log| + (i - |job.disk.log|)] == c.disk.log[i];
    }
    MultipleOf(k);
    RoundWrites(job, c);
  }

  /** The flag is off on every `Ok` exit. */
  lemma OkClearsDirect(faults: Faults, o: Outcome, d: Disk)
    requires Settle(faults, o, d).report.Ok?
    ensures !Settle(faults, o, d).disk.direct && Settle(faults, o, d).disk == d.(direct := false)
  {
  }

  /** What a flash reports: `Ok` if and only if the loop finished, the flag could be cleared after it,
      and the sync succeeded; otherwise whatever stopped it first. */
  lemma ReportOf(faults: Faults, o: Outcome, d: Disk)
    ensures var r := Settle(faults, o, d).report;
            var cleared := faults.finish == Works || (faults.finish == SetFails && !d.direct);
            && (r.Ok? <==> o.Finished? && cleared && !faults.syncFails)
            && (r.Ok? ==> r.total == o.total)
            && (o.Stopped? ==> r == Err(o.error))
            && (o.Unwinding? ==> r == Panicked)
            && (o.Finished? && !cleared ==> r == Err(FcntlFailed))
            && (o.Finished? && cleared && faults.syncFails ==> r == Err(SyncFailed))
  {
  }

  /** A write that fails inside the device is reported by its kind: a full device as out of space,
      anything else as itself. */
  lemma FailedWriteReport(faults: Faults, devSize: u64, disk: Disk, chunk: seq<byte>, at: nat)
    requires chunk != [] && at + |chunk| <= devSize && at in faults.tears && |chunk| <= BUF_SIZE
    requires |chunk| == BUF_SIZE || faults.tail == Works
    ensures var kind := faults.tears[at].kind;
            ChunkStep(faults, devSize, disk, chunk, at).outcome
            == Aborted(if kind == StorageFull || kind == WriteZero then OutOfSpace else WriteFailed(kind))
  {
  }

  // ---- Uniqueness ---------------------------------------------------------------------------

  lemma {:induction false} AfterPrefix(job: Job, j: nat, k: nat)
    requires j <= k && After(job, k).Some?
    ensures After(job, j).Some?
  {
    if j < k { AfterPrefix(job, j, k - 1); }
  }

  /** Without cancellation a loop has exactly one possible end. */
  lemma LoopEndsUnique(job: Job, k: nat, o: Outcome, d: Disk, k': nat, o': Outcome, d': Disk)
    requires LoopEnds(job, k, o, d) && o != Stopped(Cancelled)
    requires LoopEnds(job, k', o', d') && o' != Stopped(Cancelled)
    ensures k == k' && o == o' && d == d'
  {
    hide RoundStep;
    if k < k' {
      AfterPrefix(job, k + 1, k');
    } else if k' < k {
      AfterPrefix(job, k' + 1, k);
    }
  }

  // ---- The verdict in closed form -----------------------------------------------------------

  /** The device obeys: every write lands, the flag can be cleared, and it is `devSize` bytes. */
  ghost predicate FaultFree(job: Job)
  {
    job.faults.tears == map[] && job.faults.tail == Works && job.devSize == |job.disk.bytes|
  }

  /** How many full chunks reach the device. */
  function ChunksWritten(job: Job): nat
  {
    Min(FullChunks(|job.stream|), FullChunks(job.devSize))
  }

  /** How a fault-free, uncancelled flash ends, by comparing three numbers: no loop, no chunks. */
  function Verdict(job: Job): Outcome
  {
    if FullChunks(job.devSize) < FullChunks(|job.stream|) then Stopped(CapacityExceeded)
    else match job.ending
      case Broken(k) => Stopped(ReadError(k))
      case Panics => Unwinding
      case Eof => if |job.stream| <= job.devSize then Finished(|job.stream|) else Stopped(CapacityExceeded)
  }

  /** An obedient device takes every chunk that fits and refuses, untouched, one that does not. */
  lemma ObedientChunk(faults: Faults, devSize: u64, disk: Disk, chunk: seq<byte>, at: nat)
    requires faults.tears == map[] && faults.tail == Works && devSize == |disk.bytes|
    ensures var w := ChunkStep(faults, devSize, disk, chunk, at);
            if chunk == [] then w.outcome == Done(at)
            else if devSize < at + |chunk| then w == ChunkResult(Aborted(CapacityExceeded), disk)
            else w.outcome == if |chunk| == BUF_SIZE then Continue(at + |chunk|) else Done(at + |chunk|)
  {
  }

  lemma ObedientRound(job: Job, c: Cursor)
    requires FaultFree(job) && |c.disk.bytes| == |job.disk.bytes| && c.offset <= |job.stream|
    ensures var left := |job.stream| - c.offset;
            match RoundStep(job, c)
            case Next(_) => BUF_SIZE <= left && c.offset + BUF_SIZE <= job.devSize
            case Stop(Unwinding, d) => left < BUF_SIZE && job.ending == Panics && d == c.disk
            case Stop(Finished(t), d) =>
              left < BUF_SIZE && job.ending == Eof && t == |job.stream| && (left == 0 || t <= job.devSize)
            case Stop(Stopped(e), d) =>
              && d == c.disk
              && (if e == CapacityExceeded then job.devSize < c.offset + Min(left, BUF_SIZE) && 0 < left
                                              && (left < BUF_SIZE ==> job.ending == Eof)
                  else left < BUF_SIZE && job.ending.Broken? && e == ReadError(job.ending.kind))
  {
    var fill := FillOutcome(job.stream[c.offset..], job.ending, BUF_SIZE);
    if fill.Filled? {
      ObedientChunk(job.faults, job.devSize, c.disk, job.stream[c.offset..c.offset + fill.n], c.offset);
    }
    hide ChunkStep;
  }

  lemma FaultFreeVerdict(job: Job, k: nat, o: Outcome, d: Disk)
    requires FaultFree(job) && LoopEnds(job, k, o, d) && o != Stopped(Cancelled)
    ensures o == Verdict(job) && k == ChunksWritten(job)
    ensures k * BUF_SIZE <= Min(|job.stream|, |job.disk.bytes|)
    ensures d.bytes == Splice(job.disk.bytes, 0, if o.Finished? then job.stream else job.stream[..k * BUF_SIZE])
  {
    hide RoundStep, FullChunks;
    AfterMeaning(job, k);
    NextMultiple(k, BUF_SIZE);
    FullChunksIs(|job.stream|, k);
    FullChunksIs(job.devSize, k);
    FullChunksIs(|job.stream|, k + 1);
    FullChunksIs(job.devSize, k + 1);
    ObedientRound(job, After(job, k).value);
    if o.Finished? { FinishedMeaning(job, k, o.total, d); }
  }

  /** A fault-free flash succeeds exactly when the stream ends cleanly and fits. */
  lemma OkIff(job: Job, k: nat, o: Outcome, d: Disk, r: Settled)
    requires FaultFree(job) && LoopEnds(job, k, o, d) && o != Stopped(Cancelled)
    requires job.faults.finish == Works && !job.faults.syncFails
    requires r == Settle(job.faults, o, d)
    ensures r.report.Ok? <==> job.ending == Eof && |job.stream| <= job.devSize
    ensures r.report.Ok? ==> r.report == Ok(|job.stream|) && r.disk.bytes == Splice(job.disk.bytes, 0, job.stream)
  {
    FaultFreeVerdict(job, k, o, d);
    if |job.stream| <= job.devSize {
      FullChunksIs(job.devSize, FullChunks(|job.stream|));
    }
  }

  /** What `Ok` from either arm means for the device it was given. */
  lemma FlashOk(script: Script, disk: Disk, devSize: u64, throttle: Option<u64>, faults: Faults,
                buffers: nat, k: nat, total: nat, after: Disk)
    requires Flashes(script, disk, devSize, throttle, faults, buffers, k, Ok(total), after)
    ensures EndingOf(script) == Eof && total == |Stream(script)| <= |disk.bytes|
    ensures 0 < total ==> total <= devSize
    ensures after.bytes == Splice(disk.bytes, 0, Stream(script)) && !after.direct
    ensures !faults.syncFails && faults.enable != GetFails && faults.finish != GetFails
    ensures buffers <= faults.buffers && throttle != Some(0)
  {
    hide LoopEnds, Stream, EndingOf;
    var job := JobOf(script, SetDirect(disk, true, faults.enable).disk, devSize, faults);
    var o, d :| LoopEnds(job, k, o, d) && Settled(Ok(total), after) == Settle(faults, o, d);
    FinishedMeaning(job, k, total, d);
    OkClearsDirect(faults, o, d);
  }

  /** When a whole arm succeeds, setup and all: over a device whose every write lands, if and only if
      the flag can be set and cleared, there is memory, the rate is legal, the stream ends cleanly and
      fits, and the sync succeeds. */
  lemma FlashOkIff(script: Script, disk: Disk, devSize: u64, throttle: Option<u64>, faults: Faults,
                   buffers: nat, k: nat, r: Report, after: Disk)
    requires Flashes(script, disk, devSize, throttle, faults, buffers, k, r, after) && r != Err(Cancelled)
    requires faults.tears == map[] && faults.tail == faults.finish == Works && devSize == |disk.bytes|
    ensures r.Ok? <==>
      && (faults.enable == Works || (faults.enable == SetFails && disk.direct))
      && buffers <= faults.buffers && throttle != Some(0)
      && EndingOf(script) == Eof && |Stream(script)| <= devSize && !faults.syncFails
  {
    hide LoopEnds, Settle, Stream, EndingOf, SetDirect;
    var f := SetDirect(disk, true, faults.enable);
    SetDirectMeaning(disk, true, faults.enable);
    if f.error.None? && buffers <= faults.buffers && throttle != Some(0) {
      var job := JobOf(script, f.disk, devSize, faults);
      var o, d :| LoopEnds(job, k, o, d) && Settled(r, after) == Settle(faults, o, d);
      ReportOf(faults, o, d);
      VerdictIs(job, k, o, d);
    }
  }

  lemma VerdictIs(job: Job, k: nat, o: Outcome, d: Disk)
    requires FaultFree(job) && LoopEnds(job, k, o, d) && o != Stopped(Cancelled)
    ensures o.Finished? <==> job.ending == Eof && |job.stream| <= job.devSize
  {
    FaultFreeVerdict(job, k, o, d);
    if |job.stream| <= job.devSize {
      FullChunksIs(job.devSize, FullChunks(|job.stream|));
    }
  }

  /** The two arms agree: given memory for both, a legal rate, a reader that does not panic and no
      cancellation, they report the same, write the same number of chunks and leave the same device. */
  lemma ArmsAgree(script: Script, disk: Disk, devSize: u64, throttle: Option<u64>, faults: Faults,
                  k: nat, r: Report, after: Disk, k': nat, r': Report, after': Disk)
    requires Flashes(script, disk, devSize, throttle, faults, 1, k, r, after) && r != Err(Cancelled)
    requires Flashes(script, disk, devSize, throttle, faults, 2, k', r', after') && r' != Err(Cancelled)
    requires 2 <= faults.buffers && throttle != Some(0)
    ensures r == r' && after == after'
    ensures SetDirect(disk, true, faults.enable).error.None? ==> k == k'
  {
    hide LoopEnds, Settle, Stream, EndingOf;
    var f := SetDirect(disk, true, faults.enable);
    if f.error.None? {
      var job := JobOf(script, f.disk, devSize, faults);
      var o, d :| LoopEnds(job, k, o, d) && Settled(r, after) == Settle(faults, o, d);
      var o', d' :| LoopEnds(job, k', o', d') && Settled(r', after') == Settle(faults, o', d');
      CancelledIsReported(faults, o, d);
      CancelledIsReported(faults, o', d');
      LoopEndsUnique(job, k, o, d, k', o', d');
    }
  }

  lemma CancelledIsReported(faults: Faults, o: Outcome, d: Disk)
    ensures o == Stopped(Cancelled) ==> Settle(faults, o, d).report == Err(Cancelled)
  {
  }
}
