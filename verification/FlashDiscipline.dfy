/** The `O_DIRECT` discipline, over every interleaving and for both arms. */
module FlashDiscipline {
  import opened Options
  import opened Geometry
  import opened Readers
  import opened Devices
  import opened Pace
  import opened Flash
  import opened FlashMeaning
  import opened FlashPipeline
  import opened FlashInvariant
  import opened FlashTheorems
  import opened FlashArm

  /** Every write of the run so far kept the discipline. */
  ghost predicate Kept(p: Plan, s: State) { Disciplined(s.m.disk.log, |p.job.disk.log|, p.job.devSize) }

  /** Only processing a chunk writes. */
  lemma OnlyChunksWrite(p: Plan, s: State, move: Move)
    requires Take(p, s, move).Some? && !s.m.pc.Processing?
    ensures Take(p, s, move).value.m.disk.log == s.m.disk.log
  {
    hide WorkerStep, ChunkStep;
  }

  lemma InLoopIsKept(p: Plan, s: State)
    requires Good(p, s) && InLoop(s.m.pc) && p.job.disk.direct
    ensures Kept(p, s)
  {
    hide RoundStep, Queue, WorkerFlow, Owned, Over, Ends, Paced, Source, Disciplined;
    DirectDiscipline(p.job, s.m.chunks, Stopped(Cancelled), s.m.disk);
  }

  lemma StepKeepsDiscipline(p: Plan, s: State, move: Move)
    requires Good(p, s) && Kept(p, s) && Take(p, s, move).Some? && p.job.disk.direct
    ensures Kept(p, Take(p, s, move).value)
  {
    hide Disciplined, Take, WorkerStep, MainStep, Good;
    StepKeepsGood(p, s, move);
    var next := Take(p, s, move).value;
    if InLoop(next.m.pc) {
      InLoopIsKept(p, next);
    } else if s.m.pc.Processing? {
      LastChunkIsKept(p, s, move);
    } else {
      OnlyChunksWrite(p, s, move);
    }
  }

  lemma LastChunkIsKept(p: Plan, s: State, move: Move)
    requires Good(p, s) && s.m.pc.Processing? && p.job.disk.direct
    requires Take(p, s, move).Some? && !InLoop(Take(p, s, move).value.m.pc)
    ensures Kept(p, Take(p, s, move).value)
  {
    hide RoundStep, ChunkStep, ChunkAt, Queue, WorkerStep, WorkerFlow, Owned, Over, Ends, Paced, Source, Disciplined;
    var c := Cursor(s.m.disk, s.m.offset);
    ChunkRound(p.job, s.x.mem, s.m.pc.buf, s.m.pc.len, c);
    var r := RoundStep(p.job, c);
    DirectDiscipline(p.job, s.m.chunks, r.outcome, r.disk);
  }

  lemma {:induction false} RunKeepsDiscipline(p: Plan, s: State, moves: seq<Move>)
    requires Good(p, s) && Kept(p, s) && Run(p, s, moves).Some? && p.job.disk.direct
    ensures Kept(p, Run(p, s, moves).value)
    decreases |moves|
  {
    hide Good, Kept, Take;
    if moves != [] {
      StepKeepsDiscipline(p, s, moves[0]);
      StepKeepsGood(p, s, moves[0]);
      RunKeepsDiscipline(p, Take(p, s, moves[0]).value, moves[1..]);
    }
  }

  /** In every reachable state of the pipelined arm, cancelled and panicking runs included: each
      write made with `O_DIRECT` on is a whole buffer at a multiple of its size, a shorter one was
      made with it off and is the last, and none passes `devSize`. */
  lemma EveryWriteIsDisciplined(p: Plan, script: Script, cancel: bool, s: State)
    requires Reachable(p, script, cancel, s) && p.job.disk.direct
    ensures Disciplined(s.m.disk.log, |p.job.disk.log|, p.job.devSize)
  {
    hide Good, Stream, EndingOf, Disciplined;
    var moves :| Run(p, Start(p, script, cancel), moves) == Some(s);
    StartIsGood(p, script, cancel);
    InLoopIsKept(p, Start(p, script, cancel));
    RunKeepsDiscipline(p, Start(p, script, cancel), moves);
  }

  lemma EnabledIsDirect(disk: Disk, fcntl: Fcntl)
    requires SetDirect(disk, true, fcntl).error.None?
    ensures SetDirect(disk, true, fcntl).disk == disk.(direct := true)
  {
  }

  lemma NothingWritten(disk: Disk, fcntl: Fcntl, devSize: u64)
    ensures Disciplined(SetDirect(disk, true, fcntl).disk.log, |disk.log|, devSize)
  {
  }

  /** Whatever a flash arm that returns reports, every write it made kept the discipline. */
  lemma FlashIsDisciplined(script: Script, disk: Disk, devSize: u64, throttle: Option<u64>, faults: Faults,
                           buffers: nat, k: nat, r: Report, after: Disk)
    requires Flashes(script, disk, devSize, throttle, faults, buffers, k, r, after)
    ensures Disciplined(after.log, |disk.log|, devSize)
  {
    hide LoopEnds, Stream, EndingOf, SetDirect, Disciplined;
    var f := SetDirect(disk, true, faults.enable);
    NothingWritten(disk, faults.enable, devSize);
    if f.error.None? && buffers <= faults.buffers && throttle != Some(0) {
      EnabledIsDirect(disk, faults.enable);
      var job := JobOf(script, f.disk, devSize, faults);
      var o, d :| LoopEnds(job, k, o, d) && Settled(r, after) == Settle(faults, o, d);
      DirectDiscipline(job, k, o, d);
    }
  }

  /** The same for every schedule of the pipelined arm, whether it returns or unwinds. */
  lemma PipelinedIsDisciplined(script: Script, disk: Disk, devSize: u64, throttle: Option<u64>, faults: Faults,
                               cancel: bool, now: nat, schedule: nat -> Move)
    ensures Disciplined(FlashPipelined(script, disk, devSize, throttle, faults, cancel, now, schedule).disk.log,
                        |disk.log|, devSize)
  {
    hide Finish, Start, Stream, EndingOf, ChunkTarget, SetDirect, Disciplined, Reachable;
    var f := SetDirect(disk, true, faults.enable);
    NothingWritten(disk, faults.enable, devSize);
    if f.error.None? && throttle != Some(0) && 2 <= faults.buffers {
      EnabledIsDirect(disk, faults.enable);
      var p := PlanOf(script, f.disk, devSize, throttle, faults, now);
      var s := FinishMeaning(p, script, cancel, schedule);
      EveryWriteIsDisciplined(p, script, cancel, s);
    }
  }
}
