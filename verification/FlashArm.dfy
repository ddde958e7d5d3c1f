/** `flash_pipelined` as a whole: its setup, then the transition system driven by any scheduler. */
module FlashArm {
  import opened Options
  import opened Geometry
  import opened Readers
  import opened Devices
  import opened Pace
  import opened Flash
  import opened FlashPipeline
  import opened FlashInvariant
  import opened FlashTheorems

  /** Runs to the report, letting `schedule` choose each move and any enabled thread step in when
      the chosen move is not enabled. */
  function Finish(p: Plan, s: State, schedule: nat -> Move, i: nat): State
    decreases Measure(s)
  {
    hide Measure, Take;
    if s.m.pc.Reported? then s
    else if Take(p, s, schedule(i)).Some? then
      StepDecreases(p, s, schedule(i));
      Finish(p, Take(p, s, schedule(i)).value, schedule, i + 1)
    else if Take(p, s, Main(0)).Some? then
      StepDecreases(p, s, Main(0));
      Finish(p, Take(p, s, Main(0)).value, schedule, i + 1)
    else if Take(p, s, Worker(0)).Some? then
      StepDecreases(p, s, Worker(0));
      Finish(p, Take(p, s, Worker(0)).value, schedule, i + 1)
    else s
  }

  /** Every schedule runs to a report, and what it runs through is a run. */
  lemma {:induction false} FinishReports(p: Plan, s: State, schedule: nat -> Move, i: nat) returns (moves: seq<Move>)
    requires Good(p, s)
    ensures Finish(p, s, schedule, i).m.pc.Reported?
    ensures Run(p, s, moves) == Some(Finish(p, s, schedule, i))
    decreases Measure(s)
  {
    hide Measure, Take, Good;
    if s.m.pc.Reported? { return []; }
    GoodIsNotStuck(p, s);
    var move := if Take(p, s, schedule(i)).Some? then schedule(i)
                else if Take(p, s, Main(0)).Some? then Main(0) else Worker(0);
    StepDecreases(p, s, move);
    StepKeepsGood(p, s, move);
    var later := FinishReports(p, Take(p, s, move).value, schedule, i + 1);
    moves := [move] + later;
    assert moves[1..] == later;
  }

  datatype Piped = Piped(report: Report, disk: Disk, chunks: nat, cancelled: bool)

  function PlanOf(script: Script, disk: Disk, devSize: u64, throttle: Option<u64>, faults: Faults, now: nat): Plan
  {
    Plan(JobOf(script, disk, devSize, faults), ChunkTarget(throttle), now)
  }

  /** `flash_pipelined`: set the flag, refuse a zero rate, allocate the two-buffer pool, run. */
  function FlashPipelined(script: Script, disk: Disk, devSize: u64, throttle: Option<u64>, faults: Faults,
                          cancel: bool, now: nat, schedule: nat -> Move): Piped
  {
    var f := SetDirect(disk, true, faults.enable);
    if f.error.Some? then Piped(Err(FcntlFailed), f.disk, 0, cancel)
    else if throttle == Some(0) then Piped(Err(ZeroThrottle), f.disk, 0, cancel)
    else if faults.buffers < 2 then Piped(Err(OutOfMemory), f.disk, 0, cancel)
    else
      var p := PlanOf(script, f.disk, devSize, throttle, faults, now);
      var s := Finish(p, Start(p, script, cancel), schedule, 0);
      Piped(if s.m.pc.Reported? then s.m.pc.report else Err(ProtocolViolation), s.m.disk, s.m.chunks, s.cancel)
  }

  /** What the run of any schedule has established when it reports. */
  lemma FinishMeaning(p: Plan, script: Script, cancel: bool, schedule: nat -> Move) returns (s: State)
    requires p.job.stream == Stream(script) && p.job.ending == EndingOf(script)
    ensures s == Finish(p, Start(p, script, cancel), schedule, 0) && s.m.pc.Reported?
    ensures Reachable(p, script, cancel, s)
    ensures |s.m.disk.bytes| == |p.job.disk.bytes|
    ensures s.m.pc.report == Panicked ==> EndingOf(script) == Panics
    ensures s.m.pc.report == Err(Cancelled) ==> s.cancel
    ensures s.m.pc.report != Panicked ==>
      exists o, d :: LoopEnds(p.job, s.m.chunks, o, d) && Settled(s.m.pc.report, s.m.disk) == Settle(p.job.faults, o, d)
  {
    hide Finish, Good, LoopEnds, Start, Run;
    StartIsGood(p, script, cancel);
    var moves := FinishReports(p, Start(p, script, cancel), schedule, 0);
    s := Finish(p, Start(p, script, cancel), schedule, 0);
    assert Reachable(p, script, cancel, s);
    hide Reachable;
    ReportMeaning(p, script, cancel, s);
    DeviceKeepsSize(p, script, cancel, s);
    if s.m.pc.report != Panicked {
      var o, d :| LoopEnds(p.job, s.m.chunks, o, d) && (o == Stopped(Cancelled) ==> s.cancel)
                  && o != Stopped(ProtocolViolation)
                  && Settled(s.m.pc.report, s.m.disk) == Settle(p.job.faults, o, d);
    }
  }

  /** Under every schedule the pipelined arm reports what a flash arm with two buffers may report;
      a panic escapes it only if the reader panicked. */
  lemma PipelinedFlashes(script: Script, disk: Disk, devSize: u64, throttle: Option<u64>, faults: Faults,
                         cancel: bool, now: nat, schedule: nat -> Move)
    ensures var r := FlashPipelined(script, disk, devSize, throttle, faults, cancel, now, schedule);
            && |r.disk.bytes| == |disk.bytes|
            && (r.report == Panicked ==> EndingOf(script) == Panics)
            && (r.report == Err(Cancelled) ==> r.cancelled)
            && (r.report != Panicked ==>
                  Flashes(script, disk, devSize, throttle, faults, 2, r.chunks, r.report, r.disk))
  {
    hide Finish, Start, LoopEnds, Settle, ChunkTarget;
    var f := SetDirect(disk, true, faults.enable);
    if f.error.None? && throttle != Some(0) && 2 <= faults.buffers {
      var s := FinishMeaning(PlanOf(script, f.disk, devSize, throttle, faults, now), script, cancel, schedule);
    }
  }

  lemma DeviceKeepsSize(p: Plan, script: Script, cancel: bool, s: State)
    requires Reachable(p, script, cancel, s)
    ensures |s.m.disk.bytes| == |p.job.disk.bytes|
  {
    hide Flow, Over, Paced, Ends, Reachable;
    ReachableIsGood(p, script, cancel, s);
  }

  /** A schedule under which the caller never sets the flag. */
  ghost predicate NeverCancels(schedule: nat -> Move) { forall i :: schedule(i) != SetCancel }

  lemma {:induction false} FinishStaysClear(p: Plan, s: State, schedule: nat -> Move, i: nat)
    requires !s.cancel && NeverCancels(schedule)
    ensures !Finish(p, s, schedule, i).cancel
    decreases Measure(s)
  {
    hide Measure, WorkerStep, MainStep;
    if s.m.pc.Reported? { return; }
    var move := if Take(p, s, schedule(i)).Some? then schedule(i)
                else if Take(p, s, Main(0)).Some? then Main(0) else Worker(0);
    if Take(p, s, move).Some? {
      StepDecreases(p, s, move);
      FinishStaysClear(p, Take(p, s, move).value, schedule, i + 1);
    }
  }

  lemma PipelinedStaysClear(script: Script, disk: Disk, devSize: u64, throttle: Option<u64>, faults: Faults,
                             cancel: bool, now: nat, schedule: nat -> Move)
    requires !cancel && NeverCancels(schedule)
    ensures !FlashPipelined(script, disk, devSize, throttle, faults, cancel, now, schedule).cancelled
  {
    hide Finish, ChunkTarget;
    var f := SetDirect(disk, true, faults.enable);
    if f.error.None? && throttle != Some(0) && 2 <= faults.buffers {
      var p := PlanOf(script, f.disk, devSize, throttle, faults, now);
      FinishStaysClear(p, Start(p, script, false), schedule, 0);
    }
  }
}
