/** `verify_pipelined` as a whole: its setup, then the transition system driven by any scheduler. */
module VerifyArm {
  import opened Options
  import opened Geometry
  import opened Readers
  import opened Devices
  import opened Pace
  import opened Verify
  import opened VerifyPipeline
  import opened VerifyInvariant
  import opened VerifyTheorems

  /** Runs to the report, letting `schedule` choose each move and any enabled thread step in when
      the chosen move is not enabled. */
  function Finish(p: Plan, s: State, schedule: nat -> Move, i: nat): State
    decreases Measure(s)
  {
    hide Measure, Take;
    if s.m.pc.Reported? then s
    else if Take(p, s, schedule(i)).Some? then
      StepDecreases(p, s, schedule(i));
      Finish(p, Take(p, s, schedule(i)).value, schedule, i + 1)
    else if Take(p, s, Main(0)).Some? then
      StepDecreases(p, s, Main(0));
      Finish(p, Take(p, s, Main(0)).value, schedule, i + 1)
    else if Take(p, s, Worker(0)).Some? then
      StepDecreases(p, s, Worker(0));
      Finish(p, Take(p, s, Worker(0)).value, schedule, i + 1)
    else s
  }

  /** Every schedule runs to a report, and what it runs through is a run. */
  lemma {:induction false} FinishReports(p: Plan, s: State, schedule: nat -> Move, i: nat) returns (moves: seq<Move>)
    requires Good(p, s)
    ensures Finish(p, s, schedule, i).m.pc.Reported?
    ensures Run(p, s, moves) == Some(Finish(p, s, schedule, i))
    decreases Measure(s)
  {
    hide Measure, Take, Good;
    if s.m.pc.Reported? { return []; }
    GoodIsNotStuck(p, s);
    var move := if Take(p, s, schedule(i)).Some? then schedule(i)
                else if Take(p, s, Main(0)).Some? then Main(0) else Worker(0);
    StepDecreases(p, s, move);
    StepKeepsGood(p, s, move);
    var later := FinishReports(p, Take(p, s, move).value, schedule, i + 1);
    moves := [move] + later;
    assert moves[1..] == later;
  }

  datatype Piped = Piped(report: Report, rounds: nat, cancelled: bool)

  /** `verify_pipelined`: a device buffer, the zero-rate refusal, the two-buffer pool, the run. */
  function VerifyPipelined(script: Script, disk: Disk, total: nat, throttle: Option<u64>, unreadable: set<nat>,
                           memory: nat, cancel: bool, now: nat, schedule: nat -> Move): Piped
  {
    if memory < 1 then Piped(Err(OutOfMemory), 0, cancel)
    else if throttle == Some(0) then Piped(Err(ZeroThrottle), 0, cancel)
    else if memory < 3 then Piped(Err(OutOfMemory), 0, cancel)
    else
      var p := Plan(CheckOf(script, disk, total, unreadable), ChunkTarget(throttle), now);
      var s := Finish(p, Start(p, script, cancel), schedule, 0);
      Piped(if s.m.pc.Reported? then s.m.pc.report else Err(ProtocolViolation), s.m.rounds, s.cancel)
  }

  lemma FinishMeaning(p: Plan, script: Script, cancel: bool, schedule: nat -> Move) returns (s: State)
    requires p.check.stream == Stream(script) && p.check.ending == EndingOf(script)
    ensures s == Finish(p, Start(p, script, cancel), schedule, 0) && s.m.pc.Reported?
    ensures Reachable(p, script, cancel, s)
    ensures s.m.pc.report == Panicked ==> EndingOf(script) == Panics
    ensures s.m.pc.report == Err(Cancelled) ==> s.cancel
    ensures s.m.pc.report != Panicked ==>
      exists v :: LoopEnds(p.check, s.m.rounds, v, true) && s.m.pc.report == Conclude(v)
  {
    hide Finish, Good, LoopEnds, Start, Run;
    StartIsGood(p, script, cancel);
    var moves := FinishReports(p, Start(p, script, cancel), schedule, 0);
    s := Finish(p, Start(p, script, cancel), schedule, 0);
    assert Reachable(p, script, cancel, s);
    hide Reachable;
    ReportMeaning(p, script, cancel, s);
  }

  /** Under every schedule the pipelined arm reports what a verify arm with three buffers may
      report; a panic escapes it only if the reader panicked. */
  lemma PipelinedVerifies(script: Script, disk: Disk, total: nat, throttle: Option<u64>, unreadable: set<nat>,
                          memory: nat, cancel: bool, now: nat, schedule: nat -> Move)
    ensures var r := VerifyPipelined(script, disk, total, throttle, unreadable, memory, cancel, now, schedule);
            && (r.report == Panicked ==> EndingOf(script) == Panics)
            && (r.report == Err(Cancelled) ==> r.cancelled)
            && (r.report != Panicked ==>
                  Verifies(script, disk, total, throttle, unreadable, memory, 3, true, r.rounds, r.report))
  {
    hide Finish, Start, LoopEnds, Conclude, ChunkTarget;
    if throttle != Some(0) && 3 <= memory {
      var p := Plan(CheckOf(script, disk, total, unreadable), ChunkTarget(throttle), now);
      var s := FinishMeaning(p, script, cancel, schedule);
    }
  }

  /** A schedule under which the caller never sets the flag. */
  ghost predicate NeverCancels(schedule: nat -> Move) { forall i :: schedule(i) != SetCancel }

  lemma {:induction false} FinishStaysClear(p: Plan, s: State, schedule: nat -> Move, i: nat)
    requires !s.cancel && NeverCancels(schedule)
    ensures !Finish(p, s, schedule, i).cancel
    decreases Measure(s)
  {
    hide Measure, WorkerStep, MainStep;
    if s.m.pc.Reported? { return; }
    var move := if Take(p, s, schedule(i)).Some? then schedule(i)
                else if Take(p, s, Main(0)).Some? then Main(0) else Worker(0);
    if Take(p, s, move).Some? {
      StepDecreases(p, s, move);
      FinishStaysClear(p, Take(p, s, move).value, schedule, i + 1);
    }
  }

  lemma PipelinedStaysClear(script: Script, disk: Disk, total: nat, throttle: Option<u64>, unreadable: set<nat>,
                             memory: nat, cancel: bool, now: nat, schedule: nat -> Move)
    requires !cancel && NeverCancels(schedule)
    ensures !VerifyPipelined(script, disk, total, throttle, unreadable, memory, cancel, now, schedule).cancelled
  {
    hide Finish, ChunkTarget;
    if throttle != Some(0) && 3 <= memory {
      var p := Plan(CheckOf(script, disk, total, unreadable), ChunkTarget(throttle), now);
      FinishStaysClear(p, Start(p, script, false), schedule, 0);
    }
  }
}
