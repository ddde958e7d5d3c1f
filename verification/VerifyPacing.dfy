/** The throttle over the verify pipeline: every interleaving gives each chunk its whole target. */
module VerifyPacing {
  import opened Options
  import opened Geometry
  import opened Readers
  import opened Devices
  import P = Pace
  import opened Verify
  import opened Channels
  import opened VerifyPipeline
  import opened VerifyTheorems

  /** Every compared chunk has been given its whole target. */
  ghost predicate Paced(p: Plan, m: MainSide, now: nat)
  {
    match m.pc
    case Reading(t) => p.began + P.Due(p.target, m.rounds) <= t <= now
    case Receiving(_, t) => p.began + P.Due(p.target, m.rounds) <= t <= now
    case Comparing(_, _, _, t) => p.began + P.Due(p.target, m.rounds) <= t <= now
    case Recycling(_, t) => p.began + P.Due(p.target, m.rounds) <= t <= now
    case Pacing(t) => 0 < m.rounds && p.began + P.Due(p.target, m.rounds - 1) <= t <= now
    case _ => p.began + P.Due(p.target, m.rounds) <= now
  }

  lemma MainKeepsPaced(p: Plan, m: MainSide, x: Links, worker: WorkerPc, now: nat, dt: nat)
    requires Paced(p, m, now) && MainStep(p, m, x, worker, false, now).Some?
    ensures var n := MainStep(p, m, x, worker, false, now).value; Paced(p, n.m, now + n.slept + dt)
  {
    hide Conclude, CompareChunk, Readable;
    if m.pc.Pacing? { PacingWaits(p, m.pc.started, m.rounds, now); } else { hide Elapsed, P.Due; }
  }

  lemma PacingWaits(p: Plan, started: nat, rounds: nat, now: nat)
    requires 0 < rounds && p.began + P.Due(p.target, rounds - 1) <= started <= now
    ensures p.target.Every? ==>
      var late := Elapsed(started, now);
      (if late <= p.target.nanos then now + (p.target.nanos - late) else now) >= p.began + P.Due(p.target, rounds)
    ensures !p.target.Every? ==> now >= p.began + P.Due(p.target, rounds)
  {
  }

  lemma {:induction false} RunKeepsPaced(p: Plan, s: State, moves: seq<Move>)
    requires Run(p, s, moves).Some? && !Run(p, s, moves).value.cancel && Paced(p, s.m, s.now)
    ensures Paced(p, Run(p, s, moves).value.m, Run(p, s, moves).value.now)
    decreases |moves|
  {
    hide MainStep, WorkerStep;
    if moves != [] {
      if s.cancel { StaysCancelled(p, s, moves); }
      if moves[0].Main? { MainKeepsPaced(p, s.m, s.x, s.w.pc, s.now, moves[0].dt); }
      var next := Take(p, s, moves[0]).value;
      if next.cancel { StaysCancelled(p, next, moves[1..]); }
      hide P.Due;
      RunKeepsPaced(p, next, moves[1..]);
    }
  }

  lemma {:induction false} StaysCancelled(p: Plan, s: State, moves: seq<Move>)
    requires Run(p, s, moves).Some? && s.cancel
    ensures Run(p, s, moves).value.cancel
    decreases |moves|
  {
    hide MainStep, WorkerStep;
    if moves != [] { StaysCancelled(p, Take(p, s, moves[0]).value, moves[1..]); }
  }

  /** Unless cancelled, a reported run that compared `rounds` chunks took at least that many targets. */
  lemma RunIsPaced(p: Plan, script: Script, s: State)
    requires Reachable(p, script, false, s) && s.m.pc.Reported? && !s.cancel
    ensures s.now >= p.began + P.Due(p.target, s.m.rounds)
  {
    hide Stream, EndingOf;
    var moves :| Run(p, Start(p, script, false), moves) == Some(s);
    assert P.Due(p.target, 0) == 0;
    RunKeepsPaced(p, Start(p, script, false), moves);
  }

  /** The throttle bounds every uncancelled verification: `rounds` chunks in `T` nanoseconds are no
      faster than the configured rate, up to one nanosecond a chunk. */
  lemma RunIsThrottled(p: Plan, script: Script, s: State, rate: u64)
    requires Reachable(p, script, false, s) && s.m.pc.Reported? && !s.cancel
    requires p.target == P.ChunkTarget(Some(rate)) && 0 < rate && 0 < s.m.rounds
    ensures p.began <= s.now
    ensures s.m.rounds * BUF_SIZE * NANOS < rate * ((s.now - p.began) + s.m.rounds)
  {
    hide P.Due, P.ChunkTarget, Reachable;
    RunIsPaced(p, script, s);
    P.ThrottleBound(rate, s.m.rounds, s.now - p.began);
  }
}
