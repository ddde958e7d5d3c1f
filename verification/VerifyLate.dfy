/** When cancellation makes the two verify arms differ: the pipelined loop looks at the flag once
    more after the last chunk's sleep, the serial loop has already left. */
module VerifyLate {
  import opened Options
  import opened Bytes
  import opened Readers
  import opened Devices
  import opened Verify
  import opened VerifyMeaning
  import opened Channels
  import opened VerifyPipeline
  import opened VerifyInvariant
  import opened VerifyTheorems
  import opened VerifyRace
  import VA = VerifyArm

  // ---- Without a throttle there is no late look ---------------------------------------------

  /** Whatever cancels a run does so with bytes left to compare, unless a throttle made it sleep. */
  ghost predicate Timely(p: Plan, m: MainSide)
  {
    && (InLoop(m.pc) ==> m.verdict == Agreed)
    && (m.pc.Pacing? || m.pc.Rechecking? ==> 0 < m.rounds)
    && (m.pc.Rechecking? ==> p.target.Every?)
    && (m.verdict == Rejected(Cancelled) ==> m.offset < p.check.total || (p.target.Every? && 0 < m.rounds))
  }

  lemma MainKeepsTimely(p: Plan, s: State)
    requires Good(p, s) && Timely(p, s.m) && MainStep(p, s.m, s.x, s.w.pc, s.cancel, s.now).Some?
    ensures Timely(p, MainStep(p, s.m, s.x, s.w.pc, s.cancel, s.now).value.m)
  {
    hide Good, Receive, Compare, ReadDevice, Elapsed, Conclude;
    match s.m.pc
    case LoopTop => LoopTopPlace(p, s);
    case Receiving(dev, started) => ReceiveKeepsTimely(p, s, dev, started);
    case Comparing(b, n, dev, started) => CompareIsTimely(s.m, b, dev, s.x.mem[b][..n], started);
    case Reading(started) => ReadIsTimely(p.check, s.m, started);
    case _ =>
  }

  lemma LoopTopPlace(p: Plan, s: State)
    requires Good(p, s) && s.m.pc.LoopTop?
    ensures s.m.offset + s.m.remaining == p.check.total
  {
    hide After, Queue, WorkerFlow, Owned, Over, Ends;
  }

  lemma ReceiveKeepsTimely(p: Plan, s: State, dev: seq<byte>, started: nat)
    requires Good(p, s) && Timely(p, s.m) && s.m.pc == Receiving(dev, started)
    requires Receive(s.m, s.x, s.w.pc, dev, started).Some?
    ensures Timely(p, Receive(s.m, s.x, s.w.pc, dev, started).value.m)
  {
    hide After, RoundStep, ChunkAt, BreakAt, DeviceChunk, WorkerFlow, Owned, Over, Ends;
    if s.x.filled != [] && s.x.filled[0].Broke? { BreakRound(p.check, dev, s.x.filled[0].error, s.m.offset); }
  }

  lemma CompareIsTimely(m: MainSide, b: BufId, dev: seq<byte>, img: seq<byte>, started: nat)
    ensures var n := Compare(m, b, dev, img, started);
            && n.offset == m.offset && n.rounds == m.rounds && !n.pc.Pacing? && !n.pc.Rechecking?
            && (if InLoop(n.pc) then n.verdict == m.verdict else n.verdict != Rejected(Cancelled))
  {
    hide CompareChunk;
  }

  lemma ReadIsTimely(c: Check, m: MainSide, started: nat)
    ensures var n := ReadDevice(c, m, started);
            && n.offset == m.offset && n.rounds == m.rounds && !n.pc.Pacing? && !n.pc.Rechecking?
            && (if InLoop(n.pc) then n.verdict == m.verdict else n.verdict != Rejected(Cancelled))
  {
    hide Readable;
  }

  lemma StepKeepsTimely(p: Plan, s: State, move: Move)
    requires Good(p, s) && Timely(p, s.m) && Take(p, s, move).Some?
    ensures Timely(p, Take(p, s, move).value.m)
  {
    hide Good, Timely, MainStep, WorkerStep;
    if move.Main? { MainKeepsTimely(p, s); }
  }

  lemma {:induction false} RunKeepsTimely(p: Plan, s: State, moves: seq<Move>)
    requires Good(p, s) && Timely(p, s.m) && Run(p, s, moves).Some?
    ensures Timely(p, Run(p, s, moves).value.m)
    decreases |moves|
  {
    hide Good, Timely, Take;
    if moves != [] {
      StepKeepsTimely(p, s, moves[0]);
      StepKeepsGood(p, s, moves[0]);
      RunKeepsTimely(p, Take(p, s, moves[0]).value, moves[1..]);
    }
  }

  /** A report the serial loop could not have given is a cancellation, seen after the sleep that
      follows the last chunk: the target is set and everything agrees. */
  lemma LateMeaning(p: Plan, script: Script, cancel: bool, s: State)
    requires Reachable(p, script, cancel, s) && s.m.pc.Reported? && !s.w.pc.Crashed?
    requires !LoopEnds(p.check, s.m.rounds, s.m.verdict, false)
    ensures s.m.verdict == Rejected(Cancelled) && p.target.Every? && 0 < p.check.total
    ensures LoopEnds(p.check, s.m.rounds, Agreed, false)
  {
    hide Good, Lead, Stream, EndingOf, RoundStep, After;
    ReportMeaning(p, script, cancel, s);
    var moves :| Run(p, Start(p, script, cancel), moves) == Some(s);
    StartIsGood(p, script, cancel);
    RunKeepsTimely(p, Start(p, script, cancel), moves);
    ReachableLeads(p, script, cancel, s);
    LeadPlace(p, s);
    EdgeRounds(p.check, s.m.offset);
    if 0 < s.m.rounds { RoundsProgress(p.check, s.m.rounds); }
  }

  lemma RoundsProgress(c: Check, k: nat)
    requires 0 < k && After(c, k).Some?
    ensures 0 < After(c, k).value
  {
    hide RoundStep;
  }

  lemma LeadPlace(p: Plan, s: State)
    requires Lead(p, s)
    ensures After(p.check, s.m.rounds) == Some(s.m.offset)
  {
    hide After, Ahead;
  }

  // ---- With one, there always is ------------------------------------------------------------

  predicate Timed(pc: MainPc) { pc.Reading? || pc.Receiving? || pc.Comparing? || pc.Recycling? || pc.Pacing? }

  /** A run of an image that agrees, no time spent since the round began, on its way to the last
      sleep. */
  ghost predicate OnTheWay(p: Plan, s: State)
  {
    && !s.cancel && InLoop(s.m.pc) && (0 < s.m.remaining || s.m.pc.Pacing?)
    && (Timed(s.m.pc) ==> s.m.pc.started == s.now)
  }

  predicate AtLastSleep(s: State) { s.m.pc.Pacing? && s.m.remaining == 0 && s.m.pc.started == s.now && !s.cancel }

  /** Below `total`, an image that will be accepted has its next round agree. */
  lemma AgreesNext(c: Check, k: nat, j: nat)
    requires LoopEnds(c, k, Agreed, false) && After(c, j).Some? && After(c, j).value < c.total
    ensures RoundStep(c, After(c, j).value).Next?
  {
    var at := After(c, j).value;
    if RoundStep(c, at).Stop? {
      var v := RoundStep(c, at).verdict;
      NotAgreedYet(c, at);
      hide RoundStep;
      LoopEndsUnique(c, k, Agreed, false, j, v, false);
      assert false;
    }
  }

  lemma NotAgreedYet(c: Check, at: nat)
    requires at < c.total && at <= |c.stream|
    ensures RoundStep(c, at) != Stop(Agreed) && RoundStep(c, at) != Stop(Rejected(Cancelled))
  {
    hide CompareChunk;
  }

  lemma MainGoesOn(p: Plan, s: State, k: nat)
    requires Good(p, s) && OnTheWay(p, s) && !AtLastSleep(s) && p.target.Every? && !s.w.pc.Crashed?
    requires LoopEnds(p.check, k, Agreed, false) && Take(p, s, Main(0)).Some?
    ensures OnTheWay(p, Take(p, s, Main(0)).value)
  {
    hide After, RoundStep, CompareChunk, ChunkAt, BreakAt, Conclude, Readable, DeviceChunk, WorkerFlow, Owned, Over;
    if s.m.offset < p.check.total { AgreesNext(p.check, k, s.m.rounds); }
    EdgeRounds(p.check, s.m.offset);
    match s.m.pc
    case Receiving(dev, _) =>
      if s.x.filled == [] { NoSilentExit(p.check, s.w, s.m, s.x); }
      else if s.x.filled[0].Broke? { BreakRound(p.check, dev, s.x.filled[0].error, s.m.offset); }
    case Comparing(b, n, dev, _) => CompareRoundMeaning(p.check, s.x.mem, b, n, dev, s.m.offset);
    case _ =>
  }

  lemma NoCrash(p: Plan, s: State)
    requires Lead(p, s) && p.check.total <= |p.check.stream|
    ensures !s.w.pc.Crashed?
  {
    hide After;
  }

  lemma {:induction false} ToLastSleep(p: Plan, s: State, k: nat) returns (moves: seq<Move>, end: State)
    requires Good(p, s) && Lead(p, s) && OnTheWay(p, s) && p.target.Every?
    requires LoopEnds(p.check, k, Agreed, false) && p.check.total <= |p.check.stream|
    ensures Run(p, s, moves) == Some(end) && Good(p, end) && Lead(p, end) && AtLastSleep(end)
    decreases Measure(s)
  {
    hide Measure, Good, Lead, LoopEnds, WorkerStep, MainStep;
    if AtLastSleep(s) { return [], s; }
    GoodIsNotStuck(p, s);
    NoCrash(p, s);
    var move := if Take(p, s, Worker(0)).Some? then Worker(0) else Main(0);
    StepDecreases(p, s, move);
    StepKeepsGood(p, s, move);
    StepKeepsLead(p, s, move);
    if move == Main(0) { MainGoesOn(p, s, k); }
    var later, last := ToLastSleep(p, Take(p, s, move).value, k);
    moves, end := [move] + later, last;
    assert moves[1..] == later;
  }

  /** The flag is set during the last sleep and seen after it. */
  lemma SeenLate(p: Plan, s: State) returns (moves: seq<Move>, end: State)
    requires AtLastSleep(s) && p.target.Every?
    ensures Run(p, s, moves) == Some(end)
    ensures end.m.pc.ClosingFilled? && end.m.verdict == Rejected(Cancelled) && end.m.rounds == s.m.rounds
  {
    var s1 := s.(cancel := true);
    var s2 := s1.(m := s1.m.(pc := Rechecking));
    assert Take(p, s, SetCancel) == Some(s1);
    assert Take(p, s1, Main(0)) == Some(s2);
    var s3 := State(s2.w, Break(s2.m, Rejected(Cancelled)), s2.x.(mirror := true), true, s2.now);
    assert Take(p, s2, Main(0)) == Some(s3);
    moves, end := [SetCancel, Main(0), Main(0)], s3;
    hide Take;
    assert moves[1..] == [Main(0), Main(0)] && moves[1..][1..] == [Main(0)] && moves[1..][1..][1..] == [];
  }

  lemma StepKeepsVerdict(p: Plan, s: State, move: Move)
    requires Good(p, s) && !InLoop(s.m.pc) && Take(p, s, move).Some?
    ensures var t := Take(p, s, move).value;
            !InLoop(t.m.pc) && t.m.verdict == s.m.verdict && t.m.rounds == s.m.rounds && t.m.offset == s.m.offset
  {
    hide Good, WorkerStep, CompareChunk, Conclude, Readable;
  }

  lemma {:induction false} RunKeepsVerdict(p: Plan, s: State, moves: seq<Move>)
    requires Good(p, s) && !InLoop(s.m.pc) && Run(p, s, moves).Some?
    ensures var t := Run(p, s, moves).value; t.m.verdict == s.m.verdict && t.m.rounds == s.m.rounds
    decreases |moves|
  {
    hide Good, Take;
    if moves != [] {
      StepKeepsVerdict(p, s, moves[0]);
      StepKeepsGood(p, s, moves[0]);
      RunKeepsVerdict(p, Take(p, s, moves[0]).value, moves[1..]);
    }
  }

  lemma {:induction false} RunTogether(p: Plan, s: State, first: seq<Move>, second: seq<Move>)
    requires Run(p, s, first).Some?
    ensures Run(p, s, first + second) == Run(p, Run(p, s, first).value, second)
    decreases |first|
  {
    hide Take;
    if first == [] {
      assert first + second == second;
    } else {
      assert (first + second)[1..] == first[1..] + second;
      RunTogether(p, Take(p, s, first[0]).value, first[1..], second);
    }
  }

  lemma LastSleepPlace(p: Plan, s: State)
    requires Good(p, s) && AtLastSleep(s)
    ensures After(p.check, s.m.rounds) == Some(p.check.total)
  {
    hide After, Queue, WorkerFlow, Owned, Over, Ends;
  }

  /** The run in which the flag is set during the last sleep. */
  lemma LateRun(p: Plan, script: Script, k: nat) returns (s: State)
    requires p.check.stream == Stream(script) && p.check.ending == EndingOf(script)
    requires p.target.Every? && 0 < p.check.total && LoopEnds(p.check, k, Agreed, false)
    ensures Reachable(p, script, false, s) && s.m.pc.Reported? && s.m.pc.report == Err(Cancelled)
    ensures !LoopEnds(p.check, s.m.rounds, s.m.verdict, false)
  {
    hide Good, Lead, Stream, EndingOf, After, RoundStep;
    AgreedMeaning(p.check, k, false);
    var start := Start(p, script, false);
    StartIsGood(p, script, false);
    StartLeads(p, script, false);
    hide LoopEnds;
    var toSleep, asleep := ToLastSleep(p, start, k);
    LastSleepPlace(p, asleep);
    var toSee, seen := SeenLate(p, asleep);
    RunKeepsLead(p, asleep, toSee);
    var toReport := VA.FinishReports(p, seen, _ => Main(0), 0);
    hide VA.Finish, AtLastSleep;
    s := Run(p, seen, toReport).value;
    RunKeepsVerdict(p, seen, toReport);
    RunTogether(p, asleep, toSee, toReport);
    RunTogether(p, start, toSleep, toSee + toReport);
    hide Run;
    assert Reachable(p, script, false, s);
    hide Reachable;
    ReportMeaning(p, script, false, s);
    ReachableLeads(p, script, false, s);
    NoCrash(p, s);
    NotLateSerially(p.check, s.m.rounds);
  }

  lemma NotLateSerially(c: Check, k: nat)
    requires After(c, k) == Some(c.total)
    ensures !LoopEnds(c, k, Rejected(Cancelled), false)
  {
    EdgeRounds(c, c.total);
    hide RoundStep;
  }

  /** The pipelined arm can report a cancellation the serial arm cannot, all bytes compared and
      equal, if and only if there is a throttle to sleep for, something to verify, and a device that
      can be read and agrees with the image on all of it. */
  lemma LateExactly(p: Plan, script: Script)
    requires p.check.stream == Stream(script) && p.check.ending == EndingOf(script)
    ensures (exists s :: Reachable(p, script, false, s) && s.m.pc.Reported? && !s.w.pc.Crashed?
                         && !LoopEnds(p.check, s.m.rounds, s.m.verdict, false))
            <==> p.target.Every? && 0 < p.check.total && AllAgrees(p.check)
  {
    hide LoopEnds, Reachable, Stream, EndingOf, AllAgrees;
    AgreedIff(p.check);
    if s :| Reachable(p, script, false, s) && s.m.pc.Reported? && !s.w.pc.Crashed?
            && !LoopEnds(p.check, s.m.rounds, s.m.verdict, false) {
      LateMeaning(p, script, false, s);
    }
    if k :| p.target.Every? && 0 < p.check.total && LoopEnds(p.check, k, Agreed, false) {
      var s := LateRun(p, script, k);
      ReportMeaning(p, script, false, s);
    }
  }
}
