/** What every interleaving of the verify pipeline guarantees. */
module VerifyTheorems {
  import opened Options
  import opened Bytes
  import opened Geometry
  import opened Readers
  import opened Devices
  import opened Verify
  import opened VerifyMeaning
  import opened Channels
  import opened VerifyPipeline
  import opened VerifyInvariant

  /** `s` is a state some interleaving of a run of `p` over `script` reaches. */
  ghost predicate Reachable(p: Plan, script: Script, cancel: bool, s: State)
  {
    && p.check.stream == Stream(script) && p.check.ending == EndingOf(script)
    && exists moves :: Run(p, Start(p, script, cancel), moves) == Some(s)
  }

  lemma ReachableIsGood(p: Plan, script: Script, cancel: bool, s: State)
    requires Reachable(p, script, cancel, s)
    ensures Good(p, s)
  {
    hide Good;
    var moves :| Run(p, Start(p, script, cancel), moves) == Some(s);
    StartIsGood(p, script, cancel);
    RunKeepsGood(p, Start(p, script, cancel), moves);
  }

  // ---- Safety -------------------------------------------------------------------------------

  /** While main is in its loop: everything below `offset` has been compared and agrees, and the
      two sides are in lockstep: unless the worker has reported an error or panicked, what it still
      has to send is exactly what main still expects beyond the bytes in flight. */
  lemma Lockstep(p: Plan, script: Script, cancel: bool, s: State)
    requires Reachable(p, script, cancel, s) && InLoop(s.m.pc)
    ensures s.m.offset + s.m.remaining == p.check.total
    ensures s.m.offset <= |p.check.disk.bytes| && s.m.offset <= |p.check.stream|
    ensures p.check.disk.bytes[..s.m.offset] == p.check.stream[..s.m.offset]
    ensures !EndsBroken(s.x.filled) ==>
      s.w.remaining + (QueueEnd(s.x.filled, Base(s.m)) - s.m.offset) == s.m.remaining
  {
    hide RoundStep, Queue, QueueEnd;
    ReachableIsGood(p, script, cancel, s);
    AfterAgrees(p.check, s.m.rounds);
  }

  lemma BuffersConserved(p: Plan, script: Script, cancel: bool, s: State, b: BufId)
    requires Reachable(p, script, cancel, s) && InLoop(s.m.pc) && Alive(s.w.pc)
    ensures OwnersOf(WorkerBuf(s.w.pc), MainBuf(s.m.pc), s.x, b) == 1
  {
    hide Flow;
    ReachableIsGood(p, script, cancel, s);
    assert b == 0 || b == 1;
  }

  /** Both "pipeline protocol violation" branches are dead: a received chunk always has the length
      main derived for itself, and a disconnect while bytes remain means the worker panicked. */
  lemma ProtocolHolds(p: Plan, script: Script, cancel: bool, s: State)
    requires Reachable(p, script, cancel, s)
    ensures s.m.pc.Comparing? ==> s.m.pc.len == Min(s.m.remaining, BUF_SIZE)
    ensures s.m.pc.Receiving? && s.x.filled == [] && !Alive(s.w.pc) ==> s.w.pc.Crashed?
  {
    hide Queue, After, RoundStep;
    ReachableIsGood(p, script, cancel, s);
    if s.m.pc.Receiving? && s.x.filled == [] { NoSilentExit(p.check, s.w, s.m, s.x); }
  }

  // ---- Progress -----------------------------------------------------------------------------

  lemma GoodIsNotStuck(p: Plan, s: State)
    requires Good(p, s) && !s.m.pc.Reported?
    ensures Take(p, s, Worker(0)).Some? || Take(p, s, Main(0)).Some?
  {
    hide Flow, Over, CompareChunk, Readable, ReadStepOf, Conclude;
  }

  /** No reachable state is stuck before the result is reported. */
  lemma DeadlockFree(p: Plan, script: Script, cancel: bool, s: State)
    requires Reachable(p, script, cancel, s) && !s.m.pc.Reported?
    ensures Take(p, s, Worker(0)).Some? || Take(p, s, Main(0)).Some?
  {
    hide Good, Take;
    ReachableIsGood(p, script, cancel, s);
    GoodIsNotStuck(p, s);
  }

  /** How far the worker is from its end, or from its next chunk if it still owes bytes. */
  function WorkerRank(pc: WorkerPc, remaining: nat): nat
  {
    match pc
    case Acquiring => if remaining == 0 then 1 else 13
    case Holding(_) => 12
    case Filling(_, n) => if n == 0 || remaining == 0 then 11 else 24
    case Sending(_, _) => if remaining == 0 then 10 else 22
    case Reporting(_, _) => 10
    case Exited => 0
    case Crashed => 0
  }

  function MainRank(pc: MainPc): nat
  {
    match pc
    case Comparing(_, _, _, _) => 11
    case Recycling(_, _) => 10
    case Pacing(_) => 9
    case Rechecking => 8
    case LoopTop => 7
    case Reading(_) => 6
    case Receiving(_, _) => 5
    case ClosingFilled => 4
    case ClosingFree => 3
    case Joining => 2
    case Settling => 1
    case Reported(_) => 0
  }

  /** A bound on the steps a run can still take, however it is scheduled. */
  function Measure(s: State): nat
  {
    14 * Weight(s.w.script) + WorkerRank(s.w.pc, s.w.remaining) + 8 * |s.x.filled| + MainRank(s.m.pc)
    + (if s.cancel then 0 else 1)
  }

  lemma WorkerDecreases(w: WorkerSide, x: Links)
    requires WorkerStep(w, x).Some?
    ensures var n := WorkerStep(w, x).value;
            14 * Weight(n.w.script) + WorkerRank(n.w.pc, n.w.remaining) + 8 * |n.x.filled|
              < 14 * Weight(w.script) + WorkerRank(w.pc, w.remaining) + 8 * |x.filled|
  {
    hide ReadStepOf, Weight;
    if w.pc.Filling? && w.pc.n < Min(w.remaining, BUF_SIZE) { FillDecreases(w, x, w.pc.buf, w.pc.n); }
  }

  lemma FillDecreases(w: WorkerSide, x: Links, b: BufId, n: Count)
    requires w.pc == Filling(b, n) && n < Min(w.remaining, BUF_SIZE)
    ensures var r := ReadStepOf(w, x, b, n, Min(w.remaining, BUF_SIZE));
            && 14 * Weight(r.w.script) + WorkerRank(r.w.pc, r.w.remaining)
                 < 14 * Weight(w.script) + WorkerRank(w.pc, w.remaining)
            && r.x.filled == x.filled
  {
    ReadOnceMeaning(w.script, Min(w.remaining, BUF_SIZE) - n);
    hide Weight, ReadOnce, Stream, EndingOf, Splice;
  }

  lemma MainDecreases(p: Plan, m: MainSide, x: Links, worker: WorkerPc, cancel: bool, now: nat)
    requires MainStep(p, m, x, worker, cancel, now).Some?
    ensures var n := MainStep(p, m, x, worker, cancel, now).value;
            8 * |n.x.filled| + MainRank(n.m.pc) < 8 * |x.filled| + MainRank(m.pc)
  {
    hide Conclude, Elapsed, Receive, ReadDevice, Compare, SeeCancel;
    match m.pc
    case LoopTop => SeeCancelDecreases(m, x);
    case Reading(started) => ReadDecreases(p.check, m, started);
    case Receiving(dev, started) => ReceiveDecreases(m, x, worker, dev, started);
    case Comparing(b, n, dev, started) => CompareDecreases(m, b, dev, x.mem[b][..n], started);
    case Recycling(_, _) =>
    case Pacing(_) =>
    case Rechecking => SeeCancelDecreases(m, x);
    case ClosingFilled =>
    case ClosingFree =>
    case Joining =>
    case Settling =>
    case Reported(_) =>
  }

  lemma SeeCancelDecreases(m: MainSide, x: Links)
    ensures var n := SeeCancel(m, x); MainRank(n.m.pc) == 4 && n.x.filled == x.filled
  {
  }

  lemma ReadDecreases(c: Check, m: MainSide, started: nat)
    ensures MainRank(ReadDevice(c, m, started).pc) < 6
  {
  }

  lemma CompareDecreases(m: MainSide, b: BufId, dev: seq<byte>, img: seq<byte>, started: nat)
    ensures MainRank(Compare(m, b, dev, img, started).pc) < 11
  {
    hide CompareChunk;
  }

  lemma ReceiveDecreases(m: MainSide, x: Links, worker: WorkerPc, dev: seq<byte>, started: nat)
    requires Receive(m, x, worker, dev, started).Some?
    ensures var n := Receive(m, x, worker, dev, started).value;
            8 * |n.x.filled| + MainRank(n.m.pc) < 8 * |x.filled| + 5
  {
  }

  lemma StepDecreases(p: Plan, s: State, move: Move)
    requires Take(p, s, move).Some?
    ensures Measure(Take(p, s, move).value) < Measure(s)
  {
    hide WorkerStep, MainStep, Weight, WorkerRank, MainRank;
    match move
    case Worker(_) => WorkerDecreases(s.w, s.x);
    case Main(_) => MainDecreases(p, s.m, s.x, s.w.pc, s.cancel, s.now);
    case SetCancel =>
  }

  /** Every run is finite: no schedule takes more steps than the measure of where it starts. */
  lemma {:induction false} RunIsBounded(p: Plan, s: State, moves: seq<Move>)
    requires Run(p, s, moves).Some?
    ensures |moves| + Measure(Run(p, s, moves).value) <= Measure(s)
    decreases |moves|
  {
    hide Measure, Take;
    if moves != [] {
      StepDecreases(p, s, moves[0]);
      RunIsBounded(p, Take(p, s, moves[0]).value, moves[1..]);
    }
  }

  // ---- Results ------------------------------------------------------------------------------

  /** Where every run ends up: both channels closed and the worker joined; a worker panic is
      re-raised and nothing else is reported as one; otherwise the report is a verdict of the serial
      compare loop after the same number of rounds. */
  lemma ReportMeaning(p: Plan, script: Script, cancel: bool, s: State)
    requires Reachable(p, script, cancel, s) && s.m.pc.Reported?
    ensures s.m.joined && !Alive(s.w.pc) && !s.x.filledOpen && !s.x.freeOpen
    ensures s.m.pc.report == Panicked <==> s.w.pc.Crashed?
    ensures s.w.pc.Crashed? ==> EndingOf(script) == Panics
    ensures !s.w.pc.Crashed? ==>
      && OverWith(p.check, s.m.rounds, s.m.verdict, s.cancel)
      && s.m.pc.report == Conclude(s.m.verdict)
  {
    hide Flow, Owned, LoopEnds;
    ReachableIsGood(p, script, cancel, s);
  }

  /** The pipelined arm refines the serial arm: with the flag clear and a reader that does not
      panic, every schedule ends with the serial loop's report. */
  lemma RefinesSerial(p: Plan, script: Script, s: State, k: nat, v: Verdict)
    requires Reachable(p, script, false, s) && s.m.pc.Reported? && !s.cancel
    requires p.check.ending != Panics
    requires LoopEnds(p.check, k, v, false) && v != Rejected(Cancelled)
    ensures s.m.pc.report == Conclude(v) && s.m.rounds == k
  {
    hide LoopEnds;
    ReportMeaning(p, script, false, s);
    LoopEndsUnique(p.check, k, v, false, s.m.rounds, s.m.verdict, true);
  }

  /** Even when cancelled or faulty, `Ok` is never reported over a difference. */
  lemma OkMeansEqual(p: Plan, script: Script, cancel: bool, s: State)
    requires Reachable(p, script, cancel, s) && s.m.pc.Reported? && s.m.pc.report == Ok
    ensures p.check.total <= |p.check.disk.bytes| && p.check.total <= |Stream(script)|
    ensures p.check.disk.bytes[..p.check.total] == Stream(script)[..p.check.total]
  {
    hide LoopEnds;
    ReportMeaning(p, script, cancel, s);
    AgreedMeaning(p.check, s.m.rounds, true);
  }

  // ---- Cancellation -------------------------------------------------------------------------

  /** Chunks the main thread may still compare once the flag is set: one, and only if its loop has
      already passed the check at the top. */
  function Budget(pc: MainPc): nat
  {
    if pc.Reading? || pc.Receiving? || pc.Comparing? || pc.Recycling? then 1 else 0
  }

  lemma CancelledStep(p: Plan, s: State, move: Move)
    requires s.cancel && Take(p, s, move).Some?
    ensures var s' := Take(p, s, move).value;
            s'.cancel && s'.m.rounds + Budget(s'.m.pc) <= s.m.rounds + Budget(s.m.pc)
  {
    hide WorkerStep, CompareChunk, Readable, Conclude, Elapsed;
  }

  /** From any state in which the flag is set, every continuation compares at most one more chunk. */
  lemma {:induction false} CancelIsPrompt(p: Plan, s: State, moves: seq<Move>)
    requires s.cancel && Run(p, s, moves).Some?
    ensures Run(p, s, moves).value.m.rounds <= s.m.rounds + Budget(s.m.pc) <= s.m.rounds + 1
    decreases |moves|
  {
    hide Take;
    if moves != [] {
      CancelledStep(p, s, moves[0]);
      CancelIsPrompt(p, Take(p, s, moves[0]).value, moves[1..]);
    }
  }

  /** Once main has reported a cancellation to itself, the mirror is set. */
  ghost predicate Mirrored(m: MainSide, x: Links) { m.verdict == Rejected(Cancelled) ==> x.mirror }

  lemma MainKeepsMirrored(p: Plan, s: State)
    requires Good(p, s) && Mirrored(s.m, s.x) && MainStep(p, s.m, s.x, s.w.pc, s.cancel, s.now).Some?
    ensures var n := MainStep(p, s.m, s.x, s.w.pc, s.cancel, s.now).value; Mirrored(n.m, n.x)
  {
    hide Flow, Over, Ends, Owned, CompareChunk, Readable, Conclude, Elapsed, Receive;
    if s.m.pc.Receiving? { ReceiveKeepsMirrored(p, s); }
  }

  lemma ReceiveKeepsMirrored(p: Plan, s: State)
    requires Good(p, s) && s.m.pc.Receiving? && Mirrored(s.m, s.x)
    requires Receive(s.m, s.x, s.w.pc, s.m.pc.dev, s.m.pc.started).Some?
    ensures var n := Receive(s.m, s.x, s.w.pc, s.m.pc.dev, s.m.pc.started).value; Mirrored(n.m, n.x)
  {
    hide Over, Ends, Owned, After, WorkerFlow, ChunkAt, DeviceChunk;
  }

  /** In every run a cancelled loop has told the worker, */
  lemma {:induction false} RunKeepsMirrored(p: Plan, s: State, moves: seq<Move>)
    requires Good(p, s) && Mirrored(s.m, s.x) && Run(p, s, moves).Some?
    ensures Mirrored(Run(p, s, moves).value.m, Run(p, s, moves).value.x)
    decreases |moves|
  {
    hide Good, MainStep;
    if moves != [] {
      if moves[0].Main? { MainKeepsMirrored(p, s); }
      StepKeepsGood(p, s, moves[0]);
      RunKeepsMirrored(p, Take(p, s, moves[0]).value, moves[1..]);
    }
  }

  /** and a worker that has been told starts no further fill. */
  lemma {:induction false} MirrorStopsWorker(p: Plan, s: State, moves: seq<Move>)
    requires s.x.mirror && !s.w.pc.Filling? && Run(p, s, moves).Some?
    ensures !Run(p, s, moves).value.w.pc.Filling?
    decreases |moves|
  {
    hide CompareChunk, Readable, Conclude, Elapsed;
    if moves != [] { MirrorStopsWorker(p, Take(p, s, moves[0]).value, moves[1..]); }
  }

  /** So once a loop has been cancelled, a worker outside a fill reads nothing more, in any continuation
      of any run. */
  lemma CancelStopsWorker(p: Plan, script: Script, cancel: bool, s: State, moves: seq<Move>)
    requires Reachable(p, script, cancel, s) && s.m.verdict == Rejected(Cancelled)
    requires !s.w.pc.Filling? && Run(p, s, moves).Some?
    ensures !Run(p, s, moves).value.w.pc.Filling?
  {
    hide Good;
    var before :| Run(p, Start(p, script, cancel), before) == Some(s);
    StartIsGood(p, script, cancel);
    RunKeepsMirrored(p, Start(p, script, cancel), before);
    MirrorStopsWorker(p, s, moves);
  }
}
