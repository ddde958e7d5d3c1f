/** What every interleaving of the flash pipeline guarantees. */
module FlashTheorems {
  import opened Options
  import opened Bytes
  import opened Geometry
  import opened Readers
  import opened Devices
  import opened Pace
  import opened Flash
  import opened FlashMeaning
  import opened Channels
  import opened FlashPipeline
  import opened FlashInvariant

  /** `s` is a state some interleaving of a run of `p` over `script` reaches. */
  ghost predicate Reachable(p: Plan, script: Script, cancel: bool, s: State)
  {
    && p.job.stream == Stream(script) && p.job.ending == EndingOf(script)
    && exists moves :: Run(p, Start(p, script, cancel), moves) == Some(s)
  }

  lemma ReachableIsGood(p: Plan, script: Script, cancel: bool, s: State)
    requires Reachable(p, script, cancel, s)
    ensures Good(p, s)
  {
    hide Good;
    var moves :| Run(p, Start(p, script, cancel), moves) == Some(s);
    StartIsGood(p, script, cancel);
    RunKeepsGood(p, Start(p, script, cancel), moves);
  }

  // ---- Safety -------------------------------------------------------------------------------

  /** In every reachable state with main in its loop: the device below `offset` is exactly the
      stream's first `offset` bytes and the rest of it is untouched, and the channel carries the
      chunks that follow, in order, none lost or repeated. */
  lemma DeviceIsPrefix(p: Plan, script: Script, cancel: bool, s: State)
    requires Reachable(p, script, cancel, s) && InLoop(s.m.pc)
    ensures s.m.offset <= |p.job.stream| && s.m.offset <= |p.job.disk.bytes|
    ensures s.m.disk.bytes == Splice(p.job.disk.bytes, 0, p.job.stream[..s.m.offset])
    ensures Queue(p.job, s.x.mem, s.x.filled, Base(s.m))
  {
    hide RoundStep, Queue, WorkerFlow;
    ReachableIsGood(p, script, cancel, s);
    AfterMeaning(p.job, s.m.chunks);
  }

  /** While main is in its loop and the worker lives, each of the two buffers has exactly one
      owner; so at most two chunks are in flight. */
  lemma BuffersConserved(p: Plan, script: Script, cancel: bool, s: State, b: BufId)
    requires Reachable(p, script, cancel, s) && InLoop(s.m.pc) && Alive(s.w.pc)
    ensures OwnersOf(WorkerBuf(s.w.pc), MainBuf(s.m.pc), s.x, b) == 1
  {
    hide Flow;
    ReachableIsGood(p, script, cancel, s);
    assert b == 0 || b == 1;
  }

  /** The "pipeline protocol violation" branch is dead: whenever main finds the channel
      disconnected, the worker panicked. */
  lemma DisconnectMeansPanic(p: Plan, script: Script, cancel: bool, s: State)
    requires Reachable(p, script, cancel, s)
    requires s.m.pc.Receiving? && s.x.filled == [] && !Alive(s.w.pc)
    ensures s.w.pc.Crashed?
  {
    hide MainFlow, Queue;
    ReachableIsGood(p, script, cancel, s);
    NoSilentExit(p.job, s.w, s.m, s.x);
  }

  // ---- Progress -----------------------------------------------------------------------------

  /** No reachable state is stuck before the result is reported. */
  lemma DeadlockFree(p: Plan, script: Script, cancel: bool, s: State)
    requires Reachable(p, script, cancel, s) && !s.m.pc.Reported?
    ensures Take(p, s, Worker(0)).Some? || Take(p, s, Main(0)).Some?
  {
    hide Good, Take;
    ReachableIsGood(p, script, cancel, s);
    GoodIsNotStuck(p, s);
  }

  lemma GoodIsNotStuck(p: Plan, s: State)
    requires Good(p, s) && !s.m.pc.Reported?
    ensures Take(p, s, Worker(0)).Some? || Take(p, s, Main(0)).Some?
  {
    hide Flow, Over, Paced, ChunkStep, Settle, ReadStepOf, Apply;
  }

  /** How far the worker is from its end, counting the item it will send. */
  function WorkerRank(pc: WorkerPc): nat
  {
    match pc
    case Acquiring => 13
    case Holding(_) => 12
    case Filling(_, n) => if n == 0 then 11 else 24
    case Sending(_, n) => if n < BUF_SIZE then 10 else 23
    case Reporting(_, _) => 10
    case Sent(n) => if n < BUF_SIZE then 1 else 14
    case Exited => 0
    case Crashed => 0
  }

  function MainRank(pc: MainPc): nat
  {
    match pc
    case Processing(_, _, _) => 10
    case Recycling(_, _) => 9
    case Pacing(_) => 8
    case Rechecking => 7
    case LoopTop => 6
    case Receiving(_) => 5
    case ClosingFilled => 4
    case ClosingFree => 3
    case Joining => 2
    case Settling => 1
    case Reported(_) => 0
  }

  /** A bound on the steps a run can still take, however it is scheduled. */
  function Measure(s: State): nat
  {
    14 * Weight(s.w.script) + WorkerRank(s.w.pc) + 8 * |s.x.filled| + MainRank(s.m.pc) + (if s.cancel then 0 else 1)
  }

  lemma WorkerDecreases(w: WorkerSide, x: Links)
    requires WorkerStep(w, x).Some?
    ensures var n := WorkerStep(w, x).value;
            14 * Weight(n.w.script) + WorkerRank(n.w.pc) + 8 * |n.x.filled|
              < 14 * Weight(w.script) + WorkerRank(w.pc) + 8 * |x.filled|
  {
    hide ReadStepOf, Weight;
    if w.pc.Filling? && w.pc.n < BUF_SIZE { ReadDecreases(w, x, w.pc.buf, w.pc.n); }
  }

  lemma ReadDecreases(w: WorkerSide, x: Links, b: BufId, n: Count)
    requires w.pc == Filling(b, n) && n < BUF_SIZE
    ensures var r := ReadStepOf(w, x, b, n);
            && 14 * Weight(r.w.script) + WorkerRank(r.w.pc) < 14 * Weight(w.script) + WorkerRank(w.pc)
            && r.x.filled == x.filled
  {
    ReadOnceMeaning(w.script, BUF_SIZE - n);
    hide Weight, ReadOnce, Stream, EndingOf, Splice;
  }

  lemma MainDecreases(p: Plan, m: MainSide, x: Links, worker: WorkerPc, cancel: bool, now: nat)
    requires MainStep(p, m, x, worker, cancel, now).Some?
    ensures var n := MainStep(p, m, x, worker, cancel, now).value;
            8 * |n.x.filled| + MainRank(n.m.pc) < 8 * |x.filled| + MainRank(m.pc)
  {
    hide ChunkStep, Settle, Elapsed, Receive, Apply, SeeCancel;
    match m.pc
    case LoopTop => SeeCancelDecreases(m, x);
    case Receiving(started) => ReceiveDecreases(m, x, worker, started);
    case Processing(b, n, started) =>
      ApplyDecreases(m, b, started, ChunkStep(p.job.faults, p.job.devSize, m.disk, x.mem[b][..n], m.offset));
    case Recycling(_, _) =>
    case Pacing(_) =>
    case Rechecking => SeeCancelDecreases(m, x);
    case ClosingFilled =>
    case ClosingFree =>
    case Joining =>
    case Settling =>
    case Reported(_) =>
  }

  lemma SeeCancelDecreases(m: MainSide, x: Links)
    ensures var n := SeeCancel(m, x); MainRank(n.m.pc) == 4 && n.x.filled == x.filled
  {
  }

  lemma ReceiveDecreases(m: MainSide, x: Links, worker: WorkerPc, started: nat)
    requires Receive(m, x, worker, started).Some?
    ensures var n := Receive(m, x, worker, started).value;
            8 * |n.x.filled| + MainRank(n.m.pc) < 8 * |x.filled| + 5
  {
  }

  lemma ApplyDecreases(m: MainSide, b: BufId, started: nat, c: ChunkResult)
    ensures MainRank(Apply(m, b, started, c).pc) < 10
  {
  }

  lemma StepDecreases(p: Plan, s: State, move: Move)
    requires Take(p, s, move).Some?
    ensures Measure(Take(p, s, move).value) < Measure(s)
  {
    hide WorkerStep, MainStep, Weight, WorkerRank, MainRank;
    match move
    case Worker(_) => WorkerDecreases(s.w, s.x);
    case Main(_) => MainDecreases(p, s.m, s.x, s.w.pc, s.cancel, s.now);
    case SetCancel =>
  }

  /** Every run is finite: no schedule takes more steps than the measure of where it starts. */
  lemma {:induction false} RunIsBounded(p: Plan, s: State, moves: seq<Move>)
    requires Run(p, s, moves).Some?
    ensures |moves| + Measure(Run(p, s, moves).value) <= Measure(s)
    decreases |moves|
  {
    hide Measure, Take;
    if moves != [] {
      StepDecreases(p, s, moves[0]);
      RunIsBounded(p, Take(p, s, moves[0]).value, moves[1..]);
    }
  }

  // ---- Results ------------------------------------------------------------------------------

  /** Where every run ends up: both channels closed and the worker joined; a worker panic is
      re-raised and nothing else is reported as one; otherwise the result is the settled end of the
      serial write loop after the same number of chunks. */
  lemma ReportMeaning(p: Plan, script: Script, cancel: bool, s: State)
    requires Reachable(p, script, cancel, s) && s.m.pc.Reported?
    ensures s.m.joined && !Alive(s.w.pc) && !s.x.filledOpen && !s.x.freeOpen
    ensures s.m.pc.report == Panicked <==> s.w.pc.Crashed?
    ensures s.w.pc.Crashed? ==> EndingOf(script) == Panics
    ensures !s.w.pc.Crashed? ==>
      exists o, d :: LoopEnds(p.job, s.m.chunks, o, d) && (o == Stopped(Cancelled) ==> s.cancel)
                     && o != Stopped(ProtocolViolation)
                     && Settled(s.m.pc.report, s.m.disk) == Settle(p.job.faults, o, d)
  {
    hide Flow, Owned, Paced, LoopEnds;
    ReachableIsGood(p, script, cancel, s);
    if !s.w.pc.Crashed? {
      var o, d :| OverWith(p.job, s.m.chunks, o, d, s.cancel)
                  && Settled(s.m.pc.report, s.m.disk) == Settle(p.job.faults, o, d);
    }
  }

  /** The pipelined arm refines the serial arm: with the flag clear and a reader that does not
      panic, every schedule ends with the serial loop's report, device and chunk count. */
  lemma RefinesSerial(p: Plan, script: Script, s: State, k: nat, o: Outcome, d: Disk)
    requires Reachable(p, script, false, s) && s.m.pc.Reported? && !s.cancel
    requires p.job.ending != Panics
    requires LoopEnds(p.job, k, o, d) && o != Stopped(Cancelled)
    ensures Settled(s.m.pc.report, s.m.disk) == Settle(p.job.faults, o, d) && s.m.chunks == k
  {
    hide LoopEnds, Settle;
    ReportMeaning(p, script, false, s);
    var o', d' :| LoopEnds(p.job, s.m.chunks, o', d') && (o' == Stopped(Cancelled) ==> s.cancel)
                  && o' != Stopped(ProtocolViolation)
                  && Settled(s.m.pc.report, s.m.disk) == Settle(p.job.faults, o', d');
    LoopEndsUnique(p.job, k, o, d, s.m.chunks, o', d');
  }

  /** With a reader that may panic, an uncancelled run still ends in one of two ways: as the serial
      arm would, or with the panic re-raised; and if the serial arm panics, so does every schedule. */
  lemma RefinesSerialOrPanics(p: Plan, script: Script, s: State, k: nat, o: Outcome, d: Disk)
    requires Reachable(p, script, false, s) && s.m.pc.Reported? && !s.cancel
    requires LoopEnds(p.job, k, o, d) && o != Stopped(Cancelled)
    ensures s.m.pc.report == Panicked || Settled(s.m.pc.report, s.m.disk) == Settle(p.job.faults, o, d)
    ensures o == Unwinding ==> s.m.pc.report == Panicked
  {
    hide LoopEnds;
    ReportMeaning(p, script, false, s);
    if s.m.pc.report != Panicked {
      var o', d' :| LoopEnds(p.job, s.m.chunks, o', d') && (o' == Stopped(Cancelled) ==> s.cancel)
                    && o' != Stopped(ProtocolViolation)
                    && Settled(s.m.pc.report, s.m.disk) == Settle(p.job.faults, o', d');
      LoopEndsUnique(p.job, k, o, d, s.m.chunks, o', d');
    }
  }

  /** `Ok` from any interleaving: `total` is the whole stream, all of it is on the device, nothing
      else of the device changed, and the `O_DIRECT` flag is off. */
  lemma OkMeansAllWritten(p: Plan, script: Script, cancel: bool, s: State)
    requires Reachable(p, script, cancel, s) && s.m.pc.Reported? && s.m.pc.report.Ok?
    ensures EndingOf(script) == Eof && s.m.pc.report.total == |Stream(script)| <= |p.job.disk.bytes|
    ensures s.m.disk.bytes == Splice(p.job.disk.bytes, 0, Stream(script))
    ensures !s.m.disk.direct && !p.job.faults.syncFails && p.job.faults.finish != GetFails
  {
    hide LoopEnds;
    ReportMeaning(p, script, cancel, s);
    var o, d :| LoopEnds(p.job, s.m.chunks, o, d) && (o == Stopped(Cancelled) ==> s.cancel)
                && o != Stopped(ProtocolViolation)
                && Settled(s.m.pc.report, s.m.disk) == Settle(p.job.faults, o, d);
    FinishedMeaning(p.job, s.m.chunks, o.total, d);
    OkClearsDirect(p.job.faults, o, d);
  }

  /** Unless cancelled, a reported run of `k` full chunks took at least `k` targets. */
  lemma RunIsPaced(p: Plan, script: Script, s: State)
    requires Reachable(p, script, false, s) && s.m.pc.Reported? && !s.cancel
    ensures s.now >= p.began + Due(p.target, s.m.chunks)
  {
    hide Flow, Over, Due;
    ReachableIsGood(p, script, false, s);
  }

  /** The throttle bounds every uncancelled run: `k` full chunks in `T` nanoseconds is no faster than
      the configured rate, up to one nanosecond a chunk. */
  lemma RunIsThrottled(p: Plan, script: Script, s: State, rate: u64)
    requires Reachable(p, script, false, s) && s.m.pc.Reported? && !s.cancel
    requires p.target == ChunkTarget(Some(rate)) && 0 < rate && 0 < s.m.chunks
    ensures p.began <= s.now
    ensures s.m.chunks * BUF_SIZE * NANOS < rate * ((s.now - p.began) + s.m.chunks)
  {
    hide Due, ChunkTarget;
    RunIsPaced(p, script, s);
    ThrottleBound(rate, s.m.chunks, s.now - p.began);
  }

  // ---- Cancellation -------------------------------------------------------------------------

  /** Writes the main thread may still issue once the flag is set. */
  function Budget(pc: MainPc): nat { if pc.Receiving? || pc.Processing? then 1 else 0 }

  lemma CancelledStep(p: Plan, s: State, move: Move)
    requires s.cancel && Take(p, s, move).Some?
    ensures var s' := Take(p, s, move).value;
            s'.cancel && |s'.m.disk.log| + Budget(s'.m.pc) <= |s.m.disk.log| + Budget(s.m.pc)
  {
    hide WorkerStep;
    if move.Main? && s.m.pc.Processing? {
      var chunk := s.x.mem[s.m.pc.buf][..s.m.pc.len];
      OneWriteAtMost(p.job.faults, p.job.devSize, s.m.disk, chunk, s.m.offset);
      hide ChunkStep;
    } else {
      hide ChunkStep;
    }
  }

  /** From any state in which the flag is set, every continuation issues at most one more write. */
  lemma {:induction false} CancelIsPrompt(p: Plan, s: State, moves: seq<Move>)
    requires s.cancel && Run(p, s, moves).Some?
    ensures |Run(p, s, moves).value.m.disk.log| <= |s.m.disk.log| + Budget(s.m.pc) <= |s.m.disk.log| + 1
    decreases |moves|
  {
    hide Take;
    if moves != [] {
      CancelledStep(p, s, moves[0]);
      CancelIsPrompt(p, Take(p, s, moves[0]).value, moves[1..]);
    }
  }

  /** Once main has reported a cancellation to itself, the mirror is set. */
  ghost predicate Mirrored(m: MainSide, x: Links) { m.outcome == Stopped(Cancelled) ==> x.mirror }

  lemma MainKeepsMirrored(p: Plan, s: State)
    requires Good(p, s) && Mirrored(s.m, s.x) && MainStep(p, s.m, s.x, s.w.pc, s.cancel, s.now).Some?
    ensures var n := MainStep(p, s.m, s.x, s.w.pc, s.cancel, s.now).value; Mirrored(n.m, n.x)
  {
    hide Flow, Over, Ends, Owned, Paced, ChunkStep, Settle, Elapsed, Receive;
    if s.m.pc.Receiving? { ReceiveKeepsMirrored(p, s); }
  }

  lemma ReceiveKeepsMirrored(p: Plan, s: State)
    requires Good(p, s) && s.m.pc.Receiving? && Mirrored(s.m, s.x)
    requires Receive(s.m, s.x, s.w.pc, s.m.pc.started).Some?
    ensures var n := Receive(s.m, s.x, s.w.pc, s.m.pc.started).value; Mirrored(n.m, n.x)
  {
    hide Over, Ends, Owned, Paced, After, WorkerFlow, ChunkAt;
  }

  /** In every run a cancelled loop has told the worker, */
  lemma {:induction false} RunKeepsMirrored(p: Plan, s: State, moves: seq<Move>)
    requires Good(p, s) && Mirrored(s.m, s.x) && Run(p, s, moves).Some?
    ensures Mirrored(Run(p, s, moves).value.m, Run(p, s, moves).value.x)
    decreases |moves|
  {
    hide Good, MainStep;
    if moves != [] {
      if moves[0].Main? { MainKeepsMirrored(p, s); }
      StepKeepsGood(p, s, moves[0]);
      RunKeepsMirrored(p, Take(p, s, moves[0]).value, moves[1..]);
    }
  }

  /** and a worker that has been told starts no further fill. */
  lemma {:induction false} MirrorStopsWorker(p: Plan, s: State, moves: seq<Move>)
    requires s.x.mirror && !s.w.pc.Filling? && Run(p, s, moves).Some?
    ensures !Run(p, s, moves).value.w.pc.Filling?
    decreases |moves|
  {
    hide ChunkStep, Settle, Elapsed;
    if moves != [] { MirrorStopsWorker(p, Take(p, s, moves[0]).value, moves[1..]); }
  }

  /** So once a loop has been cancelled, a worker outside a fill reads nothing more, in any continuation
      of any run. */
  lemma CancelStopsWorker(p: Plan, script: Script, cancel: bool, s: State, moves: seq<Move>)
    requires Reachable(p, script, cancel, s) && s.m.outcome == Stopped(Cancelled)
    requires !s.w.pc.Filling? && Run(p, s, moves).Some?
    ensures !Run(p, s, moves).value.w.pc.Filling?
  {
    hide Good;
    var before :| Run(p, Start(p, script, cancel), before) == Some(s);
    StartIsGood(p, script, cancel);
    RunKeepsMirrored(p, Start(p, script, cancel), before);
    MirrorStopsWorker(p, s, moves);
  }
}
