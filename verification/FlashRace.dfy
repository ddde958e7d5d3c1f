/** When a panicking reader makes the two flash arms differ: exactly when the panic lies within the
    pipelined worker's read-ahead. */
module FlashRace {
  import opened Options
  import opened Bytes
  import opened Geometry
  import opened Readers
  import opened Devices
  import opened Flash
  import opened FlashMeaning
  import opened Channels
  import opened FlashPipeline
  import opened FlashInvariant
  import opened FlashTheorems

  // ---- How far the worker can be ahead ------------------------------------------------------

  /** How many buffers the worker can have taken from the pool so far. */
  function Takings(m: MainSide): nat { m.chunks + if m.pc.Recycling? then 1 else 2 }

  /** How many more bytes the buffer in the worker's hand can take. */
  function Room(pc: WorkerPc): nat
  {
    match pc
    case Holding(_) => BUF_SIZE
    case Filling(_, n) => BUF_SIZE - n
    case Sending(_, n) => BUF_SIZE - n
    case _ => 0
  }

  /** How many bytes `buffers` buffers can hold. */
  function Span(buffers: nat): nat { buffers * BUF_SIZE }

  /** The worker has read no more than the buffers it has been given can hold: `pooled` is what the
      buffers in the pool hold, `given` what all of them together with those it has taken do. */
  ghost predicate Ahead(stream: seq<byte>, w: WorkerSide, pooled: nat, given: nat)
  {
    && |Stream(w.script)| <= |stream|
    && match w.pc
       case Exited => true
       case Crashed => |stream| < given
       case _ => |stream| - |Stream(w.script)| + Room(w.pc) + pooled <= given
  }

  ghost predicate Lead(p: Plan, s: State)
  {
    After(p.job, s.m.chunks).Some? && Ahead(p.job.stream, s.w, Span(|s.x.free|), Span(Takings(s.m)))
  }

  lemma WorkerKeepsAhead(stream: seq<byte>, w: WorkerSide, x: Links, given: nat)
    requires Ahead(stream, w, Span(|x.free|), given) && WorkerStep(w, x).Some?
    ensures var n := WorkerStep(w, x).value; Ahead(stream, n.w, Span(|n.x.free|), given)
  {
    hide ReadStepOf, Stream;
    if w.pc.Acquiring? && x.free != [] {
      NextMultiple(|x.free| - 1, BUF_SIZE);
    } else {
      hide Span;
      if w.pc.Filling? && w.pc.n < BUF_SIZE { ReadKeepsAhead(stream, w, x, given, w.pc.buf, w.pc.n, Span(|x.free|)); }
    }
  }

  lemma ReadKeepsAhead(stream: seq<byte>, w: WorkerSide, x: Links, given: nat, b: BufId, n: Count, pooled: nat)
    requires Ahead(stream, w, pooled, given) && w.pc == Filling(b, n) && n < BUF_SIZE
    ensures var r := ReadStepOf(w, x, b, n);
            && Ahead(stream, r.w, if r.w.pc.Crashed? then 0 else pooled, given)
            && (!r.w.pc.Crashed? ==> r.x.free == x.free)
  {
    ReadOnceMeaning(w.script, BUF_SIZE - n);
    hide ReadOnce, Stream, EndingOf, Splice;
  }

  lemma MainKeepsAhead(p: Plan, s: State)
    requires Ahead(p.job.stream, s.w, Span(|s.x.free|), Span(Takings(s.m)))
    requires MainStep(p, s.m, s.x, s.w.pc, s.cancel, s.now).Some?
    ensures var n := MainStep(p, s.m, s.x, s.w.pc, s.cancel, s.now).value;
            && Ahead(p.job.stream, s.w, Span(|n.x.free|), Span(Takings(n.m)))
            && (InLoop(n.m.pc) || n.m.chunks == s.m.chunks)
  {
    hide Ahead, MainStep, Span;
    MainFrame(p, s);
    if s.m.pc.Recycling? { RecyclingKeepsAhead(p.job.stream, s.w, s.x, s.m.pc.buf, s.m.chunks); }
  }

  /** Only recycling gives a buffer back. */
  lemma MainFrame(p: Plan, s: State)
    requires MainStep(p, s.m, s.x, s.w.pc, s.cancel, s.now).Some?
    ensures var n := MainStep(p, s.m, s.x, s.w.pc, s.cancel, s.now).value;
            && n.x.free == (if s.m.pc.Recycling? && Alive(s.w.pc) then s.x.free + [s.m.pc.buf] else s.x.free)
            && (Takings(n.m) == if s.m.pc.Recycling? then Takings(s.m) + 1 else Takings(s.m))
            && (InLoop(n.m.pc) || n.m.chunks == s.m.chunks)
  {
    hide ChunkStep, Settle, Elapsed;
  }

  lemma RecyclingKeepsAhead(stream: seq<byte>, w: WorkerSide, x: Links, b: BufId, chunks: nat)
    requires Ahead(stream, w, Span(|x.free|), Span(chunks + 1))
    ensures var free := if Alive(w.pc) then x.free + [b] else x.free;
            Ahead(stream, w, Span(|free|), Span(chunks + 2))
  {
    hide Stream;
    NextMultiple(|x.free|, BUF_SIZE);
    NextMultiple(chunks + 1, BUF_SIZE);
  }

  lemma StepKeepsLead(p: Plan, s: State, move: Move)
    requires Good(p, s) && Lead(p, s) && Take(p, s, move).Some?
    ensures Lead(p, Take(p, s, move).value)
  {
    hide Ahead, Span, WorkerStep, MainStep, Over, Ends, Owned, Source, Paced, RoundStep, Queue, WorkerFlow;
    StepKeepsGood(p, s, move);
    match move
    case Worker(_) => WorkerKeepsAhead(p.job.stream, s.w, s.x, Span(Takings(s.m)));
    case Main(_) => MainKeepsAhead(p, s);
    case SetCancel =>
  }

  lemma {:induction false} RunKeepsLead(p: Plan, s: State, moves: seq<Move>)
    requires Good(p, s) && Lead(p, s) && Run(p, s, moves).Some?
    ensures Lead(p, Run(p, s, moves).value)
    decreases |moves|
  {
    hide Good, Lead, Take;
    if moves != [] {
      StepKeepsLead(p, s, moves[0]);
      StepKeepsGood(p, s, moves[0]);
      RunKeepsLead(p, Take(p, s, moves[0]).value, moves[1..]);
    }
  }

  /** The worker can only have met a panic that lies less than two buffers beyond the chunks main
      has written. */
  lemma CrashIsNear(p: Plan, script: Script, cancel: bool, s: State)
    requires Reachable(p, script, cancel, s) && s.w.pc.Crashed?
    ensures After(p.job, s.m.chunks).Some? && |p.job.stream| < (s.m.chunks + 2) * BUF_SIZE
    ensures p.job.ending == Panics
  {
    hide Good, Stream, RoundStep;
    var moves :| Run(p, Start(p, script, cancel), moves) == Some(s);
    StartIsGood(p, script, cancel);
    assert Lead(p, Start(p, script, cancel));
    RunKeepsLead(p, Start(p, script, cancel), moves);
    Scale(Takings(s.m), s.m.chunks + 2, BUF_SIZE);
    RunKeepsGood(p, Start(p, script, cancel), moves);
    GoodSource(p, s);
  }

  lemma GoodSource(p: Plan, s: State)
    requires Good(p, s)
    ensures Source(p.job, s.w)
  {
    hide Flow, Over, Ends, Owned, Paced, Source;
  }

  // ---- Agreement ----------------------------------------------------------------------------

  /** A reported run ended as the serial loop that ends with `o` on `d` would have. */
  ghost predicate Agrees(p: Plan, s: State, o: Outcome, d: Disk)
  {
    && s.m.pc.Reported?
    && s.m.pc.report == Settle(p.job.faults, o, d).report
    && (s.m.pc.report != Panicked ==> s.m.disk == Settle(p.job.faults, o, d).disk)
  }

  /** The serial loop stops for another reason with less than two full buffers left unread between
      where it stands and the panic. */
  ghost predicate Outrun(job: Job, k: nat, o: Outcome)
  {
    job.ending == Panics && o != Unwinding && |job.stream| < (k + 2) * BUF_SIZE
  }

  lemma AgreesUnlessOutrun(p: Plan, script: Script, s: State, k: nat, o: Outcome, d: Disk)
    requires Reachable(p, script, false, s) && s.m.pc.Reported? && !s.cancel
    requires LoopEnds(p.job, k, o, d) && o != Stopped(Cancelled) && !Outrun(p.job, k, o)
    ensures Agrees(p, s, o, d)
  {
    hide Reachable, RoundStep;
    RefinesSerialOrPanics(p, script, s, k, o, d);
    ReportMeaning(p, script, false, s);
    if s.m.pc.report == Panicked && o != Unwinding {
      CrashIsNear(p, script, false, s);
      if k < s.m.chunks { AfterPrefix(p.job, k + 1, s.m.chunks); }
      Scale(s.m.chunks + 2, k + 2, BUF_SIZE);
      assert false;
    }
  }

  // ---- The schedule that loses the race -----------------------------------------------------

  /** Nothing ends a channel whose stream ends in a panic. */
  lemma {:induction false} NoTerminal(job: Job, mem: Pool, items: seq<FlashItem>, at: nat)
    requires Queue(job, mem, items, at) && job.ending == Panics
    ensures !EndsTerminal(items)
    ensures items != [] ==> items[0].Chunk? && at + BUF_SIZE <= |job.stream|
  {
    if items != [] && items[1..] != [] {
      NoTerminal(job, mem, items[1..], at + ItemLen(items[0]));
    }
  }

  /** A worker that is stuck without having crashed while main processes a full chunk has read the
      next one. */
  lemma StuckHasRead(job: Job, w: WorkerSide, m: MainSide, x: Links)
    requires Flow(job, w, m, x) && (Alive(w.pc) ==> Owned(w.pc, m.pc, x)) && x.freeOpen
    requires WorkerStep(w, x).None? && !w.pc.Crashed? && job.ending == Panics && m.pc.Processing?
    ensures m.offset + BUF_SIZE + BUF_SIZE <= |job.stream|
  {
    hide After, Queue, QueueEnd;
    NoTerminal(job, x.mem, x.filled, Base(m));
    if w.pc.Acquiring? { RestIsQueued(MainBuf(m.pc), x); }
  }

  /** Without a cancellation, main leaves its loop where the serial round stops, or on a channel
      closed by a crash. */
  lemma LeavingIsTheEnd(p: Plan, s: State)
    requires Good(p, s) && !s.cancel && InLoop(s.m.pc) && p.job.ending == Panics
    requires Take(p, s, Main(0)).Some? && !InLoop(Take(p, s, Main(0)).value.m.pc)
    ensures s.m.offset <= |p.job.stream|
    ensures s.w.pc.Crashed? || (s.m.pc.Processing? && RoundStep(p.job, Cursor(s.m.disk, s.m.offset)).Stop?)
  {
    hide Over, Paced, RoundStep, ChunkStep, Settle, WorkerFlow, Owned, After;
    NoTerminal(p.job, s.x.mem, s.x.filled, Base(s.m));
    match s.m.pc
    case Receiving(_) =>
      if s.x.filled == [] { NoSilentExit(p.job, s.w, s.m, s.x); }
    case Processing(b, n, _) => ChunkRound(p.job, s.x.mem, b, n, Cursor(s.m.disk, s.m.offset));
    case _ =>
  }

  /** Where the serial loop stops, a main thread that waits for a stuck worker leaves its loop only
      after the worker has crashed. */
  lemma LeavesOnlyAfterCrash(p: Plan, s: State, k: nat, o: Outcome, d: Disk)
    requires Good(p, s) && !s.cancel && InLoop(s.m.pc) && WorkerStep(s.w, s.x).None?
    requires LoopEnds(p.job, k, o, d) && o != Stopped(Cancelled) && Outrun(p.job, k, o)
    requires Take(p, s, Main(0)).Some? && !InLoop(Take(p, s, Main(0)).value.m.pc)
    ensures s.w.pc.Crashed?
  {
    hide RoundStep, Take, WorkerStep, Queue, WorkerFlow, Over, Paced;
    LeavingIsTheEnd(p, s);
    if s.w.pc.Crashed? { return; }
    if s.m.chunks < k { AfterPrefix(p.job, s.m.chunks + 1, k); }
    if k < s.m.chunks { AfterPrefix(p.job, k + 1, s.m.chunks); }
    NextMultiple(k, BUF_SIZE);
    NextMultiple(k + 1, BUF_SIZE);
    hide After;
    StuckHasRead(p.job, s.w, s.m, s.x);
    assert false;
  }

  /** The schedule that always prefers the worker reaches the panic first. */
  lemma {:induction false} WorkerFirst(p: Plan, s: State, k: nat, o: Outcome, d: Disk)
    returns (moves: seq<Move>, end: State)
    requires Good(p, s) && !s.cancel && (InLoop(s.m.pc) || s.w.pc.Crashed?)
    requires LoopEnds(p.job, k, o, d) && o != Stopped(Cancelled) && Outrun(p.job, k, o)
    ensures Run(p, s, moves) == Some(end) && !end.cancel && end.m.pc.Reported? && end.m.pc.report == Panicked
    decreases Measure(s)
  {
    hide Measure, Over, Flow, Owned, Paced, Source, LoopEnds, WorkerStep, MainStep, Outrun;
    if s.m.pc.Reported? { return [], s; }
    GoodIsNotStuck(p, s);
    var move := if Take(p, s, Worker(0)).Some? then Worker(0) else Main(0);
    StepDecreases(p, s, move);
    StepKeepsGood(p, s, move);
    var next := Take(p, s, move).value;
    if move == Worker(0) { DoneWorkerIsStuck(s.w, s.x); }
    else if InLoop(s.m.pc) && !InLoop(next.m.pc) { LeavesOnlyAfterCrash(p, s, k, o, d); }
    var later, last := WorkerFirst(p, next, k, o, d);
    moves, end := [move] + later, last;
    assert moves[1..] == later;
  }

  /** The two flash arms agree under every schedule if and only if the panic, if there is one, is
      out of the worker's reach when the serial loop stops. */
  lemma ArmsAgreeExactly(p: Plan, script: Script, k: nat, o: Outcome, d: Disk)
    requires p.job.stream == Stream(script) && p.job.ending == EndingOf(script)
    requires LoopEnds(p.job, k, o, d) && o != Stopped(Cancelled)
    ensures (forall s | Reachable(p, script, false, s) && s.m.pc.Reported? && !s.cancel :: Agrees(p, s, o, d))
            <==> !Outrun(p.job, k, o)
  {
    hide LoopEnds, Good, Outrun, Run, Stream, EndingOf;
    if Outrun(p.job, k, o) {
      StartIsGood(p, script, false);
      var moves, s := WorkerFirst(p, Start(p, script, false), k, o, d);
      assert Reachable(p, script, false, s);
      assert !Agrees(p, s, o, d) by { assert o != Unwinding by { Unfold(p.job, k, o); } }
    } else {
      forall s | Reachable(p, script, false, s) && s.m.pc.Reported? && !s.cancel ensures Agrees(p, s, o, d) {
        hide Reachable, Agrees;
        AgreesUnlessOutrun(p, script, s, k, o, d);
      }
    }
  }

  lemma Unfold(job: Job, k: nat, o: Outcome)
    requires Outrun(job, k, o)
    ensures o != Unwinding
  {
  }

  /** On an obedient device the race is decided by two lengths: the arms agree unless the reader
      panics and the device holds exactly one full buffer fewer than the stream. */
  lemma ObedientArmsAgreeExactly(p: Plan, script: Script, k: nat, o: Outcome, d: Disk)
    requires p.job.stream == Stream(script) && p.job.ending == EndingOf(script)
    requires LoopEnds(p.job, k, o, d) && o != Stopped(Cancelled) && FaultFree(p.job)
    ensures (forall s | Reachable(p, script, false, s) && s.m.pc.Reported? && !s.cancel :: Agrees(p, s, o, d))
            <==> !(EndingOf(script) == Panics && FullChunks(|Stream(script)|) == FullChunks(p.job.devSize) + 1)
  {
    hide LoopEnds, Reachable, Agrees, Stream, EndingOf;
    ArmsAgreeExactly(p, script, k, o, d);
    ObedientOutrun(p.job, k, o, d);
  }

  lemma ObedientOutrun(job: Job, k: nat, o: Outcome, d: Disk)
    requires LoopEnds(job, k, o, d) && o != Stopped(Cancelled) && FaultFree(job)
    ensures Outrun(job, k, o) <==> job.ending == Panics && FullChunks(|job.stream|) == FullChunks(job.devSize) + 1
  {
    hide LoopEnds, FaultFree;
    FaultFreeVerdict(job, k, o, d);
    FullChunksIs(|job.stream|, k + 1);
    NextMultiple(k + 1, BUF_SIZE);
  }
}
