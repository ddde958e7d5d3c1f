/** The two ways the verify arms can differ, each with its exact condition: a panic within the
    pipelined worker's read-ahead, and a cancellation seen after the last chunk's sleep. */
module VerifyRace {
  import opened Options
  import opened Bytes
  import opened Geometry
  import opened Readers
  import opened Devices
  import opened Verify
  import opened VerifyMeaning
  import opened Channels
  import opened VerifyPipeline
  import opened VerifyInvariant
  import opened VerifyTheorems

  // ---- How far the worker can be ahead ------------------------------------------------------

  /** What the worker's buffer already holds, and what it can still take. */
  function Hand(pc: WorkerPc): nat { if pc.Filling? || pc.Sending? then pc.n else 0 }

  function Room(pc: WorkerPc): nat
  {
    if pc.Holding? then BUF_SIZE else if pc.Filling? || pc.Sending? then BUF_SIZE - pc.n else 0
  }

  /** How many bytes `buffers` buffers can hold. */
  function Span(buffers: nat): nat { buffers * BUF_SIZE }

  /** The worker has read what its countdown says it has, and no more than the buffers it has been
      given can hold: `pooled` is what the buffers in the pool hold, `given` what all of them
      together with those it has taken do. */
  ghost predicate Ahead(c: Check, w: WorkerSide, pooled: nat, given: nat)
  {
    && |Stream(w.script)| <= |c.stream|
    && match w.pc
       case Exited => true
       case Reporting(_, _) => true
       case Crashed => |c.stream| < c.total && |c.stream| < given
       case _ =>
         var read := |c.stream| - |Stream(w.script)|;
         && Hand(w.pc) <= w.remaining && read + w.remaining == c.total + Hand(w.pc)
         && read + Room(w.pc) + pooled <= given
  }

  ghost predicate Lead(p: Plan, s: State)
  {
    After(p.check, s.m.rounds) == Some(s.m.offset) && Ahead(p.check, s.w, Span(|s.x.free|), Span(s.m.rounds + 2))
  }

  lemma WorkerKeepsAhead(c: Check, w: WorkerSide, x: Links, given: nat)
    requires Ahead(c, w, Span(|x.free|), given) && WorkerStep(w, x).Some?
    ensures var n := WorkerStep(w, x).value; Ahead(c, n.w, Span(|n.x.free|), given)
  {
    hide ReadStepOf, Stream;
    if w.pc.Acquiring? && x.free != [] {
      NextMultiple(|x.free| - 1, BUF_SIZE);
    } else if w.pc.Filling? && w.pc.n < Min(w.remaining, BUF_SIZE) {
      ReadKeepsAhead(c, w, x, given, w.pc.buf, w.pc.n, Span(|x.free|));
    }
  }

  lemma ReadKeepsAhead(c: Check, w: WorkerSide, x: Links, given: nat, b: BufId, n: Count, pooled: nat)
    requires Ahead(c, w, pooled, given) && w.pc == Filling(b, n) && n < Min(w.remaining, BUF_SIZE)
    ensures var r := ReadStepOf(w, x, b, n, Min(w.remaining, BUF_SIZE));
            Ahead(c, r.w, if r.w.pc.Crashed? then 0 else pooled, given) && (!r.w.pc.Crashed? ==> r.x.free == x.free)
  {
    ReadOnceMeaning(w.script, Min(w.remaining, BUF_SIZE) - n);
    hide ReadOnce, Stream, EndingOf, Splice;
  }

  lemma MainKeepsAhead(p: Plan, s: State)
    requires Ahead(p.check, s.w, Span(|s.x.free|), Span(s.m.rounds + 2))
    requires MainStep(p, s.m, s.x, s.w.pc, s.cancel, s.now).Some?
    ensures var n := MainStep(p, s.m, s.x, s.w.pc, s.cancel, s.now).value;
            && Ahead(p.check, s.w, Span(|n.x.free|), Span(n.m.rounds + 2))
            && (InLoop(n.m.pc) || (n.m.rounds == s.m.rounds && n.m.offset == s.m.offset))
  {
    hide Ahead, MainStep, Span;
    MainFrame(p, s);
    if s.m.pc.Recycling? { RecyclingKeepsAhead(p.check, s.w, s.x, s.m.pc.buf, s.m.rounds); }
  }

  /** Only recycling gives a buffer back and counts a round. */
  lemma MainFrame(p: Plan, s: State)
    requires MainStep(p, s.m, s.x, s.w.pc, s.cancel, s.now).Some?
    ensures var n := MainStep(p, s.m, s.x, s.w.pc, s.cancel, s.now).value;
            if s.m.pc.Recycling? then
              InLoop(n.m.pc) && n.m.rounds == s.m.rounds + 1
              && n.x.free == if Alive(s.w.pc) then s.x.free + [s.m.pc.buf] else s.x.free
            else n.m.rounds == s.m.rounds && n.m.offset == s.m.offset && n.x.free == s.x.free
  {
    hide CompareChunk, Conclude, Readable, Elapsed, Receive, Compare, ReadDevice;
    match s.m.pc
    case Receiving(dev, started) => ReceiveFrame(s.m, s.x, s.w.pc, dev, started);
    case Comparing(b, n, dev, started) => CompareFrame(s.m, b, dev, s.x.mem[b][..n], started);
    case Reading(started) => ReadFrame(p.check, s.m, started);
    case _ =>
  }

  lemma RecyclingKeepsAhead(c: Check, w: WorkerSide, x: Links, b: BufId, rounds: nat)
    requires Ahead(c, w, Span(|x.free|), Span(rounds + 2))
    ensures var free := if Alive(w.pc) then x.free + [b] else x.free;
            Ahead(c, w, Span(|free|), Span(rounds + 3))
  {
    hide Stream;
    NextMultiple(|x.free|, BUF_SIZE);
    NextMultiple(rounds + 2, BUF_SIZE);
  }

  lemma ReceiveFrame(m: MainSide, x: Links, worker: WorkerPc, dev: seq<byte>, started: nat)
    requires Receive(m, x, worker, dev, started).Some?
    ensures var n := Receive(m, x, worker, dev, started).value;
            n.x.free == x.free && n.m.rounds == m.rounds && n.m.offset == m.offset
  {
  }

  lemma CompareFrame(m: MainSide, b: BufId, dev: seq<byte>, img: seq<byte>, started: nat)
    ensures var n := Compare(m, b, dev, img, started); n.rounds == m.rounds && n.offset == m.offset
  {
    hide CompareChunk;
  }

  lemma ReadFrame(c: Check, m: MainSide, started: nat)
    ensures var n := ReadDevice(c, m, started); n.rounds == m.rounds && n.offset == m.offset
  {
    hide Readable;
  }

  lemma StepKeepsLead(p: Plan, s: State, move: Move)
    requires Good(p, s) && Lead(p, s) && Take(p, s, move).Some?
    ensures Lead(p, Take(p, s, move).value)
  {
    hide Ahead, Span, WorkerStep, MainStep, Over, Ends, Owned, Source, RoundStep, Queue, WorkerFlow;
    StepKeepsGood(p, s, move);
    match move
    case Worker(_) => WorkerKeepsAhead(p.check, s.w, s.x, Span(s.m.rounds + 2));
    case Main(_) => MainKeepsAhead(p, s);
    case SetCancel =>
  }

  lemma {:induction false} RunKeepsLead(p: Plan, s: State, moves: seq<Move>)
    requires Good(p, s) && Lead(p, s) && Run(p, s, moves).Some?
    ensures Good(p, Run(p, s, moves).value) && Lead(p, Run(p, s, moves).value)
    decreases |moves|
  {
    hide Good, Lead, Take;
    if moves != [] {
      StepKeepsLead(p, s, moves[0]);
      StepKeepsGood(p, s, moves[0]);
      RunKeepsLead(p, Take(p, s, moves[0]).value, moves[1..]);
    }
  }

  lemma StartLeads(p: Plan, script: Script, cancel: bool)
    requires p.check.stream == Stream(script)
    ensures Lead(p, Start(p, script, cancel))
  {
    hide RoundStep;
  }

  lemma ReachableLeads(p: Plan, script: Script, cancel: bool, s: State)
    requires Reachable(p, script, cancel, s)
    ensures Good(p, s) && Lead(p, s)
  {
    hide Good, Lead, Stream, EndingOf, Start;
    var moves :| Run(p, Start(p, script, cancel), moves) == Some(s);
    StartIsGood(p, script, cancel);
    StartLeads(p, script, cancel);
    RunKeepsLead(p, Start(p, script, cancel), moves);
  }

  /** The worker can only have met a panic that lies below `total` and less than two buffers beyond
      the chunks main has compared. */
  lemma CrashIsNear(p: Plan, script: Script, cancel: bool, s: State)
    requires Reachable(p, script, cancel, s) && s.w.pc.Crashed?
    ensures p.check.ending == Panics && |p.check.stream| < p.check.total
    ensures |p.check.stream| < Span(s.m.rounds + 2) && After(p.check, s.m.rounds).Some?
  {
    hide Reachable, Flow, Over, Ends, Owned;
    ReachableLeads(p, script, cancel, s);
  }

  /** Sound and complete in every interleaving: with no cancel or device fault and an image at least
      `total` bytes long, `Ok` is reported exactly when device and image agree on all of `[0, total)`,
      and otherwise the reported offset is the least differing index. No promise about panics is
      needed: such an image is never read far enough to meet one. */
  lemma SoundAndCompleteDespitePanics(p: Plan, script: Script, s: State)
    requires Reachable(p, script, false, s) && s.m.pc.Reported? && !s.cancel && p.check.unreadable == {}
    requires p.check.total <= |p.check.disk.bytes| && p.check.total <= |Stream(script)|
    ensures s.m.pc.report == Ok <==> p.check.disk.bytes[..p.check.total] == Stream(script)[..p.check.total]
    ensures s.m.pc.report != Ok ==>
      s.m.pc.report.Err? && s.m.pc.report.error.Mismatch? && FirstDifference(p.check, s.m.pc.report.error.offset)
  {
    hide LoopEnds, FirstDifference;
    ReportMeaning(p, script, false, s);
    if s.w.pc.Crashed? { CrashIsNear(p, script, false, s); }
    SoundAndComplete(p.check, s.m.rounds, s.m.verdict, true);
  }

  // ---- A panic within reach -----------------------------------------------------------------

  /** The serial loop ends for another reason with the panic within two chunks of where it stands. */
  ghost predicate Outrun(c: Check, k: nat, v: Verdict)
  {
    c.ending == Panics && v != Unwinding && |c.stream| < c.total && |c.stream| < (k + 2) * BUF_SIZE
  }

  lemma AgreesUnlessOutrun(p: Plan, script: Script, s: State, k: nat, v: Verdict)
    requires Reachable(p, script, false, s) && s.m.pc.Reported? && !s.cancel
    requires LoopEnds(p.check, k, v, false) && v != Rejected(Cancelled) && !Outrun(p.check, k, v)
    ensures s.m.pc.report == Conclude(v)
  {
    hide Reachable, RoundStep;
    ReportMeaning(p, script, false, s);
    if s.w.pc.Crashed? {
      CrashIsNear(p, script, false, s);
      if k < s.m.rounds { AfterPrefix(p.check, k + 1, s.m.rounds); }
      Scale(s.m.rounds + 2, k + 2, BUF_SIZE);
    } else {
      LoopEndsUnique(p.check, k, v, false, s.m.rounds, s.m.verdict, true);
    }
  }

  /** Nothing but full-length chunks is queued when the image ends in a panic. */
  lemma {:induction false} NothingBroken(c: Check, mem: Pool, items: seq<CheckItem>, at: nat)
    requires Queue(c, mem, items, at) && c.ending == Panics
    ensures !EndsBroken(items)
    ensures at <= |c.stream| ==> QueueEnd(items, at) <= |c.stream|
    ensures items != [] ==> items[0].Chunk? && at < c.total && Min(c.total, at + BUF_SIZE) <= |c.stream|
    ensures 2 <= |items| ==> Min(c.total, at + 2 * BUF_SIZE) <= |c.stream|
  {
    if items != [] && items[1..] != [] {
      NothingBroken(c, mem, items[1..], at + ItemLen(items[0]));
    }
  }

  /** A worker that is stuck without having crashed has read the chunk main is at, and the next. */
  lemma StuckHasRead(c: Check, w: WorkerSide, m: MainSide, x: Links)
    requires Flow(c, w, m, x) && (Alive(w.pc) ==> Owned(w.pc, m.pc, x)) && x.freeOpen
    requires WorkerStep(w, x).None? && !w.pc.Crashed? && c.ending == Panics && |c.stream| < c.total
    requires m.pc.Reading? || m.pc.Comparing? || (m.pc.Receiving? && x.filled != [])
    ensures Min(c.total, m.offset + 2 * BUF_SIZE) <= |c.stream|
  {
    hide After, RoundStep, Queue, QueueEnd, DeviceChunk;
    NothingBroken(c, x.mem, x.filled, Base(m));
    if w.pc.Acquiring? { RestIsQueued(MainBuf(m.pc), x); }
  }

  /** Where the serial loop stops, a main thread that waits for a stuck worker leaves its loop only
      after the worker has crashed. */
  lemma LeavesOnlyAfterCrash(p: Plan, s: State, k: nat, v: Verdict)
    requires Good(p, s) && !s.cancel && InLoop(s.m.pc) && WorkerStep(s.w, s.x).None?
    requires LoopEnds(p.check, k, v, false) && v != Rejected(Cancelled) && Outrun(p.check, k, v)
    requires Take(p, s, Main(0)).Some? && !InLoop(Take(p, s, Main(0)).value.m.pc)
    ensures s.w.pc.Crashed?
  {
    hide RoundStep, Take, WorkerStep, Queue, WorkerFlow, Over;
    var c := p.check;
    LeavingIsTheEnd(p, s);
    if s.w.pc.Crashed? { return; }
    if s.m.pc.Receiving? && s.x.filled == [] {
      NoSilentExit(c, s.w, s.m, s.x);
    }
    OffsetIs(c, s.m.rounds);
    if s.m.rounds < k { AfterPrefix(c, s.m.rounds + 1, k); }
    if k < s.m.rounds { AfterPrefix(c, k + 1, s.m.rounds); }
    NextMultiple(k, BUF_SIZE);
    NextMultiple(k + 1, BUF_SIZE);
    hide After;
    StuckHasRead(c, s.w, s.m, s.x);
    assert false;
  }

  /** Without a cancellation, main leaves its loop where the serial round stops, or on a closed
      channel. */
  lemma LeavingIsTheEnd(p: Plan, s: State)
    requires Good(p, s) && !s.cancel && InLoop(s.m.pc)
    requires Take(p, s, Main(0)).Some? && !InLoop(Take(p, s, Main(0)).value.m.pc)
    ensures s.m.offset <= Min(p.check.total, |p.check.stream|)
    ensures s.m.pc.LoopTop? ==> s.m.offset == p.check.total
    ensures s.m.pc.Receiving? && s.x.filled == [] ==> !Alive(s.w.pc)
    ensures s.m.pc.LoopTop? || s.m.pc.Reading? || s.m.pc.Receiving? || s.m.pc.Comparing?
    ensures (s.m.pc.Receiving? && s.x.filled == []) || RoundStep(p.check, s.m.offset).Stop?
  {
    hide After, RoundStep, CompareChunk, ChunkAt, BreakAt, Conclude, Readable, DeviceChunk, WorkerFlow, Owned, Over;
    match s.m.pc
    case LoopTop => EdgeRounds(p.check, s.m.offset);
    case Reading(_) => EdgeRounds(p.check, s.m.offset);
    case Receiving(dev, _) =>
      if s.x.filled != [] && s.x.filled[0].Broke? { BreakRound(p.check, dev, s.x.filled[0].error, s.m.offset); }
    case Comparing(b, n, dev, _) => CompareRoundMeaning(p.check, s.x.mem, b, n, dev, s.m.offset);
    case _ =>
  }

  /** The schedule that always prefers the worker reaches the panic first. */
  lemma {:induction false} WorkerFirst(p: Plan, s: State, k: nat, v: Verdict)
    returns (moves: seq<Move>, end: State)
    requires Good(p, s) && !s.cancel && (InLoop(s.m.pc) || s.w.pc.Crashed?)
    requires LoopEnds(p.check, k, v, false) && v != Rejected(Cancelled) && Outrun(p.check, k, v)
    ensures Run(p, s, moves) == Some(end) && !end.cancel && end.m.pc.Reported? && end.m.pc.report == Panicked
    decreases Measure(s)
  {
    hide Measure, Over, Flow, Owned, Source, LoopEnds, WorkerStep, MainStep, Outrun;
    if s.m.pc.Reported? { return [], s; }
    GoodIsNotStuck(p, s);
    var move := if Take(p, s, Worker(0)).Some? then Worker(0) else Main(0);
    StepDecreases(p, s, move);
    StepKeepsGood(p, s, move);
    var next := Take(p, s, move).value;
    if move == Worker(0) { DoneWorkerIsStuck(s.w, s.x); }
    else if InLoop(s.m.pc) && !InLoop(next.m.pc) { LeavesOnlyAfterCrash(p, s, k, v); }
    var later, last := WorkerFirst(p, next, k, v);
    moves, end := [move] + later, last;
    assert moves[1..] == later;
  }

  /** An image that ends in a panic before `total`, less than two buffers after the start of the first
      chunk for which the device is refused. */
  ghost predicate PanicInReach(c: Check)
  {
    && c.ending == Panics && |c.stream| < c.total
    && exists k: nat :: RefusedAt(c, k) && |c.stream| < (k + 2) * BUF_SIZE
  }

  lemma OutrunIff(c: Check, k: nat, v: Verdict)
    requires LoopEnds(c, k, v, false) && v != Rejected(Cancelled)
    ensures Outrun(c, k, v) <==> PanicInReach(c)
  {
    hide LoopEnds, RefusedAt;
    if c.ending == Panics && |c.stream| < c.total { StopsShortIff(c, k, v); }
  }

  /** With the flag clear, the two verify arms report the same under every schedule if and only if
      the image does not end in a panic within reach of a chunk for which the device is refused. */
  lemma ArmsAgreeExactly(p: Plan, script: Script, k: nat, v: Verdict)
    requires p.check.stream == Stream(script) && p.check.ending == EndingOf(script)
    requires LoopEnds(p.check, k, v, false) && v != Rejected(Cancelled)
    ensures (forall s | Reachable(p, script, false, s) && s.m.pc.Reported? && !s.cancel :: s.m.pc.report == Conclude(v))
            <==> !PanicInReach(p.check)
  {
    hide LoopEnds, Good, Run, Stream, EndingOf, PanicInReach, Outrun;
    OutrunIff(p.check, k, v);
    if Outrun(p.check, k, v) {
      StartIsGood(p, script, false);
      var moves, s := WorkerFirst(p, Start(p, script, false), k, v);
      assert Reachable(p, script, false, s);
      assert Conclude(v) != Panicked by { OutrunIsNoPanic(p.check, k, v); }
    } else {
      forall s | Reachable(p, script, false, s) && s.m.pc.Reported? && !s.cancel ensures s.m.pc.report == Conclude(v) {
        hide Reachable, Conclude;
        AgreesUnlessOutrun(p, script, s, k, v);
      }
    }
  }

  lemma OutrunIsNoPanic(c: Check, k: nat, v: Verdict)
    requires Outrun(c, k, v)
    ensures Conclude(v) != Panicked
  {
  }

  /** On a device that can be read throughout, the race is decided by two positions: the first byte
      at which device and image differ, and the panic. The arms agree unless the image panics before
      `total`, in the buffer after the one that holds that byte. */
  lemma ReadableArmsAgreeExactly(p: Plan, script: Script, k: nat, v: Verdict)
    requires p.check.stream == Stream(script) && p.check.ending == EndingOf(script)
    requires LoopEnds(p.check, k, v, false) && v != Rejected(Cancelled)
    requires p.check.unreadable == {} && p.check.total <= |p.check.disk.bytes|
    ensures (forall s | Reachable(p, script, false, s) && s.m.pc.Reported? && !s.cancel :: s.m.pc.report == Conclude(v))
            <==> !(&& EndingOf(script) == Panics && |Stream(script)| < p.check.total
                   && exists i: nat :: FirstDifference(p.check, i) && FullChunks(i) + 1 == FullChunks(|Stream(script)|))
  {
    hide LoopEnds, Reachable, Conclude, Stream, EndingOf, FirstDifference, PanicInReach;
    ArmsAgreeExactly(p, script, k, v);
    ReachIff(p.check);
  }

  lemma ReachIff(c: Check)
    requires c.unreadable == {} && c.total <= |c.disk.bytes|
    ensures PanicInReach(c) <==>
      && c.ending == Panics && |c.stream| < c.total
      && exists i: nat :: FirstDifference(c, i) && FullChunks(i) + 1 == FullChunks(|c.stream|)
  {
    hide FirstDifference, FullChunks, RefusedAt;
    if c.ending == Panics && |c.stream| < c.total {
      var n := FullChunks(|c.stream|);
      if k: nat :| RefusedAt(c, k) && |c.stream| < (k + 2) * BUF_SIZE {
        var i := RefusedDiffers(c, k);
        RefusedAtDifference(c, k, i);
        NextMultiple(k + 1, BUF_SIZE);
        FullChunksIs(|c.stream|, k + 1);
      }
      if i: nat :| FirstDifference(c, i) && FullChunks(i) + 1 == n {
        RefusedAtDifference(c, n - 1, i);
        NextMultiple(n, BUF_SIZE);
        FullChunksIs(|c.stream|, n);
      }
    }
  }
}
