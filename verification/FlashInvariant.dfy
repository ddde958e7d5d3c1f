/** The invariants of the flash pipeline and the proof that every step of every thread keeps them. */
module FlashInvariant {
  import opened Options
  import opened Bytes
  import opened Geometry
  import opened Readers
  import opened Devices
  import opened Pace
  import opened Flash
  import opened Channels
  import opened FlashPipeline

  predicate InLoop(pc: MainPc)
  {
    pc.LoopTop? || pc.Receiving? || pc.Processing? || pc.Recycling? || pc.Pacing? || pc.Rechecking?
  }

  // ---- What is in flight --------------------------------------------------------------------

  /** Buffer `b` holds the stream's next `n` bytes from `at`; a short chunk is the clean end. */
  ghost predicate ChunkAt(job: Job, mem: Pool, b: BufId, n: Count, at: nat)
  {
    && at + n <= |job.stream|
    && mem[b][..n] == job.stream[at..at + n]
    && (n < BUF_SIZE ==> at + n == |job.stream| && job.ending == Eof)
  }

  /** The stream breaks within the chunk that starts at `at`. */
  ghost predicate BreakAt(job: Job, e: FlashError, at: nat)
  {
    at <= |job.stream| < at + BUF_SIZE && job.ending.Broken? && e == ReadError(job.ending.kind)
  }

  predicate Terminal(item: FlashItem) { item.Broke? || item.len < BUF_SIZE }

  predicate EndsTerminal(items: seq<FlashItem>) { items != [] && Terminal(items[|items| - 1]) }

  /** The channel carries consecutive chunks from `at` on, none lost or repeated, and nothing after
      a terminal item. */
  ghost predicate Queue(job: Job, mem: Pool, items: seq<FlashItem>, at: nat)
  {
    items == [] ||
    (&& ItemAt(job, mem, items[0], at)
     && (Terminal(items[0]) ==> items[1..] == [])
     && Queue(job, mem, items[1..], at + ItemLen(items[0])))
  }

  ghost predicate ItemAt(job: Job, mem: Pool, item: FlashItem, at: nat)
  {
    match item
    case Chunk(b, n) => ChunkAt(job, mem, b, n, at)
    case Broke(e) => BreakAt(job, e, at)
  }

  lemma {:induction false} QueuePush(job: Job, mem: Pool, items: seq<FlashItem>, at: nat, item: FlashItem)
    requires Queue(job, mem, items, at) && !EndsTerminal(items)
    requires ItemAt(job, mem, item, QueueEnd(items, at))
    ensures Queue(job, mem, items + [item], at)
    ensures QueueEnd(items + [item], at) == QueueEnd(items, at) + ItemLen(item)
  {
    hide ChunkAt, BreakAt;
    if items == [] {
      assert items + [item] == [item] && [item][1..] == [];
    } else {
      assert !Terminal(items[0]) by { if items[1..] == [] { assert items[|items| - 1] == items[0]; } }
      assert (items + [item])[1..] == items[1..] + [item];
      QueuePush(job, mem, items[1..], at + ItemLen(items[0]), item);
    }
  }

  /** Refilling a buffer that is not in the channel leaves the channel's chunks alone. */
  lemma {:induction false} QueueFrame(job: Job, mem: Pool, mem': Pool, items: seq<FlashItem>, at: nat, b: BufId)
    requires Queue(job, mem, items, at) && InItems(items, b) == 0
    requires forall i: BufId | i != b :: mem'[i] == mem[i]
    ensures Queue(job, mem', items, at)
  {
    if items != [] && items[0].Chunk? {
      QueueFrame(job, mem, mem', items[1..], at + items[0].len, b);
    }
  }

  // ---- Control ------------------------------------------------------------------------------

  /** Which ends are open and who has been joined. */
  ghost predicate Ends(m: MainSide, x: Links, worker: WorkerPc)
  {
    && (x.filledOpen <==> InLoop(m.pc) || m.pc.ClosingFilled?)
    && (x.freeOpen <==> x.filledOpen || m.pc.ClosingFree?)
    && (InLoop(m.pc) ==> !x.mirror && !m.joined && !m.panic)
    && (m.joined ==> !Alive(worker) && m.panic == worker.Crashed?)
    && (m.panic || m.pc.Settling? || m.pc.Reported? ==> m.joined)
    && (m.pc.Reported? && m.panic ==> m.pc.report == Panicked)
  }

  /** The reader is still the job's reader, and only a panicking one crashes the worker. */
  ghost predicate Source(job: Job, w: WorkerSide)
  {
    EndingOf(w.script) == job.ending && (w.pc.Crashed? ==> job.ending == Panics)
  }

  /** A loop of `job` may end like this, cut short only if the flag was set. */
  ghost predicate OverWith(job: Job, chunks: nat, o: Outcome, d: Disk, cancel: bool)
  {
    && LoopEnds(job, chunks, o, d)
    && (o == Stopped(Cancelled) ==> cancel)
    && o != Stopped(ProtocolViolation) && o != Unwinding
  }

  /** Once the loop is over without a panic, its outcome is one the job allows. */
  ghost predicate Over(p: Plan, m: MainSide, cancel: bool)
  {
    !InLoop(m.pc) && !m.panic ==>
      if m.pc.Reported? then
        exists o, d :: OverWith(p.job, m.chunks, o, d, cancel)
                       && Settled(m.pc.report, m.disk) == Settle(p.job.faults, o, d)
      else OverWith(p.job, m.chunks, m.outcome, m.disk, cancel)
  }

  // ---- Data flow ----------------------------------------------------------------------------

  /** Where the channel's first item starts. */
  function Base(m: MainSide): nat { m.offset + if m.pc.Processing? then m.pc.len else 0 }

  predicate TerminalSent(m: MainSide, x: Links)
  {
    EndsTerminal(x.filled) || (m.pc.Processing? && m.pc.len < BUF_SIZE)
  }

  /** The script is what remains of the stream from `at` on. */
  ghost predicate Rest(job: Job, script: Script, at: nat)
  {
    at <= |job.stream| && Stream(script) == job.stream[at..]
  }

  /** The worker's own share of the stream: what it has read into its buffer and what is left. */
  ghost predicate WorkerFlow(job: Job, w: WorkerSide, mem: Pool, at: nat, over: bool)
  {
    match w.pc
    case Acquiring => !over && Rest(job, w.script, at)
    case Holding(_) => !over && Rest(job, w.script, at)
    case Filling(b, n) => !over && Rest(job, w.script, at + n) && mem[b][..n] == job.stream[at..at + n]
    case Sending(b, n) => !over && Rest(job, w.script, at + n) && ChunkAt(job, mem, b, n, at)
    case Reporting(_, e) => !over && BreakAt(job, e, at)
    case Sent(n) => if n < BUF_SIZE then over else !over && Rest(job, w.script, at)
    case Exited => over
    case Crashed => true
  }

  ghost predicate MainFlow(job: Job, m: MainSide, x: Links)
  {
    && After(job, m.chunks) == Some(Cursor(m.disk, m.offset))
    && (m.pc.Processing? ==>
          && ChunkAt(job, x.mem, m.pc.buf, m.pc.len, m.offset)
          && (m.pc.len < BUF_SIZE ==> x.filled == []))
  }

  ghost predicate Flow(job: Job, w: WorkerSide, m: MainSide, x: Links)
  {
    && MainFlow(job, m, x)
    && Queue(job, x.mem, x.filled, Base(m))
    && WorkerFlow(job, w, x.mem, QueueEnd(x.filled, Base(m)), TerminalSent(m, x))
  }

  // ---- Ownership ----------------------------------------------------------------------------

  /** The buffer in each thread's hand. */
  function WorkerBuf(pc: WorkerPc): Option<BufId>
  {
    if pc.Holding? || pc.Filling? || pc.Sending? || pc.Reporting? then Some(pc.buf) else None
  }

  function MainBuf(pc: MainPc): Option<BufId> { if pc.Processing? || pc.Recycling? then Some(pc.buf) else None }

  function Owners(worker: WorkerPc, main: MainPc, x: Links, b: BufId): nat
  {
    OwnersOf(WorkerBuf(worker), MainBuf(main), x, b)
  }

  ghost predicate Owned(worker: WorkerPc, main: MainPc, x: Links) { OwnedBy(WorkerBuf(worker), MainBuf(main), x) }

  // ---- Pacing -------------------------------------------------------------------------------

  /** Every full chunk has been given its whole target. */
  ghost predicate Paced(p: Plan, m: MainSide, now: nat)
  {
    match m.pc
    case Receiving(t) => p.began + Due(p.target, m.chunks) <= t <= now
    case Processing(_, _, t) => p.began + Due(p.target, m.chunks) <= t <= now
    case Recycling(_, t) => 0 < m.chunks && p.began + Due(p.target, m.chunks - 1) <= t <= now
    case Pacing(t) => 0 < m.chunks && p.began + Due(p.target, m.chunks - 1) <= t <= now
    case _ => p.began + Due(p.target, m.chunks) <= now
  }

  ghost predicate Good(p: Plan, s: State)
  {
    && Ends(s.m, s.x, s.w.pc)
    && Source(p.job, s.w)
    && Over(p, s.m, s.cancel)
    && (InLoop(s.m.pc) ==> Flow(p.job, s.w, s.m, s.x))
    && (InLoop(s.m.pc) && Alive(s.w.pc) ==> Owned(s.w.pc, s.m.pc, s.x))
    && (!s.cancel ==> Paced(p, s.m, s.now))
    && |s.m.disk.bytes| == |p.job.disk.bytes|
  }

  // ---- The start ----------------------------------------------------------------------------

  lemma StartIsGood(p: Plan, script: Script, cancel: bool)
    requires p.job.stream == Stream(script) && p.job.ending == EndingOf(script)
    ensures Good(p, Start(p, script, cancel))
  {
    hide Flow, OwnedBy, OverWith, Due, Stream, EndingOf;
    FreshIsOwned<FlashError>();
    StartFlows(p, script, cancel);
    assert Due(p.target, 0) == 0 by { DueStarts(p.target); }
  }

  lemma DueStarts(t: Target)
    ensures Due(t, 0) == 0
  {
  }

  lemma StartFlows(p: Plan, script: Script, cancel: bool)
    requires p.job.stream == Stream(script)
    ensures var s := Start(p, script, cancel); Flow(p.job, s.w, s.m, s.x)
  {
    hide RoundStep;
    assert p.job.stream[0..] == p.job.stream;
  }

  // ---- Worker steps -------------------------------------------------------------------------

  lemma WorkerKeepsFlow(job: Job, w: WorkerSide, m: MainSide, x: Links)
    requires Flow(job, w, m, x) && Source(job, w) && WorkerStep(w, x).Some?
    requires x.filledOpen && x.freeOpen && !x.mirror && (Alive(w.pc) ==> Owned(w.pc, m.pc, x))
    ensures var n := WorkerStep(w, x).value; Flow(job, n.w, m, n.x)
  {
    hide After, ChunkAt, BreakAt, Queue, QueueEnd, OwnedBy, ReadStepOf;
    match w.pc
    case Acquiring =>
    case Holding(b) => assert x.mem[b][..0] == [];
    case Filling(b, n) =>
      if n < BUF_SIZE { FillingKeepsFlow(job, w, m, x, b, n); } else { FullIsChunk(job, w, m, x, b, n); }
    case Sending(b, n) => SendKeepsFlow(job, w, m, x, Chunk(b, n));
    case Reporting(_, e) => SendKeepsFlow(job, w, m, x, Broke(e));
    case Sent(n) =>
  }

  lemma FullIsChunk(job: Job, w: WorkerSide, m: MainSide, x: Links, b: BufId, n: Count)
    requires n == BUF_SIZE && Flow(job, w, m, x) && w.pc == Filling(b, n)
    ensures ChunkAt(job, x.mem, b, n, QueueEnd(x.filled, Base(m)))
  {
    hide After, Queue, QueueEnd;
  }

  lemma SendKeepsFlow(job: Job, w: WorkerSide, m: MainSide, x: Links, item: FlashItem)
    requires Flow(job, w, m, x) && x.filledOpen
    requires match item case Chunk(b, n) => w.pc == Sending(b, n) case Broke(e) => w.pc.Reporting? && w.pc.error == e
    ensures var n := WorkerStep(w, x).value; Flow(job, n.w, m, n.x)
  {
    hide After, ChunkAt, BreakAt, Queue, QueueEnd;
    QueuePush(job, x.mem, x.filled, Base(m), item);
  }

  /** One read moves bytes from the reader into the worker's own buffer, and into no other. */
  lemma FillingKeepsFlow(job: Job, w: WorkerSide, m: MainSide, x: Links, b: BufId, n: Count)
    requires Flow(job, w, m, x) && Source(job, w) && Owned(w.pc, m.pc, x)
    requires w.pc == Filling(b, n) && n < BUF_SIZE
    ensures var r := ReadStepOf(w, x, b, n); Flow(job, r.w, m, r.x)
  {
    hide After, Queue, QueueEnd, OwnedBy, ChunkAt, ReadOnce, Stream, EndingOf;
    ReadOnceMeaning(w.script, BUF_SIZE - n);
    match ReadOnce(w.script, BUF_SIZE - n)
    case Delivered(bytes, rest) =>
      if bytes != [] { DeliveryKeepsFlow(job, w, m, x, b, n, bytes, rest); }
      else { EndIsChunk(job, w, x.mem, QueueEnd(x.filled, Base(m)), b, n); }
    case Interrupt(rest) =>
    case Refused(k) => BreakIsSeen(job, w, k, QueueEnd(x.filled, Base(m)) + n, n);
    case Blown =>
  }

  lemma EndIsChunk(job: Job, w: WorkerSide, mem: Pool, at: nat, b: BufId, n: Count)
    requires Rest(job, w.script, at + n) && mem[b][..n] == job.stream[at..at + n]
    requires Stream(w.script) == [] && job.ending == Eof
    ensures ChunkAt(job, mem, b, n, at)
  {
  }

  lemma BreakIsSeen(job: Job, w: WorkerSide, k: IoKind, end: nat, n: nat)
    requires Rest(job, w.script, end) && Stream(w.script) == [] && job.ending == Broken(k)
    requires n <= end && n < BUF_SIZE
    ensures BreakAt(job, ReadError(k), end - n)
  {
  }

  lemma DeliveryKeepsFlow(job: Job, w: WorkerSide, m: MainSide, x: Links, b: BufId, n: Count,
                          bytes: seq<byte>, rest: Script)
    requires Flow(job, w, m, x) && Owned(w.pc, m.pc, x) && w.pc == Filling(b, n)
    requires n + |bytes| <= BUF_SIZE && Stream(w.script) == bytes + Stream(rest)
    ensures Flow(job, WorkerSide(Filling(b, n + |bytes|), rest), m,
                 x.(mem := x.mem[b := Splice(x.mem[b], n, bytes)]))
  {
    hide After, Queue, QueueEnd, ChunkAt, OwnedBy, Splice;
    var mem := x.mem[b := Splice(x.mem[b], n, bytes)];
    OneOwner(WorkerBuf(w.pc), MainBuf(m.pc), x, b);
    QueueFrame(job, x.mem, mem, x.filled, Base(m), b);
    if m.pc.Processing? { ChunkFrame(job, x.mem, mem, m.pc.buf, m.pc.len, m.offset); }
    FillGrows(job.stream, QueueEnd(x.filled, Base(m)), x.mem[b], n, bytes, Stream(rest));
  }

  lemma ChunkFrame(job: Job, mem: Pool, mem': Pool, b: BufId, n: Count, at: nat)
    requires ChunkAt(job, mem, b, n, at) && mem'[b] == mem[b]
    ensures ChunkAt(job, mem', b, n, at)
  {
  }

  lemma WorkerKeepsOwners(w: WorkerSide, main: MainPc, x: Links, b: BufId)
    requires WorkerStep(w, x).Some? && x.filledOpen && Alive(WorkerStep(w, x).value.w.pc)
    ensures var n := WorkerStep(w, x).value; Owners(n.w.pc, main, n.x, b) == Owners(w.pc, main, x, b)
  {
    if w.pc.Sending? { ItemsPush(x.filled, Chunk(w.pc.buf, w.pc.n), b); }
  }

  lemma WorkerKeepsControl(job: Job, w: WorkerSide, m: MainSide, x: Links)
    requires Ends(m, x, w.pc) && Source(job, w) && WorkerStep(w, x).Some?
    ensures var n := WorkerStep(w, x).value; Ends(m, n.x, n.w.pc) && Source(job, n.w)
  {
    if w.pc.Filling? && w.pc.n < BUF_SIZE {
      ReadOnceMeaning(w.script, BUF_SIZE - w.pc.n);
    }
  }

  lemma WorkerKeepsGood(p: Plan, s: State, dt: nat)
    requires Good(p, s) && WorkerStep(s.w, s.x).Some?
    ensures Good(p, Take(p, s, Worker(dt)).value)
  {
    hide Flow, OwnersOf, Over, Source, WorkerStep;
    WorkerKeepsControl(p.job, s.w, s.m, s.x);
    if InLoop(s.m.pc) {
      WorkerKeepsFlow(p.job, s.w, s.m, s.x);
      DoneWorkerIsStuck(s.w, s.x);
      if Alive(WorkerStep(s.w, s.x).value.w.pc) {
        WorkerKeepsOwners(s.w, s.m.pc, s.x, 0);
        WorkerKeepsOwners(s.w, s.m.pc, s.x, 1);
      }
    }
  }

  lemma DoneWorkerIsStuck(w: WorkerSide, x: Links)
    requires WorkerStep(w, x).Some?
    ensures Alive(w.pc)
  {
  }

  // ---- Main-thread steps --------------------------------------------------------------------

  /** Processing a received chunk is exactly one round of the serial loop. */
  lemma ChunkRound(job: Job, mem: Pool, b: BufId, n: Count, c: Cursor)
    requires ChunkAt(job, mem, b, n, c.offset)
    ensures RoundStep(job, c) == RoundOf(ChunkStep(job.faults, job.devSize, c.disk, mem[b][..n], c.offset))
  {
    hide ChunkStep;
  }

  /** Receiving the worker's error is how the serial loop's own read would have failed. */
  lemma BreakRound(job: Job, e: FlashError, c: Cursor)
    requires BreakAt(job, e, c.offset)
    ensures RoundStep(job, c) == Stop(Stopped(e), c.disk)
  {
    hide ChunkStep;
  }

  lemma MainKeepsEnds(p: Plan, m: MainSide, x: Links, worker: WorkerPc, cancel: bool, now: nat)
    requires Ends(m, x, worker) && MainStep(p, m, x, worker, cancel, now).Some?
    ensures var n := MainStep(p, m, x, worker, cancel, now).value; Ends(n.m, n.x, worker)
  {
    hide ChunkStep, Settle;
  }

  /** A channel with nothing in it cannot be disconnected by a worker that left voluntarily. */
  lemma NoSilentExit(job: Job, w: WorkerSide, m: MainSide, x: Links)
    requires Flow(job, w, m, x) && m.pc.Receiving? && x.filled == []
    ensures !w.pc.Exited?
  {
  }

  lemma MainKeepsOver(p: Plan, w: WorkerSide, m: MainSide, x: Links, cancel: bool, now: nat)
    requires Over(p, m, cancel) && (InLoop(m.pc) ==> Flow(p.job, w, m, x))
    requires Ends(m, x, w.pc) && MainStep(p, m, x, w.pc, cancel, now).Some?
    ensures Over(p, MainStep(p, m, x, w.pc, cancel, now).value.m, cancel)
  {
    hide After, RoundStep, ChunkStep, Settle, ChunkAt, BreakAt;
    var n := MainStep(p, m, x, w.pc, cancel, now).value;
    var c := Cursor(m.disk, m.offset);
    match m.pc
    case Receiving(_) =>
      if x.filled == [] { NoSilentExit(p.job, w, m, x); }
      else if x.filled[0].Broke? {
        BreakRound(p.job, x.filled[0].error, c);
        BreakIsNoViolation(p.job, x.filled[0].error, c.offset);
      }
    case Processing(b, len, _) =>
      ChunkRound(p.job, x.mem, b, len, c);
    case Settling => assert !m.panic ==> OverWith(p.job, m.chunks, m.outcome, m.disk, cancel);
    case _ =>
  }

  lemma BreakIsNoViolation(job: Job, e: FlashError, at: nat)
    requires BreakAt(job, e, at)
    ensures e != Cancelled && e != ProtocolViolation
  {
  }

  lemma MainKeepsFlow(p: Plan, w: WorkerSide, m: MainSide, x: Links, cancel: bool, now: nat)
    requires Flow(p.job, w, m, x) && InLoop(m.pc) && MainStep(p, m, x, w.pc, cancel, now).Some?
    requires InLoop(MainStep(p, m, x, w.pc, cancel, now).value.m.pc)
    ensures var n := MainStep(p, m, x, w.pc, cancel, now).value; Flow(p.job, w, n.m, n.x)
  {
    hide ChunkAt, BreakAt, RoundStep, ChunkStep, WorkerFlow;
    match m.pc
    case Receiving(_) => assert TerminalHead(x.filled);
    case Processing(b, len, _) =>
      var c := Cursor(m.disk, m.offset);
      ChunkRound(p.job, x.mem, b, len, c);
      assert After(p.job, m.chunks + 1) == Some(RoundStep(p.job, c).cursor);
    case _ =>
  }

  predicate TerminalHead(items: seq<FlashItem>)
  {
    items != [] ==> (EndsTerminal(items) <==> EndsTerminal(items[1..]) || (items[1..] == [] && Terminal(items[0])))
  }

  lemma MainKeepsOwners(p: Plan, m: MainSide, x: Links, worker: WorkerPc, cancel: bool, now: nat, b: BufId)
    requires MainStep(p, m, x, worker, cancel, now).Some? && Alive(worker)
    requires InLoop(m.pc) && InLoop(MainStep(p, m, x, worker, cancel, now).value.m.pc)
    ensures var n := MainStep(p, m, x, worker, cancel, now).value;
            Owners(worker, n.m.pc, n.x, b) == Owners(worker, m.pc, x, b)
  {
    hide ChunkStep, Apply, Receive, Elapsed, InPool, InItems;
    if m.pc.Recycling? {
      PoolPush(x.free, m.pc.buf, b);
    } else if m.pc.Receiving? {
      ReceiveKeepsOwners(m, x, worker, b);
    } else if m.pc.Processing? {
      ApplyKeepsHand(m, m.pc.buf, m.pc.started,
                     ChunkStep(p.job.faults, p.job.devSize, m.disk, x.mem[m.pc.buf][..m.pc.len], m.offset), b);
    }
  }

  lemma ApplyKeepsHand(m: MainSide, f: BufId, started: nat, c: ChunkResult, b: BufId)
    requires m.pc.Processing? && m.pc.buf == f && InLoop(Apply(m, f, started, c).pc)
    ensures MainBuf(Apply(m, f, started, c).pc) == MainBuf(m.pc)
  {
  }

  lemma ReceiveKeepsOwners(m: MainSide, x: Links, worker: WorkerPc, b: BufId)
    requires m.pc.Receiving? && Alive(worker)
    requires Receive(m, x, worker, m.pc.started).Some? && InLoop(Receive(m, x, worker, m.pc.started).value.m.pc)
    ensures var n := Receive(m, x, worker, m.pc.started).value;
            Owners(worker, n.m.pc, n.x, b) == Owners(worker, m.pc, x, b)
  {
    hide InPool;
  }

  lemma MainKeepsPaced(p: Plan, m: MainSide, x: Links, worker: WorkerPc, now: nat, dt: nat)
    requires Paced(p, m, now) && MainStep(p, m, x, worker, false, now).Some?
    ensures var n := MainStep(p, m, x, worker, false, now).value; Paced(p, n.m, now + n.slept + dt)
  {
    hide ChunkStep, Settle;
    if m.pc.Pacing? { PacingWaits(p, m.pc.started, m.chunks, now); } else { hide Elapsed, Due; }
  }

  lemma PacingWaits(p: Plan, started: nat, chunks: nat, now: nat)
    requires 0 < chunks && p.began + Due(p.target, chunks - 1) <= started <= now
    ensures p.target.Every? ==>
      var late := Elapsed(started, now);
      (if late <= p.target.nanos then now + (p.target.nanos - late) else now) >= p.began + Due(p.target, chunks)
    ensures !p.target.Every? ==> now >= p.began + Due(p.target, chunks)
  {
  }

  lemma MainKeepsGood(p: Plan, s: State, dt: nat)
    requires Good(p, s) && MainStep(p, s.m, s.x, s.w.pc, s.cancel, s.now).Some?
    ensures Good(p, Take(p, s, Main(dt)).value)
  {
    hide Flow, OwnersOf, Over, Source, MainStep, Ends, Paced;
    var n := MainStep(p, s.m, s.x, s.w.pc, s.cancel, s.now).value;
    MainKeepsEnds(p, s.m, s.x, s.w.pc, s.cancel, s.now);
    MainKeepsOver(p, s.w, s.m, s.x, s.cancel, s.now);
    LoopIsLeftOnce(p, s.m, s.x, s.w.pc, s.cancel, s.now);
    if InLoop(n.m.pc) {
      MainKeepsFlow(p, s.w, s.m, s.x, s.cancel, s.now);
      if Alive(s.w.pc) {
        MainKeepsOwners(p, s.m, s.x, s.w.pc, s.cancel, s.now, 0);
        MainKeepsOwners(p, s.m, s.x, s.w.pc, s.cancel, s.now, 1);
      }
    }
    if !s.cancel { MainKeepsPaced(p, s.m, s.x, s.w.pc, s.now, dt); }
  }

  lemma LoopIsLeftOnce(p: Plan, m: MainSide, x: Links, worker: WorkerPc, cancel: bool, now: nat)
    requires MainStep(p, m, x, worker, cancel, now).Some?
    ensures InLoop(MainStep(p, m, x, worker, cancel, now).value.m.pc) ==> InLoop(m.pc)
    ensures |MainStep(p, m, x, worker, cancel, now).value.m.disk.bytes| == |m.disk.bytes|
  {
    hide ChunkStep, Settle;
  }

  /** The invariant holds in every reachable state: every step keeps it. */
  lemma StepKeepsGood(p: Plan, s: State, move: Move)
    requires Good(p, s) && Take(p, s, move).Some?
    ensures Good(p, Take(p, s, move).value)
  {
    hide Flow, OwnedBy, Source, Ends, Paced, WorkerStep, MainStep, LoopEnds, Settle;
    match move
    case Worker(dt) => WorkerKeepsGood(p, s, dt);
    case Main(dt) => MainKeepsGood(p, s, dt);
    case SetCancel =>
  }

  lemma {:induction false} RunKeepsGood(p: Plan, s: State, moves: seq<Move>)
    requires Good(p, s) && Run(p, s, moves).Some?
    ensures Good(p, Run(p, s, moves).value)
    decreases |moves|
  {
    hide Good, Take;
    if moves != [] {
      StepKeepsGood(p, s, moves[0]);
      RunKeepsGood(p, Take(p, s, moves[0]).value, moves[1..]);
    }
  }
}
