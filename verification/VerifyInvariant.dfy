/** The invariants of the verify pipeline and the proof that every step of every thread keeps them. */
module VerifyInvariant {
  import opened Options
  import opened Bytes
  import opened Geometry
  import opened Readers
  import opened Devices
  import opened Verify
  import opened Channels
  import opened VerifyPipeline

  predicate InLoop(pc: MainPc)
  {
    pc.LoopTop? || pc.Reading? || pc.Receiving? || pc.Comparing? || pc.Recycling? || pc.Pacing? || pc.Rechecking?
  }

  // ---- What is in flight --------------------------------------------------------------------

  /** How many bytes the round that starts at `at` must compare. */
  function Due(c: Check, at: nat): nat { if at <= c.total then Min(c.total - at, BUF_SIZE) else 0 }

  /** Buffer `b` holds exactly the image bytes the round at `at` needs. */
  ghost predicate ChunkAt(c: Check, mem: Pool, b: BufId, n: Count, at: nat)
  {
    0 < n == Due(c, at) && at + n <= |c.stream| && mem[b][..n] == c.stream[at..at + n]
  }

  /** The image fails within the round that starts at `at`. */
  ghost predicate BreakAt(c: Check, e: VerifyError, at: nat)
  {
    && at <= |c.stream| && 0 < Due(c, at)
    && match ExactOutcome(c.stream[at..], c.ending, Due(c, at))
       case ReadFailed(k) => e == ImageError(k)
       case _ => false
  }

  ghost predicate ItemAt(c: Check, mem: Pool, item: CheckItem, at: nat)
  {
    match item
    case Chunk(b, n) => ChunkAt(c, mem, b, n, at)
    case Broke(e) => BreakAt(c, e, at)
  }

  predicate EndsBroken(items: seq<CheckItem>) { items != [] && items[|items| - 1].Broke? }

  /** The channel carries the chunks of consecutive rounds from `at` on; an error comes last. */
  ghost predicate Queue(c: Check, mem: Pool, items: seq<CheckItem>, at: nat)
  {
    items == [] ||
    (&& ItemAt(c, mem, items[0], at)
     && (items[0].Broke? ==> items[1..] == [])
     && Queue(c, mem, items[1..], at + ItemLen(items[0])))
  }

  lemma {:induction false} QueuePush(c: Check, mem: Pool, items: seq<CheckItem>, at: nat, item: CheckItem)
    requires Queue(c, mem, items, at) && !EndsBroken(items)
    requires ItemAt(c, mem, item, QueueEnd(items, at))
    ensures Queue(c, mem, items + [item], at)
    ensures QueueEnd(items + [item], at) == QueueEnd(items, at) + ItemLen(item)
  {
    hide ChunkAt, BreakAt;
    if items == [] {
      assert items + [item] == [item] && [item][1..] == [];
    } else {
      assert !items[0].Broke? by { if items[1..] == [] { assert items[|items| - 1] == items[0]; } }
      assert (items + [item])[1..] == items[1..] + [item];
      QueuePush(c, mem, items[1..], at + ItemLen(items[0]), item);
    }
  }

  lemma {:induction false} QueueFrame(c: Check, mem: Pool, mem': Pool, items: seq<CheckItem>, at: nat, b: BufId)
    requires Queue(c, mem, items, at) && InItems(items, b) == 0
    requires forall i: BufId | i != b :: mem'[i] == mem[i]
    ensures Queue(c, mem', items, at)
  {
    if items != [] && items[0].Chunk? {
      QueueFrame(c, mem, mem', items[1..], at + items[0].len, b);
    }
  }

  // ---- The invariants -----------------------------------------------------------------------

  ghost predicate Ends(m: MainSide, x: Links, worker: WorkerPc)
  {
    && (x.filledOpen <==> InLoop(m.pc) || m.pc.ClosingFilled?)
    && (x.freeOpen <==> x.filledOpen || m.pc.ClosingFree?)
    && (InLoop(m.pc) ==> !x.mirror && !m.joined && !m.panic)
    && (m.joined ==> !Alive(worker) && m.panic == worker.Crashed?)
    && (m.panic || m.pc.Settling? || m.pc.Reported? ==> m.joined)
    && (m.pc.Reported? && m.panic ==> m.pc.report == Panicked)
  }

  ghost predicate Source(c: Check, w: WorkerSide)
  {
    EndingOf(w.script) == c.ending && (w.pc.Crashed? ==> c.ending == Panics)
  }

  ghost predicate OverWith(c: Check, rounds: nat, v: Verdict, cancel: bool)
  {
    && LoopEnds(c, rounds, v, true)
    && (v == Rejected(Cancelled) ==> cancel)
    && v != Rejected(ProtocolViolation) && v != Unwinding
  }

  ghost predicate Over(p: Plan, m: MainSide, cancel: bool)
  {
    !InLoop(m.pc) && !m.panic ==>
      && OverWith(p.check, m.rounds, m.verdict, cancel)
      && (m.pc.Reported? ==> m.pc.report == Conclude(m.verdict))
  }

  /** Where the channel's first item starts. */
  function Base(m: MainSide): nat
  {
    m.offset + if m.pc.Comparing? then m.pc.len else if m.pc.Recycling? then Min(m.remaining, BUF_SIZE) else 0
  }

  ghost predicate Rest(c: Check, script: Script, at: nat)
  {
    at <= |c.stream| && Stream(script) == c.stream[at..]
  }

  /** The worker's share, and the lockstep: what it still has to send is what is left of `total`
      beyond everything in flight. */
  ghost predicate WorkerFlow(c: Check, w: WorkerSide, mem: Pool, at: nat, broken: bool)
  {
    && at <= c.total && (!broken ==> w.remaining == c.total - at)
    && match w.pc
       case Acquiring => !broken && Rest(c, w.script, at)
       case Holding(_) => !broken && Rest(c, w.script, at) && 0 < w.remaining
       case Filling(b, n) =>
         && !broken && n <= Due(c, at) && 0 < w.remaining
         && Rest(c, w.script, at + n) && mem[b][..n] == c.stream[at..at + n]
       case Sending(b, n) => !broken && Rest(c, w.script, at + n) && ChunkAt(c, mem, b, n, at)
       case Reporting(_, e) => !broken && BreakAt(c, e, at)
       case Exited => broken || at == c.total
       case Crashed => true
  }

  ghost predicate MainFlow(c: Check, m: MainSide, x: Links)
  {
    && m.offset + m.remaining == c.total
    && After(c, m.rounds) == Some(m.offset)
    && match m.pc
       case Reading(_) => 0 < m.remaining
       case Receiving(dev, _) => 0 < m.remaining && DeviceChunk(c, dev, m.offset)
       case Comparing(b, n, dev, _) => DeviceChunk(c, dev, m.offset) && ChunkAt(c, x.mem, b, n, m.offset)
       case Recycling(_, _) => 0 < m.remaining && RoundStep(c, m.offset) == Next(m.offset + Min(m.remaining, BUF_SIZE))
       case _ => true
  }

  ghost predicate DeviceChunk(c: Check, dev: seq<byte>, at: nat)
  {
    Readable(c.disk, at, Due(c, at), c.unreadable) && dev == c.disk.bytes[at..at + Due(c, at)]
  }

  ghost predicate Flow(c: Check, w: WorkerSide, m: MainSide, x: Links)
  {
    && MainFlow(c, m, x)
    && Queue(c, x.mem, x.filled, Base(m))
    && WorkerFlow(c, w, x.mem, QueueEnd(x.filled, Base(m)), EndsBroken(x.filled))
  }

  /** The buffer in each thread's hand. */
  function WorkerBuf(pc: WorkerPc): Option<BufId>
  {
    if pc.Holding? || pc.Filling? || pc.Sending? || pc.Reporting? then Some(pc.buf) else None
  }

  function MainBuf(pc: MainPc): Option<BufId> { if pc.Comparing? || pc.Recycling? then Some(pc.buf) else None }

  function Owners(worker: WorkerPc, main: MainPc, x: Links, b: BufId): nat
  {
    OwnersOf(WorkerBuf(worker), MainBuf(main), x, b)
  }

  ghost predicate Owned(worker: WorkerPc, main: MainPc, x: Links) { OwnedBy(WorkerBuf(worker), MainBuf(main), x) }

  ghost predicate Good(p: Plan, s: State)
  {
    && Ends(s.m, s.x, s.w.pc)
    && Source(p.check, s.w)
    && Over(p, s.m, s.cancel)
    && (InLoop(s.m.pc) ==> Flow(p.check, s.w, s.m, s.x))
    && (InLoop(s.m.pc) && Alive(s.w.pc) ==> Owned(s.w.pc, s.m.pc, s.x))
  }

  // ---- The start ----------------------------------------------------------------------------

  lemma StartIsGood(p: Plan, script: Script, cancel: bool)
    requires p.check.stream == Stream(script) && p.check.ending == EndingOf(script)
    ensures Good(p, Start(p, script, cancel))
  {
    hide Flow, OwnedBy, OverWith, Stream, EndingOf;
    FreshIsOwned<VerifyError>();
    StartFlows(p, script, cancel);
  }

  lemma StartFlows(p: Plan, script: Script, cancel: bool)
    requires p.check.stream == Stream(script)
    ensures var s := Start(p, script, cancel); Flow(p.check, s.w, s.m, s.x)
  {
    hide RoundStep;
    assert p.check.stream[0..] == p.check.stream;
  }

  // ---- Worker steps -------------------------------------------------------------------------

  lemma WorkerKeepsFlow(c: Check, w: WorkerSide, m: MainSide, x: Links)
    requires Flow(c, w, m, x) && Source(c, w) && WorkerStep(w, x).Some?
    requires x.filledOpen && x.freeOpen && !x.mirror && (Alive(w.pc) ==> Owned(w.pc, m.pc, x))
    ensures var n := WorkerStep(w, x).value; Flow(c, n.w, m, n.x)
  {
    hide After, RoundStep, ChunkAt, BreakAt, Queue, QueueEnd, OwnedBy, ReadStepOf;
    match w.pc
    case Acquiring =>
    case Holding(b) => assert x.mem[b][..0] == [];
    case Filling(b, n) =>
      if n < Min(w.remaining, BUF_SIZE) { FillingKeepsFlow(c, w, m, x, b, n); } else { FullIsChunk(c, w, m, x, b, n); }
    case Sending(b, n) =>
      SendKeepsFlow(c, w, m, x, Chunk(b, n));
      SendCounts(c, x.mem, b, n, QueueEnd(x.filled, Base(m)));
    case Reporting(_, e) => SendKeepsFlow(c, w, m, x, Broke(e));
  }

  lemma SendCounts(c: Check, mem: Pool, b: BufId, n: Count, at: nat)
    requires ChunkAt(c, mem, b, n, at)
    ensures 0 < n && at + n <= c.total
  {
  }

  lemma FullIsChunk(c: Check, w: WorkerSide, m: MainSide, x: Links, b: BufId, n: Count)
    requires Flow(c, w, m, x) && w.pc == Filling(b, n) && Min(w.remaining, BUF_SIZE) <= n
    ensures ChunkAt(c, x.mem, b, n, QueueEnd(x.filled, Base(m)))
  {
    hide After, RoundStep, Queue, QueueEnd;
  }

  lemma SendKeepsFlow(c: Check, w: WorkerSide, m: MainSide, x: Links, item: CheckItem)
    requires Flow(c, w, m, x) && x.filledOpen
    requires match item case Chunk(b, n) => w.pc == Sending(b, n) case Broke(e) => w.pc.Reporting? && w.pc.error == e
    ensures var n := WorkerStep(w, x).value; Flow(c, n.w, m, n.x)
  {
    hide After, RoundStep, BreakAt, Queue, QueueEnd;
    QueuePush(c, x.mem, x.filled, Base(m), item);
  }

  lemma FillingKeepsFlow(c: Check, w: WorkerSide, m: MainSide, x: Links, b: BufId, n: Count)
    requires Flow(c, w, m, x) && Source(c, w) && Owned(w.pc, m.pc, x)
    requires w.pc == Filling(b, n) && n < Min(w.remaining, BUF_SIZE)
    ensures var r := ReadStepOf(w, x, b, n, Min(w.remaining, BUF_SIZE)); Flow(c, r.w, m, r.x)
  {
    hide After, RoundStep, Queue, QueueEnd, OwnedBy, ChunkAt, ReadOnce, Stream, EndingOf, BreakAt;
    var chunk := Min(w.remaining, BUF_SIZE);
    var at := QueueEnd(x.filled, Base(m));
    ReadOnceMeaning(w.script, chunk - n);
    match ReadOnce(w.script, chunk - n)
    case Delivered(bytes, rest) =>
      if bytes != [] { DeliveryKeepsFlow(c, w, m, x, b, n, bytes, rest); }
      else { EndIsSeen(c, w, at, n, ImageError(UnexpectedEof)); }
    case Interrupt(rest) =>
    case Refused(k) => EndIsSeen(c, w, at, n, ImageError(k));
    case Blown =>
  }

  lemma EndIsSeen(c: Check, w: WorkerSide, at: nat, n: nat, e: VerifyError)
    requires Rest(c, w.script, at + n) && Stream(w.script) == [] && n < Due(c, at)
    requires (c.ending == Eof && e == ImageError(UnexpectedEof)) || (c.ending.Broken? && e == ImageError(c.ending.kind))
    ensures BreakAt(c, e, at)
  {
  }

  lemma DeliveryKeepsFlow(c: Check, w: WorkerSide, m: MainSide, x: Links, b: BufId, n: Count,
                          bytes: seq<byte>, rest: Script)
    requires Flow(c, w, m, x) && Owned(w.pc, m.pc, x) && w.pc == Filling(b, n)
    requires n + |bytes| <= Min(w.remaining, BUF_SIZE) && Stream(w.script) == bytes + Stream(rest)
    ensures Flow(c, WorkerSide(Filling(b, n + |bytes|), rest, w.remaining), m,
                 x.(mem := x.mem[b := Splice(x.mem[b], n, bytes)]))
  {
    hide After, RoundStep, Queue, QueueEnd, ChunkAt, OwnedBy, Splice;
    var mem := x.mem[b := Splice(x.mem[b], n, bytes)];
    OneOwner(WorkerBuf(w.pc), MainBuf(m.pc), x, b);
    QueueFrame(c, x.mem, mem, x.filled, Base(m), b);
    if m.pc.Comparing? { ChunkFrame(c, x.mem, mem, m.pc.buf, m.pc.len, m.offset); }
    FillGrows(c.stream, QueueEnd(x.filled, Base(m)), x.mem[b], n, bytes, Stream(rest));
  }

  lemma ChunkFrame(c: Check, mem: Pool, mem': Pool, b: BufId, n: Count, at: nat)
    requires ChunkAt(c, mem, b, n, at) && mem'[b] == mem[b]
    ensures ChunkAt(c, mem', b, n, at)
  {
  }

  lemma WorkerKeepsOwners(w: WorkerSide, main: MainPc, x: Links, b: BufId)
    requires WorkerStep(w, x).Some? && x.filledOpen && Alive(WorkerStep(w, x).value.w.pc)
    ensures var n := WorkerStep(w, x).value; Owners(n.w.pc, main, n.x, b) == Owners(w.pc, main, x, b)
  {
    hide ReadOnce;
    if w.pc.Sending? { ItemsPush(x.filled, Chunk(w.pc.buf, w.pc.n), b); }
  }

  lemma WorkerKeepsControl(c: Check, w: WorkerSide, m: MainSide, x: Links)
    requires Ends(m, x, w.pc) && Source(c, w) && WorkerStep(w, x).Some?
    ensures var n := WorkerStep(w, x).value; Ends(m, n.x, n.w.pc) && Source(c, n.w)
  {
    if w.pc.Filling? && w.pc.n < Min(w.remaining, BUF_SIZE) {
      ReadOnceMeaning(w.script, Min(w.remaining, BUF_SIZE) - w.pc.n);
    }
  }

  lemma WorkerKeepsGood(p: Plan, s: State, dt: nat)
    requires Good(p, s) && WorkerStep(s.w, s.x).Some?
    ensures Good(p, Take(p, s, Worker(dt)).value)
  {
    hide Flow, OwnersOf, Over, Source, WorkerStep;
    WorkerKeepsControl(p.check, s.w, s.m, s.x);
    if InLoop(s.m.pc) {
      WorkerKeepsFlow(p.check, s.w, s.m, s.x);
      DoneWorkerIsStuck(s.w, s.x);
      if Alive(WorkerStep(s.w, s.x).value.w.pc) {
        WorkerKeepsOwners(s.w, s.m.pc, s.x, 0);
        WorkerKeepsOwners(s.w, s.m.pc, s.x, 1);
      }
    }
  }

  lemma DoneWorkerIsStuck(w: WorkerSide, x: Links)
    requires WorkerStep(w, x).Some?
    ensures Alive(w.pc)
  {
  }

  // ---- Main-thread steps --------------------------------------------------------------------

  /** Comparing a received chunk is exactly one round of the serial loop, and its length is always
      the length both sides derived. */
  lemma CompareRoundMeaning(c: Check, mem: Pool, b: BufId, n: Count, dev: seq<byte>, at: nat)
    requires at <= c.total && DeviceChunk(c, dev, at) && ChunkAt(c, mem, b, n, at)
    ensures n == Due(c, at) && |mem[b][..n]| == n
    ensures var diff := CompareChunk(dev, mem[b][..n], at);
            RoundStep(c, at) == if diff.Some? then Stop(Rejected(Mismatch(diff.value))) else Next(at + n)
  {
    hide CompareChunk;
  }

  lemma BreakRound(c: Check, dev: seq<byte>, e: VerifyError, at: nat)
    requires at <= c.total && BreakAt(c, e, at) && DeviceChunk(c, dev, at)
    ensures RoundStep(c, at) == Stop(Rejected(e)) && e != Cancelled && e != ProtocolViolation
  {
    hide CompareChunk;
  }

  lemma EdgeRounds(c: Check, at: nat)
    requires at <= Min(c.total, |c.stream|)
    ensures at == c.total ==> RoundStep(c, at) == Stop(Agreed)
    ensures 0 < Due(c, at) && !Readable(c.disk, at, Due(c, at), c.unreadable) ==>
      RoundStep(c, at) == Stop(Rejected(DeviceUnreadable))
  {
    hide CompareChunk;
  }

  lemma MainKeepsEnds(p: Plan, m: MainSide, x: Links, worker: WorkerPc, cancel: bool, now: nat)
    requires Ends(m, x, worker) && MainStep(p, m, x, worker, cancel, now).Some?
    ensures var n := MainStep(p, m, x, worker, cancel, now).value; Ends(n.m, n.x, worker)
  {
    hide CompareChunk, Conclude;
  }

  lemma NoSilentExit(c: Check, w: WorkerSide, m: MainSide, x: Links)
    requires Flow(c, w, m, x) && m.pc.Receiving? && x.filled == []
    ensures !w.pc.Exited?
  {
    hide RoundStep;
  }

  lemma MainKeepsOver(p: Plan, w: WorkerSide, m: MainSide, x: Links, cancel: bool, now: nat)
    requires Over(p, m, cancel) && (InLoop(m.pc) ==> Flow(p.check, w, m, x))
    requires Ends(m, x, w.pc) && MainStep(p, m, x, w.pc, cancel, now).Some?
    ensures Over(p, MainStep(p, m, x, w.pc, cancel, now).value.m, cancel)
  {
    hide After, RoundStep, CompareChunk, ChunkAt, BreakAt, Conclude, Readable, DeviceChunk;
    match m.pc
    case LoopTop => EdgeRounds(p.check, m.offset);
    case Reading(_) => EdgeRounds(p.check, m.offset);
    case Receiving(dev, _) =>
      if x.filled == [] { NoSilentExit(p.check, w, m, x); }
      else if x.filled[0].Broke? { BreakRound(p.check, dev, x.filled[0].error, m.offset); }
    case Comparing(b, n, dev, _) => CompareRoundMeaning(p.check, x.mem, b, n, dev, m.offset);
    case _ =>
  }

  lemma MainKeepsFlow(p: Plan, w: WorkerSide, m: MainSide, x: Links, cancel: bool, now: nat)
    requires Flow(p.check, w, m, x) && InLoop(m.pc) && MainStep(p, m, x, w.pc, cancel, now).Some?
    requires InLoop(MainStep(p, m, x, w.pc, cancel, now).value.m.pc)
    ensures var n := MainStep(p, m, x, w.pc, cancel, now).value; Flow(p.check, w, n.m, n.x)
  {
    hide ChunkAt, BreakAt, After, RoundStep, CompareChunk, WorkerFlow, Queue, QueueEnd, Receive, Compare, Elapsed;
    match m.pc
    case Receiving(_, _) => ReceiveKeepsFlow(p.check, w, m, x);
    case Comparing(_, _, _, _) => CompareKeepsFlow(p.check, w, m, x);
    case Recycling(_, _) => RecycleCounts(p.check, m);
    case _ =>
  }

  lemma ReceiveKeepsFlow(c: Check, w: WorkerSide, m: MainSide, x: Links)
    requires Flow(c, w, m, x) && m.pc.Receiving? && Receive(m, x, w.pc, m.pc.dev, m.pc.started).Some?
    requires InLoop(Receive(m, x, w.pc, m.pc.dev, m.pc.started).value.m.pc)
    ensures var n := Receive(m, x, w.pc, m.pc.dev, m.pc.started).value; Flow(c, w, n.m, n.x)
  {
    hide ChunkAt, BreakAt, After, RoundStep, WorkerFlow, DeviceChunk;
    assert BrokenTail(x.filled);
  }

  lemma CompareKeepsFlow(c: Check, w: WorkerSide, m: MainSide, x: Links)
    requires Flow(c, w, m, x) && m.pc.Comparing?
    ensures var n := Compare(m, m.pc.buf, m.pc.dev, x.mem[m.pc.buf][..m.pc.len], m.pc.started);
            InLoop(n.pc) ==> Flow(c, w, n, x)
  {
    hide After, RoundStep, CompareChunk, WorkerFlow, Queue, QueueEnd;
    CompareRoundMeaning(c, x.mem, m.pc.buf, m.pc.len, m.pc.dev, m.offset);
  }

  lemma RecycleCounts(c: Check, m: MainSide)
    requires After(c, m.rounds) == Some(m.offset)
    requires RoundStep(c, m.offset) == Next(m.offset + Min(m.remaining, BUF_SIZE))
    ensures After(c, m.rounds + 1) == Some(m.offset + Min(m.remaining, BUF_SIZE))
  {
    hide RoundStep;
  }

  predicate BrokenTail(items: seq<CheckItem>)
  {
    items != [] ==> (EndsBroken(items) <==> EndsBroken(items[1..]) || (items[1..] == [] && items[0].Broke?))
  }

  lemma MainKeepsOwners(p: Plan, m: MainSide, x: Links, worker: WorkerPc, cancel: bool, now: nat, b: BufId)
    requires MainStep(p, m, x, worker, cancel, now).Some? && Alive(worker)
    requires InLoop(m.pc) && InLoop(MainStep(p, m, x, worker, cancel, now).value.m.pc)
    ensures var n := MainStep(p, m, x, worker, cancel, now).value;
            Owners(worker, n.m.pc, n.x, b) == Owners(worker, m.pc, x, b)
  {
    hide CompareChunk, Readable, Receive, Elapsed, InPool, InItems;
    if m.pc.Recycling? {
      PoolPush(x.free, m.pc.buf, b);
    } else if m.pc.Receiving? {
      ReceiveKeepsOwners(m, x, worker, b);
    }
  }

  lemma ReceiveKeepsOwners(m: MainSide, x: Links, worker: WorkerPc, b: BufId)
    requires m.pc.Receiving? && Alive(worker)
    requires Receive(m, x, worker, m.pc.dev, m.pc.started).Some?
    requires InLoop(Receive(m, x, worker, m.pc.dev, m.pc.started).value.m.pc)
    ensures var n := Receive(m, x, worker, m.pc.dev, m.pc.started).value;
            Owners(worker, n.m.pc, n.x, b) == Owners(worker, m.pc, x, b)
  {
    hide InPool;
  }

  lemma LoopIsLeftOnce(p: Plan, m: MainSide, x: Links, worker: WorkerPc, cancel: bool, now: nat)
    requires MainStep(p, m, x, worker, cancel, now).Some?
    ensures InLoop(MainStep(p, m, x, worker, cancel, now).value.m.pc) ==> InLoop(m.pc)
  {
    hide CompareChunk, Conclude;
  }

  lemma MainKeepsGood(p: Plan, s: State, dt: nat)
    requires Good(p, s) && MainStep(p, s.m, s.x, s.w.pc, s.cancel, s.now).Some?
    ensures Good(p, Take(p, s, Main(dt)).value)
  {
    hide Flow, OwnersOf, Over, Source, MainStep, Ends;
    var n := MainStep(p, s.m, s.x, s.w.pc, s.cancel, s.now).value;
    MainKeepsEnds(p, s.m, s.x, s.w.pc, s.cancel, s.now);
    MainKeepsOver(p, s.w, s.m, s.x, s.cancel, s.now);
    LoopIsLeftOnce(p, s.m, s.x, s.w.pc, s.cancel, s.now);
    if InLoop(n.m.pc) {
      MainKeepsFlow(p, s.w, s.m, s.x, s.cancel, s.now);
      if Alive(s.w.pc) {
        MainKeepsOwners(p, s.m, s.x, s.w.pc, s.cancel, s.now, 0);
        MainKeepsOwners(p, s.m, s.x, s.w.pc, s.cancel, s.now, 1);
      }
    }
  }

  /** The invariant holds in every reachable state: every step keeps it. */
  lemma StepKeepsGood(p: Plan, s: State, move: Move)
    requires Good(p, s) && Take(p, s, move).Some?
    ensures Good(p, Take(p, s, move).value)
  {
    hide Flow, OwnedBy, Source, Ends, WorkerStep, MainStep, LoopEnds, Conclude;
    match move
    case Worker(dt) => WorkerKeepsGood(p, s, dt);
    case Main(dt) => MainKeepsGood(p, s, dt);
    case SetCancel =>
  }

  lemma {:induction false} RunKeepsGood(p: Plan, s: State, moves: seq<Move>)
    requires Good(p, s) && Run(p, s, moves).Some?
    ensures Good(p, Run(p, s, moves).value)
    decreases |moves|
  {
    hide Good, Take;
    if moves != [] {
      StepKeepsGood(p, s, moves[0]);
      RunKeepsGood(p, Take(p, s, moves[0]).value, moves[1..]);
    }
  }
}
