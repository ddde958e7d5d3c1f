/** `verify_pipelined` as a labelled transition system: the worker paces itself by the same byte
    count the main thread counts down, and the two must stay in lockstep. */
module VerifyPipeline {
  import opened Options
  import opened Bytes
  import opened Geometry
  import opened Readers
  import opened Devices
  import opened Pace
  import opened Verify
  import opened Channels

  type CheckItem = Item<VerifyError>
  type Links = Shared<VerifyError>

  datatype WorkerPc =
    | Acquiring                                 // done, or free_rx.recv()
    | Holding(buf: BufId)                       // about to look at the cancel mirror
    | Filling(buf: BufId, n: Count)             // inside fill_exact
    | Sending(buf: BufId, n: Count)             // filled_tx.send(Ok(..))
    | Reporting(buf: BufId, error: VerifyError) // filled_tx.send(Err(..))
    | Exited
    | Crashed                                   // the reader panicked

  datatype MainPc =
    | LoopTop
    | Reading(started: nat)
    | Receiving(dev: seq<byte>, started: nat)
    | Comparing(buf: BufId, len: Count, dev: seq<byte>, started: nat)
    | Recycling(buf: BufId, started: nat)
    | Pacing(started: nat)
    | Rechecking
    | ClosingFilled
    | ClosingFree
    | Joining
    | Settling
    | Reported(report: Report)

  datatype WorkerSide = WorkerSide(pc: WorkerPc, script: Script, remaining: nat)

  datatype MainSide = MainSide(
    pc: MainPc, remaining: nat, offset: nat, rounds: nat, verdict: Verdict, joined: bool, panic: bool)

  datatype State = State(w: WorkerSide, m: MainSide, x: Links, cancel: bool, now: nat)

  datatype Plan = Plan(check: Check, target: Target, began: nat)

  datatype Move = Worker(dt: nat) | Main(dt: nat) | SetCancel

  predicate Alive(pc: WorkerPc) { !pc.Exited? && !pc.Crashed? }

  // ---- The worker ---------------------------------------------------------------------------

  datatype WorkerMove = WorkerMove(w: WorkerSide, x: Links)

  function Leave(w: WorkerSide, x: Links, pc: WorkerPc): WorkerMove
  {
    WorkerMove(w.(pc := pc), x.(free := []))
  }

  function WorkerStep(w: WorkerSide, x: Links): Option<WorkerMove>
  {
    match w.pc
    case Acquiring =>
      if w.remaining == 0 then Some(Leave(w, x, Exited))
      else if x.free != [] then Some(WorkerMove(w.(pc := Holding(x.free[0])), x.(free := x.free[1..])))
      else if x.freeOpen then None
      else Some(Leave(w, x, Exited))
    case Holding(b) =>
      Some(if x.mirror then Leave(w, x, Exited) else WorkerMove(w.(pc := Filling(b, 0)), x))
    case Filling(b, n) =>
      var chunk := Min(w.remaining, BUF_SIZE);
      Some(if chunk <= n then WorkerMove(w.(pc := Sending(b, n)), x) else ReadStepOf(w, x, b, n, chunk))
    case Sending(b, n) =>
      Some(if x.filledOpen
           then WorkerMove(WorkerSide(Acquiring, w.script, if n <= w.remaining then w.remaining - n else 0),
                           x.(filled := x.filled + [Chunk(b, n)]))
           else Leave(w, x, Exited))
    case Reporting(_, e) =>
      Some(Leave(w, if x.filledOpen then x.(filled := x.filled + [Broke(e)]) else x, Exited))
    case Exited => None
    case Crashed => None
  }

  /** One `read` inside the worker's `fill_exact` of `chunk` bytes. */
  function ReadStepOf(w: WorkerSide, x: Links, b: BufId, n: Count, chunk: Count): WorkerMove
    requires n < chunk
  {
    match ReadOnce(w.script, chunk - n)
    case Delivered(bytes, rest) =>
      if bytes == [] then WorkerMove(w.(pc := Reporting(b, ImageError(UnexpectedEof))), x)
      else WorkerMove(w.(pc := Filling(b, n + |bytes|), script := rest),
                      x.(mem := x.mem[b := Splice(x.mem[b], n, bytes)]))
    case Interrupt(rest) => WorkerMove(w.(script := rest), x)
    case Refused(k) => WorkerMove(w.(pc := Reporting(b, ImageError(k))), x)
    case Blown => Leave(w, x, Crashed)
  }

  // ---- The main thread ----------------------------------------------------------------------

  datatype MainMove = MainMove(m: MainSide, x: Links, slept: nat)

  function Break(m: MainSide, verdict: Verdict): MainSide { m.(pc := ClosingFilled, verdict := verdict) }

  function SeeCancel(m: MainSide, x: Links): MainMove
  {
    MainMove(Break(m, Rejected(Cancelled)), x.(mirror := true), 0)
  }

  function MainStep(p: Plan, m: MainSide, x: Links, worker: WorkerPc, cancel: bool, now: nat): Option<MainMove>
  {
    match m.pc
    case LoopTop =>
      Some(if m.remaining == 0 then MainMove(Break(m, Agreed), x, 0)
           else if cancel then SeeCancel(m, x)
           else MainMove(m.(pc := Reading(now)), x, 0))
    case Reading(started) => Some(MainMove(ReadDevice(p.check, m, started), x, 0))
    case Receiving(dev, started) => Receive(m, x, worker, dev, started)
    case Comparing(b, n, dev, started) => Some(MainMove(Compare(m, b, dev, x.mem[b][..n], started), x, 0))
    case Recycling(b, started) =>
      var len := Min(m.remaining, BUF_SIZE);
      Some(MainMove(m.(pc := Pacing(started), remaining := m.remaining - len, offset := m.offset + len,
                       rounds := m.rounds + 1),
                    if Alive(worker) then x.(free := x.free + [b]) else x, 0))
    case Pacing(started) =>
      Some(if p.target.Every? && Elapsed(started, now) <= p.target.nanos
           then MainMove(m.(pc := Rechecking), x, if cancel then 0 else p.target.nanos - Elapsed(started, now))
           else MainMove(m.(pc := LoopTop), x, 0))
    case Rechecking =>
      Some(if cancel then SeeCancel(m, x) else MainMove(m.(pc := LoopTop), x, 0))
    case ClosingFilled =>
      Some(MainMove(m.(pc := ClosingFree), x.(filled := [], filledOpen := false), 0))
    case ClosingFree => Some(MainMove(m.(pc := Joining), x.(freeOpen := false), 0))
    case Joining =>
      if m.joined then Some(MainMove(m.(pc := Settling), x, 0))
      else if Alive(worker) then None
      else Some(MainMove(m.(pc := Settling, joined := true, panic := worker.Crashed?), x, 0))
    case Settling =>
      Some(MainMove(m.(pc := Reported(if m.panic then Panicked else Conclude(m.verdict))), x, 0))
    case Reported(_) => None
  }

  /** The device read comes first, so that it overlaps the worker's decompression. */
  function ReadDevice(c: Check, m: MainSide, started: nat): MainSide
  {
    var len := Min(m.remaining, BUF_SIZE);
    if Readable(c.disk, m.offset, len, c.unreadable)
    then m.(pc := Receiving(c.disk.bytes[m.offset..m.offset + len], started))
    else Break(m, Rejected(DeviceUnreadable))
  }

  function Receive(m: MainSide, x: Links, worker: WorkerPc, dev: seq<byte>, started: nat): Option<MainMove>
  {
    if x.filled != [] then
      var rest := x.(filled := x.filled[1..]);
      match x.filled[0]
      case Chunk(b, n) => Some(MainMove(m.(pc := Comparing(b, n, dev, started)), rest, 0))
      case Broke(e) => Some(MainMove(Break(m, Rejected(e)), rest, 0))
    else if Alive(worker) then None
    else if worker.Crashed? then Some(MainMove(m.(pc := ClosingFilled, joined := true, panic := true), x, 0))
    else Some(MainMove(Break(m.(joined := true), Rejected(ProtocolViolation)), x, 0))
  }

  /** The protocol check on the chunk's length, then `compare_chunk`. */
  function Compare(m: MainSide, b: BufId, dev: seq<byte>, img: seq<byte>, started: nat): MainSide
  {
    if |img| != Min(m.remaining, BUF_SIZE) then Break(m, Rejected(ProtocolViolation))
    else
      var diff := CompareChunk(dev, img, m.offset);
      if diff.Some? then Break(m, Rejected(Mismatch(diff.value))) else m.(pc := Recycling(b, started))
  }

  // ---- Runs ---------------------------------------------------------------------------------

  function Take(p: Plan, s: State, move: Move): Option<State>
  {
    match move
    case Worker(dt) =>
      (match WorkerStep(s.w, s.x)
       case None => None
       case Some(n) => Some(State(n.w, s.m, n.x, s.cancel, s.now + dt)))
    case Main(dt) =>
      (match MainStep(p, s.m, s.x, s.w.pc, s.cancel, s.now)
       case None => None
       case Some(n) => Some(State(s.w, n.m, n.x, s.cancel, s.now + n.slept + dt)))
    case SetCancel => if s.cancel then None else Some(s.(cancel := true))
  }

  function Start(p: Plan, script: Script, cancel: bool): State
  {
    State(WorkerSide(Acquiring, script, p.check.total),
          MainSide(LoopTop, p.check.total, 0, 0, Agreed, false, false), Fresh(), cancel, p.began)
  }

  function Run(p: Plan, s: State, moves: seq<Move>): Option<State>
    decreases |moves|
  {
    if moves == [] then Some(s)
    else match Take(p, s, moves[0])
      case None => None
      case Some(s') => Run(p, s', moves[1..])
  }
}
