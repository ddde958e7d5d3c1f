/** `flash_pipelined` as a labelled transition system: the decompression worker, the writing main
    thread, the two channels and the two-buffer pool between them.

    Every blocking or shared-state operation of either thread is one step, and any thread whose
    step is enabled may move next. The caller may set the cancellation flag between any two steps. */
module FlashPipeline {
  import opened Options
  import opened Bytes
  import opened Geometry
  import opened Readers
  import opened Devices
  import opened Pace
  import opened Flash
  import opened Channels

  type FlashItem = Item<FlashError>
  type Links = Shared<FlashError>

  datatype WorkerPc =
    | Acquiring                          // free_rx.recv()
    | Holding(buf: BufId)                // about to look at the cancel mirror
    | Filling(buf: BufId, n: Count)      // inside fill_buffer
    | Sending(buf: BufId, n: Count)      // filled_tx.send(Ok(..))
    | Reporting(buf: BufId, error: FlashError)  // filled_tx.send(Err(..))
    | Sent(n: Count)                     // the end-of-stream test
    | Exited
    | Crashed                            // the reader panicked

  datatype MainPc =
    | LoopTop
    | Receiving(started: nat)
    | Processing(buf: BufId, len: Count, started: nat)
    | Recycling(buf: BufId, started: nat)
    | Pacing(started: nat)
    | Rechecking
    | ClosingFilled
    | ClosingFree
    | Joining
    | Settling
    | Reported(report: Report)

  /** What only the worker thread touches. */
  datatype WorkerSide = WorkerSide(pc: WorkerPc, script: Script)

  /** What only the main thread touches: the device, and the locals of `flash_pipelined`. */
  datatype MainSide = MainSide(
    pc: MainPc, disk: Disk, offset: nat, chunks: nat, outcome: Outcome, joined: bool, panic: bool)

  datatype State = State(w: WorkerSide, m: MainSide, x: Links, cancel: bool, now: nat)

  /** What a run is about: the job, the pacing target, and when the loop began. */
  datatype Plan = Plan(job: Job, target: Target, began: nat)

  datatype Move = Worker(dt: nat) | Main(dt: nat) | SetCancel

  predicate Alive(pc: WorkerPc) { !pc.Exited? && !pc.Crashed? }

  // ---- The worker ---------------------------------------------------------------------------

  datatype WorkerMove = WorkerMove(w: WorkerSide, x: Links)

  /** The worker thread ends: both of its channel halves and the reader are dropped. */
  function Leave(w: WorkerSide, x: Links, pc: WorkerPc): WorkerMove
  {
    WorkerMove(w.(pc := pc), x.(free := []))
  }

  function WorkerStep(w: WorkerSide, x: Links): Option<WorkerMove>
  {
    match w.pc
    case Acquiring =>
      if x.free != [] then Some(WorkerMove(w.(pc := Holding(x.free[0])), x.(free := x.free[1..])))
      else if x.freeOpen then None
      else Some(Leave(w, x, Exited))
    case Holding(b) =>
      Some(if x.mirror then Leave(w, x, Exited) else WorkerMove(w.(pc := Filling(b, 0)), x))
    case Filling(b, n) =>
      Some(if n == BUF_SIZE then WorkerMove(w.(pc := Sending(b, n)), x) else ReadStepOf(w, x, b, n))
    case Sending(b, n) =>
      Some(if x.filledOpen then WorkerMove(w.(pc := Sent(n)), x.(filled := x.filled + [Chunk(b, n)]))
           else Leave(w, x, Exited))
    case Reporting(_, e) =>
      Some(Leave(w, if x.filledOpen then x.(filled := x.filled + [Broke(e)]) else x, Exited))
    case Sent(n) =>
      Some(if n < BUF_SIZE then Leave(w, x, Exited) else WorkerMove(w.(pc := Acquiring), x))
    case Exited => None
    case Crashed => None
  }

  /** One `read` inside the worker's `fill_buffer`. */
  function ReadStepOf(w: WorkerSide, x: Links, b: BufId, n: Count): WorkerMove
    requires n < BUF_SIZE
  {
    match ReadOnce(w.script, BUF_SIZE - n)
    case Delivered(bytes, rest) =>
      if bytes == [] then WorkerMove(w.(pc := Sending(b, n)), x)
      else WorkerMove(WorkerSide(Filling(b, n + |bytes|), rest),
                      x.(mem := x.mem[b := Splice(x.mem[b], n, bytes)]))
    case Interrupt(rest) => WorkerMove(w.(script := rest), x)
    case Refused(k) => WorkerMove(w.(pc := Reporting(b, ReadError(k))), x)
    case Blown => Leave(w, x, Crashed)
  }

  // ---- The main thread ----------------------------------------------------------------------

  datatype MainMove = MainMove(m: MainSide, x: Links, slept: nat)

  function Break(m: MainSide, outcome: Outcome): MainSide { m.(pc := ClosingFilled, outcome := outcome) }

  function SeeCancel(m: MainSide, x: Links): MainMove
  {
    MainMove(Break(m, Stopped(Cancelled)), x.(mirror := true), 0)
  }

  function MainStep(p: Plan, m: MainSide, x: Links, worker: WorkerPc, cancel: bool, now: nat): Option<MainMove>
  {
    match m.pc
    case LoopTop =>
      Some(if cancel then SeeCancel(m, x) else MainMove(m.(pc := Receiving(now)), x, 0))
    case Receiving(started) => Receive(m, x, worker, started)
    case Processing(b, n, started) =>
      var chunk := x.mem[b][..n];
      Some(MainMove(Apply(m, b, started, ChunkStep(p.job.faults, p.job.devSize, m.disk, chunk, m.offset)), x, 0))
    case Recycling(b, started) =>
      Some(MainMove(m.(pc := Pacing(started)), if Alive(worker) then x.(free := x.free + [b]) else x, 0))
    case Pacing(started) =>
      Some(if p.target.Every? && Elapsed(started, now) <= p.target.nanos
           then MainMove(m.(pc := Rechecking), x, if cancel then 0 else p.target.nanos - Elapsed(started, now))
           else MainMove(m.(pc := LoopTop), x, 0))
    case Rechecking =>
      Some(if cancel then SeeCancel(m, x) else MainMove(m.(pc := LoopTop), x, 0))
    case ClosingFilled =>
      Some(MainMove(m.(pc := ClosingFree), x.(filled := [], filledOpen := false), 0))
    case ClosingFree => Some(MainMove(m.(pc := Joining), x.(freeOpen := false), 0))
    case Joining =>
      if m.joined then Some(MainMove(m.(pc := Settling), x, 0))
      else if Alive(worker) then None
      else Some(MainMove(m.(pc := Settling, joined := true, panic := worker.Crashed?), x, 0))
    case Settling =>
      var settled := Settle(p.job.faults, m.outcome, m.disk);
      Some(MainMove(if m.panic then m.(pc := Reported(Panicked))
                    else m.(pc := Reported(settled.report), disk := settled.disk), x, 0))
    case Reported(_) => None
  }

  /** `filled_rx.recv()`: blocks on an empty open channel; a closed one means the worker is gone. */
  function Receive(m: MainSide, x: Links, worker: WorkerPc, started: nat): Option<MainMove>
  {
    if x.filled != [] then
      var rest := x.(filled := x.filled[1..]);
      match x.filled[0]
      case Chunk(b, n) => Some(MainMove(m.(pc := Processing(b, n, started)), rest, 0))
      case Broke(e) => Some(MainMove(Break(m, Stopped(e)), rest, 0))
    else if Alive(worker) then None
    else if worker.Crashed? then Some(MainMove(m.(pc := ClosingFilled, joined := true, panic := true), x, 0))
    else Some(MainMove(Break(m.(joined := true), Stopped(ProtocolViolation)), x, 0))
  }

  function Apply(m: MainSide, b: BufId, started: nat, c: ChunkResult): MainSide
  {
    match c.outcome
    case Continue(end) =>
      m.(pc := Recycling(b, started), disk := c.disk, offset := end, chunks := m.chunks + 1)
    case Done(end) => Break(m.(disk := c.disk), Finished(end))
    case Aborted(e) => Break(m.(disk := c.disk), Stopped(e))
  }

  // ---- Runs ---------------------------------------------------------------------------------

  /** The step a move names, if it is enabled; `dt` is the time it takes. */
  function Take(p: Plan, s: State, move: Move): Option<State>
  {
    match move
    case Worker(dt) =>
      (match WorkerStep(s.w, s.x)
       case None => None
       case Some(n) => Some(State(n.w, s.m, n.x, s.cancel, s.now + dt)))
    case Main(dt) =>
      (match MainStep(p, s.m, s.x, s.w.pc, s.cancel, s.now)
       case None => None
       case Some(n) => Some(State(s.w, n.m, n.x, s.cancel, s.now + n.slept + dt)))
    case SetCancel => if s.cancel then None else Some(s.(cancel := true))
  }

  function Start(p: Plan, script: Script, cancel: bool): State
  {
    State(WorkerSide(Acquiring, script), MainSide(LoopTop, p.job.disk, 0, 0, Finished(0), false, false),
          Fresh(), cancel, p.began)
  }

  /** Taking `moves` in order from `s`; `None` when one of them is not enabled. */
  function Run(p: Plan, s: State, moves: seq<Move>): Option<State>
    decreases |moves|
  {
    if moves == [] then Some(s)
    else match Take(p, s, moves[0])
      case None => None
      case Some(s') => Run(p, s', moves[1..])
  }
}
