/** `run_with`: the whole sequence of phases over one device, with failure, cancellation or a panic
    possible at every step that can have one. */
module Runs {
  import opened Options
  import opened Bytes
  import opened Geometry
  import opened Readers
  import opened Devices
  import opened Pace
  import opened Guards
  import opened Journals
  import E = Errors
  import F = Flash
  import FM = FlashMeaning
  import FP = FlashPipeline
  import FA = FlashArm
  import V = Verify
  import VM = VerifyMeaning
  import VP = VerifyPipeline
  import VA = VerifyArm
  import W = Wipe
  import T = Subtree
  import Stacked
  import Sysfs

  // ---- Inputs -------------------------------------------------------------------------------

  datatype Config = Config(
    yes: bool, skipCooldown: bool, skipVerification: bool, cooldownSecs: Option<u64>, throttle: Option<u64>)

  const DEFAULT_COOLDOWN_SECS: u64 := 20
  const MAX_COOLDOWN_SECS: u64 := 600

  function CooldownSecs(c: Config): u64 { if c.cooldownSecs.Some? then c.cooldownSecs.value else DEFAULT_COOLDOWN_SECS }

  predicate CooldownInBounds(c: Config) { 0 < CooldownSecs(c) <= MAX_COOLDOWN_SECS }

  /** Everything the outside decides: for each step that can fail, how it fails if it does. */
  datatype World = World(
    disk: Sysfs.Name, image: T.Image,
    validation: Option<E.Cause>, treeAtStart: Sysfs.Tree,  // phase 0: privileges, paths and file types; sysfs
    geometry: Option<E.Cause>, compressed: bool, imageSize: u64, readOnly: bool,
    identity: Option<E.Cause>, confirms: bool,
    treeAtTopology: Sysfs.Tree, topology: Option<E.Cause>, // phase 1: sysfs; whitelist, swaps, unmounting
    claim: Option<E.Cause>, treeUnderClaim: Sysfs.Tree,    // phase 2: the claim, then the re-checks under it
    mountsUnderClaim: Option<nat>, identityUnderClaim: Option<E.Cause>,
    wipe: W.WipeFaults,
    openForFlash: Option<E.Cause>, flashScript: Script, flashFaults: F.Faults, flashSchedule: nat -> FP.Move,
    flushCache: Option<E.Cause>, clearDirect: Fcntl, openForVerify: Option<E.Cause>, verifyScript: Script,
    unreadable: set<nat>, memory: nat, verifySchedule: nat -> VP.Move,
    topologyAfter: Option<E.Cause>, scans: nat -> Option<nat>)  // phase 7: mounts each scan finds

  datatype Target = Target(compressed: bool, devSize: u64)

  /** A disarmed guard and the target it claimed. */
  datatype Session = Session(guard: FlashGuard, target: Target)

  datatype Outcome<T> = Pass(value: T) | Fail(error: E.Error) | Unwind

  /** A phase boundary: context on a cause, then the device state. */
  function Boundary(c: E.Cause, context: string, device: E.DeviceState): (e: E.Error)
    ensures e.device == device
    ensures e.kind == E.Refused ==> device == E.Untouched
  {
    E.At(E.Context(E.FromSource(c), context), device)
  }

  function FlashCause(e: F.FlashError): E.Cause
  {
    if e == F.Cancelled then E.CancelMark("cancelled by user") else E.OtherCause("flash failed")
  }

  function VerifyCause(e: V.VerifyError): E.Cause
  {
    if e == V.Cancelled then E.CancelMark("cancelled by user")
    else if e.Mismatch? then E.MismatchMark("verification mismatch")
    else E.OtherCause("verification failed")
  }

  /** A boundary after the arming reports a cancelled flash, and nothing else a flash reports, as a
      cancellation; it never reports a refusal. */
  lemma FlashKinds(e: F.FlashError, context: string)
    ensures Boundary(FlashCause(e), context, E.Indeterminate).kind == if e == F.Cancelled then E.Cancelled else E.Failed
  {
  }

  /** The same for a verification; a mismatch, and nothing else, is reported as one. */
  lemma VerifyKinds(e: V.VerifyError, context: string)
    ensures Boundary(VerifyCause(e), context, E.Indeterminate).kind
            == if e == V.Cancelled then E.Cancelled else if e.Mismatch? then E.VerificationFailed else E.Failed
  {
  }

  // ---- What must hold before anything is written ---------------------------------------------

  /** Phase 0's checks before the image's place is looked at, as the cause of the first that refuses. */
  function EarlyRefusal(config: Config, w: World): Option<E.Cause>
  {
    if !CooldownInBounds(config) then Some(E.OtherCause("cooldown out of bounds")) else w.validation
  }

  /** Phase 0's checks after that. */
  function LateRefusal(config: Config, w: World, devSize: u64): Option<E.Cause>
  {
    if w.geometry.Some? then w.geometry
    else if w.readOnly then Some(E.OtherCause("write-protected"))
    else if devSize < 2 * WIPE_REGION then Some(E.OtherCause("device too small"))
    else if !w.compressed && devSize < w.imageSize then Some(E.OtherCause("image larger than device"))
    else if w.identity.Some? then w.identity
    else if !config.yes && !w.confirms then Some(E.OtherCause("aborted by user"))
    else None
  }

  /** What phase 0 demands apart from the image's place, said of the inputs themselves. */
  ghost predicate Acceptable(config: Config, w: World, devSize: u64)
  {
    && (config.cooldownSecs.Some? ==> 1 <= config.cooldownSecs.value <= 600)
    && w.validation.None? && w.geometry.None? && w.identity.None?
    && !w.readOnly && 2 * 1048576 <= devSize && (w.compressed || w.imageSize <= devSize)
    && (config.yes || w.confirms)
  }

  /** Phase 0's two lists of checks refuse exactly what is not acceptable. */
  lemma RefusalIff(config: Config, w: World, devSize: u64)
    ensures EarlyRefusal(config, w).None? && LateRefusal(config, w, devSize).None? <==> Acceptable(config, w, devSize)
  {
  }

  /** The image is neither a device of the target's computed block stack nor the file behind one. */
  ghost predicate ImageElsewhere(w: World)
  {
    exists s :: T.Computed(w.treeAtStart, w.disk, s) && !T.OnStack(w.image, s)
  }

  /** There is a block stack of the target the image is not on, and the search can read what it must. */
  ghost predicate ImageClear(w: World)
  {
    && !T.Unsearchable(w.treeAtStart, w.disk)
    && exists s :: T.Stack(w.treeAtStart, w.disk, s) && !T.OnStack(w.image, s)
  }

  /** The target passes the gates of phases 1 and 2. */
  ghost predicate TargetClear(w: World)
  {
    && Stacked.Clear(w.treeAtTopology, w.disk) && w.topology.None?
    && w.claim.None? && Stacked.Clear(w.treeUnderClaim, w.disk)
    && w.mountsUnderClaim == Some(0) && w.identityUnderClaim.None?
  }

  /** Nothing in phases 0 to 2 stands in the way. */
  ghost predicate Admitted(config: Config, w: World, devSize: u64)
  {
    Acceptable(config, w, devSize) && ImageClear(w) && TargetClear(w)
  }

  /** What every run that writes has passed. */
  ghost predicate Gated(config: Config, w: World, devSize: u64)
  {
    Acceptable(config, w, devSize) && ImageElsewhere(w) && TargetClear(w)
  }

  // ---- When nothing goes wrong --------------------------------------------------------------

  /** Phase 4 has an image that fits and ends cleanly, a device that obeys, memory and a legal rate. */
  ghost predicate FlashGoes(w: World, throttle: Option<u64>, devSize: nat)
  {
    && w.openForFlash.None? && throttle != Some(0) && 2 <= w.flashFaults.buffers
    && w.flashFaults.enable == w.flashFaults.tail == w.flashFaults.finish == Works
    && w.flashFaults.tears == map[] && !w.flashFaults.syncFails
    && EndingOf(w.flashScript) == Eof && |Stream(w.flashScript)| <= devSize
    && FA.NeverCancels(w.flashSchedule)
  }

  /** Phase 5 can read the device, and the second pass over the image delivers the same bytes. */
  ghost predicate VerifyGoes(w: World, throttle: Option<u64>)
  {
    && w.flushCache.None? && w.clearDirect == Works && w.openForVerify.None?
    && throttle != Some(0) && 3 <= w.memory && w.unreadable == {}
    && EndingOf(w.verifyScript) != Panics && Stream(w.flashScript) <= Stream(w.verifyScript)
    && VA.NeverCancels(w.verifySchedule)
  }

  /** Every check passes, every operation works and the caller never cancels. */
  ghost predicate AllGoes(config: Config, w: World, devSize: u64)
  {
    && Admitted(config, w, devSize)
    && W.Obeys(w.wipe)
    && FlashGoes(w, config.throttle, devSize)
    && (config.skipVerification || VerifyGoes(w, config.throttle))
    && w.topologyAfter.None? && Quiet(w)
  }

  /** What a flash that succeeded went through: the image opened and ended cleanly, the flag could be
      set and cleared, the rate was legal, and the sync after the last write succeeded. */
  ghost predicate FlashWorked(w: World, throttle: Option<u64>)
  {
    && w.openForFlash.None? && EndingOf(w.flashScript) == Eof && throttle != Some(0)
    && w.flashFaults.enable != GetFails && w.flashFaults.finish != GetFails && !w.flashFaults.syncFails
  }

  /** What a read-back that succeeded went through: the kernel's cache was flushed, the flag could be
      cleared, the image opened, and no chunk below `total` was unreadable. */
  ghost predicate ReadBackWorked(w: World, total: nat)
  {
    && w.flushCache.None? && w.clearDirect != GetFails && w.openForVerify.None?
    && forall at | at in w.unreadable && at < total :: at % BUF_SIZE != 0
  }

  lemma FlashSucceeds(w: World, disk: Disk, devSize: u64, throttle: Option<u64>, buffers: nat, k: nat,
                      r: F.Report, after: Disk)
    requires FlashGoes(w, throttle, devSize) && |disk.bytes| == devSize && buffers <= 2
    requires F.Flashes(w.flashScript, disk, devSize, throttle, w.flashFaults, buffers, k, r, after)
    requires r != F.Err(F.Cancelled)
    ensures r.Ok?
  {
    hide F.LoopEnds, Stream, EndingOf, F.Settle;
    var f := SetDirect(disk, true, w.flashFaults.enable);
    var job := F.JobOf(w.flashScript, f.disk, devSize, w.flashFaults);
    var o, d :| F.LoopEnds(job, k, o, d) && F.Settled(r, after) == F.Settle(w.flashFaults, o, d);
    FM.CancelledIsReported(w.flashFaults, o, d);
    FM.OkIff(job, k, o, d, F.Settled(r, after));
  }

  lemma VerifySucceeds(w: World, disk: Disk, throttle: Option<u64>, needs: nat, late: bool, k: nat, r: V.Report)
    requires VerifyGoes(w, throttle) && needs <= 3 && r != V.Err(V.Cancelled)
    requires |Stream(w.flashScript)| <= |disk.bytes| && disk.bytes[..|Stream(w.flashScript)|] == Stream(w.flashScript)
    requires V.Verifies(w.verifyScript, disk, |Stream(w.flashScript)|, throttle, w.unreadable, w.memory,
                        needs, late, k, r)
    ensures r == V.Ok
  {
    hide V.LoopEnds, Stream, EndingOf;
    var total := |Stream(w.flashScript)|;
    var c := V.CheckOf(w.verifyScript, disk, total, w.unreadable);
    var v :| V.LoopEnds(c, k, v, late) && r == V.Conclude(v);
    VM.SoundAndComplete(c, k, v, late);
    assert Stream(w.verifyScript)[..total] == Stream(w.flashScript);
  }

  // ---- Phases 0 to 2 ------------------------------------------------------------------------

  method Phase0(config: Config, w: World, devSize: u64, journal: Journal) returns (r: Outcome<Target>)
    modifies journal
    ensures r.Pass? ==>
      && Acceptable(config, w, devSize) && ImageElsewhere(w)
      && r.value == Target(w.compressed, devSize)
    ensures r.Fail? ==> (!Acceptable(config, w, devSize) || !ImageClear(w)) && r.error.device == E.Untouched
    ensures !r.Unwind?
    ensures journal.log == old(journal.log) + Block(UiPreflight, r.Pass?)
  {
    hide T.Computed, T.Unsearchable, T.Stack, T.OnStack;
    RefusalIff(config, w, devSize);
    journal.Emit(Started(UiPreflight));
    var refusal := EarlyRefusal(config, w);
    if refusal.None? {
      var elsewhere := T.EnsureImageNotOnTarget(w.treeAtStart, w.disk, w.image);
      refusal := if elsewhere then LateRefusal(config, w, devSize) else Some(E.OtherCause("image on target"));
    }
    r := if refusal.Some? then Fail(Boundary(refusal.value, "Phase 0", E.Untouched))
         else Pass(Target(w.compressed, devSize));
    journal.Emit(Finished(UiPreflight, r.Pass?));
  }

  /** Phase 1, which writes nothing to the device. */
  method Phase1(w: World, journal: Journal) returns (r: Outcome<()>)
    modifies journal
    ensures r.Pass? <==> Stacked.Clear(w.treeAtTopology, w.disk) && w.topology.None?
    ensures r.Fail? ==> r.error.device == E.Untouched
    ensures !r.Unwind?
    ensures journal.log == old(journal.log) + Block(UiTopology, r.Pass?)
  {
    hide Stacked.Clear;
    journal.Emit(Started(UiTopology));
    var clear := Stacked.RejectActiveStackedVolumes(w.treeAtTopology, w.disk);
    r := if !clear then Fail(Boundary(E.OtherCause("stacked volume"), "Phase 1", E.Untouched))
         else if w.topology.Some? then Fail(Boundary(w.topology.value, "Phase 1", E.Untouched))
         else Pass(());
    journal.Emit(Finished(UiTopology, r.Pass?));
  }

  /** Phase 2's re-checks in order, each under the claim. */
  method Recheck(w: World) returns (refusal: Option<E.Cause>)
    ensures refusal.None? <==>
      Stacked.Clear(w.treeUnderClaim, w.disk) && w.mountsUnderClaim == Some(0) && w.identityUnderClaim.None?
  {
    hide Stacked.Clear;
    var clear := Stacked.RejectActiveStackedVolumes(w.treeUnderClaim, w.disk);
    if !clear { return Some(E.OtherCause("stacked volume")); }
    if w.mountsUnderClaim != Some(0) { return Some(E.OtherCause("target acquired a new mount")); }
    return w.identityUnderClaim;
  }

  /** Phase 2: the exclusive claim, then the re-checks under it. A failed re-check drops the guard. */
  method Phase2(target: Target, w: World, dev: Device, console: Console, journal: Journal) returns (r: Outcome<Session>)
    modifies journal, console
    ensures r.Pass? <==>
      && w.claim.None? && Stacked.Clear(w.treeUnderClaim, w.disk)
      && w.mountsUnderClaim == Some(0) && w.identityUnderClaim.None?
    ensures r.Pass? ==>
      && fresh(r.value.guard) && r.value.guard.file == Some(dev) && !r.value.guard.WouldWarn()
      && r.value.target == target
    ensures r.Fail? ==> r.error.device == E.Untouched
    ensures !r.Unwind? && console.notices == old(console.notices)
    ensures journal.log == old(journal.log) + Block(UiClaim, r.Pass?)
  {
    hide Stacked.Clear;
    journal.Emit(Started(UiClaim));
    if w.claim.Some? {
      r := Fail(Boundary(w.claim.value, "Phase 2", E.Untouched));
    } else {
      var guard := new FlashGuard(dev);
      var refusal := Recheck(w);
      if refusal.Some? {
        guard.Drop(console);
        r := Fail(Boundary(refusal.value, "Phase 2", E.Untouched));
      } else {
        r := Pass(Session(guard, target));
      }
    }
    journal.Emit(Finished(UiClaim, r.Pass?));
  }

  // ---- Phase 3 ------------------------------------------------------------------------------

  /** `wipe`: the arming, then the wipe. Everything after the arming leaves through an armed guard. */
  method ArmAndWipe(session: Session, dev: Device, w: World, console: Console, journal: Journal)
    returns (r: Outcome<ArmedGuard>)
    requires session.guard.file == Some(dev) && session.target.devSize == dev.data.Length
    modifies session.guard, dev`log, dev.data, console, journal
    ensures r.Pass? ==>
      && fresh(r.value) && r.value.inner == Some(session.guard) && r.value.IsArmedOn(dev)
      && 2 * WIPE_REGION <= dev.data.Length && dev.data[..] == W.Wiped(old(dev.data[..]))
      && console.notices == old(console.notices)
    ensures r.Fail? ==>
      && r.error.device == E.Indeterminate && r.error.kind != E.Refused
      && console.notices == old(console.notices) + [WipingSignatures]
    ensures !r.Unwind? && (W.Obeys(w.wipe) && 2 * WIPE_REGION <= dev.data.Length ==> r.Pass?)
    ensures r.Pass? ==> w.wipe.memory && !w.wipe.syncFails
    ensures journal.log == old(journal.log) + [Started(UiWipe)]
  {
    hide W.Wiped, W.Obeys;
    var armed := session.guard.Arm(WipePhase);
    journal.Emit(Started(UiWipe));
    var error := W.WipeEnds(dev, session.target.devSize, w.wipe);
    if error.None? { return Pass(armed); }
    armed.Drop(console);
    return Fail(Boundary(E.OtherCause("wipe failed"), "Phase 3: wiping device signatures", E.Indeterminate));
  }

  /** Phase 3: preflight, then the arming and the wipe. Only what happens before the arming is reported
      as `Untouched`; the end is reported either way. */
  method Phase3(session: Session, dev: Device, w: World, cancel: CancelFlag, console: Console, journal: Journal)
    returns (r: Outcome<ArmedGuard>)
    requires session.guard.file == Some(dev) && !session.guard.WouldWarn()
    requires session.target.devSize == dev.data.Length
    modifies session.guard, dev`log, dev.data, cancel, console, journal
    ensures r.Pass? ==>
      && fresh(r.value) && r.value.inner == Some(session.guard) && r.value.IsArmedOn(dev)
      && 2 * WIPE_REGION <= dev.data.Length && dev.data[..] == W.Wiped(old(dev.data[..]))
      && console.notices == old(console.notices)
    ensures r.Fail? && old(cancel.IsSet()) ==>
      && r.error.device == E.Untouched
      && dev.State() == old(dev.State()) && console.notices == old(console.notices)
    ensures r.Fail? && !old(cancel.IsSet()) ==>
      && r.error.device == E.Indeterminate && r.error.kind != E.Refused
      && console.notices == old(console.notices) + [WipingSignatures]
    ensures !r.Unwind? && (old(cancel.IsSet()) ==> r.Fail?)
    ensures r.Pass? ==> w.wipe.memory && !w.wipe.syncFails
    ensures journal.log == old(journal.log) + WipeLog(old(cancel.IsSet()), r.Pass?)
    ensures old(cancel.clear) == None ==> cancel.clear == None
    ensures old(cancel.clear) == None && W.Obeys(w.wipe) && 2 * WIPE_REGION <= dev.data.Length ==> r.Pass?
  {
    hide W.Wiped, W.Obeys;
    var raised := cancel.Load();
    if raised {
      session.guard.Drop(console);
      r := Fail(Boundary(E.CancelMark("cancelled by user"), "Phase 3", E.Untouched));
    } else {
      r := ArmAndWipe(session, dev, w, console, journal);
    }
    journal.Emit(Finished(UiWipe, r.Pass?));
  }

  // ---- Phase 4 ------------------------------------------------------------------------------

  /** `flash`: raw images take the serial arm, compressed ones the pipelined arm. */
  method FlashImage(target: Target, dev: Device, w: World, throttle: Option<u64>, cancel: CancelFlag, clock: Clock)
    returns (r: F.Report, k: nat)
    modifies dev, dev.data, cancel, clock
    ensures clock.now >= old(clock.now)
    ensures old(cancel.clear) == None && FA.NeverCancels(w.flashSchedule) ==>
      cancel.clear == None && r != F.Err(F.Cancelled)
    ensures r == F.Panicked && target.compressed ==> EndingOf(w.flashScript) == Panics
    ensures r != F.Panicked || !target.compressed ==>
      F.Flashes(w.flashScript, old(dev.State()), target.devSize, throttle, w.flashFaults,
                if target.compressed then 2 else 1, k, r, dev.State())
  {
    hide F.Flashes, FA.FlashPipelined;
    if target.compressed {
      var disk := dev.State();
      var piped := FA.FlashPipelined(w.flashScript, disk, target.devSize, throttle, w.flashFaults,
                                     cancel.IsSet(), clock.now, w.flashSchedule);
      FA.PipelinedFlashes(w.flashScript, disk, target.devSize, throttle, w.flashFaults,
                          cancel.IsSet(), clock.now, w.flashSchedule);
      if !cancel.IsSet() && FA.NeverCancels(w.flashSchedule) {
        FA.PipelinedStaysClear(w.flashScript, disk, target.devSize, throttle, w.flashFaults,
                               false, clock.now, w.flashSchedule);
      }
      if piped.cancelled { cancel.Raise(); }
      dev.Store(piped.disk);
      r, k := piped.report, piped.chunks;
    } else {
      var reader := new Reader(w.flashScript);
      r, k := F.FlashSerial(dev, reader, target.devSize, throttle, w.flashFaults, cancel, clock);
    }
  }

  /** The device holds the image and is otherwise what it was. */
  ghost predicate HoldsImage(before: seq<byte>, after: seq<byte>, image: seq<byte>)
  {
    |image| <= |before| && after == Splice(before, 0, image)
  }

  /** How phase 4 ended. */
  function FlashStop<X>(r: Outcome<X>): Stop
  {
    if r.Pass? then Nothing else if r.Fail? then FlashFailed else FlashUnwound
  }

  method Phase4(armed: ArmedGuard, target: Target, dev: Device, w: World, config: Config,
                cancel: CancelFlag, clock: Clock, journal: Journal)
    returns (r: Outcome<nat>, ghost report: Option<F.Report>)
    requires armed.IsArmedOn(dev)
    modifies armed.inner.value, dev, dev.data, cancel, clock, journal
    ensures armed.inner == old(armed.inner) && armed.IsArmedOn(dev) && armed.inner.value.CurrentPhase() == Writing
    ensures clock.now >= old(clock.now)
    ensures r.Pass? ==> r.value == |Stream(w.flashScript)|
    ensures r.Pass? ==> HoldsImage(old(dev.data[..]), dev.data[..], Stream(w.flashScript))
    ensures r.Pass? ==> FlashWorked(w, config.throttle) && !dev.direct
    ensures r.Fail? ==> r.error.device == E.Indeterminate && r.error.kind != E.Refused
    ensures report.None? <==> w.openForFlash.Some?
    ensures report.None? ==> r.Fail?
    ensures report.Some? ==>
      && (r.Pass? <==> report.value.Ok?) && (r.Unwind? <==> report.value == F.Panicked)
      && (r.Fail? ==> r.error.kind == if report.value == F.Err(F.Cancelled) then E.Cancelled else E.Failed)
    ensures old(cancel.clear) == None && target.devSize == dev.data.Length
            && FlashGoes(w, config.throttle, dev.data.Length) ==>
      r.Pass? && cancel.clear == None
    ensures journal.log == old(journal.log) + FlashLog(FlashStop(r))
  {
    armed.SetPhase(WritePhase, dev);
    journal.Emit(Started(UiFlash));
    report := None;
    if w.openForFlash.Some? {
      r := Fail(Boundary(w.openForFlash.value, "Phase 4: opening image", E.Indeterminate));
    } else {
      ghost var before := dev.State();
      var result, k := FlashImage(target, dev, w, config.throttle, cancel, clock);
      report := Some(result);
      if result != F.Panicked && result != F.Err(F.Cancelled) && target.devSize == dev.data.Length
         && FlashGoes(w, config.throttle, dev.data.Length) {
        FlashSucceeds(w, before, target.devSize, config.throttle, if target.compressed then 2 else 1, k,
                      result, dev.State());
      }
      match result
      case Ok(total) =>
        FM.FlashOk(w.flashScript, before, target.devSize, config.throttle, w.flashFaults,
                   if target.compressed then 2 else 1, k, total, dev.State());
        r := Pass(total);
      case Err(e) =>
        FlashKinds(e, "Phase 4: flash write loop");
        r := Fail(Boundary(FlashCause(e), "Phase 4: flash write loop", E.Indeterminate));
      case Panicked => return Unwind, report;
    }
    journal.Emit(Finished(UiFlash, r.Pass?));
  }

  // ---- Phase 5 ------------------------------------------------------------------------------

  /** `cooldown`: waits `secs` seconds, polling the flag before each. */
  method CoolDown(secs: u64, cancel: CancelFlag, clock: Clock, journal: Journal) returns (ok: bool)
    modifies cancel, clock, journal
    ensures clock.now >= old(clock.now)
    ensures ok ==> clock.now >= old(clock.now) + secs * NANOS
    ensures !ok ==> old(cancel.clear).Some?
    ensures old(cancel.clear) == None ==> cancel.clear == None
    ensures journal.log == old(journal.log) + Block(UiCooldown, ok)
    ensures old(cancel.IsSet()) && 0 < secs ==> !ok
    ensures Polled(old(cancel.clear), old(clock.asked), cancel.clear, clock.asked, 1_000_000_000)
    ensures ok ==> |clock.asked| == |old(clock.asked)| + secs
  {
    journal.Emit(Started(UiCooldown));
    for elapsed := 0 to secs
      invariant clock.now >= old(clock.now) + elapsed * NANOS
      invariant old(cancel.clear) == None ==> cancel.clear == None
      invariant journal.log == old(journal.log) + [Started(UiCooldown)]
      invariant old(cancel.IsSet()) ==> elapsed == 0 && cancel.IsSet()
      invariant Polled(old(cancel.clear), old(clock.asked), cancel.clear, clock.asked, NANOS)
      invariant |clock.asked| == |old(clock.asked)| + elapsed
    {
      var raised := cancel.Load();
      if raised {
        journal.Emit(Finished(UiCooldown, false));
        return false;
      }
      clock.Sleep(NANOS);
    }
    journal.Emit(Finished(UiCooldown, true));
    return true;
  }

  /** `verify`'s dispatch between the two arms. */
  method VerifyImage(target: Target, dev: Device, total: nat, w: World, throttle: Option<u64>, cancel: CancelFlag,
                     clock: Clock)
    returns (r: V.Report, k: nat)
    modifies cancel, clock
    ensures clock.now >= old(clock.now)
    ensures old(cancel.clear) == None && VA.NeverCancels(w.verifySchedule) ==>
      cancel.clear == None && r != V.Err(V.Cancelled)
    ensures r == V.Panicked && target.compressed ==> EndingOf(w.verifyScript) == Panics
    ensures r != V.Panicked || !target.compressed ==>
      V.Verifies(w.verifyScript, dev.State(), total, throttle, w.unreadable, w.memory,
                 if target.compressed then 3 else 2, target.compressed, k, r)
  {
    hide V.Verifies, VA.VerifyPipelined;
    if target.compressed {
      ghost var disk := dev.State();
      var piped := VA.VerifyPipelined(w.verifyScript, dev.State(), total, throttle, w.unreadable, w.memory,
                                      cancel.IsSet(), clock.now, w.verifySchedule);
      VA.PipelinedVerifies(w.verifyScript, disk, total, throttle, w.unreadable, w.memory,
                           cancel.IsSet(), clock.now, w.verifySchedule);
      if !cancel.IsSet() && VA.NeverCancels(w.verifySchedule) {
        VA.PipelinedStaysClear(w.verifyScript, disk, total, throttle, w.unreadable, w.memory,
                               false, clock.now, w.verifySchedule);
      }
      if piped.cancelled { cancel.Raise(); }
      assert dev.State() == disk;
      r, k := piped.report, piped.rounds;
    } else {
      var reader := new Reader(w.verifyScript);
      ghost var disk := dev.State();
      r, k := V.VerifySerial(dev, reader, total, throttle, w.unreadable, w.memory, cancel, clock);
      assert dev.State() == disk;
    }
  }

  /** The device starts with the whole image, `total` bytes of it. */
  ghost predicate StartsWithImage(bytes: seq<byte>, total: nat, w: World)
  {
    total == |Stream(w.flashScript)| <= |bytes| && bytes[..total] == Stream(w.flashScript)
  }

  /** The read-back half of phase 5, reached with `O_DIRECT` possibly on. */
  method ReadBack(target: Target, dev: Device, total: nat, w: World, config: Config, cancel: CancelFlag, clock: Clock)
    returns (r: Outcome<()>, ghost report: Option<V.Report>)
    modifies dev`direct, cancel, clock
    ensures clock.now >= old(clock.now)
    ensures r.Pass? ==>
      && ReadBackWorked(w, total) && !dev.direct
      && total <= |Stream(w.verifyScript)| && total <= dev.data.Length
      && dev.data[..total] == Stream(w.verifyScript)[..total]
    ensures old(cancel.clear) == None && VerifyGoes(w, config.throttle) && StartsWithImage(dev.data[..], total, w) ==>
      r.Pass? && cancel.clear == None
    ensures r.Fail? ==> r.error.device == E.Indeterminate && r.error.kind != E.Refused
    ensures report.None? ==>
      r.Fail? && (w.flushCache.Some? || w.clearDirect == GetFails || (w.clearDirect == SetFails && old(dev.direct))
                  || w.openForVerify.Some?)
    ensures report.Some? ==>
      && (r.Pass? <==> report.value == V.Ok) && (r.Unwind? <==> report.value == V.Panicked)
      && (r.Fail? ==> r.error.kind == if report.value == V.Err(V.Cancelled) then E.Cancelled
                                      else if report.value.error.Mismatch? then E.VerificationFailed else E.Failed)
  {
    SetDirectMeaning(dev.State(), false, w.clearDirect);
    report := None;
    if w.flushCache.Some? {
      return Fail(Boundary(w.flushCache.value, "Phase 5b: verification", E.Indeterminate)), report;
    }
    var cleared := dev.SetFlag(false, w.clearDirect);
    if !cleared { return Fail(Boundary(E.OtherCause("fcntl"), "Phase 5b: verification", E.Indeterminate)), report; }
    if w.openForVerify.Some? {
      return Fail(Boundary(w.openForVerify.value, "Phase 5b: verification", E.Indeterminate)), report;
    }
    var result, k := VerifyImage(target, dev, total, w, config.throttle, cancel, clock);
    report := Some(result);
    if (result != V.Panicked || !target.compressed) && result != V.Err(V.Cancelled)
       && VerifyGoes(w, config.throttle) && StartsWithImage(dev.data[..], total, w) {
      VerifySucceeds(w, dev.State(), config.throttle, if target.compressed then 3 else 2, target.compressed, k, result);
    }
    match result
    case Ok =>
      VM.VerifyOk(w.verifyScript, dev.State(), total, config.throttle, w.unreadable, w.memory,
                  if target.compressed then 3 else 2, target.compressed, k);
      r := Pass(());
    case Err(e) =>
      VerifyKinds(e, "Phase 5b: verification");
      r := Fail(Boundary(VerifyCause(e), "Phase 5b: verification", E.Indeterminate));
    case Panicked => r := Unwind;
  }

  /** Phase 5. Its end is reported as the end of its verification, whether that was started or not. */
  method Phase5(armed: ArmedGuard, target: Target, dev: Device, total: nat, w: World, config: Config,
                cancel: CancelFlag, clock: Clock, journal: Journal)
    returns (r: Outcome<()>, ghost stop: Stop)
    requires armed.IsArmedOn(dev)
    modifies armed.inner.value, dev`direct, cancel, clock, journal
    ensures armed.inner == old(armed.inner) && armed.IsArmedOn(dev)
    ensures clock.now >= old(clock.now)
    ensures r.Pass? && !config.skipCooldown ==> clock.now >= old(clock.now) + CooldownSecs(config) * NANOS
    ensures old(cancel.clear) == None && CooldownInBounds(config)
            && (config.skipVerification
                || (VerifyGoes(w, config.throttle) && StartsWithImage(dev.data[..], total, w))) ==>
      r.Pass? && cancel.clear == None
    ensures r.Pass? && !config.skipVerification ==>
      && ReadBackWorked(w, total)
      && total <= |Stream(w.verifyScript)| && total <= dev.data.Length
      && dev.data[..total] == Stream(w.verifyScript)[..total]
    ensures r.Pass? && !old(dev.direct) ==> !dev.direct
    ensures r.Fail? ==> r.error.device == E.Indeterminate && r.error.kind != E.Refused
    ensures !r.Pass? ==> armed.inner.value.CurrentPhase() == LeftIn(stop)
    ensures InPhase5(stop) && (r.Pass? <==> stop.Nothing?) && (r.Unwind? <==> stop.VerifyUnwound?)
    ensures CooldownInBounds(config) ==> Possible(config.skipCooldown, config.skipVerification, stop)
    ensures old(cancel.IsSet()) && !config.skipCooldown && CooldownInBounds(config) ==> stop.CooldownCut?
    ensures journal.log == old(journal.log) + ReadBackLog(config.skipCooldown, config.skipVerification, stop)
  {
    hide CooldownInBounds, VerifyGoes, StartsWithImage;
    r, stop := Phase5a(armed, dev, config, cancel, clock, journal);
    if r.Pass? { r, stop := Phase5b(armed, target, dev, total, w, config, cancel, clock, journal); }
    if !r.Unwind? { journal.Emit(Finished(UiVerify, r.Pass?)); }
  }

  /** The guard phase a stop leaves the guard in. */
  function LeftIn(stop: Stop): GuardPhase
  {
    if stop.FlashFailed? || stop.FlashUnwound? then Writing
    else if stop.CooldownRefused? || stop.CooldownCut? then Cooldown
    else Verifying
  }

  /** Phase 5a: the cooldown, or the note that it is skipped. */
  method Phase5a(armed: ArmedGuard, dev: Device, config: Config, cancel: CancelFlag, clock: Clock, journal: Journal)
    returns (r: Outcome<()>, ghost stop: Stop)
    requires armed.IsArmedOn(dev)
    modifies armed.inner.value, cancel, clock, journal
    ensures armed.inner == old(armed.inner) && armed.IsArmedOn(dev)
    ensures clock.now >= old(clock.now)
    ensures r.Pass? && !config.skipCooldown ==> clock.now >= old(clock.now) + CooldownSecs(config) * NANOS
    ensures old(cancel.clear) == None ==> cancel.clear == None && (CooldownInBounds(config) ==> r.Pass?)
    ensures !r.Pass? ==> armed.inner.value.CurrentPhase() == Cooldown
    ensures r.Fail? ==> r.error.device == E.Indeterminate && r.error.kind != E.Refused
    ensures !r.Unwind? && (r.Pass? <==> stop.Nothing?) && (r.Fail? ==> stop.CooldownCut? || stop.CooldownRefused?)
    ensures config.skipCooldown ==> r.Pass?
    ensures CooldownInBounds(config) ==> !stop.CooldownRefused?
    ensures old(cancel.IsSet()) && !config.skipCooldown && CooldownInBounds(config) ==> stop.CooldownCut?
    ensures journal.log == old(journal.log) + CooldownLog(config.skipCooldown, stop)
  {
    stop := Nothing;
    if config.skipCooldown {
      journal.Emit(Skipped(UiCooldown));
      return Pass(()), stop;
    }
    armed.SetPhase(CooldownPhase, dev);
    if !CooldownInBounds(config) {
      return Fail(Boundary(E.OtherCause("cooldown out of bounds"), "Phase 5", E.Indeterminate)), CooldownRefused;
    }
    var ok := CoolDown(CooldownSecs(config), cancel, clock, journal);
    if ok { return Pass(()), stop; }
    return Fail(Boundary(E.CancelMark("cancelled by user during cooldown"),
                         "Phase 5a: hardware cooldown", E.Indeterminate)), CooldownCut;
  }

  /** Phase 5b: the verification, or the note that it is skipped; its finish is logged by phase 5. */
  method Phase5b(armed: ArmedGuard, target: Target, dev: Device, total: nat, w: World, config: Config,
                 cancel: CancelFlag, clock: Clock, journal: Journal)
    returns (r: Outcome<()>, ghost stop: Stop)
    requires armed.IsArmedOn(dev)
    modifies armed.inner.value, dev`direct, cancel, clock, journal
    ensures armed.inner == old(armed.inner) && armed.IsArmedOn(dev)
    ensures clock.now >= old(clock.now)
    ensures old(cancel.clear) == None
            && (config.skipVerification
                || (VerifyGoes(w, config.throttle) && StartsWithImage(dev.data[..], total, w))) ==>
      r.Pass? && cancel.clear == None
    ensures !r.Pass? ==> armed.inner.value.CurrentPhase() == Verifying && !config.skipVerification
    ensures r.Pass? && !config.skipVerification ==>
      && ReadBackWorked(w, total)
      && total <= |Stream(w.verifyScript)| && total <= dev.data.Length
      && dev.data[..total] == Stream(w.verifyScript)[..total]
    ensures r.Pass? && !old(dev.direct) ==> !dev.direct
    ensures r.Fail? ==> r.error.device == E.Indeterminate && r.error.kind != E.Refused
    ensures stop == if r.Pass? then Nothing else if r.Fail? then VerifyFailed else VerifyUnwound
    ensures journal.log == old(journal.log) + [if config.skipVerification then Skipped(UiVerify) else Started(UiVerify)]
  {
    hide VerifyGoes, StartsWithImage;
    if config.skipVerification {
      journal.Emit(Skipped(UiVerify));
      return Pass(()), Nothing;
    }
    armed.SetPhase(VerifyPhase, dev);
    journal.Emit(Started(UiVerify));
    ghost var report;
    r, report := ReadBack(target, dev, total, w, config, cancel, clock);
    stop := if r.Pass? then Nothing else if r.Fail? then VerifyFailed else VerifyUnwound;
  }

  // ---- Phases 6 and 7 -----------------------------------------------------------------------

  /** Phase 6: the window closes, and the claim is released. */
  method Phase6(armed: ArmedGuard, dev: Device, console: Console, journal: Journal)
    requires armed.IsArmedOn(dev)
    modifies armed, armed.inner.value, console, journal
    ensures console.notices == old(console.notices)
    ensures armed.inner == None && old(armed.inner.value).file == None
    ensures journal.log == old(journal.log) + Block(UiKernelSync, true)
  {
    var guard := armed.Disarm();
    journal.Emit(Started(UiKernelSync));
    var file := guard.IntoFile();
    guard.Drop(console);
    journal.Emit(Finished(UiKernelSync, true));
  }

  /** Within four scans one finds nothing mounted, and every scan before it could be made. */
  ghost predicate Quiet(w: World)
  {
    exists i: nat :: i < 4 && w.scans(i) == Some(0) && forall j: nat | j < i :: w.scans(j).Some?
  }

  method AutomountDefense(w: World, cancel: CancelFlag, clock: Clock) returns (failure: Option<E.Cause>)
    modifies cancel, clock
    ensures clock.now >= old(clock.now)
    ensures failure.None? ==> w.topologyAfter.None? && Quiet(w)
    ensures failure.None? ==> clock.now >= old(clock.now) + 2 * NANOS || cancel.IsSet()
    ensures old(cancel.clear) == None ==> (failure.None? <==> w.topologyAfter.None? && Quiet(w))
  {
    CancellableSleep(2 * NANOS, cancel, clock);
    var raised := cancel.Load();
    if raised { return Some(E.CancelMark("cancelled by user during automount defense settle")); }
    if w.topologyAfter.Some? { return w.topologyAfter; }
    for attempt := 0 to 3
      invariant forall j: nat | j < attempt :: w.scans(j).Some? && w.scans(j) != Some(0)
      invariant clock.now >= old(clock.now)
      invariant clock.now >= old(clock.now) + 2 * NANOS || cancel.IsSet()
      invariant old(cancel.clear) == None ==> cancel.clear == None
    {
      raised := cancel.Load();
      if raised { return Some(E.CancelMark("cancelled by user during automount defense")); }
      var scan := w.scans(attempt);
      if scan.None? { return Some(E.OtherCause("scanning mountinfo")); }
      if scan.value == 0 { return None; }
      CancellableSleep(2 * NANOS, cancel, clock);
    }
    var last := w.scans(3);
    if last.None? { return Some(E.OtherCause("final mountinfo scan")); }
    if last.value == 0 { return None; }
    assert forall j: nat | j < 4 :: w.scans(j) != Some(0);
    return Some(E.OtherCause("device still has mounts"));
  }

  method Phase7(w: World, cancel: CancelFlag, clock: Clock, journal: Journal) returns (r: Outcome<()>)
    modifies cancel, clock, journal
    ensures clock.now >= old(clock.now)
    ensures old(cancel.clear) == None ==> (r.Pass? <==> w.topologyAfter.None? && Quiet(w))
    ensures r.Pass? ==> w.topologyAfter.None? && Quiet(w)
    ensures r.Fail? ==> r.error.device == E.Written && r.error.kind != E.Refused
    ensures !r.Unwind?
    ensures journal.log == old(journal.log) + Block(UiAutomount, r.Pass?)
  {
    journal.Emit(Started(UiAutomount));
    var failure := AutomountDefense(w, cancel, clock);
    r := if failure.Some? then Fail(Boundary(failure.value, "Phase 7", E.Written)) else Pass(());
    journal.Emit(Finished(UiAutomount, r.Pass?));
  }

  // ---- The whole run ------------------------------------------------------------------------

  /** The device after a run that wrote the image: wiped, then flashed. */
  ghost predicate FullyWritten(before: seq<byte>, after: seq<byte>, w: World)
  {
    && 2 * WIPE_REGION <= |before|
    && HoldsImage(W.Wiped(before), after, Stream(w.flashScript))
  }

  lemma FlashedHolds(before: seq<byte>, after: seq<byte>, total: nat, w: World)
    requires HoldsImage(before, after, Stream(w.flashScript)) && total == |Stream(w.flashScript)|
    ensures StartsWithImage(after, total, w)
  {
    SplicePrefix(before, Stream(w.flashScript));
  }

  /** The armed part of a run, up to the point where the session is consumed or dropped: phases 4
      and 5, with the notice an early end prints. `None` means the window may now be closed. */
  method RunArmed(armed: ArmedGuard, target: Target, dev: Device, w: World, config: Config, cancel: CancelFlag,
                  clock: Clock, console: Console, journal: Journal)
    returns (end: Option<Outcome<()>>, ghost stop: Stop)
    requires armed.IsArmedOn(dev)
    modifies armed, armed.inner.value, dev, dev.data, cancel, clock, console, journal
    ensures end.None? ==>
      && armed.IsArmedOn(dev) && armed.inner == old(armed.inner)
      && HoldsImage(old(dev.data[..]), dev.data[..], Stream(w.flashScript))
      && FlashWorked(w, config.throttle) && !dev.direct
      && (!config.skipVerification ==>
            ReadBackAgrees(dev.data[..], w) && ReadBackWorked(w, |Stream(w.flashScript)|))
      && (!config.skipCooldown ==> clock.now >= old(clock.now) + CooldownSecs(config) * NANOS)
      && console.notices == old(console.notices)
    ensures clock.now >= old(clock.now)
    ensures old(cancel.clear) == None && target.devSize == dev.data.Length && CooldownInBounds(config)
            && FlashGoes(w, config.throttle, dev.data.Length)
            && (config.skipVerification || VerifyGoes(w, config.throttle)) ==>
      end.None? && cancel.clear == None
    ensures end.Some? ==>
      && console.notices == old(console.notices) + [LeftIn(stop)]
      && !end.value.Pass?
      && (end.value.Fail? ==> end.value.error.device == E.Indeterminate && end.value.error.kind != E.Refused)
    ensures (end.None? <==> stop.Nothing?) && (end == Some(Unwind) <==> Unwinds(stop))
    ensures CooldownInBounds(config) ==> Possible(config.skipCooldown, config.skipVerification, stop)
    ensures journal.log == old(journal.log) + ArmedLog(config.skipCooldown, config.skipVerification, stop)
  {
    hide HoldsImage, StartsWithImage, FlashGoes, VerifyGoes, Stream, CooldownInBounds, FlashLog, ReadBackLog;
    hide FlashWorked, ReadBackWorked;
    ghost var log0 := journal.log;
    var r4;
    ghost var report;
    r4, report := Phase4(armed, target, dev, w, config, cancel, clock, journal);
    stop := FlashStop(r4);
    if !r4.Pass? {
      armed.Drop(console);
      return Some(if r4.Unwind? then Unwind else Fail(r4.error)), stop;
    }
    FlashedHolds(old(dev.data[..]), dev.data[..], r4.value, w);
    var r5;
    r5, stop := Phase5(armed, target, dev, r4.value, w, config, cancel, clock, journal);
    ArmedJoin(config, stop, log0);
    if !r5.Pass? {
      armed.Drop(console);
      return Some(r5), stop;
    }
    return None, stop;
  }

  lemma ArmedJoin(config: Config, stop: Stop, log: seq<UiEvent>)
    requires InPhase5(stop)
    ensures log + FlashLog(Nothing) + ReadBackLog(config.skipCooldown, config.skipVerification, stop)
            == log + ArmedLog(config.skipCooldown, config.skipVerification, stop)
  {
  }

  /** The read-back found the image, as the second pass over it delivered it. */
  ghost predicate ReadBackAgrees(bytes: seq<byte>, w: World)
  {
    var n := |Stream(w.flashScript)|;
    n <= |bytes| && n <= |Stream(w.verifyScript)| && bytes[..n] == Stream(w.verifyScript)[..n]
  }

  /** Phases 0 to 2, of which `passed` pass: nothing is written and nothing is printed. */
  method Prepare(config: Config, w: World, dev: Device, console: Console, journal: Journal)
    returns (r: Outcome<Session>, ghost passed: nat)
    requires dev.data.Length <= U64_MAX
    modifies console, journal
    ensures console.notices == old(console.notices) && !r.Unwind?
    ensures r.Pass? ==>
      && fresh(r.value.guard) && r.value.guard.file == Some(dev) && !r.value.guard.WouldWarn()
      && r.value.target == Target(w.compressed, dev.data.Length)
      && CooldownInBounds(config) && 2 * WIPE_REGION <= dev.data.Length && Gated(config, w, dev.data.Length)
    ensures r.Fail? ==> r.error.device == E.Untouched && !Admitted(config, w, dev.data.Length)
    ensures passed <= 3 && (r.Pass? <==> passed == 3)
    ensures journal.log == old(journal.log) + PrepareLog(passed)
  {
    hide ImageElsewhere, ImageClear, Stacked.Clear;
    var r0 := Phase0(config, w, dev.data.Length, journal);
    if r0.Fail? { return Fail(r0.error), 0; }
    var r1 := Phase1(w, journal);
    if r1.Fail? { return Fail(r1.error), 1; }
    r := Phase2(r0.value, w, dev, console, journal);
    passed := if r.Pass? then 3 else 2;
  }

  /** Phases 6 and 7: the window closes silently and the device's bytes stay as they are. */
  method Release(armed: ArmedGuard, dev: Device, w: World, cancel: CancelFlag, clock: Clock,
                 console: Console, journal: Journal)
    returns (r: Outcome<()>)
    requires armed.IsArmedOn(dev)
    modifies armed, armed.inner.value, cancel, clock, console, journal
    ensures console.notices == old(console.notices) && !r.Unwind?
    ensures clock.now >= old(clock.now)
    ensures old(cancel.clear) == None ==> (r.Pass? <==> w.topologyAfter.None? && Quiet(w))
    ensures r.Pass? ==> w.topologyAfter.None? && Quiet(w)
    ensures r.Fail? ==> r.error.device == E.Written && r.error.kind != E.Refused
    ensures journal.log == old(journal.log) + ReleaseLog(r.Pass?)
  {
    hide Quiet;
    Phase6(armed, dev, console, journal);
    r := Phase7(w, cancel, clock, journal);
    if r.Pass? { journal.Emit(Complete); }
  }

  /** The guard phase a run is in, by the last destructive phase it announced. */
  function InFlight(log: seq<UiEvent>): GuardPhase
  {
    if DidStart(log, UiVerify) then Verifying
    else if DidStart(log, UiCooldown) then Cooldown
    else if DidStart(log, UiFlash) then Writing
    else WipingSignatures
  }

  /** The run ends between the arming and the disarming. */
  predicate InWindow(log: seq<UiEvent>) { DidStart(log, UiWipe) && !DidStart(log, UiKernelSync) }

  /** What the log of a whole run tells: whether it ended inside the window, and in which phase. */
  lemma TraceTells(config: Config, c: Course)
    requires Possible(config.skipCooldown, config.skipVerification, c.stop)
    ensures var log := Trace(config.skipCooldown, config.skipVerification, c);
            && Orderly(log)
            && (Has(log, Finished(UiClaim, true)) <==> 3 <= c.passed)
            && (Has(log, Finished(UiFlash, true)) <==> Wiped(c) && InPhase5(c.stop))
            && (Has(log, Complete) <==> Released(c) && c.settled)
            && (Has(log, Skipped(UiCooldown)) <==> Has(log, Finished(UiFlash, true)) && config.skipCooldown)
            && (Has(log, Skipped(UiVerify)) <==>
                  Has(log, Finished(UiFlash, true)) && config.skipVerification
                  && !Has(log, Finished(UiCooldown, false)))
            && (DidStart(log, UiWipe) <==> 3 <= c.passed && !c.raised)
            && (InWindow(log) <==> 3 <= c.passed && !c.raised && !Released(c))
            && (InWindow(log) ==> InFlight(log) == if c.wiped then LeftIn(c.stop) else WipingSignatures)
  {
    TraceIsOrderly(config.skipCooldown, config.skipVerification, c);
    TraceExtras(config.skipCooldown, config.skipVerification, c);
    TraceSays(config.skipCooldown, config.skipVerification, c, UiClaim);
    TraceSays(config.skipCooldown, config.skipVerification, c, UiWipe);
    TraceSays(config.skipCooldown, config.skipVerification, c, UiFlash);
    TraceSays(config.skipCooldown, config.skipVerification, c, UiCooldown);
    TraceSays(config.skipCooldown, config.skipVerification, c, UiVerify);
    TraceSays(config.skipCooldown, config.skipVerification, c, UiKernelSync);
    hide Trace, Has, Orderly;
  }

  /** Every phase that started has finished, and the only finishes without a start are the wipe's,
      when the flag was set before it, and the verification's, when it was skipped or the cooldown was
      cut short. */
  ghost predicate PairedBut(log: seq<UiEvent>, raised: bool, skipVerification: bool, unwound: bool)
  {
    && (forall p :: DidFinish(log, p) && !DidStart(log, p) <==>
          || (p == UiWipe && Has(log, Finished(UiClaim, true)) && raised)
          || (p == UiVerify && Has(log, Finished(UiFlash, true))
              && (skipVerification || Has(log, Finished(UiCooldown, false)))))
    && (!unwound ==> forall p | DidStart(log, p) :: DidFinish(log, p))
  }

  lemma TraceIsPaired(config: Config, c: Course)
    requires Possible(config.skipCooldown, config.skipVerification, c.stop)
    ensures PairedBut(Trace(config.skipCooldown, config.skipVerification, c), c.raised, config.skipVerification,
                      Wiped(c) && Unwinds(c.stop))
  {
    forall p {:trigger DidFinish(Trace(config.skipCooldown, config.skipVerification, c), p)}
      ensures var log := Trace(config.skipCooldown, config.skipVerification, c);
              && (DidFinish(log, p) && !DidStart(log, p) <==>
                    || (p == UiWipe && Has(log, Finished(UiClaim, true)) && c.raised)
                    || (p == UiVerify && Has(log, Finished(UiFlash, true))
                        && (config.skipVerification || Has(log, Finished(UiCooldown, false)))))
              && (!(Wiped(c) && Unwinds(c.stop)) && DidStart(log, p) ==> DidFinish(log, p))
    {
      TracePairs(config.skipCooldown, config.skipVerification, c, p);
    }
  }

  /** How a course ends: where the run stopped fixes what it returns, what it printed and what became
      of the device. */
  ghost predicate Ended(config: Config, w: World, c: Course, r: Outcome<()>, before: Disk, after: Disk,
                        printed: seq<GuardPhase>, took: nat)
  {
    if c.passed < 3 || c.raised then
      r.Fail? && r.error.device == E.Untouched && after == before && printed == []
    else if !Released(c) then
      && (r.Unwind? <==> c.wiped && Unwinds(c.stop))
      && (!r.Unwind? ==> r.Fail? && r.error.device == E.Indeterminate && r.error.kind != E.Refused)
      && printed == [if c.wiped then LeftIn(c.stop) else WipingSignatures]
    else
      && (r.Pass? || (r.Fail? && r.error.device == E.Written && r.error.kind != E.Refused)) && printed == []
      && FullyWritten(before.bytes, after.bytes, w)
      && w.wipe.memory && !w.wipe.syncFails && FlashWorked(w, config.throttle) && !after.direct
      && (!config.skipVerification ==>
            ReadBackAgrees(after.bytes, w) && ReadBackWorked(w, |Stream(w.flashScript)|))
      && (!config.skipCooldown ==> took >= CooldownSecs(config) * NANOS)
  }

  lemma TraceJoin(config: Config, c: Course, log: seq<UiEvent>)
    ensures log + PrepareLog(c.passed) + WipePart(c) + ArmedPart(config.skipCooldown, config.skipVerification, c)
              + ReleasePart(c)
            == log + Trace(config.skipCooldown, config.skipVerification, c)
  {
    hide PrepareLog, WipePart, ArmedPart, ReleasePart;
  }

  /** The phases of `run_with` in order, each dropping what it holds when it fails. */
  method RunPhases(config: Config, w: World, dev: Device, cancel: CancelFlag, clock: Clock,
                   console: Console, journal: Journal)
    returns (r: Outcome<()>, ghost course: Course, ghost printed: seq<GuardPhase>)
    requires dev.data.Length <= U64_MAX
    modifies dev, dev.data, cancel, clock, console, journal
    ensures clock.now >= old(clock.now) && console.notices == old(console.notices) + printed
    ensures Ended(config, w, course, r, old(dev.State()), dev.State(), printed, clock.now - old(clock.now))
    ensures course.raised == old(cancel.IsSet())
    ensures Possible(config.skipCooldown, config.skipVerification, course.stop)
    ensures 3 <= course.passed ==> Gated(config, w, dev.data.Length)
    ensures Admitted(config, w, dev.data.Length) ==> 3 <= course.passed
    ensures r.Pass? ==> w.topologyAfter.None? && Quiet(w)
    ensures r.Pass? <==> Released(course) && course.settled
    ensures old(cancel.clear) == None && AllGoes(config, w, dev.data.Length) ==> r.Pass?
    ensures journal.log == old(journal.log) + Trace(config.skipCooldown, config.skipVerification, course)
  {
    hide HoldsImage, ReadBackAgrees, W.Wiped, W.Obeys, Stream, Quiet, CooldownInBounds, FlashGoes, VerifyGoes;
    hide Acceptable, ImageElsewhere, ImageClear, TargetClear, FlashWorked, ReadBackWorked;
    hide PrepareLog, WipeLog, ArmedLog, ReleaseLog, Trace;
    ghost var log0 := journal.log;
    course, printed := Course(0, old(cancel.IsSet()), false, Nothing, false), [];
    var prepared;
    ghost var passed;
    prepared, passed := Prepare(config, w, dev, console, journal);
    course := course.(passed := passed);
    if prepared.Fail? {
      TraceJoin(config, course, log0);
      return Fail(prepared.error), course, printed;
    }
    var target := prepared.value.target;
    var wiped := Phase3(prepared.value, dev, w, cancel, console, journal);
    course := course.(wiped := wiped.Pass?);
    if wiped.Fail? {
      TraceJoin(config, course, log0);
      return Fail(wiped.error), course, if course.raised then [] else [WipingSignatures];
    }
    var end;
    ghost var stop;
    end, stop := RunArmed(wiped.value, target, dev, w, config, cancel, clock, console, journal);
    course := course.(stop := stop);
    if end.Some? {
      TraceJoin(config, course, log0);
      return end.value, course, [LeftIn(stop)];
    }
    r := Release(wiped.value, dev, w, cancel, clock, console, journal);
    course := course.(settled := r.Pass?);
    TraceJoin(config, course, log0);
  }

  /** `run_with`, logging the trace of the course it takes. Over every failure, cancellation and panic:
      nothing is written unless every gate passed; `Untouched` means no byte was written; `Written`
      and success mean the whole image is on the device, was read back unless that was skipped, and
      cooled down first unless that was; the FATAL notice is printed exactly once, naming the phase in
      flight, if the run ends between the arming and the disarming, and not otherwise; each phase
      starts and finishes at most once, in that order, and they pair up but for two exceptions, each
      given exactly; and a run in which nothing goes wrong succeeds. */
  method RunWith(config: Config, w: World, dev: Device, cancel: CancelFlag, clock: Clock,
                 console: Console, journal: Journal)
    returns (r: Outcome<()>, ghost course: Course)
    requires dev.data.Length <= U64_MAX
    modifies dev, dev.data, cancel, clock, console, journal
    ensures r.Fail? && r.error.device == E.Untouched ==> dev.State() == old(dev.State())
    ensures r.Pass? || (r.Fail? && r.error.device == E.Written) ==>
      && FullyWritten(old(dev.data[..]), dev.data[..], w)
      && w.wipe.memory && !w.wipe.syncFails && FlashWorked(w, config.throttle) && !dev.direct
      && (!config.skipVerification ==>
            ReadBackAgrees(dev.data[..], w) && ReadBackWorked(w, |Stream(w.flashScript)|))
      && (!config.skipCooldown ==>
            clock.now >= old(clock.now)
                         + (if config.cooldownSecs.Some? then config.cooldownSecs.value else 20) * 1_000_000_000)
    ensures r.Fail? && r.error.kind == E.Refused ==> r.error.device == E.Untouched
    ensures r.Pass? ==> w.topologyAfter.None? && Quiet(w)
    ensures old(cancel.clear) == None && AllGoes(config, w, dev.data.Length) ==> r.Pass?
    ensures var log := Trace(config.skipCooldown, config.skipVerification, course);
            && journal.log == old(journal.log) + log
            && Orderly(log)
            && PairedBut(log, old(cancel.IsSet()), config.skipVerification, r.Unwind?)
            && (Admitted(config, w, dev.data.Length) ==> Has(log, Finished(UiClaim, true)))
            && (Has(log, Finished(UiClaim, true)) ==>
                  && !w.readOnly && (w.compressed || w.imageSize <= dev.data.Length) && (config.yes || w.confirms)
                  && w.validation.None? && w.geometry.None? && w.identity.None?
                  && (config.cooldownSecs.Some? ==> 1 <= config.cooldownSecs.value <= 600)
                  && ImageElsewhere(w) && TargetClear(w))
            && (DidStart(log, UiWipe) <==> Has(log, Finished(UiClaim, true)) && !old(cancel.IsSet()))
            && (!DidStart(log, UiWipe) ==> dev.State() == old(dev.State()))
            && (r.Pass? ==> Has(log, Finished(UiFlash, true)))
            && (r.Pass? <==> Has(log, Complete))
            && (Has(log, Skipped(UiCooldown)) <==> Has(log, Finished(UiFlash, true)) && config.skipCooldown)
            && (Has(log, Skipped(UiVerify)) <==>
                  Has(log, Finished(UiFlash, true)) && config.skipVerification
                  && !Has(log, Finished(UiCooldown, false)))
            && (InWindow(log) <==> r.Unwind? || (r.Fail? && r.error.device == E.Indeterminate))
            && console.notices == old(console.notices) + if InWindow(log) then [InFlight(log)] else []
  {
    hide FullyWritten, ReadBackAgrees, Quiet, Admitted, AllGoes, ImageElsewhere, TargetClear;
    hide FlashWorked, ReadBackWorked;
    hide Trace, Has, Orderly, PairedBut, InFlight, InWindow, DidStart;
    ghost var printed;
    r, course, printed := RunPhases(config, w, dev, cancel, clock, console, journal);
    TraceTells(config, course);
    TraceIsPaired(config, course);
  }
}
