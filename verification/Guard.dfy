/** `guard.rs` and `session.rs`: the exclusive claim, the destructive window, and the FATAL notice
    printed when a claim is dropped inside it. */
module Guards {
  import opened Options
  import opened Devices

  datatype GuardPhase = Disarmed | WipingSignatures | Writing | Cooldown | Verifying

  /** The phases a guard can be armed in; `Disarmed` is not one of them. */
  datatype ArmedPhase = WipePhase | WritePhase | CooldownPhase | VerifyPhase

  function Armed(p: ArmedPhase): (r: GuardPhase)
    ensures r != Disarmed
  {
    match p
    case WipePhase => WipingSignatures
    case WritePhase => Writing
    case CooldownPhase => Cooldown
    case VerifyPhase => Verifying
  }

  function ToU8(p: GuardPhase): nat
  {
    match p
    case Disarmed => 0
    case WipingSignatures => 1
    case Writing => 2
    case Cooldown => 3
    case Verifying => 4
  }

  /** Decodes the atomic; an unrepresentable value decodes to an armed phase, never to `Disarmed`. */
  function FromU8(v: nat): (p: GuardPhase)
    ensures p == Disarmed <==> v == 0
    ensures 4 < v ==> p == Writing
  {
    if v == 0 then Disarmed
    else if v == 1 then WipingSignatures
    else if v == 3 then Cooldown
    else if v == 4 then Verifying
    else Writing
  }

  lemma PhaseRoundTrip(p: GuardPhase)
    ensures FromU8(ToU8(p)) == p
  {
  }

  /** Standard error, as far as notices go. */
  class Console {
    var notices: seq<GuardPhase>

    constructor ()
      ensures notices == []
    {
      notices := [];
    }
  }

  /** What dropping a claim in phase `p` prints. */
  function Notice(p: GuardPhase): seq<GuardPhase> { if p == Disarmed then [] else [p] }

  class FlashGuard {
    var file: Option<Device>
    var phase: nat

    constructor (dev: Device)
      ensures file == Some(dev) && CurrentPhase() == Disarmed
    {
      file, phase := Some(dev), ToU8(Disarmed);
    }

    function CurrentPhase(): GuardPhase
      reads this
    {
      FromU8(phase)
    }

    predicate WouldWarn()
      reads this
    {
      CurrentPhase() != Disarmed
    }

    method Arm(p: ArmedPhase) returns (g: ArmedGuard)
      modifies this
      ensures fresh(g) && g.inner == Some(this) && CurrentPhase() == Armed(p) && file == old(file)
    {
      phase := ToU8(Armed(p));
      g := new ArmedGuard(this);
    }

    /** Advances an armed guard; on a disarmed one it does nothing. */
    method AdvancePhase(p: ArmedPhase)
      modifies this
      ensures CurrentPhase() == if old(WouldWarn()) then Armed(p) else Disarmed
      ensures file == old(file)
    {
      if phase != ToU8(Disarmed) { phase := ToU8(Armed(p)); }
    }

    method ClearPhase()
      modifies this
      ensures CurrentPhase() == Disarmed && file == old(file)
    {
      phase := ToU8(Disarmed);
    }

    /** Hands the file back; disarms, so that dropping the shell is silent. */
    method IntoFile() returns (f: Device)
      requires file.Some?
      modifies this
      ensures Some(f) == old(file) && file == None && CurrentPhase() == Disarmed
    {
      ClearPhase();
      f := file.value;
      file := None;
    }

    /** `Drop`: prints the notice when the window is open, and releases the claim. */
    method Drop(console: Console)
      modifies this, console
      ensures console.notices == old(console.notices) + Notice(old(CurrentPhase()))
      ensures file == None
    {
      if WouldWarn() { console.notices := console.notices + [CurrentPhase()]; }
      file := None;
    }
  }

  class ArmedGuard {
    var inner: Option<FlashGuard>

    constructor (g: FlashGuard)
      ensures inner == Some(g)
    {
      inner := Some(g);
    }

    /** Holding one of these is the proof that the window is open on `dev`. */
    predicate IsArmedOn(dev: Device)
      reads this, if inner.Some? then {inner.value} else {}
    {
      inner.Some? && inner.value.file == Some(dev) && inner.value.WouldWarn()
    }

    method SetPhase(p: ArmedPhase, ghost dev: Device)
      requires IsArmedOn(dev)
      modifies inner.value
      ensures IsArmedOn(dev) && inner == old(inner) && inner.value.CurrentPhase() == Armed(p)
    {
      inner.value.AdvancePhase(p);
    }

    /** Closes the window. */
    method Disarm() returns (g: FlashGuard)
      requires inner.Some?
      modifies this, inner.value
      ensures g == old(inner.value) && inner == None && g.CurrentPhase() == Disarmed && g.file == old(g.file)
    {
      g := inner.value;
      inner := None;
      g.ClearPhase();
    }

    /** There is no `Drop` of its own: dropping the wrapper drops what is inside. */
    method Drop(console: Console)
      modifies this, if inner.Some? then {inner.value} else {}, console
      ensures old(inner).Some? ==> console.notices == old(console.notices) + Notice(old(inner.value.CurrentPhase()))
      ensures old(inner).Some? ==> old(inner.value).file == None
      ensures old(inner).None? ==> console.notices == old(console.notices)
    {
      if inner.Some? { inner.value.Drop(console); }
    }
  }
}
