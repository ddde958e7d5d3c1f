/** The caller's events sink, and the order of events in a whole run. */
module Journals {
  datatype UiPhase =
    | UiPreflight | UiTopology | UiClaim | UiWipe | UiFlash | UiCooldown | UiVerify | UiKernelSync | UiAutomount

  datatype UiEvent = Started(phase: UiPhase) | Finished(phase: UiPhase, ok: bool) | Skipped(phase: UiPhase) | Complete

  class Journal {
    var log: seq<UiEvent>

    constructor ()
      ensures log == []
    {
      log := [];
    }

    method Emit(e: UiEvent)
      modifies this
      ensures log == old(log) + [e]
    {
      log := log + [e];
    }
  }

  predicate Has(log: seq<UiEvent>, e: UiEvent) { e in log }

  predicate DidStart(log: seq<UiEvent>, p: UiPhase) { Has(log, Started(p)) }

  predicate DidFinish(log: seq<UiEvent>, p: UiPhase) { Has(log, Finished(p, true)) || Has(log, Finished(p, false)) }

  predicate Touches(log: seq<UiEvent>, p: UiPhase) { DidStart(log, p) || DidFinish(log, p) }

  /** One event may come before another: if both start or finish the same phase, the first starts it
      and the second finishes it. */
  predicate MayPrecede(a: UiEvent, b: UiEvent)
  {
    (a.Started? || a.Finished?) && (b.Started? || b.Finished?) && a.phase == b.phase ==> a.Started? && b.Finished?
  }

  /** Each phase starts at most once, finishes at most once, and never starts after it finished. */
  ghost predicate Orderly(log: seq<UiEvent>)
  {
    forall i, j | 0 <= i < j < |log| :: MayPrecede(log[i], log[j])
  }

  /** Logs of different phases can follow each other. */
  lemma OrderlyJoin(a: seq<UiEvent>, b: seq<UiEvent>)
    requires Orderly(a) && Orderly(b) && forall p :: !(Touches(a, p) && Touches(b, p))
    ensures Orderly(a + b)
  {
    var log := a + b;
    forall i, j | 0 <= i < j < |log| ensures MayPrecede(log[i], log[j]) {
      if i < |a| <= j {
        Named(a, i);
        Named(b, j - |a|);
      }
    }
  }

  lemma Named(log: seq<UiEvent>, i: nat)
    requires i < |log|
    ensures log[i].Started? || log[i].Finished? ==> Touches(log, log[i].phase)
  {
    assert log[i] in log;
  }

  lemma HasJoin(a: seq<UiEvent>, b: seq<UiEvent>)
    ensures forall e :: Has(a + b, e) <==> Has(a, e) || Has(b, e)
  {
  }

  /** The four stretches of a run, in order. */
  function Rank(p: UiPhase): nat
  {
    match p
    case UiPreflight => 0
    case UiTopology => 0
    case UiClaim => 0
    case UiWipe => 1
    case UiFlash => 2
    case UiCooldown => 2
    case UiVerify => 2
    case UiKernelSync => 3
    case UiAutomount => 3
  }

  /** An orderly log of the stretches from `lo` up to `hi`. */
  ghost predicate Within(log: seq<UiEvent>, lo: nat, hi: nat)
  {
    Orderly(log) && forall p | Touches(log, p) :: lo <= Rank(p) < hi
  }

  lemma WithinJoin(a: seq<UiEvent>, b: seq<UiEvent>, lo: nat, mid: nat, hi: nat)
    requires lo <= mid <= hi && Within(a, lo, mid) && Within(b, mid, hi)
    ensures Within(a + b, lo, hi)
  {
    HasJoin(a, b);
    OrderlyJoin(a, b);
    hide Has, Orderly, Rank;
  }

  lemma NotWithin(log: seq<UiEvent>, lo: nat, hi: nat, e: UiEvent)
    requires Within(log, lo, hi) && (e.Started? || e.Finished?) && !(lo <= Rank(e.phase) < hi)
    ensures !Has(log, e)
  {
    hide Rank;
    assert Has(log, e) ==> Touches(log, e.phase);
  }

  // ---- What each part of a run logs ---------------------------------------------------------

  function Block(p: UiPhase, ok: bool): seq<UiEvent> { [Started(p), Finished(p, ok)] }

  /** Phases 0 to 2, of which `passed` pass. */
  function PrepareLog(passed: nat): seq<UiEvent>
  {
    Block(UiPreflight, 0 < passed)
    + (if 0 < passed then Block(UiTopology, 1 < passed) else [])
    + (if 1 < passed then Block(UiClaim, 2 < passed) else [])
  }

  /** Phase 3; a flag found set is a finish without a start. */
  function WipeLog(raised: bool, ok: bool): seq<UiEvent>
  {
    if raised then [Finished(UiWipe, false)] else Block(UiWipe, ok)
  }

  /** What ends phases 4 and 5, if anything does. */
  datatype Stop = FlashFailed | FlashUnwound | CooldownRefused | CooldownCut | VerifyFailed | VerifyUnwound | Nothing

  predicate InPhase5(stop: Stop) { !stop.FlashFailed? && !stop.FlashUnwound? }

  predicate Unwinds(stop: Stop) { stop.FlashUnwound? || stop.VerifyUnwound? }

  function CooldownLog(skipped: bool, stop: Stop): seq<UiEvent>
  {
    if skipped then [Skipped(UiCooldown)]
    else if stop.CooldownRefused? then []
    else Block(UiCooldown, !stop.CooldownCut?)
  }

  function VerifyLog(skipped: bool, stop: Stop): seq<UiEvent>
  {
    if stop.CooldownRefused? || stop.CooldownCut? then [Finished(UiVerify, false)]
    else (if skipped then [Skipped(UiVerify)] else [Started(UiVerify)])
         + (if stop.VerifyUnwound? then [] else [Finished(UiVerify, stop.Nothing?)])
  }

  /** Phase 5, whose end is always reported as the end of its verification. */
  function ReadBackLog(skipCooldown: bool, skipVerification: bool, stop: Stop): seq<UiEvent>
  {
    CooldownLog(skipCooldown, stop) + VerifyLog(skipVerification, stop)
  }

  function FlashLog(stop: Stop): seq<UiEvent>
  {
    if stop.FlashUnwound? then [Started(UiFlash)] else Block(UiFlash, !stop.FlashFailed?)
  }

  function ArmedLog(skipCooldown: bool, skipVerification: bool, stop: Stop): seq<UiEvent>
  {
    FlashLog(stop) + if InPhase5(stop) then ReadBackLog(skipCooldown, skipVerification, stop) else []
  }

  function ReleaseLog(ok: bool): seq<UiEvent>
  {
    Block(UiKernelSync, true) + Block(UiAutomount, ok) + if ok then [Complete] else []
  }

  /** The course of a run: how many of phases 0 to 2 passed, whether the flag was set before phase 3,
      whether the wipe succeeded, what ended phases 4 and 5, and whether phase 7 succeeded. */
  datatype Course = Course(passed: nat, raised: bool, wiped: bool, stop: Stop, settled: bool)

  predicate Wiped(c: Course) { 3 <= c.passed && !c.raised && c.wiped }

  predicate Released(c: Course) { Wiped(c) && c.stop.Nothing? }

  function WipePart(c: Course): seq<UiEvent> { if 3 <= c.passed then WipeLog(c.raised, c.wiped) else [] }

  function ArmedPart(skipCooldown: bool, skipVerification: bool, c: Course): seq<UiEvent>
  {
    if Wiped(c) then ArmedLog(skipCooldown, skipVerification, c.stop) else []
  }

  function ReleasePart(c: Course): seq<UiEvent> { if Released(c) then ReleaseLog(c.settled) else [] }

  /** Everything a run logs. */
  function Trace(skipCooldown: bool, skipVerification: bool, c: Course): seq<UiEvent>
  {
    PrepareLog(c.passed) + WipePart(c) + ArmedPart(skipCooldown, skipVerification, c) + ReleasePart(c)
  }

  /** A stop the configuration allows, with a cooldown in bounds. */
  predicate Possible(skipCooldown: bool, skipVerification: bool, stop: Stop)
  {
    && !stop.CooldownRefused?
    && (skipCooldown ==> !stop.CooldownCut?)
    && (skipVerification ==> !stop.VerifyFailed? && !stop.VerifyUnwound?)
  }

  // ---- Each part's events ---------------------------------------------------------------------

  lemma HasIn(a: seq<UiEvent>, b: seq<UiEvent>, e: UiEvent)
    ensures Has(a + b, e) <==> Has(a, e) || Has(b, e)
  {
  }

  /** What a log says about one phase. */
  predicate Says(log: seq<UiEvent>, p: UiPhase, started: bool, passed: bool, failed: bool)
  {
    DidStart(log, p) == started && Has(log, Finished(p, true)) == passed && Has(log, Finished(p, false)) == failed
  }

  lemma SaysJoin(a: seq<UiEvent>, b: seq<UiEvent>, p: UiPhase, s: bool, y: bool, n: bool, s': bool, y': bool, n': bool)
    requires Says(a, p, s, y, n) && Says(b, p, s', y', n')
    ensures Says(a + b, p, s || s', y || y', n || n')
  {
    HasIn(a, b, Started(p));
    HasIn(a, b, Finished(p, true));
    HasIn(a, b, Finished(p, false));
    hide Has;
  }

  lemma NothingSaid(p: UiPhase)
    ensures Says([], p, false, false, false)
    ensures forall lo, hi :: Within([], lo, hi)
  {
  }

  lemma PrepareIsWithin(passed: nat)
    ensures Within(PrepareLog(passed), 0, 1)
  {
    forall p | Touches(PrepareLog(passed), p) ensures Rank(p) == 0 { PrepareSays(passed, p); }
  }

  lemma PrepareSays(passed: nat, p: UiPhase)
    ensures var (reached, ok) := match p
              case UiPreflight => (true, 0 < passed)
              case UiTopology => (0 < passed, 1 < passed)
              case UiClaim => (1 < passed, 2 < passed)
              case _ => (false, false);
            Says(PrepareLog(passed), p, reached, ok, reached && !ok)
  {
  }

  lemma WipeSays(raised: bool, ok: bool, p: UiPhase)
    ensures Within(WipeLog(raised, ok), 1, 2)
    ensures var ours := p == UiWipe;
            Says(WipeLog(raised, ok), p, ours && !raised, ours && !raised && ok, ours && (raised || !ok))
  {
  }

  lemma CooldownSays(skipped: bool, stop: Stop, p: UiPhase)
    ensures Orderly(CooldownLog(skipped, stop))
    ensures var ours := p == UiCooldown && !skipped && !stop.CooldownRefused?;
            Says(CooldownLog(skipped, stop), p, ours, ours && !stop.CooldownCut?, ours && stop.CooldownCut?)
  {
  }

  lemma VerifySays(skipped: bool, stop: Stop, p: UiPhase)
    ensures Orderly(VerifyLog(skipped, stop))
    ensures var reached := p == UiVerify && !stop.CooldownRefused? && !stop.CooldownCut?;
            Says(VerifyLog(skipped, stop), p, reached && !skipped, reached && stop.Nothing?,
                 p == UiVerify && !stop.Nothing? && !stop.VerifyUnwound?)
  {
  }

  /** Phase 5 reports the end of a verification that never started exactly when it was skipped or the
      cooldown did not get that far. */
  lemma ReadBackSays(skipCooldown: bool, skipVerification: bool, stop: Stop, p: UiPhase)
    ensures var cooled := p == UiCooldown && !skipCooldown && !stop.CooldownRefused?;
            var reached := p == UiVerify && !stop.CooldownRefused? && !stop.CooldownCut?;
            Says(ReadBackLog(skipCooldown, skipVerification, stop), p,
                 cooled || (reached && !skipVerification),
                 (cooled && !stop.CooldownCut?) || (reached && stop.Nothing?),
                 (cooled && stop.CooldownCut?) || (p == UiVerify && !stop.Nothing? && !stop.VerifyUnwound?))
  {
    CooldownSays(skipCooldown, stop, p);
    VerifySays(skipVerification, stop, p);
    var cooled := p == UiCooldown && !skipCooldown && !stop.CooldownRefused?;
    var reached := p == UiVerify && !stop.CooldownRefused? && !stop.CooldownCut?;
    hide CooldownLog, VerifyLog, Says;
    SaysJoin(CooldownLog(skipCooldown, stop), VerifyLog(skipVerification, stop), p,
             cooled, cooled && !stop.CooldownCut?, cooled && stop.CooldownCut?,
             reached && !skipVerification, reached && stop.Nothing?,
             p == UiVerify && !stop.Nothing? && !stop.VerifyUnwound?);
  }

  lemma ReadBackIsWithin(skipCooldown: bool, skipVerification: bool, stop: Stop)
    ensures Within(ReadBackLog(skipCooldown, skipVerification, stop), 2, 3)
    ensures !Touches(ReadBackLog(skipCooldown, skipVerification, stop), UiFlash)
  {
    var a, b := CooldownLog(skipCooldown, stop), VerifyLog(skipVerification, stop);
    forall p ensures !(Touches(a, p) && Touches(b, p)) {
      CooldownSays(skipCooldown, stop, p);
      VerifySays(skipVerification, stop, p);
    }
    forall p | Touches(a + b, p) ensures p == UiCooldown || p == UiVerify {
      ReadBackSays(skipCooldown, skipVerification, stop, p);
    }
    CooldownSays(skipCooldown, stop, UiCooldown);
    VerifySays(skipVerification, stop, UiVerify);
    hide CooldownLog, VerifyLog, Touches, Orderly;
    OrderlyJoin(a, b);
  }

  lemma FlashSays(stop: Stop, p: UiPhase)
    ensures Within(FlashLog(stop), 2, 3)
    ensures var ours := p == UiFlash;
            Says(FlashLog(stop), p, ours, ours && InPhase5(stop), ours && stop.FlashFailed?)
  {
  }

  /** What phases 4 and 5 log of one phase. */
  lemma ArmedSays(skipCooldown: bool, skipVerification: bool, stop: Stop, p: UiPhase)
    ensures var cooled := p == UiCooldown && InPhase5(stop) && !skipCooldown && !stop.CooldownRefused?;
            var reached := p == UiVerify && InPhase5(stop) && !stop.CooldownRefused? && !stop.CooldownCut?;
            Says(ArmedLog(skipCooldown, skipVerification, stop), p,
                 p == UiFlash || cooled || (reached && !skipVerification),
                 (p == UiFlash && InPhase5(stop)) || (cooled && !stop.CooldownCut?) || (reached && stop.Nothing?),
                 (p == UiFlash && stop.FlashFailed?) || (cooled && stop.CooldownCut?)
                 || (p == UiVerify && InPhase5(stop) && !stop.Nothing? && !stop.VerifyUnwound?))
  {
    var cooled := p == UiCooldown && InPhase5(stop) && !skipCooldown && !stop.CooldownRefused?;
    var reached := p == UiVerify && InPhase5(stop) && !stop.CooldownRefused? && !stop.CooldownCut?;
    var rest := if InPhase5(stop) then ReadBackLog(skipCooldown, skipVerification, stop) else [];
    FlashSays(stop, p);
    ReadBackSays(skipCooldown, skipVerification, stop, p);
    NothingSaid(p);
    hide FlashLog, ReadBackLog, Says, Within;
    SaysJoin(FlashLog(stop), rest, p,
             p == UiFlash, p == UiFlash && InPhase5(stop), p == UiFlash && stop.FlashFailed?,
             cooled || (reached && !skipVerification),
             (cooled && !stop.CooldownCut?) || (reached && stop.Nothing?),
             (cooled && stop.CooldownCut?)
             || (p == UiVerify && InPhase5(stop) && !stop.Nothing? && !stop.VerifyUnwound?));
  }

  lemma ArmedIsWithin(skipCooldown: bool, skipVerification: bool, stop: Stop)
    ensures Within(ArmedLog(skipCooldown, skipVerification, stop), 2, 3)
  {
    var a, b := FlashLog(stop), ReadBackLog(skipCooldown, skipVerification, stop);
    FlashSays(stop, UiFlash);
    if InPhase5(stop) {
      ReadBackIsWithin(skipCooldown, skipVerification, stop);
      forall p ensures !(Touches(a, p) && Touches(b, p)) { FlashSays(stop, p); }
      hide FlashLog, ReadBackLog, Orderly, Has;
      OrderlyJoin(a, b);
      HasJoin(a, b);
    } else {
      assert a + [] == a;
    }
  }

  lemma ReleaseIsWithin(ok: bool)
    ensures Within(ReleaseLog(ok), 3, 4)
  {
    forall p | Touches(ReleaseLog(ok), p) ensures Rank(p) == 3 { ReleaseSays(ok, p); }
  }

  lemma ReleaseSays(ok: bool, p: UiPhase)
    ensures var ours := p == UiKernelSync || p == UiAutomount;
            Says(ReleaseLog(ok), p, ours, p == UiKernelSync || (p == UiAutomount && ok), p == UiAutomount && !ok)
  {
  }

  // ---- The whole run --------------------------------------------------------------------------

  lemma PartsAreWithin(skipCooldown: bool, skipVerification: bool, c: Course)
    ensures Within(PrepareLog(c.passed), 0, 1) && Within(WipePart(c), 1, 2)
    ensures Within(ArmedPart(skipCooldown, skipVerification, c), 2, 3) && Within(ReleasePart(c), 3, 4)
  {
    PrepareIsWithin(c.passed);
    WipeSays(c.raised, c.wiped, UiWipe);
    ArmedIsWithin(skipCooldown, skipVerification, c.stop);
    ReleaseIsWithin(c.settled);
    NothingSaid(UiWipe);
    hide PrepareLog, WipeLog, ArmedLog, ReleaseLog, Within, Says;
  }

  /** In every run each phase starts at most once and finishes at most once, in that order. */
  lemma TraceIsOrderly(skipCooldown: bool, skipVerification: bool, c: Course)
    ensures Orderly(Trace(skipCooldown, skipVerification, c))
  {
    PartsAreWithin(skipCooldown, skipVerification, c);
    hide PrepareLog, WipePart, ArmedPart, ReleasePart, Touches, Orderly;
    var a, b, d := PrepareLog(c.passed), WipePart(c), ArmedPart(skipCooldown, skipVerification, c);
    WithinJoin(a, b, 0, 1, 2);
    WithinJoin(a + b, d, 0, 2, 3);
    WithinJoin(a + b + d, ReleasePart(c), 0, 3, 4);
  }

  /** The stretch of a run that phase `p` belongs to. */
  function PartOf(skipCooldown: bool, skipVerification: bool, c: Course, p: UiPhase): seq<UiEvent>
  {
    if Rank(p) == 0 then PrepareLog(c.passed)
    else if Rank(p) == 1 then WipePart(c)
    else if Rank(p) == 2 then ArmedPart(skipCooldown, skipVerification, c)
    else ReleasePart(c)
  }

  /** An event of a run is one of the stretch its phase belongs to. */
  lemma Locate(skipCooldown: bool, skipVerification: bool, c: Course, e: UiEvent)
    requires e.Started? || e.Finished?
    ensures Has(Trace(skipCooldown, skipVerification, c), e)
            <==> Has(PartOf(skipCooldown, skipVerification, c, e.phase), e)
  {
    PartsAreWithin(skipCooldown, skipVerification, c);
    hide PrepareLog, WipePart, ArmedPart, ReleasePart, Has, Within;
    var a, b, d, f := PrepareLog(c.passed), WipePart(c), ArmedPart(skipCooldown, skipVerification, c), ReleasePart(c);
    HasIn(a, b, e);
    HasIn(a + b, d, e);
    HasIn(a + b + d, f, e);
    if Rank(e.phase) != 0 { NotWithin(a, 0, 1, e); }
    if Rank(e.phase) != 1 { NotWithin(b, 1, 2, e); }
    if Rank(e.phase) != 2 { NotWithin(d, 2, 3, e); }
    if Rank(e.phase) != 3 { NotWithin(f, 3, 4, e); }
  }

  lemma LocatePhase(skipCooldown: bool, skipVerification: bool, c: Course, p: UiPhase, s: bool, y: bool, n: bool)
    requires Says(PartOf(skipCooldown, skipVerification, c, p), p, s, y, n)
    ensures Says(Trace(skipCooldown, skipVerification, c), p, s, y, n)
  {
    Locate(skipCooldown, skipVerification, c, Started(p));
    Locate(skipCooldown, skipVerification, c, Finished(p, true));
    Locate(skipCooldown, skipVerification, c, Finished(p, false));
    hide Has, Trace, PartOf;
  }

  datatype Said = Said(started: bool, passed: bool, failed: bool)

  /** What a run says about a phase, told from its course. */
  function Telling(skipCooldown: bool, skipVerification: bool, c: Course, p: UiPhase): Said
  {
    var armed, five := Wiped(c), Wiped(c) && InPhase5(c.stop);
    var cools := five && !skipCooldown && !c.stop.CooldownRefused?;
    var checks := five && !c.stop.CooldownRefused? && !c.stop.CooldownCut?;
    match p
    case UiPreflight => Said(true, 0 < c.passed, c.passed == 0)
    case UiTopology => Said(0 < c.passed, 1 < c.passed, c.passed == 1)
    case UiClaim => Said(1 < c.passed, 2 < c.passed, c.passed == 2)
    case UiWipe => Said(3 <= c.passed && !c.raised, Wiped(c), 3 <= c.passed && !Wiped(c))
    case UiFlash => Said(armed, five, armed && c.stop.FlashFailed?)
    case UiCooldown => Said(cools, cools && !c.stop.CooldownCut?, cools && c.stop.CooldownCut?)
    case UiVerify =>
      Said(checks && !skipVerification, checks && c.stop.Nothing?, five && !c.stop.Nothing? && !c.stop.VerifyUnwound?)
    case UiKernelSync => Said(Released(c), Released(c), false)
    case UiAutomount => Said(Released(c), Released(c) && c.settled, Released(c) && !c.settled)
  }

  /** Everything a run's log says about a phase, in terms of its course. */
  lemma TraceSays(skipCooldown: bool, skipVerification: bool, c: Course, p: UiPhase)
    ensures var t := Telling(skipCooldown, skipVerification, c, p);
            Says(Trace(skipCooldown, skipVerification, c), p, t.started, t.passed, t.failed)
  {
    hide Says, Trace, PrepareLog, WipeLog, ArmedLog, ReleaseLog, Within;
    NothingSaid(p);
    PrepareSays(c.passed, p);
    WipeSays(c.raised, c.wiped, p);
    ArmedSays(skipCooldown, skipVerification, c.stop, p);
    ReleaseSays(c.settled, p);
    var t := Telling(skipCooldown, skipVerification, c, p);
    LocatePhase(skipCooldown, skipVerification, c, p, t.started, t.passed, t.failed);
  }

  /** Exactly when a finish has no start, and exactly when a start has no finish, told from the log
      and from whether the flag was set before phase 3. */
  lemma TracePairs(skipCooldown: bool, skipVerification: bool, c: Course, p: UiPhase)
    requires Possible(skipCooldown, skipVerification, c.stop)
    ensures var log := Trace(skipCooldown, skipVerification, c);
            && (DidFinish(log, p) && !DidStart(log, p) <==>
                  || (p == UiWipe && Has(log, Finished(UiClaim, true)) && c.raised)
                  || (p == UiVerify && Has(log, Finished(UiFlash, true))
                      && (skipVerification || Has(log, Finished(UiCooldown, false)))))
            && (DidStart(log, p) && !DidFinish(log, p) <==>
                  Wiped(c) && ((p == UiFlash && c.stop.FlashUnwound?) || (p == UiVerify && c.stop.VerifyUnwound?)))
  {
    TraceSays(skipCooldown, skipVerification, c, p);
    TraceSays(skipCooldown, skipVerification, c, UiClaim);
    TraceSays(skipCooldown, skipVerification, c, UiFlash);
    TraceSays(skipCooldown, skipVerification, c, UiCooldown);
    hide Has, Trace;
  }

  /** The skips and the completion a run logs. */
  lemma TraceExtras(skipCooldown: bool, skipVerification: bool, c: Course)
    ensures var log := Trace(skipCooldown, skipVerification, c);
            var five := Wiped(c) && InPhase5(c.stop);
            && (Has(log, Complete) <==> Released(c) && c.settled)
            && (Has(log, Skipped(UiCooldown)) <==> five && skipCooldown)
            && (Has(log, Skipped(UiVerify)) <==>
                  five && skipVerification && !c.stop.CooldownRefused? && !c.stop.CooldownCut?)
  {
    forall e | e in {Complete, Skipped(UiCooldown), Skipped(UiVerify)}
      ensures Has(Trace(skipCooldown, skipVerification, c), e) <==>
        Has(ArmedPart(skipCooldown, skipVerification, c), e) || Has(ReleasePart(c), e)
    {
      SkipsNothing(c, e);
      HasTrace(skipCooldown, skipVerification, c, e);
    }
    ArmedExtras(skipCooldown, skipVerification, c.stop, Complete);
    ArmedExtras(skipCooldown, skipVerification, c.stop, Skipped(UiCooldown));
    ArmedExtras(skipCooldown, skipVerification, c.stop, Skipped(UiVerify));
    ReleaseExtras(c.settled);
    NothingHas(Complete);
    NothingHas(Skipped(UiCooldown));
    NothingHas(Skipped(UiVerify));
    hide Trace, ArmedLog, ReleaseLog, Within;
  }

  lemma HasTrace(skipCooldown: bool, skipVerification: bool, c: Course, e: UiEvent)
    ensures Has(Trace(skipCooldown, skipVerification, c), e) <==>
      || Has(PrepareLog(c.passed), e) || Has(WipePart(c), e)
      || Has(ArmedPart(skipCooldown, skipVerification, c), e) || Has(ReleasePart(c), e)
  {
    hide PrepareLog, WipePart, ArmedPart, ReleasePart, Has;
    var a, b, d, f := PrepareLog(c.passed), WipePart(c), ArmedPart(skipCooldown, skipVerification, c), ReleasePart(c);
    HasIn(a, b, e);
    HasIn(a + b, d, e);
    HasIn(a + b + d, f, e);
  }

  lemma SkipsNothing(c: Course, e: UiEvent)
    requires e.Skipped? || e.Complete?
    ensures !Has(PrepareLog(c.passed), e) && !Has(WipePart(c), e)
  {
  }

  lemma ArmedExtras(skipCooldown: bool, skipVerification: bool, stop: Stop, e: UiEvent)
    requires e.Skipped? || e.Complete?
    ensures Has(ArmedLog(skipCooldown, skipVerification, stop), e) <==>
      InPhase5(stop) && ((e == Skipped(UiCooldown) && skipCooldown)
                         || (e == Skipped(UiVerify) && skipVerification
                             && !stop.CooldownRefused? && !stop.CooldownCut?))
  {
    var rest := if InPhase5(stop) then ReadBackLog(skipCooldown, skipVerification, stop) else [];
    PartExtras(skipCooldown, skipVerification, stop, e);
    NothingSaid(UiWipe);
    hide FlashLog, CooldownLog, VerifyLog, Has, Within;
    HasIn(FlashLog(stop), rest, e);
    HasIn(CooldownLog(skipCooldown, stop), VerifyLog(skipVerification, stop), e);
    assert !Has([], e) by { NothingHas(e); }
  }

  lemma NothingHas(e: UiEvent)
    ensures !Has([], e)
  {
  }

  lemma PartExtras(skipCooldown: bool, skipVerification: bool, stop: Stop, e: UiEvent)
    requires e.Skipped? || e.Complete?
    ensures !Has(FlashLog(stop), e)
    ensures Has(CooldownLog(skipCooldown, stop), e) <==> e == Skipped(UiCooldown) && skipCooldown
    ensures Has(VerifyLog(skipVerification, stop), e) <==>
      e == Skipped(UiVerify) && skipVerification && !stop.CooldownRefused? && !stop.CooldownCut?
  {
  }

  lemma ReleaseExtras(ok: bool)
    ensures var log := ReleaseLog(ok);
            (Has(log, Complete) <==> ok) && !Has(log, Skipped(UiCooldown)) && !Has(log, Skipped(UiVerify))
  {
  }
}
