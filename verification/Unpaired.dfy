/** One run for each way in which a phase is reported finished without having started. */
module Unpaired {
  import opened Options
  import opened Bytes
  import opened Geometry
  import opened Readers
  import opened Devices
  import opened Pace
  import opened Guards
  import opened Journals
  import opened Runs
  import S = Sysfs

  /** A machine with one bare disk. */
  const BARE: S.Tree := S.Tree(map[], map["sda" := []], map[], Some(["sda"]), map[])

  /** An empty image, stored elsewhere, and nothing that fails. */
  const SMOOTH: World := World(
    "sda", T.Image(0, None, map[]), None, BARE, None, false, 0, false, None, true,
    BARE, None, None, BARE, Some(0), None,
    W.WipeFaults(true, map[], false),
    None, [], F.Faults(Works, Works, Works, false, map[], 2), _ => FP.Main(0),
    None, Works, None, [], {}, 3, _ => VP.Main(0),
    None, _ => Some(0))

  const SIZE: u64 := 2 * WIPE_REGION

  lemma NothingHolds(a: S.Name, b: S.Name)
    ensures !S.Holds(BARE, a, b) && !S.Obstructed(BARE, a)
  {
    forall p: seq<S.Name> | 2 <= |p| ensures !S.Path(BARE, p) {
      assert S.Edges(BARE, p[0]) == {};
      assert p[0 + 1] !in S.Edges(BARE, p[0]);
    }
  }

  lemma BareIsClear()
    ensures Stacked.Clear(BARE, "sda")
    ensures ImageClear(SMOOTH)
  {
    forall a, b ensures !S.Holds(BARE, a, b) && !S.Obstructed(BARE, a) { NothingHolds(a, b); }
    hide S.Holds, S.Obstructed;
    T.SomeStack(BARE, "sda");
    assert T.Everything(BARE, "sda") == {"sda"};
  }

  lemma SmoothIsAdmitted(config: Config)
    requires config.yes && CooldownInBounds(config)
    ensures Admitted(config, SMOOTH, SIZE)
  {
    BareIsClear();
    hide Stacked.Clear, ImageClear;
  }

  /** The flag is set before the run begins: the wipe is reported finished and was never started. */
  method FlagSetBefore() returns (log: seq<UiEvent>)
    ensures Has(log, Finished(UiWipe, false)) || Has(log, Finished(UiWipe, true))
    ensures !Has(log, Started(UiWipe))
  {
    var config := Config(true, false, false, None, None);
    SmoothIsAdmitted(config);
    var data := new byte[SIZE](_ => 0);
    var dev := new Device(data);
    var cancel := new CancelFlag(Some(0));
    var clock := new Clock(0, _ => 0, 0);
    var console := new Console();
    var journal := new Journal();
    hide Admitted, Gated, AllGoes, FullyWritten, Orderly, Trace;
    ghost var course;
    var r;
    r, course := RunWith(config, SMOOTH, dev, cancel, clock, console, journal);
    assert DidFinish(journal.log, UiWipe) && !DidStart(journal.log, UiWipe) by {
      assert journal.log == Trace(config.skipCooldown, config.skipVerification, course);
    }
    return journal.log;
  }

  /** Nobody cancels and verification is skipped: it is reported finished and was never started. */
  method VerificationSkipped() returns (log: seq<UiEvent>)
    ensures Has(log, Finished(UiVerify, false)) || Has(log, Finished(UiVerify, true))
    ensures !Has(log, Started(UiVerify))
  {
    var config := Config(true, true, true, None, None);
    SmoothIsAdmitted(config);
    assert FlashGoes(SMOOTH, None, SIZE) && Quiet(SMOOTH) by { assert SMOOTH.scans(0) == Some(0); }
    var data := new byte[SIZE](_ => 0);
    var dev := new Device(data);
    var cancel := new CancelFlag(None);
    var clock := new Clock(0, _ => 0, 0);
    var console := new Console();
    var journal := new Journal();
    hide Admitted, Gated, FlashGoes, Quiet, FullyWritten, Orderly, Trace;
    ghost var course;
    var r;
    r, course := RunWith(config, SMOOTH, dev, cancel, clock, console, journal);
    assert DidFinish(journal.log, UiVerify) && !DidStart(journal.log, UiVerify) by {
      assert journal.log == Trace(config.skipCooldown, config.skipVerification, course);
    }
    return journal.log;
  }

  lemma CutLog(config: Config)
    requires config.cooldownSecs == None
    ensures CooldownInBounds(config)
    ensures ReadBackLog(false, false, CooldownCut)
            == [Started(UiCooldown), Finished(UiCooldown, false), Finished(UiVerify, false)]
  {
  }

  /** The flag is set when the cooldown begins: the cooldown ends at once, and the verification, neither
      skipped nor started, is reported finished. */
  method CooldownCutShort() returns (log: seq<UiEvent>)
    ensures log == [Started(UiCooldown), Finished(UiCooldown, false), Finished(UiVerify, false)]
  {
    var config := Config(true, false, false, None, None);
    CutLog(config);
    var data := new byte[SIZE](_ => 0);
    var dev := new Device(data);
    var guard := new FlashGuard(dev);
    var armed := guard.Arm(WritePhase);
    var cancel := new CancelFlag(Some(0));
    var clock := new Clock(0, _ => 0, 0);
    var journal := new Journal();
    hide VerifyGoes, StartsWithImage, Stream, Possible, LeftIn, ReadBackLog, CooldownInBounds;
    ghost var stop;
    var r;
    r, stop := Phase5(armed, Runs.Target(false, SIZE), dev, 0, SMOOTH, config, cancel, clock, journal);
    return journal.log;
  }
}
