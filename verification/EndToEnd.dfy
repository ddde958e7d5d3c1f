/** Wipe, flash and verify together: what the read-back finds after a flash that succeeded. */
module EndToEnd {
  import opened Options
  import opened Bytes
  import opened Geometry
  import opened Readers
  import opened Devices
  import F = Flash
  import FM = FlashMeaning
  import FD = FlashDiscipline
  import V = Verify
  import VM = VerifyMeaning
  import W = Wipe

  /** A flash onto a wiped device that reports `Ok` leaves every byte determined: the image, then
      zeros in both signature regions, then what was there before; and it made no write that passes
      the device's end. */
  lemma FlashedDevice(before: seq<byte>, start: Disk, script: Script, devSize: u64, throttle: Option<u64>,
                      faults: F.Faults, buffers: nat, k: nat, total: nat, after: Disk)
    requires 2 * WIPE_REGION <= |before| == devSize && start.bytes == W.Wiped(before)
    requires F.Flashes(script, start, devSize, throttle, faults, buffers, k, F.Ok(total), after)
    ensures total == |Stream(script)| <= |after.bytes| == devSize
    ensures forall i | 0 <= i < |after.bytes| :: after.bytes[i] ==
              if i < total then Stream(script)[i]
              else if i < WIPE_REGION || devSize - WIPE_REGION <= i then 0
              else before[i]
    ensures forall i | |start.log| <= i < |after.log| :: after.log[i].at + after.log[i].len <= devSize
  {
    hide F.Flashes, Stream, W.Wiped;
    FM.FlashOk(script, start, devSize, throttle, faults, buffers, k, total, after);
    FD.FlashIsDisciplined(script, start, devSize, throttle, faults, buffers, k, F.Ok(total), after);
    forall i | 0 <= i < |after.bytes|
      ensures after.bytes[i] == if i < total then Stream(script)[i]
                                else if i < WIPE_REGION || devSize - WIPE_REGION <= i then 0 else before[i]
    {
      W.FlashedByte(before, Stream(script), i);
    }
  }

  /** Verification accepts what a successful flash wrote: if the second pass over the image delivers
      at least the same bytes and the device can be read, a verify arm with memory, a legal rate and
      no cancellation reports `Ok`, whichever arm it is. */
  lemma FlashedIsAccepted(start: Disk, flashed: Script, devSize: u64, throttle: Option<u64>, faults: F.Faults,
                          buffers: nat, k: nat, total: nat, after: Disk,
                          checked: Script, checkedDisk: Disk, memory: nat, needs: nat, late: bool, k': nat, r: V.Report)
    requires F.Flashes(flashed, start, devSize, throttle, faults, buffers, k, F.Ok(total), after)
    requires Stream(flashed) <= Stream(checked) && checkedDisk.bytes == after.bytes
    requires V.Verifies(checked, checkedDisk, total, throttle, {}, memory, needs, late, k', r)
    requires needs <= memory && throttle != Some(0) && r != V.Err(V.Cancelled)
    ensures r == V.Ok
  {
    hide F.Flashes, Stream, EndingOf, V.LoopEnds;
    FM.FlashOk(flashed, start, devSize, throttle, faults, buffers, k, total, after);
    var c := V.CheckOf(checked, checkedDisk, total, {});
    var v :| V.LoopEnds(c, k', v, late) && r == V.Conclude(v);
    VM.SoundAndComplete(c, k', v, late);
    SplicePrefix(start.bytes, Stream(flashed));
    assert Stream(checked)[..total] == Stream(flashed);
  }
}
