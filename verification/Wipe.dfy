/** Phase 3's signature wipe. */
module Wipe {
  import opened Options
  import opened Bytes
  import opened Geometry
  import opened Devices

  function TailWipeOffset(devSize: u64): (r: Option<nat>)
    ensures r.Some? <==> 2 * WIPE_REGION <= devSize
    ensures r.Some? ==> r.value + WIPE_REGION == devSize
  {
    if devSize < WIPE_REGION then None
    else if devSize - WIPE_REGION < WIPE_REGION then None
    else Some(devSize - WIPE_REGION)
  }

  function Zeros(): (z: seq<byte>)
    ensures |z| == WIPE_REGION && forall i | 0 <= i < WIPE_REGION :: z[i] == 0
  {
    seq(WIPE_REGION, _ => 0)
  }

  /** A device with both signature regions zeroed. */
  function Wiped(bytes: seq<byte>): (r: seq<byte>)
    requires 2 * WIPE_REGION <= |bytes|
    ensures |r| == |bytes|
  {
    Splice(Splice(bytes, 0, Zeros()), |bytes| - WIPE_REGION, Zeros())
  }

  datatype WipeFaults = WipeFaults(memory: bool, tears: map<nat, Tear>, syncFails: bool)

  datatype WipeError = TooSmall | OutOfMemory | WriteFailed | SyncFailed

  /** Nothing stands in the way of the wipe. */
  predicate Obeys(faults: WipeFaults) { faults.memory && faults.tears == map[] && !faults.syncFails }

  /** `wipe_ends`. */
  method WipeEnds(dev: Device, devSize: u64, faults: WipeFaults) returns (error: Option<WipeError>)
    requires devSize == dev.data.Length
    modifies dev`log, dev.data
    ensures error == Some(TooSmall) <==> devSize < 2 * WIPE_REGION
    ensures error == Some(TooSmall) || error == Some(OutOfMemory) ==> dev.State() == old(dev.State())
    ensures error.None? <==>
      && 2 * WIPE_REGION <= devSize && faults.memory
      && 0 !in faults.tears && devSize - WIPE_REGION !in faults.tears && !faults.syncFails
    ensures 2 * WIPE_REGION <= devSize && Obeys(faults) ==> error.None?
    ensures error == Some(SyncFailed) ==> faults.syncFails && dev.data[..] == Wiped(old(dev.data[..]))
    ensures devSize < 2 * WIPE_REGION ==> error == Some(TooSmall)
    ensures error.None? ==> dev.data[..] == Wiped(old(dev.data[..]))
  {
    var tail := TailWipeOffset(devSize);
    if tail.None? { return Some(TooSmall); }
    if !faults.memory { return Some(OutOfMemory); }
    var zeros := Zeros();
    var head := dev.WriteAt(zeros, 0, faults.tears);
    if head.Some? { return Some(WriteFailed); }
    var end := dev.WriteAt(zeros, tail.value, faults.tears);
    if end.Some? { return Some(WriteFailed); }
    if faults.syncFails { return Some(SyncFailed); }
    return None;
  }

  /** Byte by byte: what a device holds after a wipe and a flash of `image`. */
  lemma FlashedByte(bytes: seq<byte>, image: seq<byte>, i: nat)
    requires 2 * WIPE_REGION <= |bytes| && |image| <= |bytes| && i < |bytes|
    ensures Splice(Wiped(bytes), 0, image)[i] ==
      if i < |image| then image[i]
      else if i < WIPE_REGION || |bytes| - WIPE_REGION <= i then 0
      else bytes[i]
  {
    SpliceAt(bytes, 0, Zeros(), i);
    SpliceAt(Splice(bytes, 0, Zeros()), |bytes| - WIPE_REGION, Zeros(), i);
    SpliceAt(Wiped(bytes), 0, image, i);
  }
}
