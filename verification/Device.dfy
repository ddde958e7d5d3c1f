/** The claimed block device: its bytes, the `O_DIRECT` flag of the one descriptor that reaches it,
    and a record of every write issued through that descriptor. */
module Devices {
  import opened Options
  import opened Bytes
  import opened Readers

  /** One `pwrite` request, and the state of `O_DIRECT` when it was issued. */
  datatype Pwrite = Pwrite(at: nat, len: nat, direct: bool)

  datatype Disk = Disk(bytes: seq<byte>, direct: bool, log: seq<Pwrite>)

  /** How an `fcntl` pair behaves: the `F_GETFL` or the `F_SETFL` half may fail. */
  datatype Fcntl = Works | GetFails | SetFails

  /** A write that fails: the error it reports, and the bytes found in its range afterwards. */
  datatype Tear = Tear(kind: IoKind, residue: seq<byte>)

  /** The device after an operation, and whether the operation failed. */
  datatype Attempt<E> = Attempt(error: Option<E>, disk: Disk)

  /** `set_direct`: flips the one bit, and makes no `F_SETFL` call when it already has the wanted
      value. */
  function SetDirect(d: Disk, enable: bool, fcntl: Fcntl): Attempt<()>
  {
    if fcntl == GetFails then Attempt(Some(()), d)
    else if d.direct == enable then Attempt(None, d)
    else if fcntl == SetFails then Attempt(Some(()), d)
    else Attempt(None, d.(direct := enable))
  }

  /** The bytes a write leaves on the device: all of it, the residue of a torn write, or as much as
      there is room for. */
  function Landed(bytes: seq<byte>, data: seq<byte>, at: nat, tears: map<nat, Tear>): (r: seq<byte>)
    ensures |r| == |bytes|
  {
    if at in tears then
      if |tears[at].residue| == |data| && at + |data| <= |bytes|
      then Splice(bytes, at, tears[at].residue) else bytes
    else if at + |data| <= |bytes| then Splice(bytes, at, data)
    else if at <= |bytes| then Splice(bytes, at, data[..|bytes| - at])
    else bytes
  }

  function WriteFailure(room: nat, len: nat, at: nat, tears: map<nat, Tear>): Option<IoKind>
  {
    if at in tears then Some(tears[at].kind)
    else if at + len <= room then None
    else Some(StorageFull)
  }

  /** `write_all_at`. */
  function WriteAllAt(d: Disk, data: seq<byte>, at: nat, tears: map<nat, Tear>): Attempt<IoKind>
  {
    Attempt(WriteFailure(|d.bytes|, |data|, at, tears),
          Disk(Landed(d.bytes, data, at, tears), d.direct, d.log + [Pwrite(at, |data|, d.direct)]))
  }

  /** A flag change succeeds exactly when the flag can be read, and set if it has to be; then the flag
      is what was asked for, and otherwise nothing changed. */
  lemma SetDirectMeaning(d: Disk, enable: bool, fcntl: Fcntl)
    ensures var r := SetDirect(d, enable, fcntl);
            && (r.error.None? <==> fcntl == Works || (fcntl == SetFails && d.direct == enable))
            && r.disk == if r.error.None? then Disk(d.bytes, enable, d.log) else d
  {
  }

  /** A write succeeds exactly when nothing tears it and it fits; then its bytes are on the device.
      However it goes, no other byte changes, and it is logged with the flag it was made under. */
  lemma WriteAllMeaning(d: Disk, data: seq<byte>, at: nat, tears: map<nat, Tear>)
    ensures var r := WriteAllAt(d, data, at, tears);
            && (r.error.None? <==> at !in tears && at + |data| <= |d.bytes|)
            && (at in tears ==> r.error == Some(tears[at].kind))
            && (at !in tears && |d.bytes| < at + |data| ==> r.error == Some(StorageFull))
            && (r.error.None? ==> r.disk.bytes[at..at + |data|] == data)
            && |r.disk.bytes| == |d.bytes| && r.disk.direct == d.direct
            && (forall i | 0 <= i < |d.bytes| && !(at <= i < at + |data|) :: r.disk.bytes[i] == d.bytes[i])
            && r.disk.log == d.log + [Pwrite(at, |data|, d.direct)]
  {
  }

  /** `read_exact_at`: fails on an unreadable offset and on a range past the end of the device. */
  predicate Readable(d: Disk, at: nat, len: nat, unreadable: set<nat>)
  {
    at !in unreadable && at + len <= |d.bytes|
  }

  class Device {
    const data: array<byte>
    var direct: bool
    var log: seq<Pwrite>

    constructor (data: array<byte>)
      ensures this.data == data && !direct && log == []
    {
      this.data := data;
      direct := false;
      log := [];
    }

    function State(): (d: Disk)
      reads this, data
    {
      Disk(data[..], direct, log)
    }

    method SetFlag(enable: bool, fcntl: Fcntl) returns (ok: bool)
      modifies this`direct
      ensures Attempt(if ok then None else Some(()), State()) == SetDirect(old(State()), enable, fcntl)
    {
      if fcntl == GetFails { return false; }
      if direct == enable { return true; }
      if fcntl == SetFails { return false; }
      direct := enable;
      return true;
    }

    method WriteAt(src: seq<byte>, at: nat, tears: map<nat, Tear>) returns (r: Option<IoKind>)
      modifies this`log, data
      ensures Attempt(r, State()) == WriteAllAt(old(State()), src, at, tears)
    {
      log := log + [Pwrite(at, |src|, direct)];
      if at in tears {
        if |tears[at].residue| == |src| && at + |src| <= data.Length {
          Overwrite(tears[at].residue, at);
        }
        return Some(tears[at].kind);
      }
      if at + |src| <= data.Length {
        Overwrite(src, at);
        return None;
      }
      if at <= data.Length {
        Overwrite(src[..data.Length - at], at);
      }
      return Some(StorageFull);
    }

    method Overwrite(src: seq<byte>, at: nat)
      requires at + |src| <= data.Length
      modifies data
      ensures data[..] == Splice(old(data[..]), at, src)
    {
      forall i | 0 <= i < |src| { data[at + i] := src[i]; }
    }

    /** Takes on the state a run of the transition system left the device in. */
    method Store(d: Disk)
      requires |d.bytes| == data.Length
      modifies this, data
      ensures State() == d
    {
      Overwrite(d.bytes, 0);
      direct := d.direct;
      log := d.log;
    }

    /** `read_exact_at` into `dst[..len]`. */
    method ReadInto(dst: array<byte>, len: nat, at: nat, unreadable: set<nat>) returns (ok: bool)
      requires len <= dst.Length && dst != data
      modifies dst
      ensures ok == Readable(State(), at, len, unreadable)
      ensures ok ==> dst[..len] == data[at..at + len]
    {
      if at in unreadable || at + len > data.Length { return false; }
      forall i | 0 <= i < len { dst[i] := data[at + i]; }
      assert dst[..len] == data[at..at + len];
      return true;
    }
  }
}
