/** `reject_active_stacked_volumes`: the flash goes ahead only over kpartx mappings. */
module Stacked {
  import opened Sysfs

  datatype DmHolderKind = Lvm | Crypt | Mpath | DmRaid | Synthetic | Unknown

  predicate IsDigit(c: char) { '0' <= c <= '9' }

  /** Everything before the first `-`, or the whole string. */
  function PrefixBeforeDash(s: string): (r: string)
    ensures '-' !in r && (r == s || r + "-" <= s)
  {
    if s == "" || s[0] == '-' then "" else [s[0]] + PrefixBeforeDash(s[1..])
  }

  function ClassifyDmUuid(uuid: string): DmHolderKind
  {
    var prefix := PrefixBeforeDash(uuid);
    if "part" <= prefix && prefix[4..] != "" && (forall c | c in prefix[4..] :: IsDigit(c)) then Synthetic
    else if prefix == "LVM" then Lvm
    else if prefix == "CRYPT" then Crypt
    else if prefix == "mpath" then Mpath
    else if prefix == "DMRAID" then DmRaid
    else Unknown
  }

  predicate IsLiveData(k: DmHolderKind) { k != Synthetic }

  /** `part`, one or more digits, and nothing or a dash and anything after that. */
  predicate SplitsAs(uuid: string, digits: string, rest: string)
  {
    && digits != "" && (forall c | c in digits :: IsDigit(c))
    && (rest == "" || rest[0] == '-')
    && uuid == "part" + digits + rest
  }

  /** The shape kpartx gives a partition mapping. */
  ghost predicate KpartxShape(uuid: string)
  {
    exists digits, rest :: SplitsAs(uuid, digits, rest)
  }

  lemma {:induction false} PrefixSplits(s: string)
    ensures var p := PrefixBeforeDash(s); p <= s && (|p| == |s| || s[|p|] == '-')
  {
    if s != "" && s[0] != '-' { PrefixSplits(s[1..]); }
  }

  lemma {:induction false} PrefixOf(head: string, rest: string)
    requires '-' !in head && (rest == "" || rest[0] == '-')
    ensures PrefixBeforeDash(head + rest) == head
  {
    if head == "" {
      assert head + rest == rest;
    } else {
      assert (head + rest)[1..] == head[1..] + rest;
      PrefixOf(head[1..], rest);
    }
  }

  /** Default deny: a device-mapper holder is taken for synthetic exactly when its UUID has the
      kpartx shape. */
  lemma SyntheticIff(uuid: string)
    ensures ClassifyDmUuid(uuid) == Synthetic <==> KpartxShape(uuid)
  {
    if ClassifyDmUuid(uuid) == Synthetic {
      var prefix := PrefixBeforeDash(uuid);
      PrefixSplits(uuid);
      var digits, rest := prefix[4..], uuid[|prefix|..];
      assert "part" <= prefix;
      assert prefix == "part" + digits;
      assert uuid == prefix + rest;
      assert SplitsAs(uuid, digits, rest);
    }
    if KpartxShape(uuid) {
      var digits, rest :| SplitsAs(uuid, digits, rest);
      KpartxIsSynthetic(uuid, digits, rest);
    }
  }

  lemma KpartxIsSynthetic(uuid: string, digits: string, rest: string)
    requires SplitsAs(uuid, digits, rest)
    ensures ClassifyDmUuid(uuid) == Synthetic
  {
    var prefix := "part" + digits;
    assert '-' !in digits;
    PrefixOf(prefix, rest);
    assert prefix[4..] == digits && prefix[..4] == "part";
  }

  /** Everything the walk from `root` has to read is readable, and every node it reaches is a
      device-mapper node whose UUID has the kpartx shape. */
  ghost predicate ClearBelow(t: Tree, root: Name)
  {
    !Obstructed(t, root) && forall x | Holds(t, root, x) :: x in t.uuids && KpartxShape(t.uuids[x])
  }

  /** The disk can be listed, and it and each of its partitions are clear. */
  ghost predicate Clear(t: Tree, disk: Name)
  {
    && disk in t.partitions && ClearBelow(t, disk)
    && forall i | 0 <= i < |t.partitions[disk]| :: ClearBelow(t, t.partitions[disk][i])
  }

  /** Accepts exactly when the disk is clear. */
  method RejectActiveStackedVolumes(t: Tree, disk: Name) returns (ok: bool)
    ensures ok <==> Clear(t, disk)
  {
    hide ClearBelow;
    if disk !in t.partitions { return false; }
    var roots := [disk] + t.partitions[disk];
    for i := 0 to |roots|
      invariant forall j | 0 <= j < i :: ClearBelow(t, roots[j])
    {
      var clear := CheckBelow(t, roots[i]);
      if !clear {
        assert i > 0 ==> roots[i] == t.partitions[disk][i - 1];
        return false;
      }
    }
    forall i | 0 <= i < |t.partitions[disk]| ensures ClearBelow(t, t.partitions[disk][i]) {
      assert roots[i + 1] == t.partitions[disk][i];
    }
    assert roots[0] == disk;
    return true;
  }

  /** The inner loop: every holder below one root. */
  method CheckBelow(t: Tree, root: Name) returns (clear: bool)
    ensures clear <==> ClearBelow(t, root)
  {
    hide ClassifyDmUuid, Path, KpartxShape;
    var found := HoldersRecursive(t, root);
    if found.None? { return false; }
    var holders := found.value;
    while holders != {}
      invariant holders <= found.value
      invariant forall x | x in found.value - holders :: x in t.uuids && KpartxShape(t.uuids[x])
      decreases holders
    {
      var holder :| holder in holders;
      if holder !in t.uuids { return false; }
      SyntheticIff(t.uuids[holder]);
      if IsLiveData(ClassifyDmUuid(t.uuids[holder])) { return false; }
      holders := holders - {holder};
    }
    return true;
  }
}
