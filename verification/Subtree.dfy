/** `target_block_subtree` of phase 0: the target's block stack, by repeated passes to a fixpoint. */
module Subtree {
  import opened Options
  import opened Sysfs

  predicate IsLoopName(n: Name) { "loop" <= n }

  function AllNames(t: Tree): set<Name> { if t.all.Some? then set n | n in t.all.value else {} }

  /** A loop device whose backing file resolves to a block device. */
  predicate BackedLoop(t: Tree, n: Name) { t.all.Some? && n in t.all.value && "loop" <= n && n in t.backing }

  /** Only a listed device whose name starts with `loop` is looked at for a backing file. */
  lemma BackedLoopMeans(t: Tree, n: Name)
    ensures BackedLoop(t, n) <==>
      (exists listed :: t.all == Some(listed) && n in listed) && 4 <= |n| && n[..4] == "loop" && n in t.backing
  {
    assert t.all.Some? ==> t.all == Some(t.all.value);
  }

  function PartsOf(t: Tree, n: Name): set<Name>
  {
    if n in t.partitions then set p | p in t.partitions[n] else {}
  }

  /** Where every search starts: the disk and its partitions. */
  function Seeds(t: Tree, disk: Name): set<Name> { {disk} + PartsOf(t, disk) }

  ghost predicate HolderClosed(t: Tree, s: set<Name>) { forall x | x in s :: Edges(t, x) <= s }

  ghost predicate LoopClosed(t: Tree, s: set<Name>)
  {
    forall l | BackedLoop(t, l) && t.backing[l] in s :: l in s
  }

  /** Partitions of the backed loops whose backing is inside, `except` aside. */
  ghost predicate PartsClosed(t: Tree, s: set<Name>, except: iset<Name>)
  {
    forall l | BackedLoop(t, l) && t.backing[l] in s && l !in except :: PartsOf(t, l) <= s
  }

  /** The whole block stack of `disk`, in the tree's own terms: the disk and its partitions, whatever
      holds a member, every loop backed by a member, and those loops' partitions. It is what the search is meant to
      compute the least of. */
  ghost predicate Stack(t: Tree, disk: Name, s: set<Name>)
  {
    && disk in s && (forall p | disk in t.partitions && p in t.partitions[disk] :: p in s)
    && HolderClosed(t, s) && LoopClosed(t, s)
    && forall l, p | BackedLoop(t, l) && t.backing[l] in s && l in t.partitions && p in t.partitions[l] :: p in s
  }

  /** What holder edges alone reach from the seeds: in the set before any loop is looked at. */
  ghost function Early(t: Tree, disk: Name): iset<Name>
  {
    iset x | x in Seeds(t, disk) || exists r :: r in Seeds(t, disk) && Holds(t, r, x)
  }

  /** Every block stack of the disk contains `x`. */
  ghost predicate InEveryStack(t: Tree, disk: Name, x: Name) { forall T | Stack(t, disk, T) :: x in T }

  /** What the search demands of a set, the partitions of loops that holder edges alone reach aside. */
  ghost predicate Ruled(t: Tree, disk: Name, s: set<Name>)
  {
    Seeds(t, disk) <= s && HolderClosed(t, s) && LoopClosed(t, s) && PartsClosed(t, s, Early(t, disk))
  }

  /** What every pass keeps: whatever is in the set is forced into it by the rules, where the
      partition rule is only used for loops that holder edges alone do not reach. */
  ghost predicate Forced(t: Tree, disk: Name, s: set<Name>) { forall T | Ruled(t, disk, T) :: s <= T }

  /** Loops inside came with their partitions, unless a holder edge from inside the stack or a
      partition listing brought them. */
  ghost predicate PartsKept(t: Tree, disk: Name, s: set<Name>)
  {
    forall l | BackedLoop(t, l) && l in s && !ByOtherMeans(t, disk, l) :: PartsOf(t, l) <= s
  }

  /** The loop holds a member of every block stack, or is listed as a partition. */
  ghost predicate ByOtherMeans(t: Tree, disk: Name, l: Name)
  {
    HeldFromStack(t, disk, l) || exists d :: d in t.partitions && l in t.partitions[d]
  }

  ghost predicate HeldFromStack(t: Tree, disk: Name, l: Name)
  {
    exists y :: InEveryStack(t, disk, y) && l in Edges(t, y)
  }

  function Everything(t: Tree, disk: Name): set<Name>
  {
    {disk} + Universe(t) + AllNames(t) + set d, p | d in t.partitions && p in t.partitions[d] :: p
  }

  /** Everything held by `m` is in the set. */
  ghost predicate Covers(t: Tree, s: set<Name>, m: Name) { forall x | Holds(t, m, x) :: x in s }

  /** One holder pass over a snapshot. */
  method HolderPass(t: Tree, disk: Name, start: set<Name>) returns (r: Option<set<Name>>)
    requires Seeds(t, disk) <= start <= Everything(t, disk) && Forced(t, disk, start) && PartsKept(t, disk, start)
    ensures r.Some? ==>
      && start <= r.value <= Everything(t, disk) && Forced(t, disk, r.value) && PartsKept(t, disk, r.value)
      && (forall m | m in start :: Covers(t, r.value, m))
    ensures r.None? ==> exists m :: m in start && Obstructed(t, m)
  {
    hide Holds, Forced, PartsKept, Obstructed;
    var s, todo := start, start;
    while todo != {}
      invariant todo <= start <= s <= Everything(t, disk)
      invariant Forced(t, disk, s) && PartsKept(t, disk, s)
      invariant forall m | m in start - todo :: Covers(t, s, m)
      decreases todo
    {
      var m :| m in todo;
      var hs := HoldersRecursive(t, m);
      if hs.None? { return None; }
      HoldersForced(t, disk, s, m, hs.value);
      forall k | k in start - (todo - {m}) ensures Covers(t, s + hs.value, k) {
        if k != m { assert Covers(t, s, k); }
      }
      s, todo := s + hs.value, todo - {m};
    }
    return Some(s);
  }

  lemma HoldersForced(t: Tree, disk: Name, s: set<Name>, m: Name, hs: set<Name>)
    requires Forced(t, disk, s) && PartsKept(t, disk, s) && m in s
    requires forall x :: x in hs <==> Holds(t, m, x)
    ensures Forced(t, disk, s + hs) && PartsKept(t, disk, s + hs)
  {
    hide Holds;
    forall T | Ruled(t, disk, T) ensures s + hs <= T {
      assert s <= T;
      forall x | x in hs ensures x in T { ClosedHoldsAll(t, T, m, x); }
    }
    forall l | l in hs ensures HeldFromStack(t, disk, l) { HeldFrom(t, disk, s, m, l); }
  }

  /** What a member's holder edges reach is held by something in every block stack. */
  lemma HeldFrom(t: Tree, disk: Name, s: set<Name>, m: Name, x: Name)
    requires Forced(t, disk, s) && m in s && Holds(t, m, x)
    ensures HeldFromStack(t, disk, x)
  {
    var p :| 2 <= |p| && p[0] == m && p[|p| - 1] == x && Path(t, p);
    var y := p[|p| - 2];
    assert x in Edges(t, y);
    forall T | Stack(t, disk, T) ensures y in T {
      WithinEveryStack(t, disk, s, T);
      if |p| > 2 { ClosedHoldsPath(t, T, p[..|p| - 1]); }
    }
  }

  /** One pass over the loop devices. */
  method LoopPass(t: Tree, disk: Name, start: set<Name>) returns (s: set<Name>)
    requires Seeds(t, disk) <= start <= Everything(t, disk) && Forced(t, disk, start) && PartsKept(t, disk, start)
    requires forall x | x in Early(t, disk) :: x in start
    requires t.all.Some?
    ensures start <= s <= Everything(t, disk) && Forced(t, disk, s) && PartsKept(t, disk, s)
    ensures s == start ==> LoopClosed(t, s)
  {
    hide Seeds, Everything, Forced, PartsKept, Early, PartsOf;
    s := start;
    var names := t.all.value;
    for i := 0 to |names|
      invariant start <= s <= Everything(t, disk) && Forced(t, disk, s) && PartsKept(t, disk, s)
      invariant s == start ==> Looked(t, names[..i], start)
    {
      var l := names[i];
      if IsLoopName(l) && l !in s && l in t.backing && t.backing[l] in s {
        LoopForced(t, disk, s, l);
        s := s + {l} + PartsOf(t, l);
      }
      if s == start { LookedFurther(t, names, i, start); }
    }
    assert names[..|names|] == names;
  }

  /** None of the loops named so far is missing. */
  ghost predicate Looked(t: Tree, names: seq<Name>, s: set<Name>)
  {
    forall l | l in names && IsLoopName(l) && l in t.backing && t.backing[l] in s :: l in s
  }

  lemma LookedFurther(t: Tree, names: seq<Name>, i: nat, s: set<Name>)
    requires i < |names| && Looked(t, names[..i], s)
    requires IsLoopName(names[i]) && names[i] in t.backing && t.backing[names[i]] in s ==> names[i] in s
    ensures Looked(t, names[..i + 1], s)
  {
    assert names[..i + 1] == names[..i] + [names[i]];
  }

  lemma LoopForced(t: Tree, disk: Name, s: set<Name>, l: Name)
    requires Forced(t, disk, s) && PartsKept(t, disk, s)
    requires BackedLoop(t, l) && t.backing[l] in s && l !in Early(t, disk)
    ensures Forced(t, disk, s + {l} + PartsOf(t, l)) && PartsKept(t, disk, s + {l} + PartsOf(t, l))
    ensures PartsOf(t, l) + {l} <= Everything(t, disk)
  {
    forall T | Ruled(t, disk, T) ensures s + {l} + PartsOf(t, l) <= T {
      assert s <= T;
    }
    forall k | BackedLoop(t, k) && k in s + {l} + PartsOf(t, l) && !ByOtherMeans(t, disk, k)
      ensures PartsOf(t, k) <= s + {l} + PartsOf(t, l)
    {
      assert k !in PartsOf(t, l);
    }
  }

  /** What the search guarantees of its result: it contains the seeds, is closed under holders and
      loop backing, contains nothing the rules do not force, and keeps loops with their partitions. */
  ghost predicate Computed(t: Tree, disk: Name, s: set<Name>)
  {
    Seeds(t, disk) <= s && HolderClosed(t, s) && LoopClosed(t, s) && Forced(t, disk, s) && PartsKept(t, disk, s)
  }

  /** `target_block_subtree`: on every finite tree it terminates, and what it returns contains the
      seeds, is closed under holders and loop backing, and contains nothing the rules do not force. */
  method TargetBlockSubtree(t: Tree, disk: Name) returns (r: Option<set<Name>>)
    ensures r.Some? ==> Computed(t, disk, r.value)
    ensures r.Some? ==> disk in t.partitions && disk in r.value && forall p | p in t.partitions[disk] :: p in r.value
    ensures r.None? ==> Unsearchable(t, disk)
    ensures disk !in t.partitions || t.all.None? ==> r.None?
  {
    if disk !in t.partitions { return None; }
    var s := Seeds(t, disk);
    while true
      invariant Seeds(t, disk) <= s <= Everything(t, disk) && Forced(t, disk, s) && PartsKept(t, disk, s)
      decreases Everything(t, disk) - s
    {
      var held := HolderPass(t, disk, s);
      if held.None? {
        ObstructedInside(t, disk, s);
        return None;
      }
      if t.all.None? { return None; }
      var grown := LoopPass(t, disk, held.value);
      if grown == s {
        forall x, y | x in s && y in Edges(t, x) ensures y in s { HoldsEdge(t, x, y); }
        return Some(s);
      }
      s := grown;
    }
  }

  /** The disk or the block devices cannot be listed, or a node that every block stack contains
      leads to an unreadable one. */
  ghost predicate Unsearchable(t: Tree, disk: Name)
  {
    disk !in t.partitions || t.all.None? || exists m :: InEveryStack(t, disk, m) && Obstructed(t, m)
  }

  lemma ObstructedInside(t: Tree, disk: Name, s: set<Name>)
    requires Forced(t, disk, s) && exists m :: m in s && Obstructed(t, m)
    ensures Unsearchable(t, disk)
  {
    hide Obstructed;
    var m :| m in s && Obstructed(t, m);
    forall T | Stack(t, disk, T) ensures m in T { WithinEveryStack(t, disk, s, T); }
  }

  /** In every case the result is contained in every block stack: only names reachable from the disk. */
  lemma WithinEveryStack(t: Tree, disk: Name, s: set<Name>, T: set<Name>)
    requires Forced(t, disk, s) && Stack(t, disk, T)
    ensures s <= T
  {
    assert Ruled(t, disk, T);
  }

  /** Every disk has a block stack: the whole machine is one. */
  lemma SomeStack(t: Tree, disk: Name)
    ensures Stack(t, disk, Everything(t, disk))
  {
    forall x | x in Everything(t, disk) ensures Edges(t, x) <= Everything(t, disk) { EdgesInUniverse(t, x); }
  }

  /** A loop backed from inside the stack, whatever the stack turns out to be. */
  ghost predicate StackLoop(t: Tree, disk: Name, l: Name)
  {
    BackedLoop(t, l) && InEveryStack(t, disk, t.backing[l])
  }

  /** When no loop backed from inside the stack holds a member of it or is a listed partition, the
      result is exactly the least block stack of the disk; the disk itself may be such a loop. */
  lemma LeastStack(t: Tree, disk: Name, s: set<Name>)
    requires Computed(t, disk, s)
    requires forall l | StackLoop(t, disk, l) :: !ByOtherMeans(t, disk, l)
    ensures Stack(t, disk, s)
    ensures forall T | Stack(t, disk, T) :: s <= T
  {
    hide ByOtherMeans;
    forall T | Stack(t, disk, T) ensures s <= T { WithinEveryStack(t, disk, s, T); }
    forall l | BackedLoop(t, l) && t.backing[l] in s ensures PartsOf(t, l) <= s {
      assert StackLoop(t, disk, l);
    }
  }

  /** Names mean one thing: no loop of the stack is a partition, and each partition of one other than
      the disk is named by its own listing only. */
  ghost predicate Unambiguous(t: Tree, disk: Name)
  {
    && (forall l | StackLoop(t, disk, l) :: !(exists d :: d in t.partitions && l in t.partitions[d]))
    && forall l, p | StackLoop(t, disk, l) && l != disk && p in PartsOf(t, l) :: OnlyPartOf(t, disk, l, p)
  }

  ghost predicate OnlyPartOf(t: Tree, disk: Name, l: Name, p: Name)
  {
    && p !in Seeds(t, disk) && p !in Universe(t) && !BackedLoop(t, p)
    && forall k | BackedLoop(t, k) && p in PartsOf(t, k) :: k == l
  }

  /** A loop that holder edges reach from the disk loses every partition that only it names. */
  lemma HolderLoopLoses(t: Tree, disk: Name, s: set<Name>, l: Name, p: Name)
    requires Forced(t, disk, s) && l in Early(t, disk) && OnlyPartOf(t, disk, l, p)
    ensures p !in s
  {
    var T := Everything(t, disk) - {p};
    assert HolderClosed(t, T) by {
      forall x | x in T ensures Edges(t, x) <= T { EdgesInUniverse(t, x); }
    }
    assert Ruled(t, disk, T);
  }

  /** The exact condition, where names are unambiguous and a loop of the stack that holds a member of
      it is reached from the disk by holder edges: the result is the disk's least block stack if and
      only if no such loop has a partition. */
  lemma LeastStackExactly(t: Tree, disk: Name, s: set<Name>)
    requires Computed(t, disk, s) && Unambiguous(t, disk)
    requires forall l | StackLoop(t, disk, l) && HeldFromStack(t, disk, l) :: l in Early(t, disk)
    ensures (Stack(t, disk, s) && forall T | Stack(t, disk, T) :: s <= T)
            <==> forall l | StackLoop(t, disk, l) && l != disk && l in Early(t, disk) :: PartsOf(t, l) == {}
  {
    hide Universe, Early;
    forall T | Stack(t, disk, T) ensures s <= T { WithinEveryStack(t, disk, s, T); }
    if Stack(t, disk, s) {
      forall l | StackLoop(t, disk, l) && l != disk && l in Early(t, disk) ensures PartsOf(t, l) == {} {
        if p :| p in PartsOf(t, l) { HolderLoopLoses(t, disk, s, l, p); }
      }
    }
    if forall l | StackLoop(t, disk, l) && l != disk && l in Early(t, disk) :: PartsOf(t, l) == {} {
      forall l | BackedLoop(t, l) && t.backing[l] in s ensures PartsOf(t, l) <= s {
        assert StackLoop(t, disk, l);
        if l != disk && l !in Early(t, disk) { assert l in s && !ByOtherMeans(t, disk, l); }
      }
      assert PartsClosed(t, s, iset{});
    }
  }

  /** A disk whose one holder is a loop device backed by a file on that same disk. */
  const LOOPED: Tree := Tree(
    map["sda" := Listing([Named("loop0")])], map["sda" := [], "loop0" := ["loop0p1"]], map[],
    Some(["sda", "loop0", "loop0p1"]), map["loop0" := "sda"])

  /** Not always the least: on this tree the holder pass adds the loop first, so its partition is
      never added, although every block stack of the disk contains it. */
  lemma HolderLoopLosesPartitions(s: set<Name>)
    requires Forced(LOOPED, "sda", s)
    ensures "loop0p1" !in s
    ensures forall T | Stack(LOOPED, "sda", T) :: "loop0p1" in T
  {
    var t, T := LOOPED, {"sda", "loop0"};
    assert Edges(t, "sda") == {"loop0"};
    HoldsEdge(t, "sda", "loop0");
    assert "loop0" in Early(t, "sda");
    assert s <= T;
    forall T' | Stack(t, "sda", T') ensures "loop0p1" in T' {
      assert BackedLoop(t, "loop0") && t.backing["loop0"] in T';
      assert "loop0p1" in PartsOf(t, "loop0");
    }
  }

  // ---- The image must not be on the target --------------------------------------------------

  /** Where the image lives: its identity, and the block device under its filesystem if it has one.
      `files` gives the identity of each loop device's backing file that can still be read. */
  datatype Image = Image(id: nat, kname: Option<Name>, files: map<Name, nat>)

  predicate IsBackedBy(image: Image, member: Name) { member in image.files && image.files[member] == image.id }

  /** The image is a device of the stack, or the file behind one. */
  predicate OnStack(image: Image, s: set<Name>)
  {
    || (image.kname.Some? && image.kname.value in s)
    || exists m | m in s :: m in image.files && image.files[m] == image.id
  }

  /** `ensure_image_not_on_target`: both hazards, over the whole subtree. */
  method EnsureImageNotOnTarget(t: Tree, disk: Name, image: Image) returns (ok: bool)
    ensures ok ==> exists s :: Computed(t, disk, s) && !OnStack(image, s)
    ensures ok ==>
      && disk in t.partitions && image.kname != Some(disk) && !(disk in image.files && image.files[disk] == image.id)
      && forall p | p in t.partitions[disk] ::
           image.kname != Some(p) && !(p in image.files && image.files[p] == image.id)
    ensures !ok ==> Unsearchable(t, disk) || forall T | Stack(t, disk, T) :: OnStack(image, T)
  {
    hide Computed, Unsearchable;
    var subtree := TargetBlockSubtree(t, disk);
    if subtree.None? { return false; }
    var todo := subtree.value;
    while todo != {}
      invariant todo <= subtree.value
      invariant forall m | m in subtree.value - todo :: !IsBackedBy(image, m)
      decreases todo
    {
      var member :| member in todo;
      if IsBackedBy(image, member) {
        OnEveryStack(t, disk, image, subtree.value);
        return false;
      }
      todo := todo - {member};
    }
    if image.kname.Some? && image.kname.value in subtree.value {
      OnEveryStack(t, disk, image, subtree.value);
      return false;
    }
    assert forall m | m in subtree.value :: !IsBackedBy(image, m);
    return true;
  }

  lemma OnEveryStack(t: Tree, disk: Name, image: Image, s: set<Name>)
    requires Computed(t, disk, s) && OnStack(image, s)
    ensures forall T | Stack(t, disk, T) :: OnStack(image, T)
  {
    forall T | Stack(t, disk, T) ensures OnStack(image, T) { WithinEveryStack(t, disk, s, T); }
  }

  /** What an acceptance rules out: no member of the disk's least block stack is the image's own
      device or is backed by the image file; the disk itself may be a loop device. */
  lemma AcceptedImageIsElsewhere(t: Tree, disk: Name, image: Image, s: set<Name>, x: Name)
    requires Computed(t, disk, s) && !OnStack(image, s) && InEveryStack(t, disk, x)
    requires forall l | StackLoop(t, disk, l) :: !ByOtherMeans(t, disk, l)
    ensures image.kname != Some(x) && !IsBackedBy(image, x)
  {
    LeastStack(t, disk, s);
  }
}
