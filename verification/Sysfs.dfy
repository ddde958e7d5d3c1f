/** `common/sysfs.rs` and the holder walk of `common/mount.rs`, over one snapshot of a finite sysfs
    tree. */
module Sysfs {
  import opened Options

  type Name = string

  /** One directory entry: a readable name, or an entry the walk cannot name. */
  datatype Entry = Named(name: Name) | Unreadable

  datatype Dir = Missing | Denied | Listing(entries: seq<Entry>)

  /** `holders`: each node's `holders/` directory. `partitions`: each disk's partition names, when
      its directory can be read. `uuids`: `dm/uuid` of device-mapper nodes. */
  datatype Tree = Tree(
    holders: map<Name, Dir>, partitions: map<Name, seq<Name>>, uuids: map<Name, string>,
    all: Option<seq<Name>>, backing: map<Name, Name>)

  function HoldersDir(t: Tree, n: Name): Dir { if n in t.holders then t.holders[n] else Missing }

  /** The holder edges out of a node. */
  function Edges(t: Tree, n: Name): set<Name>
  {
    if HoldersDir(t, n).Listing? then set e | e in HoldersDir(t, n).entries && e.Named? :: e.name else {}
  }

  /** The walk cannot read everything in this node's `holders/`. */
  predicate Unlistable(t: Tree, n: Name)
  {
    HoldersDir(t, n).Denied? || (HoldersDir(t, n).Listing? && Unreadable in HoldersDir(t, n).entries)
  }

  /** Every name that occurs as a holder: a bound on what any walk can collect. */
  function Universe(t: Tree): set<Name>
  {
    set n, h | n in t.holders && h in Edges(t, n) :: h
  }

  lemma EdgesInUniverse(t: Tree, n: Name)
    ensures Edges(t, n) <= Universe(t)
  {
  }

  /** A walk along holder edges. */
  ghost predicate Path(t: Tree, p: seq<Name>)
  {
    forall i | 0 <= i < |p| - 1 :: p[i + 1] in Edges(t, p[i])
  }

  /** `to` is reached from `from` by one or more holder edges. */
  ghost predicate Holds(t: Tree, from: Name, to: Name)
  {
    exists p :: 2 <= |p| && p[0] == from && p[|p| - 1] == to && Path(t, p)
  }

  lemma HoldsEdge(t: Tree, a: Name, b: Name)
    requires b in Edges(t, a)
    ensures Holds(t, a, b)
  {
    var p := [a, b];
    assert 2 <= |p| && p[0] == a && p[|p| - 1] == b && Path(t, p);
  }

  lemma HoldsThrough(t: Tree, a: Name, b: Name, c: Name)
    requires b in Edges(t, a) && Holds(t, b, c)
    ensures Holds(t, a, c)
  {
    var p :| 2 <= |p| && p[0] == b && p[|p| - 1] == c && Path(t, p);
    var q := [a] + p;
    assert forall i | 0 <= i < |q| - 1 :: i > 0 ==> q[i] == p[i - 1];
    assert 2 <= |q| && q[0] == a && q[|q| - 1] == c && Path(t, q);
  }

  /** A set that holds a node's edges and is closed under edges holds everything reachable. */
  lemma ClosedHoldsAll(t: Tree, s: set<Name>, a: Name, x: Name)
    requires Edges(t, a) <= s && (forall y | y in s :: Edges(t, y) <= s)
    requires Holds(t, a, x)
    ensures x in s
  {
    var p :| 2 <= |p| && p[0] == a && p[|p| - 1] == x && Path(t, p);
    ClosedHoldsPath(t, s, p);
  }

  lemma {:induction false} ClosedHoldsPath(t: Tree, s: set<Name>, p: seq<Name>)
    requires 2 <= |p| && Path(t, p)
    requires Edges(t, p[0]) <= s && (forall y | y in s :: Edges(t, y) <= s)
    ensures p[|p| - 1] in s
  {
    assert p[1] in Edges(t, p[0]);
    if |p| > 2 { ClosedHoldsPath(t, s, p[1..]); }
  }

  // ---- The walk -----------------------------------------------------------------------------

  class Accumulator {
    var names: set<Name>

    constructor ()
      ensures names == {}
    {
      names := {};
    }
  }

  /** What one call of the walk adds to the shared accumulator: this node's holders, and for every
      node it newly added, that node's holders too. */
  ghost predicate Walked(t: Tree, kname: Name, before: set<Name>, after: set<Name>)
  {
    && before <= after
    && Edges(t, kname) <= after
    && !Unlistable(t, kname)
    && forall x | x in after - before :: Holds(t, kname, x) && Edges(t, x) <= after && !Unlistable(t, x)
  }

  /** The same after the first `i` directory entries. */
  ghost predicate PartlyWalked(t: Tree, kname: Name, entries: seq<Entry>, i: nat, before: set<Name>, after: set<Name>)
  {
    && i <= |entries| && before <= after
    && (forall j | 0 <= j < i :: entries[j].Named? && entries[j].name in after)
    && forall x | x in after - before :: Holds(t, kname, x) && Edges(t, x) <= after && !Unlistable(t, x)
  }

  /** Some node the walk had to read could not be read. */
  ghost predicate Obstructed(t: Tree, kname: Name)
  {
    Unlistable(t, kname) || exists x :: Holds(t, kname, x) && Unlistable(t, x)
  }

  /** `walk_holders`: depth-first, one accumulator for all recursive calls. */
  method WalkHolders(t: Tree, kname: Name, acc: Accumulator) returns (ok: bool)
    modifies acc
    ensures ok ==> Walked(t, kname, old(acc.names), acc.names)
    ensures !ok ==> Obstructed(t, kname)
    ensures old(acc.names) <= acc.names <= old(acc.names) + Universe(t)
    decreases Universe(t) - acc.names
  {
    var dir := HoldersDir(t, kname);
    if dir.Missing? { return true; }
    if dir.Denied? { return false; }
    ghost var before := acc.names;
    for i := 0 to |dir.entries|
      invariant PartlyWalked(t, kname, dir.entries, i, before, acc.names)
      invariant before <= acc.names <= before + Universe(t)
    {
      if dir.entries[i].Unreadable? { return false; }
      var child := dir.entries[i].name;
      assert child in Edges(t, kname);
      HoldsEdge(t, kname, child);
      EdgesInUniverse(t, kname);
      if child !in acc.names {
        ghost var mid := acc.names;
        acc.names := acc.names + {child};
        var deeper := WalkHolders(t, child, acc);
        ChildHolds(t, kname, child);
        if !deeper { return false; }
        assert PartlyWalked(t, kname, dir.entries, i + 1, before, acc.names) by {
          WalkedFurther(t, kname, child, dir.entries, i, before, mid, acc.names);
        }
      }
    }
    return true;
  }

  /** What is reachable or obstructed below a child is so below its parent. */
  lemma ChildHolds(t: Tree, a: Name, b: Name)
    requires b in Edges(t, a)
    ensures forall x | Holds(t, b, x) :: Holds(t, a, x)
    ensures Obstructed(t, b) ==> Obstructed(t, a)
  {
    HoldsEdge(t, a, b);
    forall x | Holds(t, b, x) ensures Holds(t, a, x) { HoldsThrough(t, a, b, x); }
  }

  lemma WalkedFurther(t: Tree, a: Name, b: Name, entries: seq<Entry>, i: nat,
                      before: set<Name>, mid: set<Name>, after: set<Name>)
    requires i < |entries| && entries[i] == Named(b) && b in Edges(t, a)
    requires PartlyWalked(t, a, entries, i, before, mid) && Walked(t, b, mid + {b}, after)
    ensures PartlyWalked(t, a, entries, i + 1, before, after)
  {
    hide Path, Edges, Unlistable;
    HoldsEdge(t, a, b);
    ChildHolds(t, a, b);
  }

  /** A `holders/` directory that cannot be read, or has an entry without a usable name. */
  predicate Blocks(d: Dir)
  {
    d == Denied || (d.Listing? && exists i :: 0 <= i < |d.entries| && d.entries[i] == Unreadable)
  }

  /** An obstruction in the tree's own terms: a `holders/` directory on the way that cannot be read, or
      that has an entry without a usable name. */
  lemma ObstructedMeans(t: Tree, root: Name)
    ensures Obstructed(t, root) <==>
      exists x :: (x == root || Holds(t, root, x)) && x in t.holders && Blocks(t.holders[x])
  {
    hide Holds;
    forall x
      ensures Unlistable(t, x) == (x in t.holders && Blocks(t.holders[x]))
    {
    }
    hide Unlistable;
  }

  /** One holder edge in the tree's own terms. */
  lemma EdgeMeans(t: Tree, n: Name, h: Name)
    ensures h in Edges(t, n) <==> n in t.holders && t.holders[n].Listing? && Named(h) in t.holders[n].entries
  {
  }

  /** `holders_recursive`: exactly the nodes reached by one or more holder edges, on any graph,
      cyclic or not; it fails exactly when a node it had to read is unreadable. */
  method HoldersRecursive(t: Tree, root: Name) returns (r: Option<set<Name>>)
    ensures r.Some? ==> forall x :: x in r.value <==> Holds(t, root, x)
    ensures r.None? <==> Obstructed(t, root)
    ensures r.None? <==> exists x :: (x == root || Holds(t, root, x)) && x in t.holders && Blocks(t.holders[x])
    ensures r.Some? ==> r.value <= Universe(t)
  {
    ObstructedMeans(t, root);
    var acc := new Accumulator();
    var ok := WalkHolders(t, root, acc);
    if !ok { return None; }
    forall x | Holds(t, root, x) ensures x in acc.names { ClosedHoldsAll(t, acc.names, root, x); }
    return Some(acc.names);
  }
}
