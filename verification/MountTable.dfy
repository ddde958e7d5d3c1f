/** The table half of `common/mount.rs`: filtering mountinfo, the longest mount prefix of a path,
    and unmounting deepest first. */
module MountTable {
  import opened Options
  import opened Bytes
  import opened MountText

  // ---- Lines --------------------------------------------------------------------------------

  function StripReturn(s: Str): Str { if s != [] && s[|s| - 1] == RETURN then s[..|s| - 1] else s }

  /** `str::lines`: a line ends at a newline, which takes one carriage return with it; what follows
      the last newline is a line only if it is not empty. */
  function Lines(text: Str): seq<Str> { Terminated(Split(text, NEWLINE)) }

  function Terminated(parts: seq<Str>): seq<Str>
    requires parts != []
  {
    if |parts| == 1 then (if parts[0] == [] then [] else parts)
    else [StripReturn(parts[0])] + Terminated(parts[1..])
  }

  function PrintText(set_: set<byte>, mounts: seq<Mount>): Str
  {
    if mounts == [] then [] else Print(set_, mounts[0]) + [NEWLINE] + PrintText(set_, mounts[1..])
  }

  lemma {:induction false} JoinFree(fields: seq<Str>, b: byte)
    requires b != SPACE && forall f | f in fields :: b !in f
    ensures b !in Join(fields, SPACE)
  {
    if |fields| > 1 { JoinFree(fields[1..], b); }
  }

  lemma {:induction false} JoinLast(fields: seq<Str>, f: Str, sep: byte)
    requires fields != []
    ensures Join(fields + [f], sep) == Join(fields, sep) + [sep] + f
  {
    if |fields| == 1 {
      assert (fields + [f])[1..] == [f];
    } else {
      assert (fields + [f])[1..] == fields[1..] + [f];
      JoinLast(fields[1..], f, sep);
    }
  }

  /** Losing a trailing carriage return only shortens the last field, which nobody parses. */
  lemma StripPrinted(set_: set<byte>, m: Mount)
    requires Printable(m)
    ensures StripReturn(Print(set_, m)) == Print(set_, m.(superOptions := StripReturn(m.superOptions)))
    ensures Printable(m.(superOptions := StripReturn(m.superOptions)))
  {
    hide Escape, PrintNat, StripReturn;
    var fields := Fields(set_, m);
    var front := fields[..|fields| - 1];
    var m' := m.(superOptions := StripReturn(m.superOptions));
    assert fields == front + [m.superOptions] && Fields(set_, m') == front + [m'.superOptions];
    JoinLast(front, m.superOptions, SPACE);
    JoinLast(front, m'.superOptions, SPACE);
    StripsTheEnd(Join(front, SPACE), m.superOptions);
  }

  lemma StripsTheEnd(front: Str, last: Str)
    ensures StripReturn(front + [SPACE] + last) == front + [SPACE] + StripReturn(last)
    ensures Word(last) ==> Word(StripReturn(last))
  {
    var s := front + [SPACE] + last;
    if last != [] { assert s[..|s| - 1] == front + [SPACE] + last[..|last| - 1]; }
  }

  lemma {:induction false} LinesOfPrinted(set_: set<byte>, mounts: seq<Mount>)
    requires Mangles(set_) && forall m | m in mounts :: Printable(m)
    ensures var lines := Lines(PrintText(set_, mounts));
            |lines| == |mounts| && forall i | 0 <= i < |lines| :: lines[i] == StripReturn(Print(set_, mounts[i]))
  {
    if mounts != [] {
      hide Print, Printable;
      LineIsWord(set_, mounts[0]);
      SplitHead(Print(set_, mounts[0]), PrintText(set_, mounts[1..]), NEWLINE);
      LinesOfPrinted(set_, mounts[1..]);
    }
  }

  lemma LineIsWord(set_: set<byte>, m: Mount)
    requires Mangles(set_) && Printable(m)
    ensures NEWLINE !in Print(set_, m)
  {
    FieldsAreWords(set_, m);
    JoinFree(Fields(set_, m), NEWLINE);
  }

  /** What follows the last newline is a line as it stands. */
  lemma LastLine(text: Str)
    requires text != [] && NEWLINE !in text
    ensures Lines(text) == [text]
  {
    SplitFree(text, NEWLINE);
  }

  // ---- Filtering ----------------------------------------------------------------------------

  /** On the target: by the filesystem's own device number, or by its source's. */
  predicate OnTarget(info: MountInfo, devts: set<(nat, nat)>, resolve: map<Str, (nat, nat)>)
  {
    || (info.major, info.minor) in devts
    || (info.source.Some? && info.source.value in resolve && resolve[info.source.value] in devts)
  }

  function FilterLines(lines: seq<Str>, devts: set<(nat, nat)>, resolve: map<Str, (nat, nat)>): seq<MountInfo>
  {
    if lines == [] then []
    else
      var before, info := FilterLines(lines[..|lines| - 1], devts, resolve), ParseLine(lines[|lines| - 1]);
      if info.Some? && OnTarget(info.value, devts, resolve) then before + [info.value] else before
  }

  /** `filter_mountinfo`. */
  method FilterMountinfo(text: Str, devts: set<(nat, nat)>, resolve: map<Str, (nat, nat)>) returns (out: seq<MountInfo>)
    ensures out == FilterLines(Lines(text), devts, resolve)
  {
    var lines := Lines(text);
    out := [];
    for i := 0 to |lines|
      invariant out == FilterLines(lines[..i], devts, resolve)
    {
      assert lines[..i + 1][..i] == lines[..i];
      var info := ParseMountinfoLine(lines[i]);
      if info.Some? && OnTarget(info.value, devts, resolve) { out := out + [info.value]; }
    }
    assert lines[..|lines|] == lines;
  }

  /** In the entry's own terms; an entry without a source is judged by its device number alone. */
  lemma OnTargetMeans(info: MountInfo, devts: set<(nat, nat)>, resolve: map<Str, (nat, nat)>)
    ensures OnTarget(info, devts, resolve) <==>
      (info.major, info.minor) in devts
      || exists s :: info.source == Some(s) && s in resolve && resolve[s] in devts
  {
    if info.source.Some? { assert info.source == Some(info.source.value); }
  }

  /** The mounts a filter must return, read off the kernel's own table. */
  function OnTargetOf(mounts: seq<Mount>, devts: set<(nat, nat)>, resolve: map<Str, (nat, nat)>): seq<MountInfo>
  {
    if mounts == [] then []
    else
      var before, m := OnTargetOf(mounts[..|mounts| - 1], devts, resolve), mounts[|mounts| - 1];
      if (m.major, m.minor) in devts || (m.source in resolve && resolve[m.source] in devts)
      then before + [InfoOf(m)] else before
  }

  lemma {:induction false} FilterPrinted(set_: set<byte>, mounts: seq<Mount>, lines: seq<Str>,
                                         devts: set<(nat, nat)>, resolve: map<Str, (nat, nat)>)
    requires Mangles(set_) && (forall m | m in mounts :: Printable(m)) && |lines| == |mounts|
    requires forall i | 0 <= i < |lines| :: lines[i] == StripReturn(Print(set_, mounts[i]))
    ensures FilterLines(lines, devts, resolve) == OnTargetOf(mounts, devts, resolve)
  {
    hide Print, Printable, ParseLine, StripReturn;
    if mounts != [] {
      var n := |mounts| - 1;
      FilterPrinted(set_, mounts[..n], lines[..n], devts, resolve);
      StripPrinted(set_, mounts[n]);
      ParseUndoesPrint(set_, mounts[n].(superOptions := StripReturn(mounts[n].superOptions)));
    }
  }

  /** End to end: from the text the kernel prints for any mount table, the filter returns exactly
      the mounts on the target, in table order, with their paths decoded. */
  lemma FilterUndoesPrintText(set_: set<byte>, mounts: seq<Mount>, devts: set<(nat, nat)>,
                              resolve: map<Str, (nat, nat)>)
    requires Mangles(set_) && forall m | m in mounts :: Printable(m)
    ensures FilterLines(Lines(PrintText(set_, mounts)), devts, resolve) == OnTargetOf(mounts, devts, resolve)
  {
    hide Printable, Print, Lines;
    LinesOfPrinted(set_, mounts);
    FilterPrinted(set_, mounts, Lines(PrintText(set_, mounts)), devts, resolve);
  }

  // ---- The longest mount prefix -------------------------------------------------------------

  const SLASH: byte := 47
  const DOT: byte := 46

  /** `Path::components`: empty and `.` parts vanish, a leading `/` is a component of its own, and a
      leading `.` of a relative path is kept. */
  function Components(p: Str): seq<Str>
  {
    if p != [] && p[0] == SLASH then [[SLASH]] + Kept(Split(p, SLASH), false) else Kept(Split(p, SLASH), true)
  }

  function Kept(parts: seq<Str>, first: bool): seq<Str>
  {
    if parts == [] then []
    else if parts[0] == [] || (parts[0] == [DOT] && !first) then Kept(parts[1..], false)
    else [parts[0]] + Kept(parts[1..], false)
  }

  predicate PathWord(w: Str) { w != [] && w != [DOT] && SLASH !in w }

  lemma {:induction false} KeepsWords(words: seq<Str>, first: bool)
    requires forall w | w in words :: PathWord(w)
    ensures Kept(words, first) == words
  {
    if words != [] {
      assert PathWord(words[0]);
      KeepsWords(words[1..], false);
      assert words == [words[0]] + words[1..];
    }
  }

  lemma ComponentsSpelled(words: seq<Str>)
    requires forall w | w in words :: Free(w, SLASH)
    ensures Components([SLASH] + Join(words, SLASH)) == [[SLASH]] + Kept(words, false)
  {
    var rest := Join(words, SLASH);
    SplitHead([], rest, SLASH);
    assert [] + [SLASH] + rest == [SLASH] + rest;
    if words == [] {
      var empty: seq<Str> := [[]];
      assert Split(rest, SLASH) == empty && (empty + empty)[1..] == empty && empty[1..] == [];
      assert Kept(empty, false) == [] && Kept(empty + empty, false) == [];
    } else {
      SplitJoin(words, SLASH);
      assert ([[]] + words)[1..] == words;
    }
  }

  /** The components of an absolute path are the root and the words it is spelled from; */
  lemma ComponentsOfAbsolute(words: seq<Str>)
    requires forall w | w in words :: PathWord(w)
    ensures Components([SLASH] + Join(words, SLASH)) == [[SLASH]] + words
  {
    forall w | w in words ensures Free(w, SLASH) { assert PathWord(w); }
    ComponentsSpelled(words);
    KeepsWords(words, false);
  }

  /** a `.` in it, or one slash too many, makes no difference; */
  lemma ComponentsSkipDots(left: seq<Str>, w: Str, right: seq<Str>)
    requires w == [] || w == [DOT]
    requires (forall v | v in left :: Free(v, SLASH)) && forall v | v in right :: Free(v, SLASH)
    ensures Components([SLASH] + Join(left + [w] + right, SLASH)) == Components([SLASH] + Join(left + right, SLASH))
  {
    ComponentsSpelled(left + [w] + right);
    ComponentsSpelled(left + right);
    KeptSkipsDots(left, w, right);
  }

  lemma {:induction false} KeptSkipsDots(left: seq<Str>, w: Str, right: seq<Str>)
    requires w == [] || w == [DOT]
    ensures Kept(left + [w] + right, false) == Kept(left + right, false)
  {
    if left == [] {
      assert [] + [w] + right == [w] + right && ([w] + right)[1..] == right && [] + right == right;
    } else {
      KeptSkipsDots(left[1..], w, right);
      assert (left + [w] + right)[1..] == left[1..] + [w] + right && (left + right)[1..] == left[1..] + right;
    }
  }

  /** and a relative path keeps its first word, a `.` too. */
  lemma ComponentsOfRelative(first: Str, words: seq<Str>)
    requires first != [] && SLASH !in first && forall w | w in words :: PathWord(w)
    ensures Components(Join([first] + words, SLASH)) == [first] + words
  {
    forall w | w in words ensures Free(w, SLASH) { assert PathWord(w); }
    SplitJoin([first] + words, SLASH);
    assert Join([first] + words, SLASH)[0] == first[0] && first[0] in first;
    KeepsWords(words, false);
    assert ([first] + words)[1..] == words;
  }

  /** So one mount point contains another's paths exactly when its words come first: the root contains
      every absolute path, and no word is split. */
  lemma PrefixOfAbsolute(mount: seq<Str>, path: seq<Str>)
    requires (forall w | w in mount :: PathWord(w)) && forall w | w in path :: PathWord(w)
    ensures Components([SLASH] + Join(mount, SLASH)) <= Components([SLASH] + Join(path, SLASH)) <==> mount <= path
  {
    ComponentsOfAbsolute(mount);
    ComponentsOfAbsolute(path);
    var a, b := [[SLASH]] + mount, [[SLASH]] + path;
    assert a[1..] == mount && b[1..] == path;
    if a <= b { assert mount == b[..|a|][1..] == path[..|mount|]; }
  }

  /** Line `i` names a mount that carries a source and contains the path. */
  predicate Candidate(lines: seq<Str>, path: Str, i: nat)
    requires i < |lines|
  {
    var info := ParseLine(lines[i]);
    info.Some? && info.value.source.Some? && Components(info.value.target) <= Components(path)
  }

  function Depth(line: Str): nat
  {
    if ParseLine(line).Some? then |Components(ParseLine(line).value.target)| else 0
  }

  /** Line `i` is the last of the deepest candidates among the first `n` lines. */
  predicate LastDeepest(lines: seq<Str>, path: Str, n: nat, i: nat)
    requires n <= |lines|
  {
    && i < n && Candidate(lines, path, i)
    && forall j: nat | j < n && Candidate(lines, path, j) ::
         Depth(lines[j]) <= Depth(lines[i]) && (i < j ==> Depth(lines[j]) < Depth(lines[i]))
  }

  /** `source_of_longest_mount_prefix`: the source of the last line among the deepest candidates. */
  method SourceOfLongestMountPrefix(text: Str, path: Str) returns (r: Option<Str>)
    ensures var lines := Lines(text);
            match r
            case Some(source) =>
              exists i: nat :: LastDeepest(lines, path, |lines|, i) && ParseLine(lines[i]).value.source == Some(source)
            case None => forall i: nat | i < |lines| :: !Candidate(lines, path, i)
  {
    hide ParseLine, Components, Lines;
    var lines := Lines(text);
    var best: Option<(nat, Str)> := None;
    ghost var at: nat := 0;
    for i := 0 to |lines|
      invariant best.None? ==> forall j: nat | j < i :: !Candidate(lines, path, j)
      invariant best.Some? ==>
        LastDeepest(lines, path, i, at) && best.value == (Depth(lines[at]), ParseLine(lines[at]).value.source.value)
    {
      var info := ParseMountinfoLine(lines[i]);
      if info.Some? && info.value.source.Some? && Components(info.value.target) <= Components(path) {
        var depth := |Components(info.value.target)|;
        if best.None? || depth >= best.value.0 {
          best := Some((depth, info.value.source.value));
          at := i;
        }
      }
    }
    r := if best.Some? then Some(best.value.1) else None;
  }

  /** Candidates of equal depth name the same mount point, so the last one is the one in view. */
  lemma EqualDepthSamePlace(lines: seq<Str>, path: Str, i: nat, j: nat)
    requires i < |lines| && j < |lines| && Candidate(lines, path, i) && Candidate(lines, path, j)
    requires Depth(lines[i]) == Depth(lines[j])
    ensures Components(ParseLine(lines[i]).value.target) == Components(ParseLine(lines[j]).value.target)
  {
    hide ParseLine, Components;
    var p, q := Components(ParseLine(lines[i]).value.target), Components(ParseLine(lines[j]).value.target);
    assert p == Components(path)[..|p|] && q == Components(path)[..|q|];
  }

  // ---- Unmounting ---------------------------------------------------------------------------

  /** `q` is mounted strictly below `p`; both are canonical absolute paths. */
  predicate Below(q: Str, p: Str)
  {
    |p| < |q| && (if p == [SLASH] then q[0] == SLASH else p + [SLASH] <= q)
  }

  /** Inserts before the first element that is no longer: keeps a stable, longest-first order. */
  function InsertByLength(m: MountInfo, sorted: seq<MountInfo>): seq<MountInfo>
  {
    if sorted == [] || |sorted[0].target| <= |m.target| then [m] + sorted
    else [sorted[0]] + InsertByLength(m, sorted[1..])
  }

  /** `deepest_first`: a stable sort on `Reverse(target.len())`. */
  function DeepestFirst(mounts: seq<MountInfo>): seq<MountInfo>
  {
    if mounts == [] then [] else InsertByLength(mounts[0], DeepestFirst(mounts[1..]))
  }

  ghost predicate LongestFirst(s: seq<MountInfo>)
  {
    forall i, j | 0 <= i < j < |s| :: |s[j].target| <= |s[i].target|
  }

  lemma {:induction false} InsertSorts(m: MountInfo, s: seq<MountInfo>)
    requires LongestFirst(s)
    ensures LongestFirst(InsertByLength(m, s))
    ensures multiset(InsertByLength(m, s)) == multiset(s) + multiset{m}
  {
    if s == [] || |s[0].target| <= |m.target| {
      assert ([m] + s)[1..] == s;
    } else {
      InsertSorts(m, s[1..]);
      var r := InsertByLength(m, s[1..]);
      assert s == [s[0]] + s[1..];
      forall j | 0 <= j < |r| ensures |r[j].target| <= |s[0].target| { Inserted(m, s[1..], r, j); }
    }
  }

  lemma Inserted(m: MountInfo, s: seq<MountInfo>, r: seq<MountInfo>, j: nat)
    requires multiset(r) == multiset(s) + multiset{m} && j < |r|
    ensures r[j] == m || r[j] in s
  {
    assert r[j] in multiset(r);
  }

  /** The order is a permutation of the input, longest path first, and equally long paths keep the
      order they had. */
  lemma {:induction false} DeepestFirstSorts(mounts: seq<MountInfo>)
    ensures LongestFirst(DeepestFirst(mounts)) && multiset(DeepestFirst(mounts)) == multiset(mounts)
    ensures forall n: nat :: OfLength(DeepestFirst(mounts), n) == OfLength(mounts, n)
  {
    if mounts != [] {
      DeepestFirstSorts(mounts[1..]);
      InsertSorts(mounts[0], DeepestFirst(mounts[1..]));
      assert mounts == [mounts[0]] + mounts[1..];
      forall n: nat ensures OfLength(DeepestFirst(mounts), n) == OfLength(mounts, n) {
        InsertIsStable(mounts[0], DeepestFirst(mounts[1..]), n);
      }
    }
  }

  /** The elements with paths of one length, in order. */
  function OfLength(s: seq<MountInfo>, n: nat): seq<MountInfo>
  {
    if s == [] then [] else (if |s[0].target| == n then [s[0]] else []) + OfLength(s[1..], n)
  }

  lemma OfLengthCons(m: MountInfo, s: seq<MountInfo>, n: nat)
    ensures OfLength([m] + s, n) == (if |m.target| == n then [m] else []) + OfLength(s, n)
  {
    assert ([m] + s)[1..] == s;
  }

  lemma {:induction false} InsertIsStable(m: MountInfo, s: seq<MountInfo>, n: nat)
    ensures OfLength(InsertByLength(m, s), n) == (if |m.target| == n then [m] else []) + OfLength(s, n)
  {
    if s == [] || |s[0].target| <= |m.target| {
      OfLengthCons(m, s, n);
    } else {
      InsertIsStable(m, s[1..], n);
      OfLengthCons(s[0], InsertByLength(m, s[1..]), n);
    }
  }

  /** A mount never comes before one below it. */
  lemma NoParentFirst(mounts: seq<MountInfo>, i: nat, j: nat)
    requires i < j < |DeepestFirst(mounts)|
    ensures !Below(DeepestFirst(mounts)[j].target, DeepestFirst(mounts)[i].target)
  {
    DeepestFirstSorts(mounts);
  }

  /** The kernel's mount table: how often each path is mounted, and which mounts have files open. */
  class KernelMounts {
    var mounted: multiset<Str>
    const inUse: set<Str>

    constructor (mounted: multiset<Str>, inUse: set<Str>)
      ensures this.mounted == mounted && this.inUse == inUse
    {
      this.mounted, this.inUse := mounted, inUse;
    }

    /** `umount2(path, 0)`: refuses what is not mounted, has something mounted below it, or is in
        use; otherwise takes one mount away. */
    method Umount(path: Str) returns (ok: bool)
      modifies this
      ensures ok <==> path in old(mounted) && path !in inUse && !(exists q :: q in old(mounted) && Below(q, path))
      ensures mounted == if ok then old(mounted) - multiset{path} else old(mounted)
    {
      if path !in mounted || path in inUse || exists q | q in mounted :: Below(q, path) { return false; }
      mounted := mounted - multiset{path};
      return true;
    }
  }

  /** How many of the mounts are on path `q`. */
  function Count(s: seq<MountInfo>, q: Str): nat
  {
    if s == [] then 0 else (if s[0].target == q then 1 else 0) + Count(s[1..], q)
  }

  lemma {:induction false} CountInsert(m: MountInfo, s: seq<MountInfo>, q: Str)
    ensures Count(InsertByLength(m, s), q) == (if m.target == q then 1 else 0) + Count(s, q)
  {
    if s == [] || |s[0].target| <= |m.target| {
      assert ([m] + s)[1..] == s;
    } else {
      CountInsert(m, s[1..], q);
      var r := InsertByLength(m, s[1..]);
      assert ([s[0]] + r)[1..] == r;
    }
  }

  lemma {:induction false} CountSorted(mounts: seq<MountInfo>, q: Str)
    ensures Count(DeepestFirst(mounts), q) == Count(mounts, q)
  {
    if mounts != [] {
      CountSorted(mounts[1..], q);
      CountInsert(mounts[0], DeepestFirst(mounts[1..]), q);
    }
  }

  lemma {:induction false} CountSplit(s: seq<MountInfo>, i: nat, q: Str)
    requires i <= |s|
    ensures Count(s, q) == Count(s[..i], q) + Count(s[i..], q)
  {
    if i > 0 {
      CountSplit(s[1..], i - 1, q);
      assert s[..i][1..] == s[1..][..i - 1] && s[i..] == s[1..][i - 1..];
    }
  }

  lemma CountNext(s: seq<MountInfo>, i: nat, q: Str)
    requires i < |s|
    ensures Count(s[..i + 1], q) == Count(s[..i], q) + (if s[i].target == q then 1 else 0)
    ensures Count(s[..i + 1], q) <= Count(s, q)
  {
    CountSplit(s, i + 1, q);
    CountSplit(s[..i + 1], i, q);
    assert s[..i + 1][..i] == s[..i] && s[..i + 1][i..] == [s[i]];
    assert [s[i]][1..] == [];
  }

  /** A path longer than every path in the list is not in it. */
  lemma {:induction false} NoLongerLeft(s: seq<MountInfo>, n: nat, q: Str)
    requires |q| > n && forall m | m in s :: |m.target| <= n
    ensures Count(s, q) == 0
  {
    if s != [] {
      assert s[0] in s;
      NoLongerLeft(s[1..], n, q);
    }
  }

  /** The mounts to go are mounted, none is in use, and whatever is mounted below one of them is to
      go as often as it is mounted. */
  ghost predicate Removable(mounts: seq<MountInfo>, mounted: multiset<Str>, inUse: set<Str>)
  {
    && (forall q :: Count(mounts, q) <= mounted[q])
    && (forall m | m in mounts :: m.target !in inUse)
    && forall m, q | m in mounts && q in mounted && Below(q, m.target) :: Count(mounts, q) == mounted[q]
  }

  /** Everything below the `i`-th mount of a longest-first list comes before it in the list. */
  lemma BelowIsEarlier(s: seq<MountInfo>, i: nat, q: Str)
    requires i < |s| && LongestFirst(s) && Below(q, s[i].target)
    ensures Count(s[..i], q) == Count(s, q)
  {
    CountSplit(s, i, q);
    forall m | m in s[i..] ensures |m.target| <= |s[i].target| {
      var j :| 0 <= j < |s[i..]| && s[i..][j] == m;
      assert m == s[i + j];
    }
    NoLongerLeft(s[i..], |s[i].target|, q);
  }

  /** The next mount of a longest-first list can go: it is mounted, and nothing is left below it. */
  lemma NextCanGo(s: seq<MountInfo>, i: nat, mounted: multiset<Str>, left: multiset<Str>, inUse: set<Str>)
    requires i < |s| && LongestFirst(s) && Removable(s, mounted, inUse)
    requires Left(s, i, mounted, left)
    ensures s[i].target in left && s[i].target !in inUse
    ensures !(exists q :: q in left && Below(q, s[i].target))
  {
    CountNext(s, i, s[i].target);
    assert s[i] in s;
    forall q | Below(q, s[i].target) ensures q !in left {
      BelowIsEarlier(s, i, q);
      assert Count(s[..i], q) <= mounted[q];
    }
  }

  /** The first `i` unmounts of `s` met nothing in use and left nothing below behind. */
  ghost predicate WentThrough(s: seq<MountInfo>, i: nat, mounted: multiset<Str>, inUse: set<Str>)
  {
    && i <= |s|
    && forall j | 0 <= j < i :: s[j].target !in inUse && GoneBelow(s, j, mounted)
  }

  ghost predicate GoneBelow(s: seq<MountInfo>, j: nat, mounted: multiset<Str>)
    requires j < |s|
  {
    forall q | q in mounted && Below(q, s[j].target) :: Count(s[..j], q) == mounted[q]
  }

  lemma WentThroughIsRemovable(s: seq<MountInfo>, mounted: multiset<Str>, inUse: set<Str>)
    requires WentThrough(s, |s|, mounted, inUse) && forall q :: Count(s, q) <= mounted[q]
    ensures Removable(s, mounted, inUse)
  {
    forall m, q | m in s && q in mounted && Below(q, m.target) ensures Count(s, q) == mounted[q] {
      var j :| 0 <= j < |s| && s[j] == m;
      assert GoneBelow(s, j, mounted);
      CountSplit(s, j, q);
    }
  }

  /** `unmount_all`: stops at the first refusal, having unmounted what came before it. It meets none
      exactly when the set takes everything mounted below it along and none of it is in use,
      overmounts included; then it takes away exactly that set. */
  method UnmountAll(mounts: seq<MountInfo>, kernel: KernelMounts) returns (refused: Option<Str>)
    modifies kernel
    ensures refused.None? <==> Removable(mounts, old(kernel.mounted), kernel.inUse)
    ensures refused.Some? ==>
      exists i :: 0 <= i < |DeepestFirst(mounts)| && refused.value == DeepestFirst(mounts)[i].target
                  && Left(DeepestFirst(mounts), i, old(kernel.mounted), kernel.mounted)
    ensures refused.None? ==> forall q :: kernel.mounted[q] == old(kernel.mounted)[q] - Count(mounts, q)
  {
    hide Below, DeepestFirst, Removable, WentThrough, Count;
    var sorted := DeepestFirst(mounts);
    ghost var before := kernel.mounted;
    SortKeepsRemovable(mounts, before, kernel.inUse);
    Untouched(sorted, before, kernel.inUse);
    for i := 0 to |sorted|
      invariant Left(sorted, i, before, kernel.mounted)
      invariant WentThrough(sorted, i, before, kernel.inUse)
    {
      ghost var left := kernel.mounted;
      if Removable(sorted, before, kernel.inUse) { NextCanGo(sorted, i, before, left, kernel.inUse); }
      var ok := kernel.Umount(sorted[i].target);
      if !ok { return Some(sorted[i].target); }
      OneGone(sorted, i, before, left, kernel.mounted, kernel.inUse);
    }
    AllGone(sorted, before, kernel.mounted, kernel.inUse);
    return None;
  }

  /** What is still mounted after the first `i` unmounts of `s`. */
  ghost predicate Left(s: seq<MountInfo>, i: nat, before: multiset<Str>, left: multiset<Str>)
  {
    i <= |s| && forall q :: left[q] == before[q] - Count(s[..i], q)
  }

  lemma Untouched(s: seq<MountInfo>, before: multiset<Str>, inUse: set<Str>)
    ensures Left(s, 0, before, before) && WentThrough(s, 0, before, inUse)
  {
  }

  lemma OneGone(s: seq<MountInfo>, i: nat, before: multiset<Str>, left: multiset<Str>, after: multiset<Str>,
                inUse: set<Str>)
    requires i < |s| && Left(s, i, before, left) && WentThrough(s, i, before, inUse)
    requires s[i].target in left && s[i].target !in inUse && after == left - multiset{s[i].target}
    requires !(exists q :: q in left && Below(q, s[i].target))
    ensures Left(s, i + 1, before, after) && WentThrough(s, i + 1, before, inUse)
  {
    hide Below;
    forall q ensures after[q] == before[q] - Count(s[..i + 1], q) { CountNext(s, i, q); }
    assert GoneBelow(s, i, before) by {
      forall q | q in before && Below(q, s[i].target) ensures Count(s[..i], q) == before[q] { assert q !in left; }
    }
  }

  lemma AllGone(s: seq<MountInfo>, before: multiset<Str>, left: multiset<Str>, inUse: set<Str>)
    requires Left(s, |s|, before, left) && WentThrough(s, |s|, before, inUse)
    ensures Removable(s, before, inUse) && forall q :: left[q] == before[q] - Count(s, q)
  {
    hide Below;
    assert s[..|s|] == s;
    forall q ensures Count(s, q) <= before[q] { assert left[q] == before[q] - Count(s, q); }
    WentThroughIsRemovable(s, before, inUse);
  }

  lemma SortKeepsRemovable(mounts: seq<MountInfo>, mounted: multiset<Str>, inUse: set<Str>)
    ensures LongestFirst(DeepestFirst(mounts))
    ensures forall q :: Count(DeepestFirst(mounts), q) == Count(mounts, q)
    ensures Removable(mounts, mounted, inUse) <==> Removable(DeepestFirst(mounts), mounted, inUse)
  {
    DeepestFirstSorts(mounts);
    forall q ensures Count(DeepestFirst(mounts), q) == Count(mounts, q) { CountSorted(mounts, q); }
    forall m ensures m in DeepestFirst(mounts) <==> m in mounts {
      assert m in multiset(DeepestFirst(mounts)) <==> m in multiset(mounts);
    }
  }

  /** In particular, handed the whole of a table it empties the table. */
  lemma WholeTableIsEmptied(mounts: seq<MountInfo>, mounted: multiset<Str>, inUse: set<Str>, left: multiset<Str>)
    requires (forall q :: Count(mounts, q) == mounted[q]) && forall m | m in mounts :: m.target !in inUse
    requires forall q :: left[q] == mounted[q] - Count(mounts, q)
    ensures Removable(mounts, mounted, inUse) && left == multiset{}
  {
  }
}
