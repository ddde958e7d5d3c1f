/** The text half of `common/mount.rs`: the octal decoder and the mountinfo parser, proved to undo
    the kernel's printer (proc(5), /proc/pid/mountinfo). Strings are byte strings. */
module MountText {
  import opened Options
  import opened Bytes
  import opened Geometry

  type Str = seq<byte>

  const TAB: byte := 9
  const NEWLINE: byte := 10
  const RETURN: byte := 13
  const SPACE: byte := 32
  const PLUS: byte := 43
  const DASH: byte := 45
  const ZERO: byte := 48
  const COLON: byte := 58
  const BACKSLASH: byte := 92

  // ---- Octal escapes ------------------------------------------------------------------------

  predicate IsOctal(b: byte) { ZERO <= b < ZERO + 8 }

  /** The value of `\\ooo` at the front of `s`, when it is one and names a byte. */
  function EscapeAt(s: Str): Option<byte>
  {
    if |s| >= 4 && s[0] == BACKSLASH && IsOctal(s[1]) && IsOctal(s[2]) && IsOctal(s[3]) then
      var v := (s[1] - ZERO) * 64 + (s[2] - ZERO) * 8 + (s[3] - ZERO);
      if v < 256 then Some(v) else None
    else None
  }

  function Unescape(s: Str): Str
  {
    if s == [] then []
    else match EscapeAt(s)
      case Some(b) => [b] + Unescape(s[4..])
      case None => [s[0]] + Unescape(s[1..])
  }

  /** `unescape_proc_octal`, on bytes. */
  method UnescapeProcOctal(s: Str) returns (out: Str)
    ensures out == Unescape(s)
  {
    out := [];
    var rest := s;
    while rest != []
      invariant out + Unescape(rest) == Unescape(s)
      decreases |rest|
    {
      var e := EscapeAt(rest);
      if e.Some? {
        assert out + Unescape(rest) == (out + [e.value]) + Unescape(rest[4..]);
        out, rest := out + [e.value], rest[4..];
      } else {
        assert out + Unescape(rest) == (out + [rest[0]]) + Unescape(rest[1..]);
        out, rest := out + [rest[0]], rest[1..];
      }
    }
  }

  /** The kernel's side: three octal digits for every byte of the escape set. */
  function EscapeByte(set_: set<byte>, b: byte): Str
  {
    if b in set_ then [BACKSLASH, ZERO + b / 64, ZERO + b / 8 % 8, ZERO + b % 8] else [b]
  }

  function Escape(set_: set<byte>, s: Str): Str
  {
    if s == [] then [] else EscapeByte(set_, s[0]) + Escape(set_, s[1..])
  }

  /** An escape set a mountinfo printer may use. */
  predicate Mangles(set_: set<byte>) { {SPACE, TAB, NEWLINE, BACKSLASH} <= set_ }

  lemma OctalDigits(b: byte)
    ensures EscapeAt([BACKSLASH, ZERO + b / 64, ZERO + b / 8 % 8, ZERO + b % 8]) == Some(b)
  {
  }

  /** Decoding undoes escaping, for every byte string and every escape set with a backslash in it. */
  lemma {:induction false} UnescapeEscape(set_: set<byte>, s: Str)
    requires BACKSLASH in set_
    ensures Unescape(Escape(set_, s)) == s
  {
    if s != [] {
      var head, tail := EscapeByte(set_, s[0]), Escape(set_, s[1..]);
      UnescapeEscape(set_, s[1..]);
      if s[0] in set_ {
        OctalDigits(s[0]);
        assert (head + tail)[..4] == head && (head + tail)[4..] == tail;
        assert EscapeAt(head + tail) == EscapeAt(head);
      } else {
        assert (head + tail)[1..] == tail && (head + tail)[0] != BACKSLASH;
      }
    }
  }

  /** A string without a backslash stands for itself. */
  lemma {:induction false} UnescapePlain(s: Str)
    requires BACKSLASH !in s
    ensures Unescape(s) == s
  {
    if s != [] {
      assert s[0] in s;
      UnescapePlain(s[1..]);
      assert s == [s[0]] + s[1..];
    }
  }

  /** A backslash that no three octal digits of a byte follow stays as it is. */
  lemma UnescapeMalformed(s: Str)
    requires s != [] && s[0] == BACKSLASH
    requires |s| < 4 || !('0' as int <= s[1] <= '7' as int) || !('0' as int <= s[2] <= '7' as int)
             || !('0' as int <= s[3] <= '7' as int) || s[1] > '3' as int
    ensures Unescape(s) == [BACKSLASH] + Unescape(s[1..])
  {
  }

  /** An escaped field never holds a byte of the escape set that is neither a backslash nor a digit. */
  lemma {:induction false} EscapeAvoids(set_: set<byte>, s: Str, b: byte)
    requires b in set_ && b != BACKSLASH && !IsOctal(b)
    ensures b !in Escape(set_, s)
  {
    if s != [] { EscapeAvoids(set_, s[1..], b); }
  }

  // ---- Splitting ----------------------------------------------------------------------------

  /** `str::split`: never empty, and keeps empty fields. */
  function Split(s: Str, sep: byte): (r: seq<Str>)
    ensures r != []
  {
    if s == [] then [[]]
    else
      var rest := Split(s[1..], sep);
      if s[0] == sep then [[]] + rest else [[s[0]] + rest[0]] + rest[1..]
  }

  function Join(fields: seq<Str>, sep: byte): Str
  {
    if fields == [] then [] else if |fields| == 1 then fields[0] else fields[0] + [sep] + Join(fields[1..], sep)
  }

  predicate Free(s: Str, sep: byte) { sep !in s }

  lemma {:induction false} SplitHead(head: Str, rest: Str, sep: byte)
    requires Free(head, sep)
    ensures Split(head + [sep] + rest, sep) == [head] + Split(rest, sep)
  {
    var s := head + [sep] + rest;
    if head == [] {
      assert s[1..] == rest;
    } else {
      assert s[0] == head[0] && head[0] in head;
      assert s[1..] == head[1..] + [sep] + rest;
      SplitHead(head[1..], rest, sep);
      assert [head[0]] + head[1..] == head;
    }
  }

  lemma {:induction false} SplitFree(s: Str, sep: byte)
    requires Free(s, sep)
    ensures Split(s, sep) == [s]
  {
    if s != [] {
      SplitFree(s[1..], sep);
      assert s[0] in s && [s[0]] + s[1..] == s;
    }
  }

  /** Splitting undoes joining fields that do not hold the separator. */
  lemma {:induction false} SplitJoin(fields: seq<Str>, sep: byte)
    requires fields != [] && forall f | f in fields :: Free(f, sep)
    ensures Split(Join(fields, sep), sep) == fields
  {
    if |fields| == 1 {
      SplitFree(fields[0], sep);
    } else {
      SplitJoin(fields[1..], sep);
      SplitHead(fields[0], Join(fields[1..], sep), sep);
    }
  }

  // ---- Numbers ------------------------------------------------------------------------------

  predicate IsDigit(b: byte) { ZERO <= b < ZERO + 10 }

  function Value(s: Str): nat
    requires forall b | b in s :: IsDigit(b)
  {
    if s == [] then 0
    else
      var last := s[|s| - 1];
      assert last in s && IsDigit(last);
      10 * Value(s[..|s| - 1]) + (last - ZERO)
  }

  /** `str::parse::<u64>`: an optional plus sign, then one or more digits, in range. */
  function ParseU64(s: Str): Option<nat>
  {
    var digits := if s != [] && s[0] == PLUS then s[1..] else s;
    if digits != [] && (forall b | b in digits :: IsDigit(b)) && Value(digits) <= U64_MAX
    then Some(Value(digits)) else None
  }

  function PrintNat(n: nat): (s: Str)
    ensures s != [] && forall b | b in s :: IsDigit(b)
  {
    if n < 10 then [ZERO + n] else PrintNat(n / 10) + [ZERO + n % 10]
  }

  lemma {:induction false} ParsePrint(n: nat)
    ensures Value(PrintNat(n)) == n
    ensures ParseU64(PrintNat(n)) == if n <= U64_MAX then Some(n) else None
  {
    var s := PrintNat(n);
    assert s[0] in s;
    if n < 10 {
      assert s[..|s| - 1] == [];
    } else {
      ParsePrint(n / 10);
      assert s[..|s| - 1] == PrintNat(n / 10);
    }
  }

  /** `split_once(':')`. */
  function SplitColon(s: Str): Option<(Str, Str)>
  {
    if s == [] then None
    else if s[0] == COLON then Some(([], s[1..]))
    else match SplitColon(s[1..])
      case None => None
      case Some((a, b)) => Some(([s[0]] + a, b))
  }

  lemma {:induction false} SplitColonAt(a: Str, b: Str)
    requires COLON !in a
    ensures SplitColon(a + [COLON] + b) == Some((a, b))
  {
    var s := a + [COLON] + b;
    if a == [] {
      assert s[1..] == b;
    } else {
      assert s[0] == a[0] && a[0] in a;
      assert s[1..] == a[1..] + [COLON] + b;
      SplitColonAt(a[1..], b);
      assert [a[0]] + a[1..] == a;
    }
  }

  // ---- The parser ---------------------------------------------------------------------------

  datatype MountInfo = MountInfo(major: nat, minor: nat, target: Str, source: Option<Str>)

  /** Skips optional fields: the index just past the first `-`, or the end. */
  function AfterDash(fields: seq<Str>, i: nat): (j: nat)
    requires i <= |fields|
    ensures i <= j <= |fields|
    decreases |fields| - i
  {
    if i == |fields| then i else if fields[i] == [DASH] then i + 1 else AfterDash(fields, i + 1)
  }

  function ParseFields(fields: seq<Str>): Option<MountInfo>
  {
    if |fields| < 6 then None
    else
      var at := AfterDash(fields, 6);
      if at == |fields| then None  // no fstype
      else
        var source := if at + 1 < |fields| then Some(Unescape(fields[at + 1])) else None;
        match SplitColon(fields[2])
        case None => None
        case Some((a, b)) =>
          if ParseU64(a).None? || ParseU64(b).None? then None
          else Some(MountInfo(ParseU64(a).value, ParseU64(b).value, Unescape(fields[4]), source))
  }

  function ParseLine(line: Str): Option<MountInfo> { ParseFields(Split(line, SPACE)) }

  /** `parse_mountinfo_line`. */
  method ParseMountinfoLine(line: Str) returns (r: Option<MountInfo>)
    ensures r == ParseLine(line)
  {
    var fields := Split(line, SPACE);
    if |fields| < 6 { return None; }
    var at := 6;
    while at < |fields| && fields[at] != [DASH]
      invariant 6 <= at <= |fields|
      invariant AfterDash(fields, at) == AfterDash(fields, 6)
    {
      at := at + 1;
    }
    if at < |fields| { at := at + 1; }
    if at == |fields| { return None; }
    var source := None;
    if at + 1 < |fields| {
      var decoded := UnescapeProcOctal(fields[at + 1]);
      source := Some(decoded);
    }
    var devt := SplitColon(fields[2]);
    if devt.None? { return None; }
    var major, minor := ParseU64(devt.value.0), ParseU64(devt.value.1);
    if major.None? || minor.None? { return None; }
    var target := UnescapeProcOctal(fields[4]);
    return Some(MountInfo(major.value, minor.value, target, source));
  }

  /** Nothing but an optional plus sign and digits is a number. */
  lemma NotANumber(s: Str)
    requires s == [] || s == [PLUS] || (!IsDigit(s[0]) && s[0] != PLUS) || exists i :: 0 < i < |s| && !IsDigit(s[i])
    ensures ParseU64(s) == None
  {
    if s != [] && s != [PLUS] && (IsDigit(s[0]) || s[0] == PLUS) {
      var i :| 0 < i < |s| && !IsDigit(s[i]);
      var digits := if s[0] == PLUS then s[1..] else s;
      assert s[i] in digits by { if s[0] == PLUS { assert digits[i - 1] == s[i]; } }
    }
  }

  lemma {:induction false} SplitColonParts(s: Str)
    ensures SplitColon(s).Some? ==>
      COLON !in SplitColon(s).value.0 && s == SplitColon(s).value.0 + [COLON] + SplitColon(s).value.1
  {
    if s != [] && s[0] != COLON {
      SplitColonParts(s[1..]);
      assert s == [s[0]] + s[1..];
    } else if s != [] {
      assert s == [] + [COLON] + s[1..];
    }
  }

  /** Two numbers around a colon. */
  ghost predicate IsDevt(s: Str)
  {
    exists a, b :: s == a + [COLON] + b && COLON !in a && ParseU64(a).Some? && ParseU64(b).Some?
  }

  lemma DevtIff(s: Str)
    ensures IsDevt(s) <==>
      SplitColon(s).Some? && ParseU64(SplitColon(s).value.0).Some? && ParseU64(SplitColon(s).value.1).Some?
  {
    hide ParseU64;
    SplitColonParts(s);
    if IsDevt(s) {
      var a, b :| s == a + [COLON] + b && COLON !in a && ParseU64(a).Some? && ParseU64(b).Some?;
      SplitColonAt(a, b);
    }
  }

  lemma {:induction false} NoFstype(fields: seq<Str>, i: nat)
    requires i <= |fields|
    ensures AfterDash(fields, i) == |fields| <==> forall j | i <= j < |fields| - 1 :: fields[j] != [DASH]
    decreases |fields| - i
  {
    if i < |fields| && fields[i] != [DASH] { NoFstype(fields, i + 1); }
  }

  /** The lines that are skipped: too few fields, no file system type behind a `-`, or a device number
      that is not two numbers around a colon. */
  lemma ParseFailsIff(line: Str)
    ensures var fields := Split(line, SPACE);
            ParseLine(line).None? <==>
              || |fields| < 6
              || (forall j | 6 <= j < |fields| - 1 :: fields[j] != [DASH])
              || !IsDevt(fields[2])
  {
    var fields := Split(line, SPACE);
    if 6 <= |fields| {
      NoFstype(fields, 6);
      DevtIff(fields[2]);
    }
  }

  // ---- The kernel's printer -----------------------------------------------------------------

  /** One mount as the kernel knows it: paths are arbitrary bytes, the other fields are words. */
  datatype Mount = Mount(
    id: nat, parent: nat, major: nat, minor: nat, root: Str, target: Str, options: Str,
    tags: seq<Str>, fstype: Str, source: Str, superOptions: Str)

  predicate Word(s: Str) { SPACE !in s && NEWLINE !in s }

  predicate Printable(m: Mount)
  {
    && m.major <= U64_MAX && m.minor <= U64_MAX
    && Word(m.options) && Word(m.fstype) && Word(m.superOptions)
    && forall tag | tag in m.tags :: Word(tag) && tag != [DASH]
  }

  function Fields(set_: set<byte>, m: Mount): seq<Str>
  {
    [PrintNat(m.id), PrintNat(m.parent), PrintNat(m.major) + [COLON] + PrintNat(m.minor),
     Escape(set_, m.root), Escape(set_, m.target), m.options]
    + m.tags + [[DASH], m.fstype, Escape(set_, m.source), m.superOptions]
  }

  function Print(set_: set<byte>, m: Mount): Str { Join(Fields(set_, m), SPACE) }

  function InfoOf(m: Mount): MountInfo { MountInfo(m.major, m.minor, m.target, Some(m.source)) }

  lemma {:induction false} AfterDashSkips(fields: seq<Str>, tags: seq<Str>, i: nat)
    requires i + |tags| < |fields| && fields[i..i + |tags|] == tags && fields[i + |tags|] == [DASH]
    requires forall tag | tag in tags :: tag != [DASH]
    ensures AfterDash(fields, i) == i + |tags| + 1
  {
    if tags != [] {
      assert fields[i] == fields[i..i + |tags|][0] == tags[0] && tags[0] in tags;
      assert fields[i + 1..i + |tags|] == fields[i..i + |tags|][1..] == tags[1..];
      assert i + |tags| == (i + 1) + |tags[1..]|;
      assert forall tag | tag in tags[1..] :: tag in tags;
      AfterDashSkips(fields, tags[1..], i + 1);
    }
  }

  lemma FieldsAreWords(set_: set<byte>, m: Mount)
    requires Mangles(set_) && Printable(m)
    ensures forall f | f in Fields(set_, m) :: Word(f)
  {
    EscapeAvoids(set_, m.root, SPACE);
    EscapeAvoids(set_, m.root, NEWLINE);
    EscapeAvoids(set_, m.target, SPACE);
    EscapeAvoids(set_, m.target, NEWLINE);
    EscapeAvoids(set_, m.source, SPACE);
    EscapeAvoids(set_, m.source, NEWLINE);
  }

  lemma ParseDevt(major: nat, minor: nat)
    requires major <= U64_MAX && minor <= U64_MAX
    ensures SplitColon(PrintNat(major) + [COLON] + PrintNat(minor)) == Some((PrintNat(major), PrintNat(minor)))
    ensures ParseU64(PrintNat(major)) == Some(major) && ParseU64(PrintNat(minor)) == Some(minor)
  {
    SplitColonAt(PrintNat(major), PrintNat(minor));
    ParsePrint(major);
    ParsePrint(minor);
  }

  lemma ParseUndoesFields(set_: set<byte>, m: Mount)
    requires Mangles(set_) && Printable(m)
    ensures ParseFields(Fields(set_, m)) == Some(InfoOf(m))
  {
    hide Escape, PrintNat, ParseU64, SplitColon, Unescape;
    var fields := Fields(set_, m);
    assert fields[6..6 + |m.tags|] == m.tags;
    AfterDashSkips(fields, m.tags, 6);
    ParseDevt(m.major, m.minor);
    UnescapeEscape(set_, m.target);
    UnescapeEscape(set_, m.source);
  }

  /** Parsing a line the kernel printed returns the mount's device number, target and source. */
  lemma ParseUndoesPrint(set_: set<byte>, m: Mount)
    requires Mangles(set_) && Printable(m)
    ensures ParseLine(Print(set_, m)) == Some(InfoOf(m))
  {
    hide Escape, PrintNat, ParseFields;
    FieldsAreWords(set_, m);
    SplitJoin(Fields(set_, m), SPACE);
    ParseUndoesFields(set_, m);
  }
}
