/** Constants and small vocabulary shared by every other module. */

module Options {
  datatype Option<+T> = None | Some(value: T)
}

/** The compile-time constants of `common/aligned.rs`, `common/geometry.rs` and
    `common/throttle.rs`. `BUF_SIZE` stays symbolic: the only facts about it are the ones the
    crate itself asserts at compile time. */
module Geometry {
  const U64_MAX: nat := 0xFFFF_FFFF_FFFF_FFFF
  type u64 = n: nat | n <= U64_MAX

  const BUF_ALIGN: nat := 4096
  const NANOS: nat := 1_000_000_000

  type BufSize = n: nat | 0 < n && n % BUF_ALIGN == 0 && n * NANOS <= U64_MAX witness BUF_ALIGN
  const BUF_SIZE: BufSize

  const WIPE_REGION: nat := 1024 * 1024

  function Min(a: nat, b: nat): nat { if a <= b then a else b }

  lemma NextMultiple(k: nat, m: nat)
    ensures (k + 1) * m == k * m + m
  {
  }

  lemma ProductAtLeast(d: int, m: nat)
    requires 1 <= d
    ensures m <= d * m
  {
  }

  /** Euclidean division is unique. */
  lemma DivModUnique(x: nat, m: nat, q: nat, r: nat)
    requires 0 < m && r < m && x == q * m + r
    ensures x / m == q && x % m == r
  {
    var q', r' := x / m, x % m;
    assert x == q' * m + r';
    if q < q' {
      ProductAtLeast(q' - q, m);
    } else if q' < q {
      ProductAtLeast(q - q', m);
    }
  }

  /** How many whole buffers fit in `x` bytes. */
  function FullChunks(x: nat): (q: nat)
    ensures q * BUF_SIZE <= x < q * BUF_SIZE + BUF_SIZE
  {
    if x < BUF_SIZE then 0
    else
      var q := FullChunks(x - BUF_SIZE);
      NextMultiple(q, BUF_SIZE);
      q + 1
  }

  lemma FullChunksIs(x: nat, q: nat)
    ensures FullChunks(x) == x / BUF_SIZE
    ensures q * BUF_SIZE <= x <==> q <= FullChunks(x)
    ensures x < q * BUF_SIZE + BUF_SIZE <==> FullChunks(x) <= q
  {
    var p := FullChunks(x);
    DivModUnique(x, BUF_SIZE, p, x - p * BUF_SIZE);
    if p < q {
      Scale(p + 1, q, BUF_SIZE);
      NextMultiple(p, BUF_SIZE);
    } else if q < p {
      Scale(q + 1, p, BUF_SIZE);
      NextMultiple(q, BUF_SIZE);
    }
  }

  lemma Scale(a: nat, b: nat, k: nat)
    requires a <= b
    ensures a * k <= b * k
  {
    assert b * k - a * k == (b - a) * k;
  }

  lemma MultipleOf(k: nat)
    ensures (k * BUF_SIZE) / BUF_SIZE == k && (k * BUF_SIZE) % BUF_SIZE == 0
  {
    DivModUnique(k * BUF_SIZE, BUF_SIZE, k, 0);
  }
}

/** Byte strings and in-place overwriting. */
module Bytes {
  type byte = b: int | 0 <= b < 256

  /** `s` with the bytes from `at` on overwritten by `d`. */
  function Splice(s: seq<byte>, at: nat, d: seq<byte>): (r: seq<byte>)
    requires at + |d| <= |s|
    ensures |r| == |s|
  {
    s[..at] + d + s[at + |d|..]
  }

  lemma SpliceAt(s: seq<byte>, at: nat, d: seq<byte>, i: nat)
    requires at + |d| <= |s| && i < |s|
    ensures Splice(s, at, d)[i] == if at <= i < at + |d| then d[i - at] else s[i]
  {
  }

  /** Two adjacent overwrites are one. */
  lemma SpliceExtend(s: seq<byte>, d: seq<byte>, e: seq<byte>)
    requires |d| + |e| <= |s|
    ensures Splice(Splice(s, 0, d), |d|, e) == Splice(s, 0, d + e)
  {
  }

  lemma SplicePrefix(s: seq<byte>, d: seq<byte>)
    requires |d| <= |s|
    ensures Splice(s, 0, d)[..|d|] == d
  {
  }
}
