/** What a verification verdict means, whichever arm reached it. */
module VerifyMeaning {
  import opened Options
  import opened Bytes
  import opened Geometry
  import opened Readers
  import opened Devices
  import opened Verify

  /** Everything compared so far agreed. */
  lemma {:induction false} AfterAgrees(c: Check, k: nat)
    requires After(c, k).Some?
    ensures var offset := After(c, k).value;
            offset <= |c.disk.bytes| && c.disk.bytes[..offset] == c.stream[..offset]
  {
    hide RoundStep;
    if k > 0 {
      AfterAgrees(c, k - 1);
      NextAgrees(c, After(c, k - 1).value);
    }
  }

  lemma NextAgrees(c: Check, offset: nat)
    requires offset <= Min(c.total, |c.stream|) && offset <= |c.disk.bytes| && RoundStep(c, offset).Next?
    requires c.disk.bytes[..offset] == c.stream[..offset]
    ensures var next := RoundStep(c, offset).offset;
            next <= |c.disk.bytes| && c.disk.bytes[..next] == c.stream[..next]
  {
    hide CompareChunk, ExactOutcome;
    var next := RoundStep(c, offset).offset;
    assert c.disk.bytes[..next] == c.disk.bytes[..offset] + c.disk.bytes[offset..next];
    assert c.stream[..next] == c.stream[..offset] + c.stream[offset..next];
  }

  /** Soundness: an accepted device holds the image's first `total` bytes. */
  lemma AgreedMeaning(c: Check, k: nat, late: bool)
    requires LoopEnds(c, k, Agreed, late)
    ensures c.total <= |c.disk.bytes| && c.total <= |c.stream|
    ensures c.disk.bytes[..c.total] == c.stream[..c.total]
  {
    hide CompareChunk, ExactOutcome;
    AfterAgrees(c, k);
  }

  /** `i` is the least index below `total` at which device and image differ. */
  ghost predicate FirstDifference(c: Check, i: nat)
  {
    && i < c.total && i < |c.disk.bytes| && i < |c.stream|
    && c.disk.bytes[i] != c.stream[i]
    && c.disk.bytes[..i] == c.stream[..i]
  }

  lemma MismatchMeaning(c: Check, k: nat, late: bool, i: nat)
    requires LoopEnds(c, k, Rejected(Mismatch(i)), late)
    ensures FirstDifference(c, i)
  {
    hide RoundStep, After, CompareChunk;
    AfterAgrees(c, k);
    MismatchRound(c, After(c, k).value, i);
    DiffExtends(c.disk.bytes, c.stream, After(c, k).value, Min(c.total - After(c, k).value, BUF_SIZE), i);
  }

  lemma MismatchRound(c: Check, at: nat, i: nat)
    requires at <= Min(c.total, |c.stream|) && RoundStep(c, at) == Stop(Rejected(Mismatch(i)))
    ensures var end := at + Min(c.total - at, BUF_SIZE);
            end <= |c.disk.bytes| && end <= |c.stream|
            && CompareChunk(c.disk.bytes[at..end], c.stream[at..end], at) == Some(i)
  {
    hide CompareChunk;
  }

  lemma DiffExtends(a: seq<byte>, b: seq<byte>, at: nat, len: nat, i: nat)
    requires at + len <= |a| && at + len <= |b| && a[..at] == b[..at]
    requires CompareChunk(a[at..at + len], b[at..at + len], at) == Some(i)
    ensures at <= i < at + len && a[i] != b[i] && a[..i] == b[..i]
  {
    assert a[..i] == a[..at] + a[at..at + len][..i - at];
    assert b[..i] == b[..at] + b[at..at + len][..i - at];
    hide CompareChunk;
  }

  lemma FirstDifferenceUnique(c: Check, i: nat, j: nat)
    requires FirstDifference(c, i) && FirstDifference(c, j)
    ensures i == j
  {
    if i < j { AgreeBelow(c, j, i); }
    if j < i { AgreeBelow(c, i, j); }
  }

  lemma AgreeBelow(c: Check, i: nat, j: nat)
    requires FirstDifference(c, i) && j < i
    ensures c.disk.bytes[j] == c.stream[j]
  {
    assert c.disk.bytes[..i][j] == c.stream[..i][j];
  }

  /** Soundness and completeness: with no device fault and an image at least `total` bytes long, a
      loop that was not cancelled accepts exactly when device and image agree on all of
      `[0, total)`, and otherwise names the least index at which they differ. */
  lemma SoundAndComplete(c: Check, k: nat, v: Verdict, late: bool)
    requires LoopEnds(c, k, v, late) && v != Rejected(Cancelled)
    requires c.unreadable == {} && c.total <= |c.disk.bytes| && c.total <= |c.stream|
    ensures v == Agreed <==> c.disk.bytes[..c.total] == c.stream[..c.total]
    ensures v != Agreed ==> v.Rejected? && v.error.Mismatch? && FirstDifference(c, v.error.offset)
    ensures forall i: nat | FirstDifference(c, i) :: v == Rejected(Mismatch(i))
  {
    if v == Agreed {
      AgreedMeaning(c, k, late);
      forall j: nat ensures !FirstDifference(c, j) { NoDifference(c, j); }
    } else {
      assert v.Rejected? && v.error.Mismatch? by { hide CompareChunk; }
      var i := v.error.offset;
      MismatchMeaning(c, k, late, i);
      assert c.disk.bytes[..c.total][i] != c.stream[..c.total][i];
      forall j: nat | FirstDifference(c, j) ensures j == i { FirstDifferenceUnique(c, i, j); }
    }
  }

  lemma NoDifference(c: Check, i: nat)
    requires c.total <= |c.disk.bytes| && c.total <= |c.stream| && c.disk.bytes[..c.total] == c.stream[..c.total]
    ensures !FirstDifference(c, i)
  {
    if i < c.total { assert c.disk.bytes[..c.total][i] == c.stream[..c.total][i]; }
  }

  /** What each error of a loop that was not cancelled means: the device could not be read at a chunk's
      start or is too short, or the image ended, broke or panicked before `total`. */
  lemma RejectionMeaning(c: Check, k: nat, v: Verdict, late: bool)
    requires LoopEnds(c, k, v, late) && v != Rejected(Cancelled)
    ensures v == Rejected(DeviceUnreadable) ==>
      (exists at :: at in c.unreadable && at < c.total && at % BUF_SIZE == 0) || |c.disk.bytes| < c.total
    ensures v.Rejected? && v.error.ImageError? ==>
      && |c.stream| < c.total
      && (c.ending == Eof ==> v.error.kind == UnexpectedEof)
      && (c.ending.Broken? ==> v.error.kind == c.ending.kind)
      && c.ending != Panics
    ensures v == Unwinding ==> c.ending == Panics && |c.stream| < c.total
    ensures v.Rejected? ==> v.error.DeviceUnreadable? || v.error.ImageError? || v.error.Mismatch?
  {
    hide After;
    var at := After(c, k).value;
    OffsetIs(c, k);
    MultipleOf(k);
    RejectionAt(c, at, v);
  }

  lemma RejectionAt(c: Check, at: nat, v: Verdict)
    requires at <= Min(c.total, |c.stream|) && RoundStep(c, at) == Stop(v)
    ensures v == Rejected(DeviceUnreadable) ==> at < c.total && (at in c.unreadable || |c.disk.bytes| < c.total)
    ensures v.Rejected? && v.error.ImageError? ==>
      && |c.stream| < c.total
      && (c.ending == Eof ==> v.error.kind == UnexpectedEof)
      && (c.ending.Broken? ==> v.error.kind == c.ending.kind)
      && c.ending != Panics
    ensures v == Unwinding ==> c.ending == Panics && |c.stream| < c.total
    ensures v.Rejected? ==> v.error.DeviceUnreadable? || v.error.ImageError? || v.error.Mismatch?
  {
    hide CompareChunk;
  }

  /** An image that ends early is never accepted. */
  lemma ShortImageRejected(c: Check, k: nat, v: Verdict, late: bool)
    requires LoopEnds(c, k, v, late) && |c.stream| < c.total
    ensures v != Agreed
  {
    if v == Agreed { AgreedMeaning(c, k, late); }
  }

  // ---- Uniqueness ---------------------------------------------------------------------------

  lemma {:induction false} AfterPrefix(c: Check, j: nat, k: nat)
    requires j <= k && After(c, k).Some?
    ensures After(c, j).Some?
  {
    if j < k { AfterPrefix(c, j, k - 1); }
  }

  /** Without cancellation a compare loop has exactly one possible verdict. */
  lemma LoopEndsUnique(c: Check, k: nat, v: Verdict, late: bool, k': nat, v': Verdict, late': bool)
    requires LoopEnds(c, k, v, late) && v != Rejected(Cancelled)
    requires LoopEnds(c, k', v', late') && v' != Rejected(Cancelled)
    ensures k == k' && v == v'
  {
    hide RoundStep;
    if k < k' {
      AfterPrefix(c, k + 1, k');
    } else if k' < k {
      AfterPrefix(c, k' + 1, k);
    }
  }

  /** How far a run in its loop is: `offset` is `rounds` buffers, or all of `total`. */
  lemma {:induction false} OffsetIs(c: Check, k: nat)
    requires After(c, k).Some?
    ensures After(c, k).value == Min(c.total, k * BUF_SIZE)
  {
    hide CompareChunk, ExactOutcome;
    if k > 0 {
      OffsetIs(c, k - 1);
      NextMultiple(k - 1, BUF_SIZE);
    }
  }

  // ---- The serial loop's end, from the image and the device alone ---------------------------

  /** The round at `at` finds nothing wrong: the chunk can be read, is in the image, and agrees. */
  ghost predicate AgreesFrom(c: Check, at: nat)
  {
    && at < c.total
    && var len := Min(c.total - at, BUF_SIZE);
       && Readable(c.disk, at, len, c.unreadable) && at + len <= |c.stream|
       && c.disk.bytes[at..at + len] == c.stream[at..at + len]
  }

  /** The round at `at` rejects the device: the chunk cannot be read from it, or differs from the image. */
  ghost predicate RefusedFrom(c: Check, at: nat)
  {
    && at < c.total
    && var len := Min(c.total - at, BUF_SIZE);
       || !Readable(c.disk, at, len, c.unreadable)
       || (at + len <= |c.stream| && c.disk.bytes[at..at + len] != c.stream[at..at + len])
  }

  ghost predicate ChunkAgrees(c: Check, k: nat) { AgreesFrom(c, k * BUF_SIZE) }

  ghost predicate ChunkRefused(c: Check, k: nat) { RefusedFrom(c, k * BUF_SIZE) }

  /** Chunk `k` is the first that is not accepted, and the device is to blame. */
  ghost predicate RefusedAt(c: Check, k: nat)
  {
    (forall j: nat | j < k :: ChunkAgrees(c, j)) && ChunkRefused(c, k)
  }

  lemma RoundAt(c: Check, at: nat)
    requires at <= |c.stream| && at < c.total
    ensures var r := RoundStep(c, at);
            && (r.Next? <==> AgreesFrom(c, at))
            && (RefusedFrom(c, at) <==> r.Stop? && r.verdict.Rejected? && !r.verdict.error.ImageError?)
            && (c.ending == Panics && !AgreesFrom(c, at) && !RefusedFrom(c, at) ==> r == Stop(Unwinding))
            && (r.Stop? ==> r.verdict != Agreed)
  {
    hide CompareChunk;
  }

  lemma RoundOfChunk(c: Check, k: nat)
    requires k * BUF_SIZE <= |c.stream|
    ensures k * BUF_SIZE < c.total ==>
      var r := RoundStep(c, k * BUF_SIZE);
      && (r.Next? <==> ChunkAgrees(c, k))
      && (ChunkRefused(c, k) <==> r.Stop? && r.verdict.Rejected? && !r.verdict.error.ImageError?)
      && (c.ending == Panics && !ChunkAgrees(c, k) && !ChunkRefused(c, k) ==> r == Stop(Unwinding))
      && (r.Stop? ==> r.verdict != Agreed)
  {
    hide RoundStep, AgreesFrom, RefusedFrom;
    if k * BUF_SIZE < c.total { RoundAt(c, k * BUF_SIZE); }
  }

  /** How far the serial loop gets, chunk by chunk. */
  lemma {:induction false} AfterIff(c: Check, k: nat)
    requires k == 0 || (k - 1) * BUF_SIZE < c.total
    ensures After(c, k).Some? <==> forall j: nat | j < k :: ChunkAgrees(c, j)
  {
    hide RoundStep, ChunkAgrees, ChunkRefused;
    if k > 0 {
      NextMultiple(k - 1, BUF_SIZE);
      if k > 1 { NextMultiple(k - 2, BUF_SIZE); }
      AfterIff(c, k - 1);
      if After(c, k - 1).Some? {
        OffsetIs(c, k - 1);
        RoundOfChunk(c, k - 1);
      }
    }
  }

  /** Every byte below `total` can be read and agrees. */
  ghost predicate AllAgrees(c: Check)
  {
    && c.total <= |c.disk.bytes| && c.total <= |c.stream| && c.disk.bytes[..c.total] == c.stream[..c.total]
    && forall at | at in c.unreadable && at < c.total :: at % BUF_SIZE != 0
  }

  lemma ChunkOfAll(c: Check, k: nat)
    requires AllAgrees(c) && k * BUF_SIZE < c.total
    ensures ChunkAgrees(c, k)
  {
    MultipleOf(k);
    var at := k * BUF_SIZE;
    var end := at + Min(c.total - at, BUF_SIZE);
    assert c.disk.bytes[at..end] == c.disk.bytes[..c.total][at..end];
    assert c.stream[at..end] == c.stream[..c.total][at..end];
  }

  /** The serial loop accepts if and only if every byte can be read and agrees. */
  lemma AgreedIff(c: Check)
    ensures (exists k :: LoopEnds(c, k, Agreed, false)) <==> AllAgrees(c)
  {
    hide RoundStep;
    if k :| LoopEnds(c, k, Agreed, false) { AgreedIsAll(c, k); }
    if AllAgrees(c) {
      var q := FullChunks(c.total);
      var k := if q * BUF_SIZE == c.total then q else q + 1;
      NextMultiple(q, BUF_SIZE);
      if q > 0 { NextMultiple(q - 1, BUF_SIZE); }
      forall j: nat | j < k ensures ChunkAgrees(c, j) {
        Scale(j + 1, k, BUF_SIZE);
        NextMultiple(j, BUF_SIZE);
        if j < q { Scale(j + 1, q, BUF_SIZE); }
        ChunkOfAll(c, j);
      }
      hide ChunkAgrees, AllAgrees;
      AfterIff(c, k);
      OffsetIs(c, k);
      EndAgrees(c);
      assert LoopEnds(c, k, Agreed, false);
    }
  }

  lemma EndAgrees(c: Check)
    requires c.total <= |c.stream|
    ensures RoundStep(c, c.total) == Stop(Agreed)
  {
  }

  lemma AgreedIsAll(c: Check, k: nat)
    requires LoopEnds(c, k, Agreed, false)
    ensures AllAgrees(c)
  {
    AgreedMeaning(c, k, false);
    forall at | at in c.unreadable && at < c.total ensures at % BUF_SIZE != 0 {
      if at % BUF_SIZE == 0 { ReadableBelow(c, k, at); }
    }
  }

  lemma ReadableBelow(c: Check, k: nat, at: nat)
    requires LoopEnds(c, k, Agreed, false) && at < c.total && at % BUF_SIZE == 0
    ensures at !in c.unreadable
  {
    hide RoundStep, CompareChunk;
    var j := at / BUF_SIZE;
    assert at == j * BUF_SIZE;
    AgreedAtEnd(c, After(c, k).value);
    OffsetIs(c, k);
    if k <= j { Scale(k, j, BUF_SIZE); }
    AfterPrefix(c, j + 1, k);
    OffsetIs(c, j);
    RoundOfChunk(c, j);
  }

  lemma NotLate(c: Check, k: nat, late: bool)
    requires LoopEnds(c, k, Agreed, late)
    ensures LoopEnds(c, k, Agreed, false)
  {
  }

  lemma AgreedAtEnd(c: Check, at: nat)
    requires at <= Min(c.total, |c.stream|) && RoundStep(c, at) == Stop(Agreed)
    ensures at == c.total
  {
    hide CompareChunk;
  }

  /** An image that ends in a panic before `total`: the serial loop stops short of the panic if and
      only if the device is refused first, and then at that chunk. */
  lemma StopsShortIff(c: Check, k: nat, v: Verdict)
    requires LoopEnds(c, k, v, false) && v != Rejected(Cancelled)
    requires c.ending == Panics && |c.stream| < c.total
    ensures v != Unwinding <==> RefusedAt(c, k)
    ensures forall j :: RefusedAt(c, j) ==> j == k
  {
    hide RoundStep, ChunkAgrees, ChunkRefused;
    OffsetIs(c, k);
    assert k * BUF_SIZE <= |c.stream|;
    RoundOfChunk(c, k);
    PanicIsNoImageError(c, k * BUF_SIZE);
    if k > 0 { NextMultiple(k - 1, BUF_SIZE); }
    AfterIff(c, k);
    AgreesOrRefused(c);
  }

  lemma AgreesOrRefused(c: Check)
    ensures forall k :: !(ChunkAgrees(c, k) && ChunkRefused(c, k))
  {
  }

  lemma PanicIsNoImageError(c: Check, at: nat)
    requires at <= Min(c.total, |c.stream|) && c.ending == Panics && |c.stream| < c.total
    ensures RoundStep(c, at).Stop? ==> RoundStep(c, at).verdict != Agreed
    ensures RoundStep(c, at).Stop? && RoundStep(c, at).verdict.Rejected? ==> !RoundStep(c, at).verdict.error.ImageError?
  {
    hide CompareChunk;
  }

  /** With every byte below `total` readable, the chunk that is refused is the one that holds the
      first difference, and it is whole. */
  lemma RefusedAtDifference(c: Check, k: nat, i: nat)
    requires c.unreadable == {} && c.total <= |c.disk.bytes| && |c.stream| < c.total
    requires FirstDifference(c, i)
    ensures RefusedAt(c, k) <==> k == FullChunks(i) && k < FullChunks(|c.stream|)
  {
    hide FullChunks, ChunkAgrees, ChunkRefused, FirstDifference;
    var q := FullChunks(i);
    AgreesOrRefused(c);
    DifferenceChunk(c, i);
    if k < q { AgreesBefore(c, i, k); }
    if k == q { forall j: nat | j < q ensures ChunkAgrees(c, j) { AgreesBefore(c, i, j); } }
  }

  /** A device that can be read is refused for a difference. */
  lemma RefusedDiffers(c: Check, k: nat) returns (i: nat)
    requires c.unreadable == {} && c.total <= |c.disk.bytes| && RefusedAt(c, k)
    ensures FirstDifference(c, i)
  {
    assert RefusedFrom(c, k * BUF_SIZE);
    hide ChunkAgrees, ChunkRefused, RefusedFrom, RoundStep, After;
    if k > 0 { NextMultiple(k - 1, BUF_SIZE); }
    AfterIff(c, k);
    OffsetIs(c, k);
    AfterAgrees(c, k);
    i := DifferenceFrom(c, k * BUF_SIZE);
  }

  lemma DifferenceFrom(c: Check, at: nat) returns (i: nat)
    requires c.unreadable == {} && c.total <= |c.disk.bytes| && RefusedFrom(c, at)
    requires at <= |c.stream| && c.disk.bytes[..at] == c.stream[..at]
    ensures FirstDifference(c, i)
  {
    var len := Min(c.total - at, BUF_SIZE);
    i := CompareChunk(c.disk.bytes[at..at + len], c.stream[at..at + len], at).value;
    hide CompareChunk;
    DiffExtends(c.disk.bytes, c.stream, at, len, i);
  }

  lemma AgreesBefore(c: Check, i: nat, j: nat)
    requires c.unreadable == {} && c.total <= |c.disk.bytes| && FirstDifference(c, i) && j < FullChunks(i)
    ensures ChunkAgrees(c, j)
  {
    hide FullChunks;
    Scale(j + 1, FullChunks(i), BUF_SIZE);
    NextMultiple(j, BUF_SIZE);
    AgreesBelowDifference(c, i, j * BUF_SIZE, j * BUF_SIZE + BUF_SIZE);
  }

  lemma DifferenceChunk(c: Check, i: nat)
    requires c.unreadable == {} && c.total <= |c.disk.bytes| && |c.stream| < c.total && FirstDifference(c, i)
    ensures !ChunkAgrees(c, FullChunks(i))
    ensures ChunkRefused(c, FullChunks(i)) <==> FullChunks(i) < FullChunks(|c.stream|)
  {
    hide FullChunks;
    var q := FullChunks(i);
    FullChunksIs(|c.stream|, q + 1);
    NextMultiple(q, BUF_SIZE);
    if q * BUF_SIZE + BUF_SIZE <= |c.stream| { DiffersAt(c, i, q * BUF_SIZE, q * BUF_SIZE + BUF_SIZE); }
  }

  lemma AgreesBelowDifference(c: Check, i: nat, from: nat, to: nat)
    requires FirstDifference(c, i) && from <= to <= i
    ensures c.disk.bytes[from..to] == c.stream[from..to]
  {
    assert c.disk.bytes[from..to] == c.disk.bytes[..i][from..to];
    assert c.stream[from..to] == c.stream[..i][from..to];
  }

  lemma DiffersAt(c: Check, i: nat, from: nat, to: nat)
    requires FirstDifference(c, i) && from <= i < to <= Min(|c.disk.bytes|, |c.stream|)
    ensures c.disk.bytes[from..to] != c.stream[from..to]
  {
    assert c.disk.bytes[from..to][i - from] == c.disk.bytes[i] && c.stream[from..to][i - from] == c.stream[i];
  }

  /** What `Ok` from either arm means. */
  lemma VerifyOk(script: Script, disk: Disk, total: nat, throttle: Option<u64>, unreadable: set<nat>,
                 memory: nat, buffers: nat, late: bool, k: nat)
    requires Verifies(script, disk, total, throttle, unreadable, memory, buffers, late, k, Ok)
    ensures total <= |disk.bytes| && total <= |Stream(script)|
    ensures disk.bytes[..total] == Stream(script)[..total]
    ensures buffers <= memory && throttle != Some(0)
    ensures forall at | at in unreadable && at < total :: at % BUF_SIZE != 0
  {
    hide LoopEnds, Stream, EndingOf;
    var c := CheckOf(script, disk, total, unreadable);
    var v :| LoopEnds(c, k, v, late) && Ok == Conclude(v);
    AgreedMeaning(c, k, late);
    NotLate(c, k, late);
    AgreedIsAll(c, k);
  }

  /** The two arms agree: given memory for both, a legal rate and no cancellation, they report the
      same after the same number of rounds. */
  lemma ArmsAgree(script: Script, disk: Disk, total: nat, throttle: Option<u64>, unreadable: set<nat>, memory: nat,
                  k: nat, r: Report, k': nat, r': Report)
    requires Verifies(script, disk, total, throttle, unreadable, memory, 2, false, k, r) && r != Err(Cancelled)
    requires Verifies(script, disk, total, throttle, unreadable, memory, 3, true, k', r') && r' != Err(Cancelled)
    requires 3 <= memory && throttle != Some(0)
    ensures r == r' && k == k'
  {
    hide LoopEnds, Stream, EndingOf;
    var c := CheckOf(script, disk, total, unreadable);
    var v :| LoopEnds(c, k, v, false) && r == Conclude(v);
    var v' :| LoopEnds(c, k', v', true) && r' == Conclude(v');
    LoopEndsUnique(c, k, v, false, k', v', true);
  }
}
