/** The image reader: an arbitrary script of short reads, interrupts, errors and panics, and the
    two loops that drive it (`fill_buffer` of phase 4, `fill_exact` of phase 5). */
module Readers {
  import opened Bytes
  import opened Geometry

  datatype IoKind = StorageFull | WriteZero | UnexpectedEof | OtherIo(code: nat)

  /** What one `read` call meets. `Data([])` is an explicit end of file, as is an exhausted script. */
  datatype Event = Data(bytes: seq<byte>) | Interrupted | Fault(kind: IoKind) | Panic
  type Script = seq<Event>

  /** How a stream ends once its last byte has been delivered. */
  datatype Ending = Eof | Broken(kind: IoKind) | Panics

  datatype ReadStep =
    | Delivered(bytes: seq<byte>, rest: Script)
    | Interrupt(rest: Script)
    | Refused(kind: IoKind)
    | Blown

  /** One `read` into a destination of `want` bytes. */
  function ReadOnce(s: Script, want: nat): (r: ReadStep)
    ensures r.Delivered? ==> |r.bytes| <= want
  {
    if s == [] then Delivered([], s)
    else match s[0]
      case Data(bytes) =>
        if bytes == [] then Delivered([], s)
        else if |bytes| <= want then Delivered(bytes, s[1..])
        else Delivered(bytes[..want], [Data(bytes[want..])] + s[1..])
      case Interrupted => Interrupt(s[1..])
      case Fault(k) => Refused(k)
      case Panic => Blown
  }

  /** Every byte the script delivers before its ending. */
  function Stream(s: Script): seq<byte>
  {
    if s == [] then []
    else match s[0]
      case Data(bytes) => if bytes == [] then [] else bytes + Stream(s[1..])
      case Interrupted => Stream(s[1..])
      case Fault(_) => []
      case Panic => []
  }

  function EndingOf(s: Script): Ending
  {
    if s == [] then Eof
    else match s[0]
      case Data(bytes) => if bytes == [] then Eof else EndingOf(s[1..])
      case Interrupted => EndingOf(s[1..])
      case Fault(k) => Broken(k)
      case Panic => Panics
  }

  /** How much reading is left: bounds the number of `read` calls any loop can still make. */
  function Weight(s: Script): nat
  {
    if s == [] then 0
    else (match s[0] case Data(bytes) => |bytes| + 1 case _ => 1) + Weight(s[1..])
  }

  /** One read moves bytes from the front of the stream to the caller and changes nothing else. */
  lemma ReadOnceMeaning(s: Script, want: nat)
    requires 0 < want
    ensures match ReadOnce(s, want)
            case Delivered(bytes, rest) =>
              && |bytes| <= want
              && Stream(s) == bytes + Stream(rest)
              && EndingOf(rest) == EndingOf(s)
              && (bytes == [] ==> Stream(s) == [] && EndingOf(s) == Eof)
              && (bytes != [] ==> Weight(rest) < Weight(s))
            case Interrupt(rest) =>
              && Stream(rest) == Stream(s)
              && EndingOf(rest) == EndingOf(s)
              && Weight(rest) < Weight(s)
            case Refused(k) => Stream(s) == [] && EndingOf(s) == Broken(k)
            case Blown => Stream(s) == [] && EndingOf(s) == Panics
  {
    if s != [] && s[0].Data? && |s[0].bytes| > want {
      PartialRead(s[0].bytes, s[1..], want);
      assert s == [s[0]] + s[1..];
    }
  }

  /** A read that takes only part of the next piece leaves the rest of it to be read next. */
  lemma PartialRead(bytes: seq<byte>, tail: Script, want: nat)
    requires 0 < want < |bytes|
    ensures var s, rest := [Data(bytes)] + tail, [Data(bytes[want..])] + tail;
            && Stream(s) == bytes[..want] + Stream(rest)
            && EndingOf(s) == EndingOf(rest)
            && Weight(rest) < Weight(s)
  {
    Uncons(Data(bytes), tail);
    Uncons(Data(bytes[want..]), tail);
    assert bytes + Stream(tail) == bytes[..want] + (bytes[want..] + Stream(tail));
  }

  lemma Uncons(e: Event, rest: Script)
    requires e.Data? && e.bytes != []
    ensures Stream([e] + rest) == e.bytes + Stream(rest)
    ensures EndingOf([e] + rest) == EndingOf(rest)
    ensures Weight([e] + rest) == |e.bytes| + 1 + Weight(rest)
  {
    assert ([e] + rest)[1..] == rest;
  }

  datatype FillResult = Filled(n: nat) | ReadFailed(kind: IoKind) | Unwound

  /** What filling `want` bytes must produce: it depends on the stream and its ending only, never
      on how the reader chops the stream into reads. */
  function FillOutcome(stream: seq<byte>, ending: Ending, want: nat): (r: FillResult)
    ensures r.Filled? ==> r.n <= want && r.n <= |stream|
  {
    if want <= |stream| then Filled(want)
    else match ending
      case Eof => Filled(|stream|)
      case Broken(k) => ReadFailed(k)
      case Panics => Unwound
  }

  /** As `FillOutcome`, for the loop that treats an early end of file as an error. */
  function ExactOutcome(stream: seq<byte>, ending: Ending, want: nat): (r: FillResult)
    ensures r.Filled? ==> r.n == want <= |stream|
  {
    if want <= |stream| then Filled(want)
    else match ending
      case Eof => ReadFailed(UnexpectedEof)
      case Broken(k) => ReadFailed(k)
      case Panics => Unwound
  }

  class Reader {
    var script: Script

    constructor (script: Script)
      ensures this.script == script
    {
      this.script := script;
    }

    /** `Read::read(&mut dst[from..to])`. */
    method Read(dst: array<byte>, from: nat, to: nat) returns (step: ReadStep)
      requires from < to <= dst.Length
      modifies this, dst
      ensures step == ReadOnce(old(script), to - from)
      ensures script == match step
                        case Delivered(_, rest) => rest
                        case Interrupt(rest) => rest
                        case _ => old(script)
      ensures dst[..] == match step
                         case Delivered(bytes, _) => Splice(old(dst[..]), from, bytes)
                         case _ => old(dst[..])
    {
      step := ReadOnce(script, to - from);
      match step
      case Delivered(bytes, rest) =>
        script := rest;
        forall i | 0 <= i < |bytes| { dst[from + i] := bytes[i]; }
        assert dst[..] == Splice(old(dst[..]), from, bytes);
      case Interrupt(rest) => script := rest;
      case Refused(_) =>
      case Blown =>
    }
  }

  /** What a fill in progress has done: the first `n` bytes of the stream are in the destination
      and the rest are still to be read. */
  ghost predicate Moved(before: Script, after: Script, now: seq<byte>, n: nat)
  {
    && n <= |Stream(before)| && n <= |now|
    && now[..n] == Stream(before)[..n]
    && Stream(after) == Stream(before)[n..]
    && EndingOf(after) == EndingOf(before)
  }

  lemma MovedFurther(s0: Script, s1: Script, want: nat, now: seq<byte>, n: nat)
    requires Moved(s0, s1, now, n)
    requires 0 < want && n + want <= |now|
    ensures match ReadOnce(s1, want)
            case Delivered(bytes, rest) =>
              && |bytes| <= want
              && Moved(s0, rest, Splice(now, n, bytes), n + |bytes|)
              && (bytes == [] ==> Stream(s1) == [] && EndingOf(s1) == Eof)
              && (bytes != [] ==> Weight(rest) < Weight(s1))
            case Interrupt(rest) => Moved(s0, rest, now, n) && Weight(rest) < Weight(s1)
            case Refused(k) => Stream(s1) == [] && EndingOf(s1) == Broken(k)
            case Blown => Stream(s1) == [] && EndingOf(s1) == Panics
  {
    ReadOnceMeaning(s1, want);
    if ReadOnce(s1, want).Delivered? {
      var bytes := ReadOnce(s1, want).bytes;
      assert Splice(now, n, bytes)[..n + |bytes|] == now[..n] + bytes;
      assert Stream(s0)[..n + |bytes|] == Stream(s0)[..n] + bytes by {
        assert Stream(s0) == Stream(s0)[..n] + Stream(s1);
      }
      assert Stream(s0)[n + |bytes|..] == Stream(s1)[|bytes|..];
    }
  }

  /** `fill_buffer`: short reads and interrupts are re-driven until `dst` is full or the stream
      ends. */
  method FillBuffer(reader: Reader, dst: array<byte>) returns (r: FillResult)
    modifies reader, dst
    ensures r == FillOutcome(Stream(old(reader.script)), EndingOf(old(reader.script)), dst.Length)
    ensures r.Filled? ==> dst[..r.n] == Stream(old(reader.script))[..r.n]
    ensures r.Filled? ==> Stream(reader.script) == Stream(old(reader.script))[r.n..]
    ensures r.Filled? ==> EndingOf(reader.script) == EndingOf(old(reader.script))
  {
    ghost var script0 := reader.script;
    var filled: nat := 0;
    while filled < dst.Length
      invariant filled <= dst.Length
      invariant Moved(script0, reader.script, dst[..], filled)
      decreases Weight(reader.script)
    {
      MovedFurther(script0, reader.script, dst.Length - filled, dst[..], filled);
      var step := reader.Read(dst, filled, dst.Length);
      match step
      case Delivered(bytes, _) =>
        if bytes == [] { break; }
        filled := filled + |bytes|;
      case Interrupt(_) =>
      case Refused(k) => return ReadFailed(k);
      case Blown => return Unwound;
    }
    return Filled(filled);
  }

  /** `fill_exact` on `dst[..len]`: as `fill_buffer`, but an early end of file is an error. */
  method FillExact(reader: Reader, dst: array<byte>, len: nat) returns (r: FillResult)
    requires len <= dst.Length
    modifies reader, dst
    ensures r == ExactOutcome(Stream(old(reader.script)), EndingOf(old(reader.script)), len)
    ensures r.Filled? ==> dst[..len] == Stream(old(reader.script))[..len]
    ensures r.Filled? ==> Stream(reader.script) == Stream(old(reader.script))[len..]
    ensures r.Filled? ==> EndingOf(reader.script) == EndingOf(old(reader.script))
  {
    ghost var script0 := reader.script;
    var filled: nat := 0;
    while filled < len
      invariant filled <= len
      invariant Moved(script0, reader.script, dst[..], filled)
      decreases Weight(reader.script)
    {
      MovedFurther(script0, reader.script, len - filled, dst[..], filled);
      var step := reader.Read(dst, filled, len);
      match step
      case Delivered(bytes, _) =>
        if bytes == [] { return ReadFailed(UnexpectedEof); }
        filled := filled + |bytes|;
      case Interrupt(_) =>
      case Refused(k) => return ReadFailed(k);
      case Blown => return Unwound;
    }
    return Filled(len);
  }

  // ---- Cutting a stream into buffers --------------------------------------------------------

  /** A stream cut into full buffers and one shorter, possibly empty, rest. */
  function Cut(stream: seq<byte>): (r: seq<seq<byte>>)
    ensures r != []
  {
    if |stream| < BUF_SIZE then [stream] else [stream[..BUF_SIZE]] + Cut(stream[BUF_SIZE..])
  }

  function Flatten(chunks: seq<seq<byte>>): seq<byte>
  {
    if chunks == [] then [] else chunks[0] + Flatten(chunks[1..])
  }

  /** The cut loses nothing, every chunk but the last is full, and the last is short. */
  lemma {:induction false} CutShape(stream: seq<byte>)
    ensures Flatten(Cut(stream)) == stream
    ensures forall k | 0 <= k < |Cut(stream)| - 1 :: |Cut(stream)[k]| == BUF_SIZE
    ensures |Cut(stream)[|Cut(stream)| - 1]| < BUF_SIZE
  {
    if |stream| < BUF_SIZE {
      assert [stream][1..] == [];
    } else {
      CutShape(stream[BUF_SIZE..]);
      assert stream == stream[..BUF_SIZE] + stream[BUF_SIZE..];
    }
  }

  /** What successive fills deliver from a stream that ends cleanly is that cut, and filling exactly
      what is left of its length, a buffer at a time, never meets the end early. */
  lemma {:induction false} FillsCutTheStream(stream: seq<byte>, k: nat)
    requires k < |Cut(stream)|
    ensures k * BUF_SIZE <= |stream|
    ensures var rest, chunk := stream[k * BUF_SIZE..], Cut(stream)[k];
            && FillOutcome(rest, Eof, BUF_SIZE) == Filled(|chunk|)
            && chunk == rest[..Min(BUF_SIZE, |rest|)]
            && ExactOutcome(rest, Eof, Min(BUF_SIZE, |stream| - k * BUF_SIZE)) == Filled(|chunk|)
  {
    if k > 0 {
      FillsCutTheStream(stream[BUF_SIZE..], k - 1);
      NextMultiple(k - 1, BUF_SIZE);
      assert stream[BUF_SIZE..][(k - 1) * BUF_SIZE..] == stream[k * BUF_SIZE..];
    }
  }
}
