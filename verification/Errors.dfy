/** `error.rs`: the error type, how layers are stacked on it, and its two classifications. */
module Errors {
  datatype ErrorKind = Refused | Cancelled | VerificationFailed | Failed

  datatype DeviceState = Untouched | Indeterminate | Written

  /** The concrete type of a foreign cause, which is what `kind_of` looks at, and its text. */
  datatype Cause = CancelMark(text: string) | MismatchMark(text: string) | OtherCause(text: string)

  datatype Source = NoSource | Foreign(cause: Cause) | Layered(error: Error)

  datatype Error = Error(detail: string, source: Source, kind: ErrorKind, device: DeviceState)

  function KindOf(c: Cause): ErrorKind
  {
    match c
    case CancelMark(_) => Cancelled
    case MismatchMark(_) => VerificationFailed
    case OtherCause(_) => Failed
  }

  /** `Error::from_source`: the cause's text becomes the message; it is not kept as a source. */
  function FromSource(c: Cause): Error { Error(c.text, NoSource, KindOf(c), Indeterminate) }

  /** `Error::layer` over a foreign cause. */
  function LayerCause(detail: string, c: Cause): Error { Error(detail, Foreign(c), KindOf(c), Indeterminate) }

  /** `Error::layer` over an `Error`, and `Error::context`: both inherit its classification. */
  function Context(e: Error, detail: string): Error { Error(detail, Layered(e), e.kind, e.device) }

  /** `Error::at`: records the device state, and turns an unclassified failure of an untouched
      device into a refusal. */
  function At(e: Error, device: DeviceState): Error
  {
    e.(device := device, kind := if e.kind == Failed && device == Untouched then Refused else e.kind)
  }

  /** `Context` once per element, first element innermost. */
  function Wrap(e: Error, details: seq<string>): Error
  {
    if details == [] then e else Context(Wrap(e, details[..|details| - 1]), details[|details| - 1])
  }

  /** What `{:#}` renders: every layer's text, outermost first. */
  function Chain(e: Error): seq<string> { [e.detail] + Beneath(e.source) }

  function Beneath(s: Source): seq<string>
  {
    match s
    case NoSource => []
    case Foreign(c) => [c.text]
    case Layered(inner) => Chain(inner)
  }

  function Reversed(s: seq<string>): seq<string>
  {
    if s == [] then [] else [s[|s| - 1]] + Reversed(s[..|s| - 1])
  }

  /** However many layers a phase stacks on a cause, the boundary's `at` settles the classification
      from the cause and the device alone, and the rendered chain shows each layer exactly once. */
  lemma {:induction false} WrapKeepsClass(e: Error, details: seq<string>)
    ensures Wrap(e, details).kind == e.kind && Wrap(e, details).device == e.device
    ensures Chain(Wrap(e, details)) == Reversed(details) + Chain(e)
  {
    if details != [] {
      var last, inner := details[|details| - 1], details[..|details| - 1];
      WrapKeepsClass(e, inner);
      assert [last] + (Reversed(inner) + Chain(e)) == ([last] + Reversed(inner)) + Chain(e);
    }
  }

  /** However a foreign cause enters, its type and the device alone settle what a boundary reports:
      taken over by `from_source`, or put under a message of its own by `layer`, as `.context(..)?`
      does. Each text is rendered exactly once. */
  lemma BoundaryClassifies(c: Cause, detail: string, details: seq<string>, device: DeviceState)
    ensures var e := At(Wrap(FromSource(c), details), device);
            Settled(e, c, device) && Chain(e) == Reversed(details) + [c.text]
    ensures var e := At(Wrap(LayerCause(detail, c), details), device);
            Settled(e, c, device) && Chain(e) == Reversed(details) + [detail, c.text]
  {
    WrapKeepsClass(FromSource(c), details);
    WrapKeepsClass(LayerCause(detail, c), details);
    AtKeepsChain(Wrap(FromSource(c), details), device);
    AtKeepsChain(Wrap(LayerCause(detail, c), details), device);
    assert Chain(LayerCause(detail, c)) == [detail, c.text];
  }

  /** The kind is a refusal exactly for an unclassified failure before the first write, and otherwise
      the cause's own. */
  predicate Settled(e: Error, c: Cause, device: DeviceState)
  {
    && e.device == device
    && (e.kind == Refused <==> c.OtherCause? && device == Untouched)
    && (e.kind == Failed <==> c.OtherCause? && device != Untouched)
    && (e.kind == Cancelled <==> c.CancelMark?)
    && (e.kind == VerificationFailed <==> c.MismatchMark?)
  }

  lemma AtKeepsChain(e: Error, device: DeviceState)
    ensures Chain(At(e, device)) == Chain(e)
  {
  }

  /** `Display` under `{:#}`: walks the source chain with a cursor. */
  method Render(e: Error) returns (out: seq<string>)
    ensures out == Chain(e)
  {
    out := [e.detail];
    var cur := e.source;
    while cur != NoSource
      invariant out + Beneath(cur) == Chain(e)
      decreases |Beneath(cur)|
    {
      assert out + Beneath(cur) == (out + [Beneath(cur)[0]]) + Beneath(cur)[1..];
      match cur
      case Foreign(c) => out, cur := out + [c.text], NoSource;
      case Layered(x) => out, cur := out + [x.detail], x.source;
    }
  }
}
