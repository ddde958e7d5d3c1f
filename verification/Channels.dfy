/** What the two pipelines share: the two-buffer pool, the items of the filled channel, and how
    buffers are counted. */
module Channels {
  import opened Options
  import opened Bytes
  import opened Geometry

  type BufId = b: nat | b < 2
  type Count = n: nat | n <= BUF_SIZE
  type Pool = m: seq<seq<byte>> | |m| == 2 && |m[0]| == |m[1]| == BUF_SIZE
    witness [seq(BUF_SIZE, _ => 0), seq(BUF_SIZE, _ => 0)]

  /** What a worker sends: a filled buffer and its valid length, or a fatal error. */
  datatype Item<E> = Chunk(buf: BufId, len: Count) | Broke(error: E)

  /** What the threads share: both channels, the buffers' memory and the cancel mirror. */
  datatype Shared<E> = Shared(
    mem: Pool, filled: seq<Item<E>>, free: seq<BufId>, filledOpen: bool, freeOpen: bool, mirror: bool)

  /** Both channels as the main thread sets them up: the pool seeded with both buffers. */
  function Fresh<E>(): Shared<E>
  {
    var blank := seq(BUF_SIZE, _ => 0);
    Shared([blank, blank], [], [0, 1], true, true, false)
  }

  /** `t0.elapsed()`, clamped to a `u64`. */
  function Elapsed(started: nat, now: nat): nat
  {
    if started <= now then Min(now - started, U64_MAX) else 0
  }

  function ItemLen<E>(item: Item<E>): nat { if item.Chunk? then item.len else 0 }

  /** How often buffer `b` occurs in an item, in a channel, in the pool. */
  function InItem<E>(item: Item<E>, b: BufId): nat { if item.Chunk? && item.buf == b then 1 else 0 }

  function InItems<E>(items: seq<Item<E>>, b: BufId): nat
  {
    if items == [] then 0 else InItem(items[0], b) + InItems(items[1..], b)
  }

  function InPool(free: seq<BufId>, b: BufId): nat
  {
    if free == [] then 0 else (if free[0] == b then 1 else 0) + InPool(free[1..], b)
  }

  /** How many owners buffer `b` has: the pool, the filled channel, the worker's hand, main's hand. */
  function OwnersOf<E>(worker: Option<BufId>, main: Option<BufId>, x: Shared<E>, b: BufId): nat
  {
    InPool(x.free, b) + InItems(x.filled, b) + (if worker == Some(b) then 1 else 0) + (if main == Some(b) then 1 else 0)
  }

  /** Both buffers exist, each with exactly one owner. */
  ghost predicate OwnedBy<E>(worker: Option<BufId>, main: Option<BufId>, x: Shared<E>)
  {
    OwnersOf(worker, main, x, 0) == 1 && OwnersOf(worker, main, x, 1) == 1
  }

  lemma FreshIsOwned<E>()
    ensures OwnedBy(None, None, Fresh<E>())
  {
    var free: seq<BufId> := [0, 1];
    assert free[1..] == [1] && free[1..][1..] == [];
  }

  lemma OneOwner<E>(worker: Option<BufId>, main: Option<BufId>, x: Shared<E>, b: BufId)
    requires OwnedBy(worker, main, x) && worker == Some(b)
    ensures InItems(x.filled, b) == 0 && main != Some(b)
  {
    assert OwnersOf(worker, main, x, b) == 1;
  }

  /** With the pool empty and nothing in the worker's hand, the channel holds what main does not. */
  lemma RestIsQueued<E>(main: Option<BufId>, x: Shared<E>)
    requires OwnedBy(None, main, x) && x.free == []
    ensures if main.Some? then x.filled != [] else 2 <= |x.filled|
  {
    OneBufferAnItem(x.filled);
    if main.Some? {
      var other: BufId := 1 - main.value;
      assert OwnersOf(None, main, x, other) == 1;
    }
  }

  lemma {:induction false} OneBufferAnItem<E>(items: seq<Item<E>>)
    ensures InItems(items, 0) + InItems(items, 1) <= |items|
  {
    if items != [] { OneBufferAnItem(items[1..]); }
  }

  /** Where in the stream the first byte not yet sent is. */
  function QueueEnd<E>(items: seq<Item<E>>, at: nat): nat
  {
    if items == [] then at else QueueEnd(items[1..], at + ItemLen(items[0]))
  }

  lemma {:induction false} ItemsPush<E>(items: seq<Item<E>>, item: Item<E>, b: BufId)
    ensures InItems(items + [item], b) == InItems(items, b) + InItem(item, b)
  {
    if items == [] {
      assert items + [item] == [item] && [item][1..] == [];
    } else {
      assert (items + [item])[1..] == items[1..] + [item];
      ItemsPush(items[1..], item, b);
    }
  }

  lemma {:induction false} PoolPush(free: seq<BufId>, f: BufId, b: BufId)
    ensures InPool(free + [f], b) == InPool(free, b) + (if f == b then 1 else 0)
  {
    if free == [] {
      assert free + [f] == [f] && [f][1..] == [];
    } else {
      assert (free + [f])[1..] == free[1..] + [f];
      PoolPush(free[1..], f, b);
    }
  }

  lemma FillGrows(stream: seq<byte>, at: nat, buf: seq<byte>, n: nat, bytes: seq<byte>, rest: seq<byte>)
    requires at + n <= |stream| && n + |bytes| <= |buf|
    requires buf[..n] == stream[at..at + n] && stream[at + n..] == bytes + rest
    ensures at + n + |bytes| <= |stream|
    ensures Splice(buf, n, bytes)[..n + |bytes|] == stream[at..at + n + |bytes|]
    ensures stream[at + n + |bytes|..] == rest
  {
    assert Splice(buf, n, bytes)[..n + |bytes|] == buf[..n] + bytes;
    assert stream[at..at + n + |bytes|] == stream[at..at + n] + stream[at + n..][..|bytes|];
    assert stream[at + n + |bytes|..] == stream[at + n..][|bytes|..];
  }
}
