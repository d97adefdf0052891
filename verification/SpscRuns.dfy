/**
 Whole runs of the queue from its constructor: FIFO order, when a dequeue may report empty, when a
 non-allocating enqueue may be refused, and that no step faults.
 */
module SpscRuns {
  import opened SpscQueue
  import opened SpscRefinement
  import opened SpscSimulation
  import BitTricks

  // ---------------------------------------------------------------- the constructor

  ghost predicate LeastPow2(c: nat, x: nat) {
    BitTricks.IsPow2(c) && x <= c && forall k: nat :: x <= BitTricks.Pow2(k) ==> c <= BitTricks.Pow2(k)
  }

  /** What `ceilToPow2` makes of `x` in a 64-bit word. */
  ghost predicate RoundsTo(c: nat, x: nat) {
    if x <= BitTricks.Pow2(63) then LeastPow2(c, x) else c == 0
  }

  /** `MAX_BLOCK_SIZE * 2` in a 64-bit word. */
  function Twice(max: nat): nat { max * 2 % BitTricks.WORD }

  function Quotient(a: nat, b: nat): nat
    requires 0 < b
  {
    a / b
  }

  /** How many blocks the constructor makes when `c` is `size + 1` rounded up to a power of two. */
  function BlockCount(c: nat, size: nat, max: nat): nat
    requires 2 <= max
  {
    if c > Twice(max) then
      var total: nat := (size + Twice(max) + BitTricks.WORD - 3) % BitTricks.WORD;
      Quotient(total, max - 1)
    else 1
  }

  function BlockSize(c: nat, max: nat): nat {
    if c > Twice(max) then max else c
  }

  /** A ring of `count` empty blocks, each linked to the one after it. */
  function Chain(count: nat, size: nat): seq<Block> {
    seq(count, i requires 0 <= i < count => EmptyBlock(size).(next := Inc(i, count)))
  }

  function Built(c: nat, size: nat, max: nat): State
    requires 2 <= max
  {
    State(Chain(BlockCount(c, size, max), BlockSize(c, max)), 0, 0, BlockSize(c, max), max, PIdle, CIdle)
  }

  /**
   The state a constructor call leaves for a 64-bit `size`; `max` is `MAX_BLOCK_SIZE`, a power of two
   from 2 up.
   */
  ghost predicate Initial(s: State, size: nat, max: nat) {
    && 2 <= max < BitTricks.WORD && BitTricks.IsPow2(max) && size < BitTricks.WORD
    && exists c: nat :: RoundsTo(c, size + 1) && s == Built(c, size, max)
  }

  /**
   The sizes the constructor's 64-bit arithmetic serves; `SpscZero.SafeSizes` shows that it serves no
   other. With 2^63 for `max`, twice that is 0 and only sizes up to 2 get a block.
   */
  predicate Sized(size: nat, max: nat) {
    if max < BitTricks.Pow2(63) then 1 <= size < BitTricks.Pow2(63) else size <= 2
  }

  /** The constructor's loop: `count` blocks linked into a ring, unless the allocator gives out. */
  method LinkBlocks(count: nat, size: nat, memory: nat) returns (r: Option<seq<Block>>)
    ensures r.Some? <==> count <= memory
    ensures r.Some? ==> r.value == Chain(count, size)
  {
    var blocks: seq<Block> := [];
    var i := 0;
    var first, last := 0, 0;
    while i != count
      invariant 0 <= i <= count && i <= memory && first == 0 && (0 < i ==> last == i - 1)
      invariant blocks == Chain(i, size)
    {
      if i == memory {
        return None;
      }
      if i > 0 {
        blocks := blocks[last := blocks[last].(next := i)];
      }
      blocks := blocks + [EmptyBlock(size).(next := first)];
      last := i;
      i := i + 1;
    }
    return Some(blocks);
  }

  /**
   The constructor; `memory` is the number of blocks the allocator can still give. A size that does
   not fit a power of two below 2^64 rounds to 0, and the queue gets one block without a slot.
   */
  method Construct(size: nat, max: nat, memory: nat) returns (r: Option<State>)
    requires 2 <= max < BitTricks.WORD && BitTricks.IsPow2(max) && size < BitTricks.WORD
    ensures r.Some? ==> Initial(r.value, size, max) && |r.value.blocks| <= memory
    ensures r.None? ==> exists c: nat :: RoundsTo(c, size + 1) && memory < BlockCount(c, size, max)
  {
    hide BitTricks.IsPow2, BitTricks.Pow2;
    BitTricks.WordIsPow2();
    var c := BitTricks.CeilToPow2((size + 1) % BitTricks.WORD);
    assert RoundsTo(c, size + 1);
    var blocks := LinkBlocks(BlockCount(c, size, max), BlockSize(c, max), memory);
    if blocks.None? {
      return None;
    }
    var s := State(blocks.value, 0, 0, BlockSize(c, max), max, PIdle, CIdle);
    assert s == Built(c, size, max);
    return Some(s);
  }

  // ---------------------------------------------------------------- the constructor establishes the relation

  const START := Fifo([], true, 0)

  lemma {:induction false} ChainCapacity(count: nat, size: nat, ids: seq<nat>)
    requires 0 < size && forall i :: 0 <= i < |ids| ==> ids[i] < count
    ensures Capacity(Chain(count, size), ids) == |ids| * (size - 1)
  {
    if ids != [] {
      ChainCapacity(count, size, ids[1..]);
    }
  }

  lemma {:induction false} ChainEmpty(count: nat, size: nat, id: nat)
    requires 2 <= size && id < count
    ensures Elemable(Chain(count, size), [id]) && Phys(Chain(count, size), [id]) == []
  {
    assert Elems(Chain(count, size)[id]) == [];
  }

  lemma {:induction false} LargestPow2(max: nat)
    requires BitTricks.IsPow2(max) && BitTricks.Pow2(63) <= max < BitTricks.WORD
    ensures max == BitTricks.Pow2(63)
  {
    BitTricks.WordIsPow2();
    var m: nat :| max == BitTricks.Pow2(m);
    if m < 63 {
      BitTricks.Pow2Monotone(m + 1, 63);
    } else if m > 63 {
      BitTricks.Pow2Monotone(64, m);
    }
  }

  /** The division of the block count, away from the wrap-around of a word. */
  lemma {:induction false} DivisionIsEnough(size: nat, max: nat)
    requires 2 <= max && 0 < size
    ensures ((size + max * 2 - 3) / (max - 1) - 1) * (max - 1) >= size
  {
    var d := max - 1;
    var count := (size + max * 2 - 3) / d;
    assert d * count + (size + max * 2 - 3) % d == size + max * 2 - 3;
    assert d * (count - 1) == d * count - d;
  }

  lemma {:induction false} MulAtMost(a: int, d: int)
    requires a <= 0 < d
    ensures a * d <= 0
  {}

  /** The block count leaves room for `size` elements beside the front block. */
  lemma {:induction false} EnoughBlocks(c: nat, size: nat, max: nat)
    requires 2 <= max < BitTricks.WORD && BitTricks.IsPow2(max) && Sized(size, max)
    requires LeastPow2(c, size + 1) && c > Twice(max)
    ensures BlockCount(c, size, max) >= 1
    ensures (BlockCount(c, size, max) - 1) * (max - 1) >= size
  {
    hide BitTricks.Pow2, BitTricks.IsPow2;
    BitTricks.WordIsPow2();
    if max < BitTricks.Pow2(63) {
      assert c <= BitTricks.Pow2(63);
      assert Twice(max) == max * 2;
      var count := (size + max * 2 - 3) / (max - 1);
      assert BlockCount(c, size, max) == count;
      DivisionIsEnough(size, max);
      if count < 1 {
        MulAtMost(count - 1, max - 1);
      }
    } else {
      LargestPow2(max);
      LastBlockCount(c, size, max);
    }
  }

  /** The counts for a `max` of 2^63, whose double wraps to 0. */
  lemma {:induction false} LastBlockCount(c: nat, size: nat, max: nat)
    requires max == BitTricks.Pow2(63) && 0 < c && size < max
    ensures 2 <= max && Twice(max) == 0 && 2 * max == BitTricks.WORD
    ensures BlockCount(c, size, max) == if size == 0 then 1 else if size <= 2 then 2 else 0
  {
    hide BitTricks.Pow2;
    BitTricks.WordIsPow2();
    assert max == 0x8000_0000_0000_0000;
  }

  lemma {:induction false} InitialRelated(s: State, size: nat, max: nat) returns (l: Layout)
    requires Sized(size, max) && Initial(s, size, max)
    ensures Rel(s, l, START, size)
  {
    hide BitTricks.IsPow2, BitTricks.Pow2;
    var c := InitialRounding(s, size, max);
    var count, bs := BlockCount(c, size, max), BlockSize(c, max);
    if c > Twice(max) {
      EnoughBlocks(c, size, max);
    }
    l := ChainRelated(count, bs, size);
  }

  /** A size that is served is rounded up properly. */
  lemma {:induction false} InitialRounding(s: State, size: nat, max: nat) returns (c: nat)
    requires Sized(size, max) && Initial(s, size, max)
    ensures LeastPow2(c, size + 1) && s == Built(c, size, max) && (c <= Twice(max) ==> 1 <= size)
  {
    hide BitTricks.IsPow2, BitTricks.Pow2;
    BitTricks.WordIsPow2();
    c :| RoundsTo(c, size + 1) && s == Built(c, size, max);
    if max >= BitTricks.Pow2(63) {
      LargestPow2(max);
    }
  }

  function Ids(count: nat): seq<nat> { seq(count, i => i) }

  lemma {:induction false} ChainShape(count: nat, bs: nat)
    requires 0 < count && 2 <= bs
    ensures Shape(Chain(count, bs), 0, 0, Layout(Ids(count), 0))
  {}

  lemma {:induction false} ChainFill(count: nat, bs: nat)
    requires 0 < count && 2 <= bs
    ensures var l := Layout(Ids(count), 0);
            InBounds(Chain(count, bs), l.ring) && Fill(Chain(count, bs), l, false) && Raw(Chain(count, bs), l, 0, -1)
  {}

  lemma {:induction false} ChainData(count: nat, bs: nat)
    requires 0 < count && 2 <= bs
    ensures var l := Layout(Ids(count), 0);
            Elemable(Chain(count, bs), l.ring) && Data(Chain(count, bs), l, [], false)
  {
    ChainEmpty(count, bs, 0);
    assert Ids(count)[..1] == [0];
  }

  lemma {:induction false} ChainRoomy(count: nat, bs: nat, size: nat)
    requires 0 < count && 2 <= bs
    requires if count == 1 then size < bs else (count - 1) * (bs - 1) >= size
    ensures InBounds(Chain(count, bs), Ids(count)) && Roomy(Chain(count, bs), Ids(count), size)
  {
    ChainCapacity(count, bs, Ids(count));
    assert count * (bs - 1) - (bs - 1) == (count - 1) * (bs - 1);
  }

  lemma {:induction false} ChainRelated(count: nat, bs: nat, size: nat) returns (l: Layout)
    requires 0 < count && 2 <= bs
    requires if count == 1 then size < bs else (count - 1) * (bs - 1) >= size
    ensures Holds(PIdle, CIdle, Chain(count, bs), 0, 0, l, START, size) && |l.ring| == count
  {
    hide Shape, Fill, Raw, Data, Roomy, Chain, InBounds, Elemable;
    l := Layout(Ids(count), 0);
    ChainShape(count, bs);
    ChainFill(count, bs);
    ChainData(count, bs);
    ChainRoomy(count, bs, size);
  }

  // ---------------------------------------------------------------- runs

  /** An interleaving of one producer and one consumer, with what its steps show. */
  datatype Run = Run(states: seq<State>, events: seq<Event>)

  ghost predicate IsRun(r: Run, size: nat, max: nat) {
    && |r.states| == |r.events| + 1 && Initial(r.states[0], size, max)
    && forall i :: 0 <= i < |r.events| ==> Next(r.states[i], r.states[i + 1], r.events[i])
  }

  /** The FIFO after a trace of events. */
  ghost function After(es: seq<Event>): Fifo {
    if es == [] then START else Apply(After(es[..|es| - 1]), es[|es| - 1])
  }

  lemma {:induction false} AfterNext(es: seq<Event>, i: nat)
    requires i < |es|
    ensures After(es[..i + 1]) == Apply(After(es[..i]), es[i])
  {
    assert es[..i + 1][..i] == es[..i];
  }

  lemma {:induction false} RunRelated(r: Run, size: nat, max: nat, i: nat) returns (l: Layout)
    requires Sized(size, max) && IsRun(r, size, max) && i <= |r.events|
    ensures Rel(r.states[i], l, After(r.events[..i]), size)
    ensures i < |r.events| ==> Allowed(After(r.events[..i]), r.events[i], size)
    decreases i
  {
    hide Rel, Next, Initial;
    if i == 0 {
      l := InitialRelated(r.states[0], size, max);
    } else {
      var k := RunRelated(r, size, max, i - 1);
      assert Next(r.states[i - 1], r.states[i - 1 + 1], r.events[i - 1]);
      l := Simulates(r.states[i - 1], k, After(r.events[..i - 1]), size, r.states[i], r.events[i - 1]);
      AfterNext(r.events, i - 1);
    }
    if i < |r.events| {
      assert Next(r.states[i], r.states[i + 1], r.events[i]);
      var _ := Simulates(r.states[i], l, After(r.events[..i]), size, r.states[i + 1], r.events[i]);
    }
  }

  ghost predicate Accepted(es: seq<Event>, size: nat) {
    forall i :: 0 <= i < |es| ==> Allowed(After(es[..i]), es[i], size)
  }

  /** Every trace of the queue is one that a plain FIFO built for `size` elements allows. */
  lemma {:induction false} Refinement(r: Run, size: nat, max: nat)
    requires Sized(size, max) && IsRun(r, size, max)
    ensures Accepted(r.events, size)
  {
    hide IsRun, Rel, Allowed;
    forall i | 0 <= i < |r.events| ensures Allowed(After(r.events[..i]), r.events[i], size) {
      var _ := RunRelated(r, size, max, i);
    }
  }

  function Enqueued(es: seq<Event>): seq<Value> {
    if es == [] then [] else
      Enqueued(es[..|es| - 1]) + (var e := es[|es| - 1]; if e.Enq? then [e.v] else [])
  }

  function Dequeued(es: seq<Event>): seq<Value> {
    if es == [] then [] else
      Dequeued(es[..|es| - 1]) + (var e := es[|es| - 1]; if e.Deq? then [e.v] else [])
  }

  lemma {:induction false} AcceptedPrefix(es: seq<Event>, size: nat, k: nat)
    requires Accepted(es, size) && k <= |es|
    ensures Accepted(es[..k], size)
  {
    forall i | 0 <= i < k ensures Allowed(After(es[..k][..i]), es[..k][i], size) {
      assert es[..k][..i] == es[..i];
    }
  }

  lemma {:induction false} FifoStep(f: Fifo, e: Event, n: nat, ins: seq<Value>, outs: seq<Value>)
    requires Allowed(f, e, n) && ins == outs + f.q
    ensures ins + (if e.Enq? then [e.v] else []) == outs + (if e.Deq? then [e.v] else []) + Apply(f, e).q
  {
    if e.Deq? {
      assert f.q == [e.v] + f.q[1..];
    }
  }

  /** What an accepted trace means: values leave in the order they came, none lost or repeated. */
  lemma {:induction false} AcceptedIsFifo(es: seq<Event>, size: nat)
    requires Accepted(es, size)
    ensures Enqueued(es) == Dequeued(es) + After(es).q
  {
    if es != [] {
      var k := |es| - 1;
      AcceptedPrefix(es, size, k);
      AcceptedIsFifo(es[..k], size);
      FifoStep(After(es[..k]), es[k], size, Enqueued(es[..k]), Dequeued(es[..k]));
    }
  }

  /** The slots between front and tail, block after block, hold `q` in order. */
  ghost predicate Stores(s: State, q: seq<Value>, l: Layout) {
    && Shape(s.blocks, s.frontBlock, s.tailBlock, l)
    && Fill(s.blocks, l, s.p.PStoreTailBlock?)
    && Data(s.blocks, l, q, s.c.CStoreFront?)
  }

  lemma {:induction false} RelStores(s: State, l: Layout, f: Fifo, n: nat)
    requires Rel(s, l, f, n)
    ensures Stores(s, f.q, l)
  {
    hide ProducerOk, ConsumerOk, Shape, Fill, Raw, Data, Roomy;
  }

  /**
   At every moment of every interleaving, across growth and wrap-around, the values dequeued so far
   followed by what the ring stores are the values enqueued so far, in order; and the ring is
   well shaped.
   */
  lemma {:induction false} Conservation(r: Run, size: nat, max: nat, i: nat) returns (l: Layout, q: seq<Value>)
    requires Sized(size, max) && IsRun(r, size, max) && i <= |r.events|
    ensures Enqueued(r.events[..i]) == Dequeued(r.events[..i]) + q
    ensures Stores(r.states[i], q, l)
  {
    hide Rel, Stores, Initial, Next, Accepted;
    l := RunRelated(r, size, max, i);
    q := After(r.events[..i]).q;
    RelStores(r.states[i], l, After(r.events[..i]), size);
    Refinement(r, size, max);
    AcceptedPrefix(r.events, size, i);
    AcceptedIsFifo(r.events[..i], size);
  }

  /** A step never faults: no failed assert, no access out of bounds, no raw slot read, no live one overwritten. */
  lemma {:induction false} NoFault(r: Run, size: nat, max: nat, i: nat)
    requires Sized(size, max) && IsRun(r, size, max) && i < |r.events|
    ensures !r.events[i].Fault?
  {
    hide IsRun, Rel;
    var _ := RunRelated(r, size, max, i);
  }

  /** Once the consumer's call has begun, the FIFO has seen itself empty only if it was. */
  lemma {:induction false} SawEmptyMeans(es: seq<Event>, i: nat, j: nat) returns (k: nat)
    requires i < j <= |es| && es[i].DeqCall? && After(es[..j]).sawEmpty
    requires forall m :: i < m < j ==> !es[m].DeqCall?
    ensures i < k <= j && After(es[..k]).q == []
    decreases j
  {
    AfterNext(es, j - 1);
    if After(es[..j]).q == [] {
      k := j;
    } else {
      k := SawEmptyMeans(es, i, j - 1);
    }
  }

  /** A dequeue (or peek) that reports empty saw a moment, during its call, when the queue was empty. */
  lemma {:induction false} EmptyMeansEmpty(r: Run, size: nat, max: nat, i: nat, j: nat) returns (k: nat)
    requires Sized(size, max) && IsRun(r, size, max) && i < j < |r.events|
    requires r.events[i].DeqCall? && r.events[j].DeqEmpty? && forall m :: i < m < j ==> !r.events[m].DeqCall?
    ensures i < k <= j && Enqueued(r.events[..k]) == Dequeued(r.events[..k])
  {
    hide IsRun, Rel, Stores, Initial, Next;
    var _ := RunRelated(r, size, max, j);
    k := SawEmptyMeans(r.events, i, j);
    Refinement(r, size, max);
    AcceptedPrefix(r.events, size, k);
    AcceptedIsFifo(r.events[..k], size);
  }

  lemma {:induction false} MostMeans(es: seq<Event>, i: nat, j: nat, n: nat) returns (k: nat)
    requires i < j <= |es| && es[i].EnqCall? && After(es[..j]).most >= n
    requires forall m :: i < m < j ==> !es[m].EnqCall?
    ensures i < k <= j && |After(es[..k]).q| >= n
    decreases j
  {
    AfterNext(es, j - 1);
    if |After(es[..j]).q| >= n {
      k := j;
    } else {
      k := MostMeans(es, i, j - 1, n);
    }
  }

  /**
   A queue built for `size` elements refuses a non-allocating enqueue only if, at some moment of the
   call, it held at least `size` elements - whether or not it has grown.
   */
  lemma {:induction false} RefusedMeansFull(r: Run, size: nat, max: nat, i: nat, j: nat) returns (k: nat)
    requires Sized(size, max) && IsRun(r, size, max) && i < j < |r.events|
    requires r.events[i].EnqCall? && r.events[j].EnqRefused? && forall m :: i < m < j ==> !r.events[m].EnqCall?
    ensures i < k <= j && |Enqueued(r.events[..k])| - |Dequeued(r.events[..k])| >= size
  {
    hide IsRun, Rel, Stores, Initial, Next;
    var _ := RunRelated(r, size, max, j);
    k := MostMeans(r.events, i, j, size);
    Refinement(r, size, max);
    AcceptedPrefix(r.events, size, k);
    AcceptedIsFifo(r.events[..k], size);
  }

  // ---------------------------------------------------------------- block sizes

  ghost predicate Pow2Sizes(s: State) {
    && s.blocks != [] && BitTricks.IsPow2(s.largest)
    && forall i :: 0 <= i < |s.blocks| ==> BitTricks.IsPow2(Size(s.blocks[i]))
  }

  lemma {:induction false} Doubling(x: nat)
    requires BitTricks.IsPow2(x)
    ensures BitTricks.IsPow2(x * 2)
  {
    var k: nat :| x == BitTricks.Pow2(k);
    assert x * 2 == BitTricks.Pow2(k + 1);
  }

  /** But for the allocation, no step of the producer changes a block's size. */
  ghost predicate SameSizes(s: State, s': State) {
    && |s'.blocks| == |s.blocks| && s'.largest == s.largest
    && forall i :: 0 <= i < |s.blocks| ==> Size(s'.blocks[i]) == Size(s.blocks[i])
  }

  lemma {:induction false} TailSizes(s: State, s': State, e: Event)
    requires ProducerNext(s, s', e) && UsesTail(s.p)
    ensures SameSizes(s, s')
  {
    hide Inc;
  }

  lemma {:induction false} NextSizes(s: State, s': State, e: Event)
    requires ProducerNext(s, s', e) && UsesNext(s.p)
    ensures SameSizes(s, s')
  {
    hide Inc;
  }

  lemma {:induction false} NewSizes(s: State, s': State, e: Event)
    requires ProducerNext(s, s', e) && !UsesTail(s.p) && !UsesNext(s.p) && !s.p.PAlloc?
    ensures SameSizes(s, s')
  {
    hide Inc;
  }

  lemma {:induction false} ProducerPow2(s: State, s': State, e: Event)
    requires Pow2Sizes(s) && ProducerNext(s, s', e)
    ensures Pow2Sizes(s')
  {
    if s.p.PAlloc? {
      Doubling(s.largest);
    } else {
      hide ProducerNext, BitTricks.IsPow2;
      if UsesTail(s.p) {
        TailSizes(s, s', e);
      } else if UsesNext(s.p) {
        NextSizes(s, s', e);
      } else {
        NewSizes(s, s', e);
      }
    }
  }

  lemma {:induction false} EarlySizes(s: State, s': State, e: Event)
    requires ConsumerNext(s, s', e) && Early(s.c)
    ensures SameSizes(s, s')
  {
    hide Inc;
  }

  lemma {:induction false} LateSizes(s: State, s': State, e: Event)
    requires ConsumerNext(s, s', e) && !Early(s.c)
    ensures SameSizes(s, s')
  {
    hide Inc;
  }

  lemma {:induction false} ConsumerPow2(s: State, s': State, e: Event)
    requires Pow2Sizes(s) && ConsumerNext(s, s', e)
    ensures Pow2Sizes(s')
  {
    hide ConsumerNext, BitTricks.IsPow2;
    if Early(s.c) { EarlySizes(s, s', e); } else { LateSizes(s, s', e); }
  }

  lemma {:induction false} InitialPow2(s: State, size: nat, max: nat)
    requires Sized(size, max) && Initial(s, size, max)
    ensures Pow2Sizes(s)
  {
    hide BitTricks.IsPow2, BitTricks.Pow2;
    var c := InitialRounding(s, size, max);
    if c > Twice(max) { EnoughBlocks(c, size, max); }
  }

  lemma {:induction false} RunPow2(r: Run, size: nat, max: nat, i: nat)
    requires Sized(size, max) && IsRun(r, size, max) && i <= |r.events|
    ensures Pow2Sizes(r.states[i])
  {
    hide BitTricks.IsPow2, ProducerNext, ConsumerNext;
    if i == 0 {
      InitialPow2(r.states[0], size, max);
    } else {
      RunPow2(r, size, max, i - 1);
      var s, s', e := r.states[i - 1], r.states[i - 1 + 1], r.events[i - 1];
      assert Next(s, s', e);
      if ProducerNext(s, s', e) { ProducerPow2(s, s', e); } else { ConsumerPow2(s, s', e); }
    }
  }

  /** In every reachable state the masked increment of the program is the wrapping one of the model. */
  lemma {:induction false} MaskedIndexWraps(r: Run, size: nat, max: nat, i: nat, id: nat, j: nat)
    requires Sized(size, max) && IsRun(r, size, max) && i <= |r.events| && id < |r.states[i].blocks|
             && j < Size(r.states[i].blocks[id])
    ensures BitTricks.And(j + 1, Size(r.states[i].blocks[id]) - 1) == Inc(j, Size(r.states[i].blocks[id]))
  {
    hide Initial, Next, Sized, BitTricks.And, BitTricks.Pow2;
    RunPow2(r, size, max, i);
    var b := r.states[i].blocks[id];
    var k: nat :| Size(b) == BitTricks.Pow2(k);
    BitTricks.MaskIsWrap(j, k);
  }
}
