/**
 The lock-free single-producer/single-consumer queue (`ReaderWriterQueue`): a ring of circular
 blocks with shadow indices, growth by splicing a block in, and a double-checked dequeue.

 The model is a labelled transition system with one step per load or store of a shared variable,
 under sequentially consistent interleavings.  An access outside a block, a failed `assert`,
 reading a slot that holds no object and constructing over a live one are all `Fault` steps.
 */
module SpscQueue {

  type Value(==, !new)

  datatype Option<+A> = None | Some(value: A)

  /** A circular buffer; a slot is `None` while it is raw memory. One slot is never used. */
  datatype Block = Block(front: nat, localTail: nat, tail: nat, localFront: nat, next: nat,
                         slots: seq<Option<Value>>)

  /** Whether the consumer's call removes the element (`try_dequeue`, `pop`) or only looks (`peek`). */
  datatype Kind = Remove | Peek

  /** Program counter and locals of `inner_enqueue`; `grow` is the allocation mode. */
  datatype Producer =
    | PIdle
    | PLoadTailBlock(v: Value, grow: bool)
    | PLoadTail(v: Value, grow: bool, tb: nat)
    | PLoadFront(v: Value, grow: bool, tb: nat, bt: nat)
    | PConstruct(v: Value, tb: nat, bt: nat)
    | PStoreTail(v: Value, tb: nat, bt: nat)
    | PLoadNext(v: Value, grow: bool, tb: nat)
    | PLoadFrontBlock(v: Value, grow: bool, tb: nat, nx: nat)
    | PReloadNext(v: Value, tb: nat)
    | PLoadNextFront(v: Value, nb: nat)
    | PLoadNextTail(v: Value, nb: nat, nf: nat)
    | PConstructNext(v: Value, nb: nat, nt: nat)
    | PStoreNextTail(v: Value, nb: nat, nt: nat)
    | PAlloc(v: Value, tb: nat)
    | PConstructNew(v: Value, tb: nat, nb: nat)
    | PStoreNewTail(v: Value, tb: nat, nb: nat)
    | PLinkNew(v: Value, tb: nat, nb: nat)
    | PSplice(v: Value, tb: nat, nb: nat)
    | PStoreTailBlock(v: Value, nb: nat)

  /** Program counter and locals of `try_dequeue`, `pop` and `peek`. */
  datatype Consumer =
    | CIdle
    | CLoadFrontBlock(k: Kind)
    | CLoadFront(k: Kind, fb: nat, bt: nat)
    | CLoadTail(k: Kind, fb: nat, bf: nat)
    | CLoadTailBlock(k: Kind, fb: nat)
    | CReloadFrontBlock(k: Kind)
    | CReloadTail(k: Kind, fb: nat)
    | CReloadFront(k: Kind, fb: nat, bt: nat)
    | CLoadNext(k: Kind, fb: nat)
    | CLoadNextFront(k: Kind, nb: nat)
    | CLoadNextTail(k: Kind, nb: nat, nf: nat)
    | CStoreFrontBlock(nb: nat, nf: nat)
    | CTake(fb: nat, bf: nat)
    | CStoreFront(fb: nat, bf: nat, v: Value)
    | CLook(b: nat, i: nat)

  /** `maxBlock` is the template parameter `MAX_BLOCK_SIZE`, `largest` is `largestBlockSize`. */
  datatype State = State(blocks: seq<Block>, frontBlock: nat, tailBlock: nat, largest: nat,
                         maxBlock: nat, p: Producer, c: Consumer)

  /** What a step shows to the callers: calls, their results, or nothing. */
  datatype Event =
    | Tau
    | EnqCall(v: Value, grow: bool)
    | Enq(v: Value)
    | EnqRefused
    | EnqNoMemory
    | DeqCall(k: Kind)
    | Deq(v: Value)
    | DeqEmpty
    | Peeked(v: Value)
    | Fault

  // ---------------------------------------------------------------- index arithmetic

  /** `(i + 1) & sizeMask` for a power-of-two size and `i < size`; see `BitTricks.MaskIsWrap`. */
  function Inc(i: nat, size: nat): nat {
    if i + 1 == size then 0 else i + 1
  }

  /** Distance from `f` forward to `t` in a circle of `size` slots. */
  function Dist(f: nat, t: nat, size: nat): int {
    if f <= t then t - f else t + size - f
  }

  function Size(b: Block): nat { |b.slots| }

  function Count(b: Block): int { Dist(b.front, b.tail, Size(b)) }

  // ---------------------------------------------------------------- the program

  function EmptyBlock(size: nat): Block {
    Block(0, 0, 0, 0, 0, seq(size, _ => None))
  }

  predicate Has(s: State, id: nat) { id < |s.blocks| }

  predicate Slot(s: State, id: nat, i: nat) { Has(s, id) && i < Size(s.blocks[id]) }

  function Put(s: State, id: nat, b: Block): State
    requires Has(s, id)
  {
    s.(blocks := s.blocks[id := b])
  }

  /** A silent step to `target`, unless the access it makes is not `ok`. */
  function Silent(ok: bool, s: State, target: State): (State, Event) {
    if ok then (target, Tau) else (s, Fault)
  }

  /** The producer's step inside `try_enqueue` or `enqueue`, an allocation succeeding. */
  function ProducerStep(s: State): (State, Event)
    requires !s.p.PIdle?
  {
    match s.p
    case PLoadTailBlock(v, grow) =>
      (s.(p := PLoadTail(v, grow, s.tailBlock)), Tau)
    case PLoadTail(v, grow, tb) =>
      Silent(Has(s, tb), s,
             if !Has(s, tb) then s else
               var b := s.blocks[tb];
               s.(p := if Inc(b.tail, Size(b)) != b.localFront then PConstruct(v, tb, b.tail)
                       else PLoadFront(v, grow, tb, b.tail)))
    case PLoadFront(v, grow, tb, bt) =>
      Silent(Has(s, tb), s,
             if !Has(s, tb) then s else
               var b := s.blocks[tb];
               Put(s, tb, b.(localFront := b.front))
                .(p := if Inc(bt, Size(b)) != b.front then PConstruct(v, tb, bt)
                       else PLoadNext(v, grow, tb)))
    case PConstruct(v, tb, bt) =>
      Silent(Slot(s, tb, bt) && s.blocks[tb].slots[bt].None?, s,
             if !Slot(s, tb, bt) then s else
               var b := s.blocks[tb];
               Put(s, tb, b.(slots := b.slots[bt := Some(v)])).(p := PStoreTail(v, tb, bt)))
    case PStoreTail(v, tb, bt) =>
      if !Has(s, tb) then (s, Fault) else
        var b := s.blocks[tb];
        (Put(s, tb, b.(tail := Inc(bt, Size(b)))).(p := PIdle), Enq(v))
    case PLoadNext(v, grow, tb) =>
      Silent(Has(s, tb), s,
             if !Has(s, tb) then s else s.(p := PLoadFrontBlock(v, grow, tb, s.blocks[tb].next)))
    case PLoadFrontBlock(v, grow, tb, nx) =>
      if nx != s.frontBlock then (s.(p := PReloadNext(v, tb)), Tau)
      else if grow then (s.(p := PAlloc(v, tb)), Tau)
      else (s.(p := PIdle), EnqRefused)
    case PReloadNext(v, tb) =>
      Silent(Has(s, tb), s,
             if !Has(s, tb) then s else s.(p := PLoadNextFront(v, s.blocks[tb].next)))
    case PLoadNextFront(v, nb) =>
      Silent(Has(s, nb), s,
             if !Has(s, nb) then s else
               var b := s.blocks[nb];
               Put(s, nb, b.(localFront := b.front)).(p := PLoadNextTail(v, nb, b.front)))
    case PLoadNextTail(v, nb, nf) =>
      // asserted: the block ahead is empty
      Silent(Has(s, nb) && nf == s.blocks[nb].tail, s,
             if !Has(s, nb) then s else
               var b := s.blocks[nb];
               Put(s, nb, b.(localFront := nf)).(p := PConstructNext(v, nb, b.tail)))
    case PConstructNext(v, nb, nt) =>
      Silent(Slot(s, nb, nt) && s.blocks[nb].slots[nt].None?, s,
             if !Slot(s, nb, nt) then s else
               var b := s.blocks[nb];
               Put(s, nb, b.(slots := b.slots[nt := Some(v)])).(p := PStoreNextTail(v, nb, nt)))
    case PStoreNextTail(v, nb, nt) =>
      Silent(Has(s, nb), s,
             if !Has(s, nb) then s else
               var b := s.blocks[nb];
               Put(s, nb, b.(tail := Inc(nt, Size(b)))).(p := PStoreTailBlock(v, nb)))
    case PAlloc(v, tb) =>
      var size := if s.largest >= s.maxBlock then s.largest else s.largest * 2;
      (s.(blocks := s.blocks + [EmptyBlock(size)], largest := size, p := PConstructNew(v, tb, |s.blocks|)), Tau)
    case PConstructNew(v, tb, nb) =>
      Silent(Slot(s, nb, 0) && s.blocks[nb].slots[0].None?, s,
             if !Slot(s, nb, 0) then s else
               var b := s.blocks[nb];
               Put(s, nb, b.(slots := b.slots[0 := Some(v)])).(p := PStoreNewTail(v, tb, nb)))
    case PStoreNewTail(v, tb, nb) =>
      // asserted: a new block starts at slot 0
      Silent(Has(s, nb) && s.blocks[nb].front == 0, s,
             if !Has(s, nb) then s else
               var b := s.blocks[nb];
               Put(s, nb, b.(tail := 1, localTail := 1)).(p := PLinkNew(v, tb, nb)))
    case PLinkNew(v, tb, nb) =>
      Silent(Has(s, nb) && Has(s, tb), s,
             if !(Has(s, nb) && Has(s, tb)) then s else
               Put(s, nb, s.blocks[nb].(next := s.blocks[tb].next)).(p := PSplice(v, tb, nb)))
    case PSplice(v, tb, nb) =>
      Silent(Has(s, tb), s,
             if !Has(s, tb) then s else
               Put(s, tb, s.blocks[tb].(next := nb)).(p := PStoreTailBlock(v, nb)))
    case PStoreTailBlock(v, nb) =>
      (s.(tailBlock := nb, p := PIdle), Enq(v))
  }

  /** The producer begins a call, or takes its step in one; an allocation may fail. */
  predicate ProducerNext(s: State, s': State, e: Event) {
    if s.p.PIdle? then e.EnqCall? && s' == s.(p := PLoadTailBlock(e.v, e.grow))
    else
      var (t, f) := ProducerStep(s);
      (s' == t && e == f) || (s.p.PAlloc? && e == EnqNoMemory && s' == s.(p := PIdle))
  }

  /** Where a call goes once it has found an element at slot `i` of block `b`. */
  function Found(k: Kind, b: nat, i: nat): Consumer {
    if k == Remove then CTake(b, i) else CLook(b, i)
  }

  /** The consumer's step inside `try_dequeue`, `pop` or `peek`. */
  function ConsumerStep(s: State): (State, Event)
    requires !s.c.CIdle?
  {
    match s.c
    case CLoadFrontBlock(k) =>
      Silent(Has(s, s.frontBlock), s,
             if !Has(s, s.frontBlock) then s else
               s.(c := CLoadFront(k, s.frontBlock, s.blocks[s.frontBlock].localTail)))
    case CLoadFront(k, fb, bt) =>
      Silent(Has(s, fb), s,
             if !Has(s, fb) then s else
               var bf := s.blocks[fb].front;
               s.(c := if bf != bt then Found(k, fb, bf) else CLoadTail(k, fb, bf)))
    case CLoadTail(k, fb, bf) =>
      Silent(Has(s, fb), s,
             if !Has(s, fb) then s else
               var b := s.blocks[fb];
               Put(s, fb, b.(localTail := b.tail))
                .(c := if bf != b.tail then Found(k, fb, bf) else CLoadTailBlock(k, fb)))
    case CLoadTailBlock(k, fb) =>
      if fb != s.tailBlock then (s.(c := CReloadFrontBlock(k)), Tau)
      else (s.(c := CIdle), DeqEmpty)
    case CReloadFrontBlock(k) =>
      (s.(c := CReloadTail(k, s.frontBlock)), Tau)
    case CReloadTail(k, fb) =>
      Silent(Has(s, fb), s,
             if !Has(s, fb) then s else
               var b := s.blocks[fb];
               Put(s, fb, b.(localTail := b.tail)).(c := CReloadFront(k, fb, b.tail)))
    case CReloadFront(k, fb, bt) =>
      Silent(Has(s, fb), s,
             if !Has(s, fb) then s else
               var bf := s.blocks[fb].front;
               s.(c := if bf != bt then Found(k, fb, bf) else CLoadNext(k, fb)))
    case CLoadNext(k, fb) =>
      Silent(Has(s, fb), s,
             if !Has(s, fb) then s else s.(c := CLoadNextFront(k, s.blocks[fb].next)))
    case CLoadNextFront(k, nb) =>
      Silent(Has(s, nb), s,
             if !Has(s, nb) then s else s.(c := CLoadNextTail(k, nb, s.blocks[nb].front)))
    case CLoadNextTail(k, nb, nf) =>
      // asserted: the block ahead is not empty; only the removing calls
      // refresh its shadow tail
      Silent(Has(s, nb) && nf != s.blocks[nb].tail, s,
             if !Has(s, nb) then s else
               var b := s.blocks[nb];
               if k == Peek then s.(c := CLook(nb, nf))
               else Put(s, nb, b.(localTail := b.tail)).(c := CStoreFrontBlock(nb, nf)))
    case CStoreFrontBlock(nb, nf) =>
      (s.(frontBlock := nb, c := CTake(nb, nf)), Tau)
    case CTake(fb, bf) =>
      if Slot(s, fb, bf) && s.blocks[fb].slots[bf].Some? then
        var b := s.blocks[fb];
        (Put(s, fb, b.(slots := b.slots[bf := None])).(c := CStoreFront(fb, bf, b.slots[bf].value)), Tau)
      else (s, Fault)
    case CStoreFront(fb, bf, v) =>
      if !Has(s, fb) then (s, Fault) else
        var b := s.blocks[fb];
        (Put(s, fb, b.(front := Inc(bf, Size(b)))).(c := CIdle), Deq(v))
    case CLook(b, i) =>
      if Slot(s, b, i) && s.blocks[b].slots[i].Some? then
        (s.(c := CIdle), Peeked(s.blocks[b].slots[i].value))
      else (s, Fault)
  }

  /** The consumer begins a call, or takes its step in one. */
  predicate ConsumerNext(s: State, s': State, e: Event) {
    if s.c.CIdle? then e.DeqCall? && s' == s.(c := CLoadFrontBlock(e.k))
    else
      var (t, f) := ConsumerStep(s);
      s' == t && e == f
  }

  /** The consumer is inside a call of kind `k`. */
  predicate Doing(c: Consumer, k: Kind) {
    match c
    case CIdle => false
    case CLoadFrontBlock(j) => j == k
    case CLoadFront(j, _, _) => j == k
    case CLoadTail(j, _, _) => j == k
    case CLoadTailBlock(j, _) => j == k
    case CReloadFrontBlock(j) => j == k
    case CReloadTail(j, _) => j == k
    case CReloadFront(j, _, _) => j == k
    case CLoadNext(j, _) => j == k
    case CLoadNextFront(j, _) => j == k
    case CLoadNextTail(j, _, _) => j == k
    case CLook(_, _) => k == Peek
    case _ => k == Remove
  }

  predicate Next(s: State, s': State, e: Event) {
    ProducerNext(s, s', e) || ConsumerNext(s, s', e)
  }

  // ---------------------------------------------------------------- the specification

  /**
   A plain FIFO queue with two observations about the calls in progress: whether the queue has
   been empty at some moment since the consumer's call began, and the largest number of elements
   it has held at any moment since the producer's call began.
   */
  datatype Fifo = Fifo(q: seq<Value>, sawEmpty: bool, most: nat)

  /** What a FIFO built for `n` elements allows: `Fault` never. */
  predicate Allowed(f: Fifo, e: Event, n: nat) {
    match e
    case Deq(v) => f.q != [] && f.q[0] == v
    case Peeked(v) => f.q != [] && f.q[0] == v
    case DeqEmpty => f.sawEmpty
    case EnqRefused => f.most >= n
    case Fault => false
    case _ => true
  }

  function Apply(f: Fifo, e: Event): Fifo {
    var q := match e
             case Enq(v) => f.q + [v]
             case Deq(_) => if f.q == [] then [] else f.q[1..]
             case _ => f.q;
    Fifo(q,
         q == [] || (f.sawEmpty && !e.DeqCall?),
         if e.EnqCall? || f.most < |q| then |q| else f.most)
  }

  // ---------------------------------------------------------------- the ring's shape

  /** Witness of the ring: the blocks in `next` order from the front block; `t` is the tail's place. */
  datatype Layout = Layout(ring: seq<nat>, t: nat)

  ghost predicate BlockOk(b: Block) {
    && 2 <= Size(b)
    && b.front < Size(b) && b.tail < Size(b) && b.localFront < Size(b) && b.localTail < Size(b)
    && Dist(b.front, b.localTail, Size(b)) <= Count(b)
    && Count(b) <= Dist(b.localFront, b.tail, Size(b))
  }

  predicate Full(b: Block) { Count(b) == Size(b) - 1 }

  ghost predicate InBounds(blocks: seq<Block>, ids: seq<nat>) {
    forall i :: 0 <= i < |ids| ==> ids[i] < |blocks|
  }

  ghost predicate Distinct(ids: seq<nat>) {
    forall i, j :: 0 <= i < j < |ids| ==> ids[i] != ids[j]
  }

  ghost predicate Linked(blocks: seq<Block>, ring: seq<nat>)
    requires InBounds(blocks, ring)
  {
    forall i {:trigger blocks[ring[i]].next} :: 0 <= i < |ring| ==> blocks[ring[i]].next == ring[Inc(i, |ring|)]
  }

  ghost predicate Shape(blocks: seq<Block>, frontBlock: nat, tailBlock: nat, l: Layout) {
    && l.t < |l.ring|
    && InBounds(blocks, l.ring) && Distinct(l.ring) && Linked(blocks, l.ring)
    && l.ring[0] == frontBlock && l.ring[l.t] == tailBlock
    && (forall i :: 0 <= i < |l.ring| ==> BlockOk(blocks[l.ring[i]]))
  }

  /**
   Blocks after the front one up to the tail one are non-empty, those strictly between are full,
   and those beyond the tail are empty; while the producer is about to publish the block after the
   tail (`ahead`), that block holds exactly one element.
   */
  ghost predicate Fill(blocks: seq<Block>, l: Layout, ahead: bool)
    requires l.t < |l.ring| && InBounds(blocks, l.ring)
  {
    && (forall i :: 0 < i <= l.t ==> 0 < Count(blocks[l.ring[i]]))
    && (forall i :: 0 < i < l.t ==> Full(blocks[l.ring[i]]))
    && (forall i :: l.t < i < |l.ring| && !(ahead && i == l.t + 1) ==> Count(blocks[l.ring[i]]) == 0)
    && (ahead ==> l.t + 1 < |l.ring| && Count(blocks[l.ring[l.t + 1]]) == 1)
  }

  /** Slots outside `front..tail` hold no object, but for the one just constructed by the producer. */
  ghost predicate RawBlock(b: Block, built: int) {
    forall j {:trigger b.slots[j]} ::
      0 <= j < Size(b) && j != built && Dist(b.front, j, Size(b)) >= Count(b) ==> b.slots[j] == None
  }

  ghost predicate Raw(blocks: seq<Block>, l: Layout, at: nat, hole: int)
    requires InBounds(blocks, l.ring)
  {
    forall i :: 0 <= i < |l.ring| ==>
      RawBlock(blocks[l.ring[i]], if l.ring[i] == at then hole else -1)
  }

  /** The slot where the producer has constructed an element not yet counted, or -1. */
  function Hole(p: Producer): int {
    match p
    case PStoreTail(_, _, bt) => bt
    case PStoreNextTail(_, _, nt) => nt
    case _ => -1
  }

  function HoleBlock(p: Producer): nat {
    match p
    case PStoreTail(_, tb, _) => tb
    case PStoreNextTail(_, nb, _) => nb
    case _ => 0
  }

  /** The slots from front to tail, in order. */
  function Elems(b: Block): seq<Option<Value>>
    requires b.front < Size(b) && b.tail < Size(b)
  {
    if b.front <= b.tail then b.slots[b.front..b.tail] else b.slots[b.front..] + b.slots[..b.tail]
  }

  ghost predicate Elemable(blocks: seq<Block>, ids: seq<nat>) {
    InBounds(blocks, ids) && forall i :: 0 <= i < |ids| ==> BlockOk(blocks[ids[i]])
  }

  ghost function Phys(blocks: seq<Block>, ids: seq<nat>): seq<Option<Value>>
    requires Elemable(blocks, ids)
  {
    if ids == [] then [] else Elems(blocks[ids[0]]) + Phys(blocks, ids[1..])
  }

  ghost function Somes(q: seq<Value>): (r: seq<Option<Value>>)
    ensures |r| == |q| && forall i :: 0 <= i < |q| ==> r[i] == Some(q[i])
  {
    seq(|q|, i requires 0 <= i < |q| => Some(q[i]))
  }

  /** What the slots hold when the queue holds `q`: the head's slot is raw once it is `taken`. */
  ghost function Masked(q: seq<Value>, taken: bool): seq<Option<Value>>
    requires taken ==> q != []
  {
    if taken then [None] + Somes(q[1..]) else Somes(q)
  }

  /** The blocks from front to tail hold exactly `q`. */
  ghost predicate Data(blocks: seq<Block>, l: Layout, q: seq<Value>, taken: bool)
    requires l.t < |l.ring| && Elemable(blocks, l.ring)
  {
    (taken ==> q != []) && Phys(blocks, l.ring[..l.t + 1]) == Masked(q, taken)
  }

  ghost function Capacity(blocks: seq<Block>, ids: seq<nat>): int
    requires InBounds(blocks, ids)
  {
    if ids == [] then 0 else Size(blocks[ids[0]]) - 1 + Capacity(blocks, ids[1..])
  }

  /** Whichever block is the front one, the others have room for `n`; a lone block has it itself. */
  ghost predicate Roomy(blocks: seq<Block>, ring: seq<nat>, n: nat)
    requires InBounds(blocks, ring)
  {
    if |ring| == 1 then n < Size(blocks[ring[0]])
    else forall i :: 0 <= i < |ring| ==> Capacity(blocks, ring) - (Size(blocks[ring[i]]) - 1) >= n
  }

  // ---------------------------------------------------------------- what each thread knows

  /** The block with the given id. */
  function At(blocks: seq<Block>, id: nat): Block {
    if id < |blocks| then blocks[id] else EmptyBlock(0)
  }

  /** The content of a slot; `None` outside the block. */
  function Cell(b: Block, i: nat): Option<Value> {
    if i < |b.slots| then b.slots[i] else None
  }

  /** The id of the block at place `i` of the ring. */
  function Place(l: Layout, i: nat): nat {
    if i < |l.ring| then l.ring[i] else 0
  }

  ghost predicate TailFull(blocks: seq<Block>, frontBlock: nat, tailBlock: nat) {
    tailBlock == frontBlock || Full(At(blocks, tailBlock))
  }

  ghost predicate AtNext(l: Layout, nb: nat) {
    l.t + 1 < |l.ring| && nb == Place(l, l.t + 1)
  }

  /** A block the producer allocated and has not yet spliced in. */
  ghost predicate Private(blocks: seq<Block>, l: Layout, nb: nat, n: nat) {
    && nb < |blocks| && nb !in l.ring && BlockOk(At(blocks, nb)) && At(blocks, nb).front == 0
    && (|l.ring| == 1 ==> n < Size(At(blocks, nb)))
  }

  /** A new block whose slots from `k` on are raw. */
  ghost predicate Blank(b: Block, k: nat) {
    b.front == 0 == b.tail && b.localFront == 0 == b.localTail && forall j :: k <= j < Size(b) ==> b.slots[j] == None
  }

  ghost predicate ProducerOk(p: Producer, blocks: seq<Block>, frontBlock: nat, tailBlock: nat, l: Layout, most: nat,
                             n: nat) {
    match p
    case PIdle => true
    case PLoadTailBlock(_, _) => true
    case PLoadTail(_, _, tb) => tb == tailBlock
    case PLoadFront(_, _, tb, bt) => tb == tailBlock && bt == At(blocks, tb).tail
    case PConstruct(_, tb, bt) =>
      && tb == tailBlock && bt == At(blocks, tb).tail && !Full(At(blocks, tb))
      && Inc(bt, Size(At(blocks, tb))) != At(blocks, tb).localFront
    case PStoreTail(v, tb, bt) =>
      && tb == tailBlock && bt == At(blocks, tb).tail && !Full(At(blocks, tb))
      && Inc(bt, Size(At(blocks, tb))) != At(blocks, tb).localFront
      && Cell(At(blocks, tb), bt) == Some(v)
    case PLoadNext(_, _, tb) =>
      tb == tailBlock && TailFull(blocks, frontBlock, tailBlock) && (|l.ring| == 1 ==> most >= Size(At(blocks, tb)) - 1)
    case PLoadFrontBlock(_, _, tb, nx) =>
      && tb == tailBlock && TailFull(blocks, frontBlock, tailBlock)
      && (|l.ring| == 1 ==> most >= Size(At(blocks, tb)) - 1)
      && nx == At(blocks, tb).next
    case PReloadNext(_, tb) => tb == tailBlock && TailFull(blocks, frontBlock, tailBlock) && l.t + 1 < |l.ring|
    case PLoadNextFront(_, nb) => TailFull(blocks, frontBlock, tailBlock) && AtNext(l, nb)
    case PLoadNextTail(_, nb, nf) =>
      && TailFull(blocks, frontBlock, tailBlock) && AtNext(l, nb) && nf == At(blocks, nb).front
      && At(blocks, nb).localFront == nf
    case PConstructNext(_, nb, nt) =>
      && TailFull(blocks, frontBlock, tailBlock) && AtNext(l, nb) && nt == At(blocks, nb).tail
      && At(blocks, nb).localFront == At(blocks, nb).front
    case PStoreNextTail(v, nb, nt) =>
      && TailFull(blocks, frontBlock, tailBlock) && AtNext(l, nb) && nt == At(blocks, nb).tail
      && At(blocks, nb).localFront == At(blocks, nb).front
      && Cell(At(blocks, nb), nt) == Some(v)
    case PAlloc(_, tb) => tb == tailBlock && TailFull(blocks, frontBlock, tailBlock)
    case PConstructNew(_, tb, nb) =>
      tb == tailBlock && TailFull(blocks, frontBlock, tailBlock) && Private(blocks, l, nb, n)
      && Blank(At(blocks, nb), 0)
    case PStoreNewTail(v, tb, nb) =>
      && tb == tailBlock && TailFull(blocks, frontBlock, tailBlock) && Private(blocks, l, nb, n)
      && Cell(At(blocks, nb), 0) == Some(v)
      && Blank(At(blocks, nb), 1)
    case PLinkNew(v, tb, nb) =>
      && tb == tailBlock && TailFull(blocks, frontBlock, tailBlock)
      && Private(blocks, l, nb, n) && Single(At(blocks, nb), v)
    case PSplice(v, tb, nb) =>
      && tb == tailBlock && TailFull(blocks, frontBlock, tailBlock) && Private(blocks, l, nb, n)
      && Single(At(blocks, nb), v)
      && At(blocks, nb).next == At(blocks, tb).next
    case PStoreTailBlock(v, nb) =>
      TailFull(blocks, frontBlock, tailBlock) && AtNext(l, nb) && BlockOk(At(blocks, nb))
      && Elems(At(blocks, nb)) == [Some(v)]
  }

  /** A new block holding just `v`. */
  ghost predicate Single(b: Block, v: Value) {
    && b.front == 0 && b.tail == 1 && 2 <= Size(b) && b.slots[0] == Some(v)
    && forall j :: 1 <= j < Size(b) ==> b.slots[j] == None
  }

  /** The front block is drained and there is a filled block after it. */
  ghost predicate Drained(blocks: seq<Block>, frontBlock: nat, l: Layout) {
    0 < l.t && Count(At(blocks, frontBlock)) == 0
  }

  ghost predicate ConsumerOk(c: Consumer, blocks: seq<Block>, frontBlock: nat, l: Layout, sawEmpty: bool,
                             q: seq<Value>) {
    match c
    case CIdle => true
    case CLoadFrontBlock(_) => true
    case CLoadFront(_, fb, bt) => fb == frontBlock && bt == At(blocks, fb).localTail
    case CLoadTail(_, fb, bf) => fb == frontBlock && bf == At(blocks, fb).front
    case CLoadTailBlock(_, fb) => fb == frontBlock && (sawEmpty || 0 < l.t)
    case CReloadFrontBlock(_) => 0 < l.t
    case CReloadTail(_, fb) => fb == frontBlock && 0 < l.t
    case CReloadFront(_, fb, bt) =>
      fb == frontBlock && 0 < l.t && bt == At(blocks, fb).tail == At(blocks, fb).localTail
    case CLoadNext(_, fb) => fb == frontBlock && Drained(blocks, frontBlock, l)
    case CLoadNextFront(_, nb) => Drained(blocks, frontBlock, l) && nb == Place(l, 1)
    case CLoadNextTail(_, nb, nf) => Drained(blocks, frontBlock, l) && nb == Place(l, 1) && nf == At(blocks, nb).front
    case CStoreFrontBlock(nb, nf) =>
      && Drained(blocks, frontBlock, l) && nb == Place(l, 1) && nf == At(blocks, nb).front
      && nf != At(blocks, nb).localTail
    case CTake(fb, bf) =>
      && fb == frontBlock && bf == At(blocks, fb).front && bf != At(blocks, fb).localTail
    case CStoreFront(fb, bf, v) =>
      && fb == frontBlock && bf == At(blocks, fb).front && bf != At(blocks, fb).localTail
      && q != [] && v == q[0] && Cell(At(blocks, fb), bf) == None
    case CLook(b, i) =>
      && b < |blocks| && i == At(blocks, b).front
      && ((b == frontBlock && 0 < Count(At(blocks, b))) || (Drained(blocks, frontBlock, l) && b == Place(l, 1)))
  }

  /** The layouts under which the blocks form a well-shaped ring that holds exactly `q`. */
  ghost function Rings(blocks: seq<Block>, frontBlock: nat, tailBlock: nat, ahead: bool, at: nat, hole: int,
                       q: seq<Value>, taken: bool, n: nat): iset<Layout>
  {
    iset l: Layout |
      && Shape(blocks, frontBlock, tailBlock, l)
      && Fill(blocks, l, ahead)
      && Raw(blocks, l, at, hole)
      && Data(blocks, l, q, taken)
      && Roomy(blocks, l.ring, n)
  }

  /** The relation between the shared variables, the two threads and the FIFO. */
  ghost predicate Holds(p: Producer, c: Consumer, blocks: seq<Block>, frontBlock: nat, tailBlock: nat, l: Layout,
                        f: Fifo, n: nat)
  {
    && l in Rings(blocks, frontBlock, tailBlock, p.PStoreTailBlock?, HoleBlock(p), Hole(p), f.q,
                  c.CStoreFront?, n)
    && ProducerOk(p, blocks, frontBlock, tailBlock, l, f.most, n)
    && ConsumerOk(c, blocks, frontBlock, l, f.sawEmpty, f.q)
  }

  /** The simulation relation between the queue and the FIFO it implements. */
  ghost predicate Rel(s: State, l: Layout, f: Fifo, n: nat) {
    && Holds(s.p, s.c, s.blocks, s.frontBlock, s.tailBlock, l, f, n)
    && 2 <= s.largest && (|l.ring| == 1 ==> n < s.largest)
    && |f.q| <= f.most && (f.q == [] ==> f.sawEmpty)
  }

  /** The layouts that witness the relation. */
  ghost function Layouts(s: State, f: Fifo, n: nat): iset<Layout> {
    iset l: Layout | Rel(s, l, f, n)
  }
}
