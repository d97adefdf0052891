/**
 The simulation: each step of either thread, from each program counter, is one that the FIFO allows
 and keeps the relation.
 */
module SpscSimulation {
  import opened SpscQueue
  import opened SpscRefinement

  // ---------------------------------------------------------------- what each thread relies on

  /** What the consumer relies on and no step of the producer takes away. */
  ghost predicate ConsumerKeeps(x: seq<Block>, fb: nat, l: Layout, f: Fifo, y: seq<Block>, l': Layout, f': Fifo) {
    && |x| <= |y|
    && (var a, b := At(x, fb), At(y, fb);
        && Size(b) == Size(a) && b.front == a.front && b.localTail == a.localTail && Count(a) <= Count(b)
        && (0 < Count(a) ==> Cell(b, a.front) == Cell(a, a.front))
        && (0 < l.t ==> b.tail == a.tail))
    && l.t <= l'.t
    && (0 < l.t ==> && Place(l', 1) == Place(l, 1)
                    && (var a, b := At(x, Place(l, 1)), At(y, Place(l, 1));
                        b.front == a.front && b.localTail == a.localTail))
    && (f.sawEmpty ==> f'.sawEmpty)
    && (f.q != [] ==> f'.q != [] && f'.q[0] == f.q[0])
  }

  lemma {:induction false} ConsumerStable(c: Consumer, x: seq<Block>, fb: nat, l: Layout, f: Fifo, y: seq<Block>,
                                          l': Layout, f': Fifo)
    requires BlockOk(At(x, fb)) && ConsumerOk(c, x, fb, l, f.sawEmpty, f.q) && ConsumerKeeps(x, fb, l, f, y, l', f')
    ensures ConsumerOk(c, y, fb, l', f'.sawEmpty, f'.q)
  {}

  // ---------------------------------------------------------------- facts about particular places of the ring

  /** The queue holds at least what its front block holds. */
  lemma {:induction false} FrontHolds(a: seq<Block>, l: Layout, q: seq<Value>, taken: bool)
    requires l.t < |l.ring| && Elemable(a, l.ring) && Data(a, l, q, taken)
    ensures Count(a[l.ring[0]]) <= |q| && (l.t == 0 ==> Count(a[l.ring[0]]) == |q|)
  {
    var ids := l.ring[..l.t + 1];
    ElemsLength(a[ids[0]]);
    assert Phys(a, ids) == Elems(a[ids[0]]) + Phys(a, ids[1..]);
  }

  lemma {:induction false} FrontFacts(x: seq<Block>, fb: nat, tb: nat, l: Layout, ahead: bool, at: nat, hole: int,
                                      q: seq<Value>, taken: bool, n: nat)
    requires l in Rings(x, fb, tb, ahead, at, hole, q, taken, n)
    ensures 0 < |l.ring| && fb == l.ring[0] && fb < |x| && BlockOk(x[fb])
    ensures (tb == fb <==> l.t == 0) && Count(x[fb]) <= |q| && (l.t == 0 ==> Count(x[fb]) == |q|)
    ensures 0 < l.t ==> && 1 < |l.ring| && l.ring[1] < |x| && l.ring[1] != fb && BlockOk(x[l.ring[1]])
                        && 0 < Count(x[l.ring[1]]) && x[fb].next == l.ring[1]
  {
    hide Raw, Roomy;
    FrontHolds(x, l, q, taken);
    assert x[l.ring[0]].next == l.ring[Inc(0, |l.ring|)];
  }

  lemma {:induction false} TailFacts(x: seq<Block>, fb: nat, tb: nat, l: Layout, ahead: bool, at: nat, hole: int,
                                     q: seq<Value>, taken: bool, n: nat)
    requires l in Rings(x, fb, tb, ahead, at, hole, q, taken, n)
    ensures l.t < |l.ring| && tb == l.ring[l.t] && tb < |x| && BlockOk(x[tb])
    ensures l.t + 1 < |l.ring| ==> x[tb].next == l.ring[l.t + 1] != fb
    ensures l.t + 1 == |l.ring| ==> x[tb].next == fb
    ensures l.t == 0 ==> tb == fb
  {
    hide Fill, Raw, Data, Roomy;
    assert x[l.ring[l.t]].next == l.ring[Inc(l.t, |l.ring|)];
  }

  lemma {:induction false} NextFacts(x: seq<Block>, fb: nat, tb: nat, l: Layout, ahead: bool, at: nat, hole: int,
                                     q: seq<Value>, taken: bool, n: nat)
    requires l in Rings(x, fb, tb, ahead, at, hole, q, taken, n) && l.t + 1 < |l.ring|
    ensures var nb := l.ring[l.t + 1];
            && nb < |x| && nb != tb && nb != fb && BlockOk(x[nb])
            && Count(x[nb]) == if ahead then 1 else 0
  {
    hide Raw, Data, Roomy;
  }

  lemma {:induction false} PlaceFacts(x: seq<Block>, fb: nat, tb: nat, l: Layout, ahead: bool, at: nat, hole: int,
                                      q: seq<Value>, taken: bool, n: nat, i: nat)
    requires l in Rings(x, fb, tb, ahead, at, hole, q, taken, n) && i < |l.ring|
    ensures l.ring[i] < |x| && (l.ring[i] == tb <==> i == l.t) && (l.ring[i] == fb <==> i == 0)
    ensures l.t + 1 < |l.ring| ==> (l.ring[i] == l.ring[l.t + 1] <==> i == l.t + 1)
  {
    hide Fill, Raw, Data, Roomy;
  }

  /** A write of the producer to the block at place `i` of the ring. */
  lemma {:induction false} ConsumerKept(c: Consumer, x: seq<Block>, fb: nat, tb: nat, l: Layout, at: nat, hole: int,
                                        f: Fifo, f': Fifo, n: nat, i: nat, b: Block)
    requires l in Rings(x, fb, tb, false, at, hole, f.q, c.CStoreFront?, n) && ConsumerOk(c, x, fb, l, f.sawEmpty, f.q)
    requires i < |l.ring| && l.ring[i] < |x|
    requires var a := x[l.ring[i]];
             && Size(b) == Size(a) && b.front == a.front && b.localTail == a.localTail
             && Count(a) <= Count(b) && (0 < Count(a) ==> Cell(b, a.front) == Cell(a, a.front))
             && (b.tail == a.tail || l.t <= i)
    requires (f.sawEmpty ==> f'.sawEmpty) && f.q <= f'.q
    ensures ConsumerOk(c, x[l.ring[i] := b], fb, l, f'.sawEmpty, f'.q)
  {
    hide Fill, Raw, Data, Roomy, ConsumerOk;
    assert BlockOk(x[l.ring[0]]);
    ConsumerStable(c, x, fb, l, f, x[l.ring[i] := b], l, f');
  }

  // ---------------------------------------------------------------- the producer's steps

  lemma {:induction false} PLoadTailStep(c: Consumer, x: seq<Block>, fb: nat, tb: nat, l: Layout, f: Fifo, n: nat,
                                         v: Value, grow: bool, id: nat)
    requires Holds(PLoadTail(v, grow, id), c, x, fb, tb, l, f, n)
    ensures id < |x|
    ensures var b := x[id];
            Holds(if Inc(b.tail, Size(b)) != b.localFront then PConstruct(v, id, b.tail)
                  else PLoadFront(v, grow, id, b.tail),
                  c, x, fb, tb, l, f, n)
  {
    hide Rings, ConsumerOk;
    TailFacts(x, fb, tb, l, false, 0, -1, f.q, c.CStoreFront?, n);
  }

  lemma {:induction false} RefreshFront(b: Block)
    requires BlockOk(b)
    ensures BlockOk(b.(localFront := b.front)) && (Inc(b.tail, Size(b)) == b.front <==> Full(b))
  {}

  lemma {:induction false} PLoadFrontStep(c: Consumer, x: seq<Block>, fb: nat, tb: nat, l: Layout, f: Fifo, n: nat,
                                          v: Value, grow: bool, id: nat, bt: nat)
    requires Holds(PLoadFront(v, grow, id, bt), c, x, fb, tb, l, f, n) && |f.q| <= f.most
    ensures id < |x|
    ensures var b := x[id];
            Holds(if Inc(bt, Size(b)) != b.front then PConstruct(v, id, bt) else PLoadNext(v, grow, id),
                  c, x[id := b.(localFront := b.front)], fb, tb, l, f, n)
  {
    hide Rings, ConsumerOk, BlockOk, Elems;
    FrontFacts(x, fb, tb, l, false, 0, -1, f.q, c.CStoreFront?, n);
    TailFacts(x, fb, tb, l, false, 0, -1, f.q, c.CStoreFront?, n);
    var b' := x[tb].(localFront := x[tb].front);
    RefreshFront(x[tb]);
    CoreShadow(x, fb, tb, l, false, 0, -1, f.q, c.CStoreFront?, n, l.t, b');
    ConsumerKept(c, x, fb, tb, l, 0, -1, f, f, n, l.t, b');
  }

  lemma {:induction false} PConstructStep(c: Consumer, x: seq<Block>, fb: nat, tb: nat, l: Layout, f: Fifo, n: nat,
                                          v: Value, id: nat, bt: nat)
    requires Holds(PConstruct(v, id, bt), c, x, fb, tb, l, f, n)
    ensures id < |x| && bt < Size(x[id]) && x[id].slots[bt] == None
    ensures Holds(PStoreTail(v, id, bt), c, x[id := x[id].(slots := x[id].slots[bt := Some(v)])], fb, tb, l, f, n)
  {
    hide Rings, ConsumerOk;
    TailFacts(x, fb, tb, l, false, 0, -1, f.q, c.CStoreFront?, n);
    CoreConstruct(x, fb, tb, l, f.q, c.CStoreFront?, n, l.t, v);
    ConsumerKept(c, x, fb, tb, l, 0, -1, f, f, n, l.t, x[id].(slots := x[id].slots[bt := Some(v)]));
  }

  lemma {:induction false} PStoreTailStep(c: Consumer, x: seq<Block>, fb: nat, tb: nat, l: Layout, f: Fifo, n: nat,
                                          v: Value, id: nat, bt: nat)
    requires Holds(PStoreTail(v, id, bt), c, x, fb, tb, l, f, n)
    ensures id < |x|
    ensures Holds(PIdle, c, x[id := x[id].(tail := Inc(bt, Size(x[id])))], fb, tb, l, Apply(f, Enq(v)), n)
  {
    hide Rings, ConsumerOk;
    TailFacts(x, fb, tb, l, false, id, bt, f.q, c.CStoreFront?, n);
    CoreStoreTail(x, fb, tb, l, f.q, c.CStoreFront?, n, v);
    ElemsStoreTail(x[tb]);
    ConsumerKept(c, x, fb, tb, l, id, bt, f, Apply(f, Enq(v)), n, l.t, x[id].(tail := Inc(bt, Size(x[id]))));
  }

  /** When the tail block is full and the front one follows it, every block but the front is full. */
  lemma {:induction false} AllButFrontFull(a: seq<Block>, fb: nat, tb: nat, l: Layout, q: seq<Value>, taken: bool,
                                           n: nat)
    requires Shape(a, fb, tb, l) && Fill(a, l, false) && Data(a, l, q, taken) && Roomy(a, l.ring, n)
    requires l.t + 1 == |l.ring| && 1 < |l.ring| && Full(a[tb])
    ensures n <= |q|
  {
    var rest := l.ring[1..];
    assert l.ring[..l.t + 1] == l.ring;
    assert forall i :: 0 <= i < |rest| ==> rest[i] == l.ring[i + 1];
    FullBlocksHold(a, rest);
    assert |Phys(a, l.ring)| >= |Phys(a, rest)|;
    assert Capacity(a, l.ring) == Size(a[l.ring[0]]) - 1 + Capacity(a, rest);
    assert Capacity(a, l.ring) - (Size(a[l.ring[0]]) - 1) >= n;
  }

  lemma {:induction false} Refused(x: seq<Block>, fb: nat, tb: nat, l: Layout, ahead: bool, at: nat, hole: int,
                                   q: seq<Value>, taken: bool, n: nat)
    requires l in Rings(x, fb, tb, ahead, at, hole, q, taken, n) && !ahead
    requires l.t + 1 == |l.ring|
    ensures |l.ring| == 1 ==> tb == fb < |x| && n < Size(x[fb])
    ensures 1 < |l.ring| && tb < |x| && Full(x[tb]) ==> n <= |q|
  {
    hide Raw;
    if 1 < |l.ring| && Full(x[tb]) {
      AllButFrontFull(x, fb, tb, l, q, taken, n);
    }
  }

  lemma {:induction false} PLoadFrontBlockStep(c: Consumer, x: seq<Block>, fb: nat, tb: nat, l: Layout, f: Fifo, n: nat,
                                               v: Value, grow: bool, id: nat, nx: nat)
    requires Holds(PLoadFrontBlock(v, grow, id, nx), c, x, fb, tb, l, f, n) && |f.q| <= f.most
    ensures nx != fb ==> Holds(PReloadNext(v, id), c, x, fb, tb, l, f, n)
    ensures nx == fb ==> f.most >= n
  {
    hide Rings, ConsumerOk;
    TailFacts(x, fb, tb, l, false, 0, -1, f.q, c.CStoreFront?, n);
    FrontFacts(x, fb, tb, l, false, 0, -1, f.q, c.CStoreFront?, n);
    if nx == fb {
      Refused(x, fb, tb, l, false, 0, -1, f.q, c.CStoreFront?, n);
    }
  }

  lemma {:induction false} PReloadNextStep(c: Consumer, x: seq<Block>, fb: nat, tb: nat, l: Layout, f: Fifo, n: nat,
                                           v: Value, id: nat)
    requires Holds(PReloadNext(v, id), c, x, fb, tb, l, f, n)
    ensures id < |x| && Holds(PLoadNextFront(v, x[id].next), c, x, fb, tb, l, f, n)
  {
    hide Rings, ConsumerOk;
    TailFacts(x, fb, tb, l, false, 0, -1, f.q, c.CStoreFront?, n);
  }

  lemma {:induction false} PLoadNextFrontStep(c: Consumer, x: seq<Block>, fb: nat, tb: nat, l: Layout, f: Fifo, n: nat,
                                              v: Value, nb: nat)
    requires Holds(PLoadNextFront(v, nb), c, x, fb, tb, l, f, n)
    ensures nb < |x|
    ensures var b := x[nb];
            Holds(PLoadNextTail(v, nb, b.front), c, x[nb := b.(localFront := b.front)], fb, tb, l, f, n)
  {
    hide Rings, ConsumerOk;
    TailFacts(x, fb, tb, l, false, 0, -1, f.q, c.CStoreFront?, n);
    NextFacts(x, fb, tb, l, false, 0, -1, f.q, c.CStoreFront?, n);
    var b' := x[nb].(localFront := x[nb].front);
    CoreShadow(x, fb, tb, l, false, 0, -1, f.q, c.CStoreFront?, n, l.t + 1, b');
    ConsumerKept(c, x, fb, tb, l, 0, -1, f, f, n, l.t + 1, b');
  }

  lemma {:induction false} PLoadNextTailStep(c: Consumer, x: seq<Block>, fb: nat, tb: nat, l: Layout, f: Fifo, n: nat,
                                             v: Value, nb: nat, nf: nat)
    requires Holds(PLoadNextTail(v, nb, nf), c, x, fb, tb, l, f, n)
    ensures nb < |x| && nf == x[nb].tail
    ensures Holds(PConstructNext(v, nb, nf), c, x[nb := x[nb].(localFront := nf)], fb, tb, l, f, n)
  {
    hide Rings, ConsumerOk;
    NextFacts(x, fb, tb, l, false, 0, -1, f.q, c.CStoreFront?, n);
    assert x[nb := x[nb].(localFront := nf)] == x;
  }

  lemma {:induction false} PConstructNextStep(c: Consumer, x: seq<Block>, fb: nat, tb: nat, l: Layout, f: Fifo, n: nat,
                                              v: Value, nb: nat, nt: nat)
    requires Holds(PConstructNext(v, nb, nt), c, x, fb, tb, l, f, n)
    ensures nb < |x| && nt < Size(x[nb]) && x[nb].slots[nt] == None
    ensures Holds(PStoreNextTail(v, nb, nt), c, x[nb := x[nb].(slots := x[nb].slots[nt := Some(v)])], fb, tb, l, f, n)
  {
    hide Rings, ConsumerOk;
    TailFacts(x, fb, tb, l, false, 0, -1, f.q, c.CStoreFront?, n);
    NextFacts(x, fb, tb, l, false, 0, -1, f.q, c.CStoreFront?, n);
    CoreConstruct(x, fb, tb, l, f.q, c.CStoreFront?, n, l.t + 1, v);
    ConsumerKept(c, x, fb, tb, l, 0, -1, f, f, n, l.t + 1, x[nb].(slots := x[nb].slots[nt := Some(v)]));
  }

  lemma {:induction false} PStoreNextTailStep(c: Consumer, x: seq<Block>, fb: nat, tb: nat, l: Layout, f: Fifo, n: nat,
                                              v: Value, nb: nat, nt: nat)
    requires Holds(PStoreNextTail(v, nb, nt), c, x, fb, tb, l, f, n)
    ensures nb < |x|
    ensures Holds(PStoreTailBlock(v, nb), c, x[nb := x[nb].(tail := Inc(nt, Size(x[nb])))], fb, tb, l, f, n)
  {
    hide Rings, ConsumerOk, BlockOk, Elems;
    TailFacts(x, fb, tb, l, false, nb, nt, f.q, c.CStoreFront?, n);
    NextFacts(x, fb, tb, l, false, nb, nt, f.q, c.CStoreFront?, n);
    IndexFacts(x[nb]);
    var b := x[nb].(tail := Inc(nt, Size(x[nb])));
    CoreStoreNextTail(x, fb, tb, l, f.q, c.CStoreFront?, n, v);
    assert At(x[nb := b], tb) == x[tb];
    hide Inc, Dist;
    ConsumerKept(c, x, fb, tb, l, nb, nt, f, f, n, l.t + 1, b);
  }

  lemma {:induction false} IndexFacts(b: Block)
    requires BlockOk(b)
    ensures b.tail < Size(b) && b.front < Size(b)
  {}

  /** A write of the producer outside the ring. */
  lemma {:induction false} Outside(c: Consumer, x: seq<Block>, fb: nat, tb: nat, l: Layout, f: Fifo, n: nat,
                                   y: seq<Block>)
    requires l in Rings(x, fb, tb, false, 0, -1, f.q, c.CStoreFront?, n) && ConsumerOk(c, x, fb, l, f.sawEmpty, f.q)
    requires |x| <= |y| && forall i :: 0 <= i < |x| && i in l.ring ==> y[i] == x[i]
    ensures l in Rings(y, fb, tb, false, 0, -1, f.q, c.CStoreFront?, n) && ConsumerOk(c, y, fb, l, f.sawEmpty, f.q)
    ensures forall i :: 0 <= i < |l.ring| ==> l.ring[i] < |x|
  {
    hide Fill, Raw, Data, Roomy, ConsumerOk;
    CoreOutside(x, fb, tb, l, f.q, c.CStoreFront?, n, y);
    assert BlockOk(x[l.ring[0]]);
    ConsumerStable(c, x, fb, l, f, y, l, f);
  }

  lemma {:induction false} PAllocStep(c: Consumer, x: seq<Block>, fb: nat, tb: nat, l: Layout, f: Fifo, n: nat,
                                      v: Value, id: nat, size: nat)
    requires Holds(PAlloc(v, id), c, x, fb, tb, l, f, n)
    requires 2 <= size && (|l.ring| == 1 ==> n < size)
    ensures Holds(PConstructNew(v, id, |x|), c, x + [EmptyBlock(size)], fb, tb, l, f, n)
  {
    hide Rings, ConsumerOk;
    var y := x + [EmptyBlock(size)];
    TailFacts(x, fb, tb, l, false, 0, -1, f.q, c.CStoreFront?, n);
    Outside(c, x, fb, tb, l, f, n, y);
    assert At(y, |x|) == EmptyBlock(size) && At(y, tb) == At(x, tb);
  }

  /** Filling in the new block before it is linked. */
  lemma {:induction false} PrivateStep(c: Consumer, x: seq<Block>, fb: nat, tb: nat, l: Layout, f: Fifo, n: nat,
                                       nb: nat, b: Block)
    requires l in Rings(x, fb, tb, false, 0, -1, f.q, c.CStoreFront?, n) && ConsumerOk(c, x, fb, l, f.sawEmpty, f.q)
    requires nb < |x| && nb !in l.ring
    ensures l in Rings(x[nb := b], fb, tb, false, 0, -1, f.q, c.CStoreFront?, n)
    ensures ConsumerOk(c, x[nb := b], fb, l, f.sawEmpty, f.q)
    ensures At(x[nb := b], tb) == At(x, tb) && tb != nb
  {
    hide Rings, ConsumerOk;
    TailFacts(x, fb, tb, l, false, 0, -1, f.q, c.CStoreFront?, n);
    Outside(c, x, fb, tb, l, f, n, x[nb := b]);
  }

  lemma {:induction false} PConstructNewStep(c: Consumer, x: seq<Block>, fb: nat, tb: nat, l: Layout, f: Fifo, n: nat,
                                             v: Value, id: nat, nb: nat)
    requires Holds(PConstructNew(v, id, nb), c, x, fb, tb, l, f, n)
    ensures nb < |x| && 0 < Size(x[nb]) && x[nb].slots[0] == None
    ensures Holds(PStoreNewTail(v, id, nb), c, x[nb := x[nb].(slots := x[nb].slots[0 := Some(v)])], fb, tb, l, f, n)
  {
    hide Rings, ConsumerOk;
    PrivateStep(c, x, fb, tb, l, f, n, nb, x[nb].(slots := x[nb].slots[0 := Some(v)]));
  }

  lemma {:induction false} PStoreNewTailStep(c: Consumer, x: seq<Block>, fb: nat, tb: nat, l: Layout, f: Fifo, n: nat,
                                             v: Value, id: nat, nb: nat)
    requires Holds(PStoreNewTail(v, id, nb), c, x, fb, tb, l, f, n)
    ensures nb < |x| && x[nb].front == 0
    ensures Holds(PLinkNew(v, id, nb), c, x[nb := x[nb].(tail := 1, localTail := 1)], fb, tb, l, f, n)
  {
    hide Rings, ConsumerOk;
    PrivateStep(c, x, fb, tb, l, f, n, nb, x[nb].(tail := 1, localTail := 1));
  }

  lemma {:induction false} PLinkNewStep(c: Consumer, x: seq<Block>, fb: nat, tb: nat, l: Layout, f: Fifo, n: nat,
                                        v: Value, id: nat, nb: nat)
    requires Holds(PLinkNew(v, id, nb), c, x, fb, tb, l, f, n)
    ensures nb < |x| && id < |x|
    ensures Holds(PSplice(v, id, nb), c, x[nb := x[nb].(next := x[id].next)], fb, tb, l, f, n)
  {
    hide Rings, ConsumerOk;
    TailFacts(x, fb, tb, l, false, 0, -1, f.q, c.CStoreFront?, n);
    PrivateStep(c, x, fb, tb, l, f, n, nb, x[nb].(next := x[id].next));
  }

  lemma {:induction false} PSpliceStep(c: Consumer, x: seq<Block>, fb: nat, tb: nat, l: Layout, f: Fifo, n: nat,
                                       v: Value, id: nat, nb: nat)
    requires Holds(PSplice(v, id, nb), c, x, fb, tb, l, f, n)
    ensures id < |x| && l.t < |l.ring|
    ensures Holds(PStoreTailBlock(v, nb), c, x[id := x[id].(next := nb)], fb, tb, Spliced(l, nb), f, n)
  {
    hide Rings, ConsumerOk, Single, RawBlock, BlockOk, Elems;
    TailFacts(x, fb, tb, l, false, 0, -1, f.q, c.CStoreFront?, n);
    SingleFacts(x[nb], v);
    SpliceConsumer(c, x, fb, tb, l, f, n, nb);
    CoreSplice(x, fb, tb, l, f.q, c.CStoreFront?, n, nb);
    SplicedAt(l, nb, l.t + 1);
  }

  lemma {:induction false} SingleFacts(b: Block, v: Value)
    requires Single(b, v)
    ensures Count(b) == 1 && RawBlock(b, -1) && Elems(b) == [Some(v)]
  {}

  /** The consumer does not notice a block spliced in after the tail. */
  lemma {:induction false} SpliceConsumer(c: Consumer, x: seq<Block>, fb: nat, tb: nat, l: Layout, f: Fifo, n: nat,
                                          nb: nat)
    requires l in Rings(x, fb, tb, false, 0, -1, f.q, c.CStoreFront?, n) && ConsumerOk(c, x, fb, l, f.sawEmpty, f.q)
             && nb < |x|
    ensures l.t < |l.ring| && tb < |x|
    ensures ConsumerOk(c, x[tb := x[tb].(next := nb)], fb, Spliced(l, nb), f.sawEmpty, f.q)
  {
    hide Rings, ConsumerOk;
    TailFacts(x, fb, tb, l, false, 0, -1, f.q, c.CStoreFront?, n);
    FrontFacts(x, fb, tb, l, false, 0, -1, f.q, c.CStoreFront?, n);
    if 0 < l.t { SplicedAt(l, nb, 1); }
    ConsumerStable(c, x, fb, l, f, x[tb := x[tb].(next := nb)], Spliced(l, nb), f);
  }

  lemma {:induction false} EnqKeeps(f: Fifo, v: Value)
    ensures var f' := Apply(f, Enq(v));
            f'.q == f.q + [v] && (f.sawEmpty ==> f'.sawEmpty) && (f.q != [] ==> f'.q != [] && f'.q[0] == f.q[0])
  {}

  lemma {:induction false} PStoreTailBlockStep(c: Consumer, x: seq<Block>, fb: nat, tb: nat, l: Layout, f: Fifo, n: nat,
                                               v: Value, nb: nat)
    requires Holds(PStoreTailBlock(v, nb), c, x, fb, tb, l, f, n)
    ensures Holds(PIdle, c, x, fb, nb, l.(t := l.t + 1), Apply(f, Enq(v)), n)
  {
    hide Rings, ConsumerOk, Apply, BlockOk, Elems;
    TailFacts(x, fb, tb, l, true, 0, -1, f.q, c.CStoreFront?, n);
    FrontFacts(x, fb, tb, l, true, 0, -1, f.q, c.CStoreFront?, n);
    NextFacts(x, fb, tb, l, true, 0, -1, f.q, c.CStoreFront?, n);
    CoreStoreTailBlock(x, fb, tb, l, f.q, c.CStoreFront?, n, v);
    EnqKeeps(f, v);
    ConsumerStable(c, x, fb, l, f, x, l.(t := l.t + 1), Apply(f, Enq(v)));
  }

  // ---------------------------------------------------------------- the consumer's steps

  /** What the producer relies on and no step of the consumer takes away. */
  ghost predicate ProducerKeeps(x: seq<Block>, fb: nat, tb: nat, l: Layout, y: seq<Block>, fb': nat, l': Layout) {
    && |x| == |y|
    && (var a, b := At(x, tb), At(y, tb);
        && Size(b) == Size(a) && b.tail == a.tail && b.localFront == a.localFront && b.next == a.next
        && Count(b) <= Count(a) && Count(a) < Size(a) && Cell(b, a.tail) == Cell(a, a.tail))
    && (TailFull(x, fb, tb) ==> TailFull(y, fb', tb))
    && |l'.ring| == |l.ring| && (forall id :: id in l'.ring ==> id in l.ring)
    && (l.t + 1 < |l.ring| ==>
          && AtNext(l', Place(l, l.t + 1))
          && At(y, Place(l, l.t + 1)) == At(x, Place(l, l.t + 1)))
    && (forall id :: 0 <= id < |x| && id !in l.ring ==> y[id] == x[id])
  }

  lemma {:induction false} ProducerStable(p: Producer, x: seq<Block>, fb: nat, tb: nat, l: Layout, most: nat, n: nat,
                                          y: seq<Block>, fb': nat, l': Layout)
    requires ProducerOk(p, x, fb, tb, l, most, n) && ProducerKeeps(x, fb, tb, l, y, fb', l')
    ensures ProducerOk(p, y, fb', tb, l', most, n)
  {}

  /** A write of the consumer to the front block or, once that is drained, to the next one. */
  lemma {:induction false} ProducerKept(p: Producer, x: seq<Block>, fb: nat, tb: nat, l: Layout, f: Fifo, taken: bool,
                                        n: nat, i: nat, b: Block)
    requires l in Rings(x, fb, tb, p.PStoreTailBlock?, HoleBlock(p), Hole(p), f.q, taken, n)
    requires ProducerOk(p, x, fb, tb, l, f.most, n)
    requires i <= l.t && i < |l.ring| && l.ring[i] < |x|
    requires var a := x[l.ring[i]];
             && Size(b) == Size(a) && b.tail == a.tail && b.localFront == a.localFront && b.next == a.next
             && Count(b) <= Count(a) && Cell(b, a.tail) == Cell(a, a.tail)
             && (Count(b) == Count(a) || i == 0)
    ensures ProducerOk(p, x[l.ring[i] := b], fb, tb, l, f.most, n)
  {
    hide Rings, ProducerOk;
    TailFacts(x, fb, tb, l, p.PStoreTailBlock?, HoleBlock(p), Hole(p), f.q, taken, n);
    PlaceFacts(x, fb, tb, l, p.PStoreTailBlock?, HoleBlock(p), Hole(p), f.q, taken, n, i);
    ProducerStable(p, x, fb, tb, l, f.most, n, x[l.ring[i] := b], fb, l);
  }

  lemma {:induction false} CLoadFrontBlockStep(p: Producer, x: seq<Block>, fb: nat, tb: nat, l: Layout, f: Fifo, n: nat,
                                               k: Kind)
    requires Holds(p, CLoadFrontBlock(k), x, fb, tb, l, f, n)
    ensures fb < |x| && Holds(p, CLoadFront(k, fb, x[fb].localTail), x, fb, tb, l, f, n)
  {
    hide Rings, ProducerOk;
    FrontFacts(x, fb, tb, l, p.PStoreTailBlock?, HoleBlock(p), Hole(p), f.q, false, n);
  }

  lemma {:induction false} CLoadFrontStep(p: Producer, x: seq<Block>, fb: nat, tb: nat, l: Layout, f: Fifo, n: nat,
                                          k: Kind, id: nat, bt: nat)
    requires Holds(p, CLoadFront(k, id, bt), x, fb, tb, l, f, n)
    ensures id < |x|
    ensures var bf := x[id].front;
            Holds(p, if bf != bt then Found(k, id, bf) else CLoadTail(k, id, bf), x, fb, tb, l, f, n)
  {
    hide Rings, ProducerOk;
    FrontFacts(x, fb, tb, l, p.PStoreTailBlock?, HoleBlock(p), Hole(p), f.q, false, n);
  }

  lemma {:induction false} CLoadTailStep(p: Producer, x: seq<Block>, fb: nat, tb: nat, l: Layout, f: Fifo, n: nat,
                                         k: Kind, id: nat, bf: nat)
    requires Holds(p, CLoadTail(k, id, bf), x, fb, tb, l, f, n) && (f.q == [] ==> f.sawEmpty)
    ensures id < |x|
    ensures var b := x[id];
            Holds(p, if bf != b.tail then Found(k, id, bf) else CLoadTailBlock(k, id),
                  x[id := b.(localTail := b.tail)], fb, tb, l, f, n)
  {
    hide Rings, ProducerOk;
    FrontFacts(x, fb, tb, l, p.PStoreTailBlock?, HoleBlock(p), Hole(p), f.q, false, n);
    TailFacts(x, fb, tb, l, p.PStoreTailBlock?, HoleBlock(p), Hole(p), f.q, false, n);
    var b' := x[fb].(localTail := x[fb].tail);
    CoreShadow(x, fb, tb, l, p.PStoreTailBlock?, HoleBlock(p), Hole(p), f.q, false, n, 0, b');
    ProducerKept(p, x, fb, tb, l, f, false, n, 0, b');
  }

  lemma {:induction false} CLoadTailBlockStep(p: Producer, x: seq<Block>, fb: nat, tb: nat, l: Layout, f: Fifo, n: nat,
                                              k: Kind, id: nat)
    requires Holds(p, CLoadTailBlock(k, id), x, fb, tb, l, f, n)
    ensures id != tb ==> Holds(p, CReloadFrontBlock(k), x, fb, tb, l, f, n)
    ensures id == tb ==> f.sawEmpty
  {
    hide Rings, ProducerOk;
    FrontFacts(x, fb, tb, l, p.PStoreTailBlock?, HoleBlock(p), Hole(p), f.q, false, n);
  }

  lemma {:induction false} CReloadTailStep(p: Producer, x: seq<Block>, fb: nat, tb: nat, l: Layout, f: Fifo, n: nat,
                                           k: Kind, id: nat)
    requires Holds(p, CReloadTail(k, id), x, fb, tb, l, f, n)
    ensures id < |x|
    ensures var b := x[id];
            Holds(p, CReloadFront(k, id, b.tail), x[id := b.(localTail := b.tail)], fb, tb, l, f, n)
  {
    hide Rings, ProducerOk;
    FrontFacts(x, fb, tb, l, p.PStoreTailBlock?, HoleBlock(p), Hole(p), f.q, false, n);
    TailFacts(x, fb, tb, l, p.PStoreTailBlock?, HoleBlock(p), Hole(p), f.q, false, n);
    var b' := x[fb].(localTail := x[fb].tail);
    CoreShadow(x, fb, tb, l, p.PStoreTailBlock?, HoleBlock(p), Hole(p), f.q, false, n, 0, b');
    ProducerKept(p, x, fb, tb, l, f, false, n, 0, b');
  }

  lemma {:induction false} CReloadFrontStep(p: Producer, x: seq<Block>, fb: nat, tb: nat, l: Layout, f: Fifo, n: nat,
                                            k: Kind, id: nat, bt: nat)
    requires Holds(p, CReloadFront(k, id, bt), x, fb, tb, l, f, n)
    ensures id < |x|
    ensures var bf := x[id].front;
            Holds(p, if bf != bt then Found(k, id, bf) else CLoadNext(k, id), x, fb, tb, l, f, n)
  {
    hide Rings, ProducerOk;
    FrontFacts(x, fb, tb, l, p.PStoreTailBlock?, HoleBlock(p), Hole(p), f.q, false, n);
  }

  /** Loading the next block's address and then its front index. */
  lemma {:induction false} CLoadNextStep(p: Producer, x: seq<Block>, fb: nat, tb: nat, l: Layout, f: Fifo, n: nat,
                                         k: Kind, id: nat)
    requires Holds(p, CLoadNext(k, id), x, fb, tb, l, f, n)
    ensures id < |x| && Holds(p, CLoadNextFront(k, x[id].next), x, fb, tb, l, f, n)
  {
    hide Rings, ProducerOk;
    FrontFacts(x, fb, tb, l, p.PStoreTailBlock?, HoleBlock(p), Hole(p), f.q, false, n);
  }

  lemma {:induction false} CLoadNextFrontStep(p: Producer, x: seq<Block>, fb: nat, tb: nat, l: Layout, f: Fifo, n: nat,
                                              k: Kind, nb: nat)
    requires Holds(p, CLoadNextFront(k, nb), x, fb, tb, l, f, n)
    ensures nb < |x| && Holds(p, CLoadNextTail(k, nb, x[nb].front), x, fb, tb, l, f, n)
  {
    hide Rings, ProducerOk;
    FrontFacts(x, fb, tb, l, p.PStoreTailBlock?, HoleBlock(p), Hole(p), f.q, false, n);
  }

  lemma {:induction false} CLoadNextTailStep(p: Producer, x: seq<Block>, fb: nat, tb: nat, l: Layout, f: Fifo, n: nat,
                                             k: Kind, nb: nat, nf: nat)
    requires Holds(p, CLoadNextTail(k, nb, nf), x, fb, tb, l, f, n)
    ensures nb < |x| && nf != x[nb].tail
    ensures Holds(p, CLook(nb, nf), x, fb, tb, l, f, n)
    ensures Holds(p, CStoreFrontBlock(nb, nf), x[nb := x[nb].(localTail := x[nb].tail)], fb, tb, l, f, n)
  {
    hide Rings, ProducerOk;
    FrontFacts(x, fb, tb, l, p.PStoreTailBlock?, HoleBlock(p), Hole(p), f.q, false, n);
    TailFacts(x, fb, tb, l, p.PStoreTailBlock?, HoleBlock(p), Hole(p), f.q, false, n);
    var b' := x[nb].(localTail := x[nb].tail);
    CoreShadow(x, fb, tb, l, p.PStoreTailBlock?, HoleBlock(p), Hole(p), f.q, false, n, 1, b');
    ProducerKept(p, x, fb, tb, l, f, false, n, 1, b');
  }

  lemma {:induction false} CStoreFrontBlockStep(p: Producer, x: seq<Block>, fb: nat, tb: nat, l: Layout, f: Fifo,
                                                n: nat, nb: nat, nf: nat)
    requires Holds(p, CStoreFrontBlock(nb, nf), x, fb, tb, l, f, n)
    ensures 0 < l.t && l.ring != []
    ensures Holds(p, CTake(nb, nf), x, nb, tb, Layout(Rotated(l.ring), l.t - 1), f, n)
  {
    hide Rings, ProducerOk;
    var ahead, at, hole := p.PStoreTailBlock?, HoleBlock(p), Hole(p);
    FrontFacts(x, fb, tb, l, ahead, at, hole, f.q, false, n);
    TailFacts(x, fb, tb, l, ahead, at, hole, f.q, false, n);
    CoreStoreFrontBlock(x, fb, tb, l, ahead, at, hole, f.q, n);
    ProducerStable(p, x, fb, tb, l, f.most, n, x, nb, Layout(Rotated(l.ring), l.t - 1));
  }

  lemma {:induction false} CTakeStep(p: Producer, x: seq<Block>, fb: nat, tb: nat, l: Layout, f: Fifo, n: nat, id: nat,
                                     bf: nat)
    requires Holds(p, CTake(id, bf), x, fb, tb, l, f, n)
    ensures id < |x| && bf < Size(x[id]) && x[id].slots[bf].Some?
    ensures Holds(p, CStoreFront(id, bf, x[id].slots[bf].value),
                  x[id := x[id].(slots := x[id].slots[bf := None])], fb, tb, l, f, n)
  {
    hide Rings, ProducerOk;
    FrontFacts(x, fb, tb, l, p.PStoreTailBlock?, HoleBlock(p), Hole(p), f.q, false, n);
    TailFacts(x, fb, tb, l, p.PStoreTailBlock?, HoleBlock(p), Hole(p), f.q, false, n);
    CoreTake(x, fb, tb, l, p.PStoreTailBlock?, HoleBlock(p), Hole(p), f.q, n);
    ProducerKept(p, x, fb, tb, l, f, false, n, 0, x[id].(slots := x[id].slots[bf := None]));
  }

  lemma {:induction false} CStoreFrontStep(p: Producer, x: seq<Block>, fb: nat, tb: nat, l: Layout, f: Fifo, n: nat,
                                           id: nat, bf: nat, v: Value)
    requires Holds(p, CStoreFront(id, bf, v), x, fb, tb, l, f, n) && |f.q| <= f.most
    ensures id < |x| && Allowed(f, Deq(v), n)
    ensures Holds(p, CIdle, x[id := x[id].(front := Inc(bf, Size(x[id])))], fb, tb, l, Apply(f, Deq(v)), n)
  {
    hide Rings, ProducerOk, Elems;
    FrontFacts(x, fb, tb, l, p.PStoreTailBlock?, HoleBlock(p), Hole(p), f.q, true, n);
    TailFacts(x, fb, tb, l, p.PStoreTailBlock?, HoleBlock(p), Hole(p), f.q, true, n);
    CoreStoreFront(x, fb, tb, l, p.PStoreTailBlock?, HoleBlock(p), Hole(p), f.q, n);
    ElemsStoreFront(x[fb]);
    ProducerKept(p, x, fb, tb, l, f, true, n, 0, x[id].(front := Inc(bf, Size(x[id]))));
  }

  /** The element `peek` points at is the head of the queue. */
  lemma {:induction false} CLookStep(p: Producer, x: seq<Block>, fb: nat, tb: nat, l: Layout, f: Fifo, n: nat, id: nat,
                                     i: nat)
    requires Holds(p, CLook(id, i), x, fb, tb, l, f, n)
    ensures id < |x| && i < Size(x[id]) && f.q != [] && x[id].slots[i] == Some(f.q[0])
  {
    hide Rings, ProducerOk;
    var ahead, at, hole := p.PStoreTailBlock?, HoleBlock(p), Hole(p);
    FrontFacts(x, fb, tb, l, ahead, at, hole, f.q, false, n);
    if id == fb && 0 < Count(x[fb]) {
      CoreTake(x, fb, tb, l, ahead, at, hole, f.q, n);
    } else {
      CoreStoreFrontBlock(x, fb, tb, l, ahead, at, hole, f.q, n);
      CoreTake(x, id, tb, Layout(Rotated(l.ring), l.t - 1), ahead, at, hole, f.q, n);
    }
  }

  // ---------------------------------------------------------------- every step

  /** The producer's steps that use the tail block. */
  predicate UsesTail(p: Producer) {
    Finds(p) || p.PConstruct? || p.PStoreTail? || p.PLoadNext? || p.PLoadFrontBlock?
  }

  predicate Finds(p: Producer) {
    p.PIdle? || p.PLoadTailBlock? || p.PLoadTail? || p.PLoadFront?
  }

  lemma {:induction false} ProducerFinds(s: State, l: Layout, f: Fifo, n: nat, s': State, e: Event)
    requires Rel(s, l, f, n) && ProducerNext(s, s', e) && Finds(s.p)
    ensures Allowed(f, e, n) && l in Layouts(s', Apply(f, e), n)
  {
    hide Rings, ConsumerOk;
    var c, x, fb, tb := s.c, s.blocks, s.frontBlock, s.tailBlock;
    match s.p
    case PIdle =>
    case PLoadTailBlock(_, _) =>
    case PLoadTail(v, grow, id) => PLoadTailStep(c, x, fb, tb, l, f, n, v, grow, id);
    case PLoadFront(v, grow, id, bt) => PLoadFrontStep(c, x, fb, tb, l, f, n, v, grow, id, bt);
  }

  lemma {:induction false} ProducerSimulates1(s: State, l: Layout, f: Fifo, n: nat, s': State, e: Event)
    requires Rel(s, l, f, n) && ProducerNext(s, s', e) && UsesTail(s.p) && !Finds(s.p)
    ensures Allowed(f, e, n) && l in Layouts(s', Apply(f, e), n)
  {
    hide Rings, ConsumerOk;
    var c, x, fb, tb := s.c, s.blocks, s.frontBlock, s.tailBlock;
    match s.p
    case PConstruct(v, id, bt) => PConstructStep(c, x, fb, tb, l, f, n, v, id, bt);
    case PStoreTail(v, id, bt) => PStoreTailStep(c, x, fb, tb, l, f, n, v, id, bt);
    case PLoadNext(_, _, _) => TailFacts(x, fb, tb, l, false, 0, -1, f.q, c.CStoreFront?, n);
    case PLoadFrontBlock(v, grow, id, nx) => PLoadFrontBlockStep(c, x, fb, tb, l, f, n, v, grow, id, nx);
  }

  /** The producer's steps that use the block after the tail. */
  predicate UsesNext(p: Producer) {
    p.PReloadNext? || p.PLoadNextFront? || p.PLoadNextTail? || p.PConstructNext? || p.PStoreNextTail?
  }

  lemma {:induction false} ProducerSimulates2(s: State, l: Layout, f: Fifo, n: nat, s': State, e: Event)
    requires Rel(s, l, f, n) && ProducerNext(s, s', e) && UsesNext(s.p)
    ensures Allowed(f, e, n) && l in Layouts(s', Apply(f, e), n)
  {
    hide Rings, ConsumerOk;
    var c, x, fb, tb := s.c, s.blocks, s.frontBlock, s.tailBlock;
    match s.p
    case PReloadNext(v, id) => PReloadNextStep(c, x, fb, tb, l, f, n, v, id);
    case PLoadNextFront(v, nb) => PLoadNextFrontStep(c, x, fb, tb, l, f, n, v, nb);
    case PLoadNextTail(v, nb, nf) => PLoadNextTailStep(c, x, fb, tb, l, f, n, v, nb, nf);
    case PConstructNext(v, nb, nt) => PConstructNextStep(c, x, fb, tb, l, f, n, v, nb, nt);
    case PStoreNextTail(v, nb, nt) => PStoreNextTailStep(c, x, fb, tb, l, f, n, v, nb, nt);
  }

  lemma {:induction false} ProducerSimulates3(s: State, l: Layout, f: Fifo, n: nat, s': State, e: Event)
    returns (l': Layout)
    requires Rel(s, l, f, n) && ProducerNext(s, s', e) && !UsesTail(s.p) && !UsesNext(s.p)
    ensures Allowed(f, e, n) && l' in Layouts(s', Apply(f, e), n)
  {
    hide Rings, ConsumerOk;
    var c, x, fb, tb := s.c, s.blocks, s.frontBlock, s.tailBlock;
    l' := l;
    match s.p
    case PAlloc(v, id) =>
      if e == Tau {
        PAllocStep(c, x, fb, tb, l, f, n, v, id, if s.largest >= s.maxBlock then s.largest else s.largest * 2);
      }
    case PConstructNew(v, id, nb) => PConstructNewStep(c, x, fb, tb, l, f, n, v, id, nb);
    case PStoreNewTail(v, id, nb) => PStoreNewTailStep(c, x, fb, tb, l, f, n, v, id, nb);
    case PLinkNew(v, id, nb) => PLinkNewStep(c, x, fb, tb, l, f, n, v, id, nb);
    case PSplice(v, id, nb) =>
      PSpliceStep(c, x, fb, tb, l, f, n, v, id, nb);
      l' := Spliced(l, nb);
    case PStoreTailBlock(v, nb) =>
      PStoreTailBlockStep(c, x, fb, tb, l, f, n, v, nb);
      l' := l.(t := l.t + 1);
  }

  /** The consumer's steps up to its second look at the front block. */
  predicate Early(c: Consumer) {
    c.CIdle? || c.CLoadFrontBlock? || c.CLoadFront? || c.CLoadTail? || c.CLoadTailBlock? || c.CReloadFrontBlock?
    || c.CReloadTail?
  }

  lemma {:induction false} ConsumerSimulates1(s: State, l: Layout, f: Fifo, n: nat, s': State, e: Event)
    requires Rel(s, l, f, n) && ConsumerNext(s, s', e) && Early(s.c)
    ensures Allowed(f, e, n) && l in Layouts(s', Apply(f, e), n)
  {
    hide Rings, ProducerOk;
    var p, x, fb, tb := s.p, s.blocks, s.frontBlock, s.tailBlock;
    match s.c
    case CIdle =>
    case CLoadFrontBlock(k) => CLoadFrontBlockStep(p, x, fb, tb, l, f, n, k);
    case CLoadFront(k, id, bt) => CLoadFrontStep(p, x, fb, tb, l, f, n, k, id, bt);
    case CLoadTail(k, id, bf) => CLoadTailStep(p, x, fb, tb, l, f, n, k, id, bf);
    case CLoadTailBlock(k, id) => CLoadTailBlockStep(p, x, fb, tb, l, f, n, k, id);
    case CReloadFrontBlock(_) =>
    case CReloadTail(k, id) => CReloadTailStep(p, x, fb, tb, l, f, n, k, id);
  }

  /** The steps that move to the next block. */
  predicate Advances(c: Consumer) {
    c.CReloadFront? || c.CLoadNext? || c.CLoadNextFront? || c.CLoadNextTail? || c.CStoreFrontBlock?
  }

  lemma {:induction false} ConsumerSimulates2(s: State, l: Layout, f: Fifo, n: nat, s': State, e: Event)
    returns (l': Layout)
    requires Rel(s, l, f, n) && ConsumerNext(s, s', e) && Advances(s.c)
    ensures Allowed(f, e, n) && l' in Layouts(s', Apply(f, e), n)
  {
    hide Rings, ProducerOk;
    var p, x, fb, tb := s.p, s.blocks, s.frontBlock, s.tailBlock;
    l' := l;
    match s.c
    case CReloadFront(k, id, bt) => CReloadFrontStep(p, x, fb, tb, l, f, n, k, id, bt);
    case CLoadNext(k, id) => CLoadNextStep(p, x, fb, tb, l, f, n, k, id);
    case CLoadNextFront(k, nb) => CLoadNextFrontStep(p, x, fb, tb, l, f, n, k, nb);
    case CLoadNextTail(k, nb, nf) => CLoadNextTailStep(p, x, fb, tb, l, f, n, k, nb, nf);
    case CStoreFrontBlock(nb, nf) =>
      CStoreFrontBlockStep(p, x, fb, tb, l, f, n, nb, nf);
      l' := Layout(Rotated(l.ring), l.t - 1);
  }

  lemma {:induction false} ConsumerSimulates3(s: State, l: Layout, f: Fifo, n: nat, s': State, e: Event)
    requires Rel(s, l, f, n) && ConsumerNext(s, s', e) && !Early(s.c) && !Advances(s.c)
    ensures Allowed(f, e, n) && l in Layouts(s', Apply(f, e), n)
  {
    hide Rings, ProducerOk;
    var p, x, fb, tb := s.p, s.blocks, s.frontBlock, s.tailBlock;
    match s.c
    case CTake(id, bf) => CTakeStep(p, x, fb, tb, l, f, n, id, bf);
    case CStoreFront(id, bf, v) => CStoreFrontStep(p, x, fb, tb, l, f, n, id, bf, v);
    case CLook(id, i) => CLookStep(p, x, fb, tb, l, f, n, id, i);
  }

  /** The FIFO allows every step of the queue, and the two stay related. */
  lemma {:induction false} Simulates(s: State, l: Layout, f: Fifo, n: nat, s': State, e: Event) returns (l': Layout)
    requires Rel(s, l, f, n) && Next(s, s', e)
    ensures Allowed(f, e, n) && Rel(s', l', Apply(f, e), n)
  {
    hide Holds, ProducerNext, ConsumerNext;
    if ConsumerNext(s, s', e) {
      if Early(s.c) {
        l' := l;
        ConsumerSimulates1(s, l, f, n, s', e);
      } else if Advances(s.c) {
        l' := ConsumerSimulates2(s, l, f, n, s', e);
      } else {
        l' := l;
        ConsumerSimulates3(s, l, f, n, s', e);
      }
    } else if Finds(s.p) {
      ProducerFinds(s, l, f, n, s', e);
      l' := l;
    } else if UsesTail(s.p) {
      ProducerSimulates1(s, l, f, n, s', e);
      l' := l;
    } else if UsesNext(s.p) {
      ProducerSimulates2(s, l, f, n, s', e);
      l' := l;
    } else {
      l' := ProducerSimulates3(s, l, f, n, s', e);
    }
  }
}
