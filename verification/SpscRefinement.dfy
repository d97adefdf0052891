/**
 How blocks and the ring of blocks change: what each store of a shared variable does to the ring's
 shape and to the elements it holds.
 */
module SpscRefinement {
  import opened SpscQueue

  // ---------------------------------------------------------------- one block

  lemma {:induction false} ElemsLength(b: Block)
    requires BlockOk(b)
    ensures |Elems(b)| == Count(b)
  {}

  /** Constructing in a slot outside `front..tail` does not show. */
  lemma {:induction false} ElemsWriteFree(b: Block, j: nat, x: Option<Value>)
    requires BlockOk(b) && j < Size(b) && Dist(b.front, j, Size(b)) >= Count(b)
    ensures Elems(b.(slots := b.slots[j := x])) == Elems(b)
  {}

  lemma {:induction false} ElemsTake(b: Block)
    requires BlockOk(b) && 0 < Count(b)
    ensures Elems(b.(slots := b.slots[b.front := None])) == [None] + Elems(b)[1..]
    ensures Elems(b)[0] == b.slots[b.front]
  {}

  lemma {:induction false} ElemsStoreTail(b: Block)
    requires BlockOk(b) && !Full(b)
    ensures Elems(b.(tail := Inc(b.tail, Size(b)))) == Elems(b) + [b.slots[b.tail]]
    ensures Count(b.(tail := Inc(b.tail, Size(b)))) == Count(b) + 1
  {}

  lemma {:induction false} ElemsStoreFront(b: Block)
    requires BlockOk(b) && 0 < Count(b)
    ensures Elems(b.(front := Inc(b.front, Size(b)))) == Elems(b)[1..]
    ensures Count(b.(front := Inc(b.front, Size(b)))) == Count(b) - 1
  {}

  // ---------------------------------------------------------------- many blocks

  lemma {:induction false} PhysFrame(a: seq<Block>, b: seq<Block>, ids: seq<nat>)
    requires Elemable(a, ids) && Elemable(b, ids)
    requires forall i :: 0 <= i < |ids| ==> Elems(a[ids[i]]) == Elems(b[ids[i]])
    ensures Phys(a, ids) == Phys(b, ids)
  {
    if ids != [] {
      assert forall i :: 0 <= i < |ids[1..]| ==> ids[1..][i] == ids[i + 1];
      PhysFrame(a, b, ids[1..]);
    }
  }

  lemma {:induction false} PhysAppend(a: seq<Block>, ids: seq<nat>, id: nat)
    requires Elemable(a, ids) && id < |a| && BlockOk(a[id])
    ensures Elemable(a, ids + [id])
    ensures Phys(a, ids + [id]) == Phys(a, ids) + Elems(a[id])
  {
    hide Elems;
    ElemableAppend(a, ids, id);
    if ids == [] {
      assert ids + [id] == [id] && [id][1..] == [];
    } else {
      assert (ids + [id])[1..] == ids[1..] + [id] && (ids + [id])[0] == ids[0];
      PhysAppend(a, ids[1..], id);
      Concat3(Elems(a[ids[0]]), Phys(a, ids[1..]), Elems(a[id]));
    }
  }

  lemma {:induction false} ElemableAppend(a: seq<Block>, ids: seq<nat>, id: nat)
    requires Elemable(a, ids) && id < |a| && BlockOk(a[id])
    ensures Elemable(a, ids + [id])
  {
    hide BlockOk;
    assert (ids + [id])[|ids|] == id;
    assert forall i :: 0 <= i < |ids| ==> (ids + [id])[i] == ids[i];
  }

  lemma {:induction false} PhysSetHead(a: seq<Block>, ids: seq<nat>, b: Block)
    requires 0 < |ids| && Elemable(a, ids) && Distinct(ids) && BlockOk(b)
    ensures Elemable(a[ids[0] := b], ids) && Elemable(a, ids[1..])
    ensures Phys(a[ids[0] := b], ids) == Elems(b) + Phys(a, ids[1..])
  {
    PhysFrame(a, a[ids[0] := b], ids[1..]);
  }

  lemma {:induction false} PhysSetLast(a: seq<Block>, ids: seq<nat>, id: nat, b: Block)
    requires Elemable(a, ids) && id !in ids && id < |a| && BlockOk(a[id]) && BlockOk(b)
    ensures Elemable(a, ids + [id]) && Elemable(a[id := b], ids + [id])
    ensures Phys(a[id := b], ids + [id]) == Phys(a, ids) + Elems(b)
    ensures Phys(a, ids + [id]) == Phys(a, ids) + Elems(a[id])
  {
    PhysAppend(a, ids, id);
    PhysAppend(a[id := b], ids, id);
    PhysFrame(a, a[id := b], ids);
  }

  lemma {:induction false} MaskedAppend(q: seq<Value>, taken: bool, v: Value)
    requires taken ==> q != []
    ensures Masked(q + [v], taken) == Masked(q, taken) + [Some(v)]
  {
    if taken {
      assert (q + [v])[1..] == q[1..] + [v];
    }
  }

  lemma {:induction false} MaskedHead(q: seq<Value>)
    requires q != []
    ensures Masked(q, true) == [None] + Masked(q, false)[1..]
    ensures Masked(q[1..], false) == Masked(q, true)[1..]
    ensures Masked(q, false)[0] == Some(q[0])
  {}

  lemma {:induction false} CapacityAppend(a: seq<Block>, x: seq<nat>, y: seq<nat>)
    requires InBounds(a, x) && InBounds(a, y)
    ensures InBounds(a, x + y) && Capacity(a, x + y) == Capacity(a, x) + Capacity(a, y)
  {
    if x == [] {
      assert x + y == y;
    } else {
      assert (x + y)[1..] == x[1..] + y;
      CapacityAppend(a, x[1..], y);
    }
  }

  lemma {:induction false} CapacityFrame(a: seq<Block>, b: seq<Block>, ids: seq<nat>)
    requires InBounds(a, ids) && InBounds(b, ids)
    requires forall i :: 0 <= i < |ids| ==> Size(a[ids[i]]) == Size(b[ids[i]])
    ensures Capacity(a, ids) == Capacity(b, ids)
  {
    if ids != [] {
      assert forall i :: 0 <= i < |ids[1..]| ==> ids[1..][i] == ids[i + 1];
      CapacityFrame(a, b, ids[1..]);
    }
  }

  lemma {:induction false} RoomyFrame(a: seq<Block>, b: seq<Block>, ring: seq<nat>, n: nat)
    requires InBounds(a, ring) && InBounds(b, ring) && Roomy(a, ring, n)
    requires forall i :: 0 <= i < |ring| ==> Size(a[ring[i]]) == Size(b[ring[i]])
    requires 0 < |ring|
    ensures Roomy(b, ring, n)
  {
    CapacityFrame(a, b, ring);
  }

  /** Full blocks hold their whole capacity. */
  lemma {:induction false} FullBlocksHold(a: seq<Block>, ids: seq<nat>)
    requires Elemable(a, ids) && forall i :: 0 <= i < |ids| ==> Full(a[ids[i]])
    ensures |Phys(a, ids)| == Capacity(a, ids)
  {
    if ids != [] {
      ElemsLength(a[ids[0]]);
      FullBlocksHold(a, ids[1..]);
    }
  }

  // ---------------------------------------------------------------- replacing one block

  lemma {:induction false} ShapeUpdate(a: seq<Block>, fb: nat, tb: nat, l: Layout, id: nat, b: Block)
    requires Shape(a, fb, tb, l) && id < |a| && BlockOk(b) && b.next == a[id].next
    ensures Shape(a[id := b], fb, tb, l)
  {}

  lemma {:induction false} FillUpdate(a: seq<Block>, l: Layout, ahead: bool, id: nat, b: Block)
    requires l.t < |l.ring| && InBounds(a, l.ring) && Fill(a, l, ahead)
    requires id < |a| && Count(b) == Count(a[id]) && Size(b) == Size(a[id])
    ensures Fill(a[id := b], l, ahead)
  {}

  lemma {:induction false} RawUpdate(a: seq<Block>, l: Layout, at: nat, hole: int, id: nat, b: Block, at': nat,
                                     hole': int)
    requires InBounds(a, l.ring) && Raw(a, l, at, hole) && id < |a|
    requires RawBlock(b, if id == at' then hole' else -1)
    requires ((at == id || hole == -1) && (at' == id || hole' == -1)) || (at == at' && hole == hole')
    ensures Raw(a[id := b], l, at', hole')
  {}

  lemma {:induction false} DataUpdate(a: seq<Block>, l: Layout, q: seq<Value>, taken: bool, id: nat, b: Block)
    requires l.t < |l.ring| && Elemable(a, l.ring) && Data(a, l, q, taken)
    requires id < |a| && BlockOk(b)
    requires BlockOk(a[id]) && Elems(b) == Elems(a[id])
    ensures Elemable(a[id := b], l.ring) && Data(a[id := b], l, q, taken)
  {
    PhysFrame(a, a[id := b], l.ring[..l.t + 1]);
  }

  lemma {:induction false} RoomyUpdate(a: seq<Block>, ring: seq<nat>, n: nat, id: nat, b: Block)
    requires 0 < |ring| && InBounds(a, ring) && Roomy(a, ring, n)
    requires id < |a| && Size(b) == Size(a[id])
    ensures Roomy(a[id := b], ring, n)
  {
    CapacityFrame(a, a[id := b], ring);
  }

  // ---------------------------------------------------------------- the ring under each kind of write

  /** Refreshing a shadow index. */
  lemma {:induction false} CoreShadow(a: seq<Block>, fb: nat, tb: nat, l: Layout, ahead: bool, at: nat, hole: int,
                                      q: seq<Value>, taken: bool, n: nat, i: nat, b: Block)
    requires l in Rings(a, fb, tb, ahead, at, hole, q, taken, n)
    requires i < |l.ring| && BlockOk(b)
    requires b == a[l.ring[i]].(localFront := b.localFront, localTail := b.localTail)
    ensures l in Rings(a[l.ring[i] := b], fb, tb, ahead, at, hole, q, taken, n)
  {
    var id := l.ring[i];
    ShapeUpdate(a, fb, tb, l, id, b);
    FillUpdate(a, l, ahead, id, b);
    assert RawBlock(b, if id == at then hole else -1) by {
      assert RawBlock(a[id], if id == at then hole else -1);
    }
    RawUpdate(a, l, at, hole, id, b, at, hole);
    DataUpdate(a, l, q, taken, id, b);
    RoomyUpdate(a, l.ring, n, id, b);
  }

  /** Constructing an element in the first free slot of block `i` of the ring. */
  lemma {:induction false} CoreConstruct(a: seq<Block>, fb: nat, tb: nat, l: Layout, q: seq<Value>, taken: bool, n: nat,
                                         i: nat, v: Value)
    requires l in Rings(a, fb, tb, false, 0, -1, q, taken, n)
    requires i < |l.ring|
    ensures var id := l.ring[i]; var b := a[id];
            && b.slots[b.tail] == None
            && l in Rings(a[id := b.(slots := b.slots[b.tail := Some(v)])], fb, tb, false, id, b.tail, q, taken, n)
  {
    var id := l.ring[i];
    var b := a[id];
    var c := b.(slots := b.slots[b.tail := Some(v)]);
    assert RawBlock(b, -1);
    assert b.slots[b.tail] == None;
    ShapeUpdate(a, fb, tb, l, id, c);
    FillUpdate(a, l, false, id, c);
    RawUpdate(a, l, 0, -1, id, c, id, b.tail);
    ElemsWriteFree(b, b.tail, Some(v));
    DataUpdate(a, l, q, taken, id, c);
    RoomyUpdate(a, l.ring, n, id, c);
  }

  lemma {:induction false} PhysTake(a: seq<Block>, ids: seq<nat>, q: seq<Value>)
    requires 0 < |ids| && Elemable(a, ids) && Distinct(ids) && Phys(a, ids) == Masked(q, false)
    requires 0 < Count(a[ids[0]])
    ensures var b := a[ids[0]]; var c := b.(slots := b.slots[b.front := None]);
            && q != [] && b.slots[b.front] == Some(q[0])
            && Elemable(a[ids[0] := c], ids) && Phys(a[ids[0] := c], ids) == Masked(q, true)
  {
    var b := a[ids[0]];
    ElemsTake(b);
    ElemsLength(b);
    PhysSetHead(a, ids, b);
    PhysSetHead(a, ids, b.(slots := b.slots[b.front := None]));
    assert a[ids[0] := b] == a;
    Behead(Masked(q, false), Elems(b), Phys(a, ids[1..]));
    MaskedHead(q);
  }

  lemma {:induction false} Behead<A>(x: seq<A>, y: seq<A>, z: seq<A>)
    requires x == y + z && y != []
    ensures x != [] && x[0] == y[0] && x[1..] == y[1..] + z
    ensures forall w :: [w] + x[1..] == [w] + y[1..] + z
  {}

  lemma {:induction false} DataTake(a: seq<Block>, l: Layout, q: seq<Value>)
    requires l.t < |l.ring| && Elemable(a, l.ring) && Distinct(l.ring) && Data(a, l, q, false)
    requires 0 < Count(a[l.ring[0]])
    ensures var id := l.ring[0]; var b := a[id]; var c := b.(slots := b.slots[b.front := None]);
            && q != [] && b.slots[b.front] == Some(q[0])
            && Elemable(a[id := c], l.ring) && Data(a[id := c], l, q, true)
  {
    PhysTake(a, l.ring[..l.t + 1], q);
  }

  /** The consumer moves the head element out of its slot. */
  lemma {:induction false} CoreTake(a: seq<Block>, fb: nat, tb: nat, l: Layout, ahead: bool, at: nat, hole: int,
                                    q: seq<Value>, n: nat)
    requires l in Rings(a, fb, tb, ahead, at, hole, q, false, n)
    requires 0 < Count(a[fb])
    ensures var b := a[fb];
            && q != [] && b.slots[b.front] == Some(q[0])
            && l in Rings(a[fb := b.(slots := b.slots[b.front := None])], fb, tb, ahead, at, hole, q, true, n)
  {
    var b := a[fb];
    var c := b.(slots := b.slots[b.front := None]);
    ShapeUpdate(a, fb, tb, l, fb, c);
    FillUpdate(a, l, ahead, fb, c);
    assert RawBlock(c, if fb == at then hole else -1) by {
      assert RawBlock(a[l.ring[0]], if fb == at then hole else -1);
    }
    RawUpdate(a, l, at, hole, fb, c, at, hole);
    DataTake(a, l, q);
    RoomyUpdate(a, l.ring, n, fb, c);
  }

  lemma {:induction false} PhysStoreFront(a: seq<Block>, ids: seq<nat>, q: seq<Value>, b: Block)
    requires 0 < |ids| && Elemable(a, ids) && Distinct(ids) && q != [] && Phys(a, ids) == Masked(q, true)
    requires 0 < Count(a[ids[0]]) && BlockOk(b) && Elems(b) == Elems(a[ids[0]])[1..]
    ensures Elemable(a[ids[0] := b], ids) && Phys(a[ids[0] := b], ids) == Masked(q[1..], false)
  {
    ElemsLength(a[ids[0]]);
    PhysSetHead(a, ids, a[ids[0]]);
    assert a[ids[0] := a[ids[0]]] == a;
    PhysSetHead(a, ids, b);
    Behead(Masked(q, true), Elems(a[ids[0]]), Phys(a, ids[1..]));
    MaskedHead(q);
  }

  lemma {:induction false} DataStoreFront(a: seq<Block>, l: Layout, q: seq<Value>, b: Block)
    requires l.t < |l.ring| && Elemable(a, l.ring) && Distinct(l.ring) && Data(a, l, q, true)
    requires 0 < Count(a[l.ring[0]]) && BlockOk(b) && Elems(b) == Elems(a[l.ring[0]])[1..]
    ensures Elemable(a[l.ring[0] := b], l.ring) && Data(a[l.ring[0] := b], l, q[1..], false)
  {
    PhysStoreFront(a, l.ring[..l.t + 1], q, b);
  }

  lemma {:induction false} RawStoreFront(b: Block, hole: int)
    requires BlockOk(b) && 0 < Count(b) && RawBlock(b, hole) && b.slots[b.front] == None
    ensures RawBlock(b.(front := Inc(b.front, Size(b))), hole)
  {
    var c := b.(front := Inc(b.front, Size(b)));
    forall j | 0 <= j < Size(b) && j != hole && Dist(c.front, j, Size(c)) >= Count(c)
      ensures c.slots[j] == None
    {
      assert j == b.front || Dist(b.front, j, Size(b)) >= Count(b);
    }
  }

  lemma {:induction false} FillStoreFront(a: seq<Block>, l: Layout, ahead: bool, b: Block)
    requires l.t < |l.ring| && InBounds(a, l.ring) && Distinct(l.ring) && Fill(a, l, ahead)
    ensures Fill(a[l.ring[0] := b], l, ahead)
  {}

  /** The consumer frees the slot it has emptied. */
  lemma {:induction false} CoreStoreFront(a: seq<Block>, fb: nat, tb: nat, l: Layout, ahead: bool, at: nat, hole: int,
                                          q: seq<Value>, n: nat)
    requires l in Rings(a, fb, tb, ahead, at, hole, q, true, n)
    requires a[fb].front != a[fb].localTail && a[fb].slots[a[fb].front] == None
    ensures var b := a[fb];
            l in Rings(a[fb := b.(front := Inc(b.front, Size(b)))], fb, tb, ahead, at, hole, q[1..], false, n)
  {
    var b := a[fb];
    var c := b.(front := Inc(b.front, Size(b)));
    assert b == a[l.ring[0]] && BlockOk(b) && BlockOk(c);
    ShapeUpdate(a, fb, tb, l, fb, c);
    FillStoreFront(a, l, ahead, c);
    RawStoreFront(b, if fb == at then hole else -1);
    RawUpdate(a, l, at, hole, fb, c, at, hole);
    ElemsStoreFront(b);
    DataStoreFront(a, l, q, c);
    RoomyUpdate(a, l.ring, n, fb, c);
  }

  lemma {:induction false} RawStoreTail(b: Block)
    requires BlockOk(b) && !Full(b) && RawBlock(b, b.tail)
    ensures RawBlock(b.(tail := Inc(b.tail, Size(b))), -1)
  {
    var c := b.(tail := Inc(b.tail, Size(b)));
    forall j | 0 <= j < Size(b) && Dist(c.front, j, Size(c)) >= Count(c)
      ensures c.slots[j] == None
    {
      assert j != b.tail && Dist(b.front, j, Size(b)) >= Count(b);
    }
  }

  lemma {:induction false} PhysStoreTail(a: seq<Block>, ids: seq<nat>, id: nat, q: seq<Value>, taken: bool, b: Block,
                                         v: Value)
    requires Elemable(a, ids) && id !in ids && id < |a| && BlockOk(a[id]) && BlockOk(b)
    requires Elems(b) == Elems(a[id]) + [Some(v)] && (taken ==> q != [])
    requires Elemable(a, ids + [id]) && Phys(a, ids + [id]) == Masked(q, taken)
    ensures Elemable(a[id := b], ids + [id]) && Phys(a[id := b], ids + [id]) == Masked(q + [v], taken)
  {
    PhysSetLast(a, ids, id, b);
    Concat3(Phys(a, ids), Elems(a[id]), [Some(v)]);
    MaskedAppend(q, taken, v);
  }

  lemma {:induction false} DataStoreTail(a: seq<Block>, l: Layout, q: seq<Value>, taken: bool, b: Block, v: Value)
    requires l.t < |l.ring| && Elemable(a, l.ring) && Distinct(l.ring) && Data(a, l, q, taken)
    requires BlockOk(b) && Elems(b) == Elems(a[l.ring[l.t]]) + [Some(v)]
    ensures Elemable(a[l.ring[l.t] := b], l.ring) && Data(a[l.ring[l.t] := b], l, q + [v], taken)
  {
    var ids, id := l.ring[..l.t], l.ring[l.t];
    LastOfPrefix(l.ring, l.t);
    ElemablePrefix(a, l.ring, l.t, b);
    hide Elems, BlockOk, Phys, Masked, Distinct, Elemable;
    PhysStoreTail(a, ids, id, q, taken, b, v);
  }

  lemma {:induction false} LastOfPrefix(ring: seq<nat>, t: nat)
    requires t < |ring| && Distinct(ring)
    ensures ring[..t] + [ring[t]] == ring[..t + 1] && ring[t] !in ring[..t]
  {}

  lemma {:induction false} ElemablePrefix(a: seq<Block>, ring: seq<nat>, t: nat, b: Block)
    requires t < |ring| && Elemable(a, ring) && BlockOk(b)
    ensures Elemable(a, ring[..t]) && Elemable(a, ring[..t + 1]) && BlockOk(a[ring[t]]) && ring[t] < |a|
    ensures Elemable(a[ring[t] := b], ring)
  {
    hide BlockOk;
  }

  lemma {:induction false} Concat3<A>(x: seq<A>, y: seq<A>, z: seq<A>)
    ensures x + (y + z) == x + y + z
  {}

  lemma {:induction false} DataPublish(a: seq<Block>, l: Layout, q: seq<Value>, taken: bool, v: Value)
    requires l.t + 1 < |l.ring| && Elemable(a, l.ring) && Data(a, l, q, taken)
    requires Elems(a[l.ring[l.t + 1]]) == [Some(v)]
    ensures Data(a, l.(t := l.t + 1), q + [v], taken)
  {
    assert l.ring[..l.t + 2] == l.ring[..l.t + 1] + [l.ring[l.t + 1]];
    PhysAppend(a, l.ring[..l.t + 1], l.ring[l.t + 1]);
    MaskedAppend(q, taken, v);
  }

  lemma {:induction false} FillPublish(a: seq<Block>, l: Layout)
    requires l.t < |l.ring| && InBounds(a, l.ring) && Fill(a, l, true)
    requires l.t == 0 || Full(a[l.ring[l.t]])
    ensures Fill(a, l.(t := l.t + 1), false)
  {}

  lemma {:induction false} RawPublish(a: seq<Block>, l: Layout)
    requires InBounds(a, l.ring) && Raw(a, l, 0, -1)
    ensures Raw(a, l.(t := l.t + 1), 0, -1)
  {
    hide RawBlock;
  }

  lemma {:induction false} FillStoreTail(a: seq<Block>, l: Layout, b: Block)
    requires l.t < |l.ring| && InBounds(a, l.ring) && Distinct(l.ring) && Fill(a, l, false)
    requires 0 < Count(b)
    ensures Fill(a[l.ring[l.t] := b], l, false)
  {}

  /** The producer publishes the element it built in the tail block. */
  lemma {:induction false} CoreStoreTail(a: seq<Block>, fb: nat, tb: nat, l: Layout, q: seq<Value>, taken: bool, n: nat,
                                         v: Value)
    requires tb < |a| && l in Rings(a, fb, tb, false, tb, a[tb].tail, q, taken, n)
    requires !Full(a[tb]) && Inc(a[tb].tail, Size(a[tb])) != a[tb].localFront
    requires a[tb].tail < Size(a[tb]) && a[tb].slots[a[tb].tail] == Some(v)
    ensures var b := a[tb];
            l in Rings(a[tb := b.(tail := Inc(b.tail, Size(b)))], fb, tb, false, 0, -1, q + [v], taken, n)
  {
    var b := a[tb];
    var c := b.(tail := Inc(b.tail, Size(b)));
    assert b == a[l.ring[l.t]] && BlockOk(b) && BlockOk(c);
    ShapeUpdate(a, fb, tb, l, tb, c);
    ElemsStoreTail(b);
    FillStoreTail(a, l, c);
    assert RawBlock(a[l.ring[l.t]], b.tail);
    RawStoreTail(b);
    RawUpdate(a, l, tb, b.tail, tb, c, 0, -1);
    DataStoreTail(a, l, q, taken, c, v);
    RoomyUpdate(a, l.ring, n, tb, c);
  }

  lemma {:induction false} FillStoreNextTail(a: seq<Block>, l: Layout, b: Block)
    requires l.t + 1 < |l.ring| && InBounds(a, l.ring) && Distinct(l.ring) && Fill(a, l, false)
    requires Count(b) == 1
    ensures Fill(a[l.ring[l.t + 1] := b], l, true)
  {}

  /** Writing to a block beyond the tail leaves the contents alone. */
  lemma {:induction false} DataBeyond(a: seq<Block>, l: Layout, q: seq<Value>, taken: bool, i: nat, b: Block)
    requires l.t < i < |l.ring| && Elemable(a, l.ring) && Distinct(l.ring) && Data(a, l, q, taken)
    requires BlockOk(b)
    ensures Elemable(a[l.ring[i] := b], l.ring) && Data(a[l.ring[i] := b], l, q, taken)
  {
    PhysFrame(a, a[l.ring[i] := b], l.ring[..l.t + 1]);
  }

  /** The producer counts the element it built in the free block after the tail. */
  lemma {:induction false} CoreStoreNextTail(a: seq<Block>, fb: nat, tb: nat, l: Layout, q: seq<Value>, taken: bool,
                                             n: nat, v: Value)
    requires l.t + 1 < |l.ring| && l.ring[l.t + 1] < |a|
    requires var nb := l.ring[l.t + 1];
             && l in Rings(a, fb, tb, false, nb, a[nb].tail, q, taken, n)
             && a[nb].localFront == a[nb].front
             && a[nb].tail < Size(a[nb]) && a[nb].slots[a[nb].tail] == Some(v)
    ensures var nb := l.ring[l.t + 1]; var b := a[nb]; var c := b.(tail := Inc(b.tail, Size(b)));
            && l in Rings(a[nb := c], fb, tb, true, 0, -1, q, taken, n)
            && BlockOk(c) && Count(c) == 1 && Elems(c) == [Some(v)]
  {
    var nb := l.ring[l.t + 1];
    var b := a[nb];
    var c := b.(tail := Inc(b.tail, Size(b)));
    assert BlockOk(b) && Count(b) == 0 && BlockOk(c);
    ShapeUpdate(a, fb, tb, l, nb, c);
    ElemsStoreTail(b);
    ElemsLength(b);
    FillStoreNextTail(a, l, c);
    assert RawBlock(a[l.ring[l.t + 1]], b.tail);
    RawStoreTail(b);
    RawUpdate(a, l, nb, b.tail, nb, c, 0, -1);
    DataBeyond(a, l, q, taken, l.t + 1, c);
    RoomyUpdate(a, l.ring, n, nb, c);
  }

  /** The producer moves the tail to the block after it. */
  lemma {:induction false} CoreStoreTailBlock(a: seq<Block>, fb: nat, tb: nat, l: Layout, q: seq<Value>, taken: bool,
                                              n: nat, v: Value)
    requires l in Rings(a, fb, tb, true, 0, -1, q, taken, n)
    requires Elems(a[l.ring[l.t + 1]]) == [Some(v)]
    requires tb == fb || Full(a[tb])
    ensures l.(t := l.t + 1) in Rings(a, fb, l.ring[l.t + 1], false, 0, -1, q + [v], taken, n)
  {
    hide BlockOk, RawBlock, Elems, Phys, Capacity, Linked;
    FillPublish(a, l);
    RawPublish(a, l);
    hide Fill, Raw;
    DataPublish(a, l, q, taken, v);
  }

  // ---------------------------------------------------------------- the ring under changes of its order

  function Rotated(ring: seq<nat>): seq<nat>
    requires ring != []
  {
    ring[1..] + [ring[0]]
  }

  lemma {:induction false} RoomyRotate(a: seq<Block>, ring: seq<nat>, n: nat)
    requires ring != [] && InBounds(a, ring) && Roomy(a, ring, n)
    ensures InBounds(a, Rotated(ring)) && Roomy(a, Rotated(ring), n)
  {
    assert ring == [ring[0]] + ring[1..];
    CapacityAppend(a, [ring[0]], ring[1..]);
    CapacityAppend(a, ring[1..], [ring[0]]);
    forall i | 0 <= i < |ring|
      ensures Rotated(ring)[i] == ring[if i + 1 == |ring| then 0 else i + 1]
    {}
  }

  lemma {:induction false} LinkedRotate(a: seq<Block>, ring: seq<nat>)
    requires ring != [] && InBounds(a, ring) && Linked(a, ring)
    ensures InBounds(a, Rotated(ring)) && Linked(a, Rotated(ring))
  {
    var r := Rotated(ring);
    var k := |ring|;
    forall i | 0 <= i < k ensures r[i] < |a| && a[r[i]].next == r[Inc(i, k)] {
      assert r[i] == ring[Inc(i, k)] && r[Inc(i, k)] == ring[Inc(Inc(i, k), k)];
      assert a[ring[Inc(i, k)]].next == ring[Inc(Inc(i, k), k)];
    }
  }

  lemma {:induction false} ShapeRotate(a: seq<Block>, fb: nat, tb: nat, l: Layout)
    requires Shape(a, fb, tb, l) && 0 < l.t
    ensures Shape(a, l.ring[1], tb, Layout(Rotated(l.ring), l.t - 1))
  {
    hide Linked, Distinct, BlockOk, Rotated, InBounds;
    LinkedRotate(a, l.ring);
    DistinctRotate(l.ring);
    BlocksRotate(a, l.ring);
    RotatedAt(l.ring, 0);
    RotatedAt(l.ring, l.t - 1);
  }

  lemma {:induction false} BlocksRotate(a: seq<Block>, ring: seq<nat>)
    requires ring != [] && InBounds(a, ring) && forall i :: 0 <= i < |ring| ==> BlockOk(a[ring[i]])
    ensures InBounds(a, Rotated(ring)) && forall i :: 0 <= i < |Rotated(ring)| ==> BlockOk(a[Rotated(ring)[i]])
  {
    hide BlockOk;
    RotatedAt(ring, 0);
    forall i | 0 <= i < |ring| ensures Rotated(ring)[i] < |a| && BlockOk(a[Rotated(ring)[i]]) {
      RotatedAt(ring, i);
    }
  }

  lemma {:induction false} RotatedAt(ring: seq<nat>, i: nat)
    requires i < |ring|
    ensures |Rotated(ring)| == |ring| && Rotated(ring)[i] == ring[Inc(i, |ring|)]
  {}

  lemma {:induction false} DistinctRotate(ring: seq<nat>)
    requires ring != [] && Distinct(ring)
    ensures Distinct(Rotated(ring))
  {}

  lemma {:induction false} FillRotate(a: seq<Block>, l: Layout, ahead: bool)
    requires 0 < l.t < |l.ring| && InBounds(a, l.ring) && Fill(a, l, ahead)
    requires Count(a[l.ring[0]]) == 0
    ensures InBounds(a, Rotated(l.ring)) && Fill(a, Layout(Rotated(l.ring), l.t - 1), ahead)
  {
    assert forall i :: 0 <= i < |l.ring| ==> Rotated(l.ring)[i] == l.ring[Inc(i, |l.ring|)];
  }

  lemma {:induction false} DataRotate(a: seq<Block>, l: Layout, q: seq<Value>)
    requires 0 < l.t < |l.ring| && Elemable(a, l.ring) && Data(a, l, q, false)
    requires Count(a[l.ring[0]]) == 0
    ensures Elemable(a, Rotated(l.ring)) && Data(a, Layout(Rotated(l.ring), l.t - 1), q, false)
  {
    var ids := l.ring[..l.t + 1];
    assert Rotated(l.ring)[..l.t] == ids[1..];
    ElemsLength(a[ids[0]]);
    assert Phys(a, ids) == Elems(a[ids[0]]) + Phys(a, ids[1..]);
  }

  lemma {:induction false} RawRotate(a: seq<Block>, l: Layout, at: nat, hole: int)
    requires 0 < l.t < |l.ring| && InBounds(a, l.ring) && Raw(a, l, at, hole)
    ensures InBounds(a, Rotated(l.ring)) && Raw(a, Layout(Rotated(l.ring), l.t - 1), at, hole)
  {
    assert forall i :: 0 <= i < |l.ring| ==> Rotated(l.ring)[i] == l.ring[Inc(i, |l.ring|)];
  }

  /** The consumer moves on from a drained front block. */
  lemma {:induction false} CoreStoreFrontBlock(a: seq<Block>, fb: nat, tb: nat, l: Layout, ahead: bool, at: nat,
                                               hole: int, q: seq<Value>, n: nat)
    requires l in Rings(a, fb, tb, ahead, at, hole, q, false, n)
    requires 0 < l.t && Count(a[fb]) == 0
    ensures Layout(Rotated(l.ring), l.t - 1) in Rings(a, l.ring[1], tb, ahead, at, hole, q, false, n)
  {
    ShapeRotate(a, fb, tb, l);
    FillRotate(a, l, ahead);
    RawRotate(a, l, at, hole);
    DataRotate(a, l, q);
    RoomyRotate(a, l.ring, n);
  }

  /** Blocks outside the ring may be added or changed. */
  lemma {:induction false} CoreOutside(a: seq<Block>, fb: nat, tb: nat, l: Layout, q: seq<Value>, taken: bool, n: nat,
                                       a': seq<Block>)
    requires l in Rings(a, fb, tb, false, 0, -1, q, taken, n)
    requires |a| <= |a'| && forall i :: 0 <= i < |l.ring| ==> a'[l.ring[i]] == a[l.ring[i]]
    ensures l in Rings(a', fb, tb, false, 0, -1, q, taken, n)
  {
    ShapeOutside(a, fb, tb, l, a');
    FillRawOutside(a, l, a');
    DataOutside(a, l, q, taken, a');
    RoomyFrame(a, a', l.ring, n);
  }

  lemma {:induction false} ShapeOutside(a: seq<Block>, fb: nat, tb: nat, l: Layout, a': seq<Block>)
    requires Shape(a, fb, tb, l)
    requires |a| <= |a'| && forall i :: 0 <= i < |l.ring| ==> a'[l.ring[i]] == a[l.ring[i]]
    ensures Shape(a', fb, tb, l)
  {
    forall i | 0 <= i < |l.ring| ensures a'[l.ring[i]].next == l.ring[Inc(i, |l.ring|)] {
      assert a[l.ring[i]].next == l.ring[Inc(i, |l.ring|)];
    }
  }

  lemma {:induction false} FillRawOutside(a: seq<Block>, l: Layout, a': seq<Block>)
    requires l.t < |l.ring| && InBounds(a, l.ring) && Fill(a, l, false) && Raw(a, l, 0, -1)
    requires |a| <= |a'| && forall i :: 0 <= i < |l.ring| ==> a'[l.ring[i]] == a[l.ring[i]]
    ensures InBounds(a', l.ring) && Fill(a', l, false) && Raw(a', l, 0, -1)
  {}

  lemma {:induction false} DataOutside(a: seq<Block>, l: Layout, q: seq<Value>, taken: bool, a': seq<Block>)
    requires l.t < |l.ring| && Elemable(a, l.ring) && Data(a, l, q, taken)
    requires |a| <= |a'| && forall i :: 0 <= i < |l.ring| ==> a'[l.ring[i]] == a[l.ring[i]]
    ensures Elemable(a', l.ring) && Data(a', l, q, taken)
  {
    PhysFrame(a, a', l.ring[..l.t + 1]);
  }

  function Spliced(l: Layout, nb: nat): Layout
    requires l.t < |l.ring|
  {
    Layout(l.ring[..l.t + 1] + [nb] + l.ring[l.t + 1..], l.t)
  }

  lemma {:induction false} RoomySplice(a: seq<Block>, l: Layout, n: nat, nb: nat)
    requires l.t < |l.ring| && InBounds(a, l.ring) && nb < |a| && Roomy(a, l.ring, n)
    requires 2 <= Size(a[nb]) && (|l.ring| == 1 ==> n < Size(a[nb]))
    requires forall i :: 0 <= i < |l.ring| ==> 2 <= Size(a[l.ring[i]])
    ensures InBounds(a, Spliced(l, nb).ring) && Roomy(a, Spliced(l, nb).ring, n)
  {
    var x, y := l.ring[..l.t + 1], l.ring[l.t + 1..];
    assert l.ring == x + y;
    CapacityAppend(a, x, y);
    CapacityAppend(a, x, [nb]);
    CapacityAppend(a, x + [nb], y);
    var r := Spliced(l, nb).ring;
    assert Capacity(a, r) == Capacity(a, l.ring) + Size(a[nb]) - 1;
    if |l.ring| == 1 {
      assert Capacity(a, l.ring) == Size(a[l.ring[0]]) - 1;
    } else {
      forall i | 0 <= i < |r| ensures Capacity(a, r) - (Size(a[r[i]]) - 1) >= n {
        if r[i] == nb {
          assert Capacity(a, l.ring) - (Size(a[l.ring[0]]) - 1) >= n;
        } else {
          var j := if i <= l.t then i else i - 1;
          assert r[i] == l.ring[j];
        }
      }
    }
  }

  /** The block at each place of the ring after a splice. */
  lemma {:induction false} SplicedAt(l: Layout, nb: nat, i: nat)
    requires l.t < |l.ring| && i <= |l.ring|
    ensures Spliced(l, nb).ring[i] == if i <= l.t then l.ring[i] else if i == l.t + 1 then nb else l.ring[i - 1]
  {}

  lemma {:induction false} DistinctSplice(l: Layout, nb: nat)
    requires l.t < |l.ring| && Distinct(l.ring) && nb !in l.ring
    ensures Distinct(Spliced(l, nb).ring)
  {
    var r := Spliced(l, nb).ring;
    forall i, j | 0 <= i < j < |r| ensures r[i] != r[j] {
      SplicedAt(l, nb, i);
      SplicedAt(l, nb, j);
    }
  }

  lemma {:induction false} LinkedSplice(a: seq<Block>, l: Layout, nb: nat)
    requires l.t < |l.ring| && InBounds(a, l.ring) && Linked(a, l.ring) && Distinct(l.ring)
    requires nb < |a| && nb !in l.ring && a[nb].next == a[l.ring[l.t]].next
    ensures var a' := a[l.ring[l.t] := a[l.ring[l.t]].(next := nb)];
            InBounds(a', Spliced(l, nb).ring) && Linked(a', Spliced(l, nb).ring)
  {
    var a' := a[l.ring[l.t] := a[l.ring[l.t]].(next := nb)];
    var r := Spliced(l, nb).ring;
    var k := |l.ring|;
    forall i | 0 <= i <= k ensures r[i] < |a| && a'[r[i]].next == r[Inc(i, k + 1)] {
      SplicedAt(l, nb, i);
      SplicedAt(l, nb, Inc(i, k + 1));
      var j := if i <= l.t then i else i - 1;
      assert a[l.ring[j]].next == l.ring[Inc(j, k)];
    }
  }

  lemma {:induction false} ShapeSplice(a: seq<Block>, fb: nat, tb: nat, l: Layout, nb: nat)
    requires Shape(a, fb, tb, l) && nb < |a| && nb !in l.ring && BlockOk(a[nb])
    requires a[nb].next == a[tb].next
    ensures Shape(a[tb := a[tb].(next := nb)], fb, tb, Spliced(l, nb))
  {
    DistinctSplice(l, nb);
    LinkedSplice(a, l, nb);
    BlocksSplice(a, tb, l, nb);
    hide Linked, Distinct, BlockOk;
    SplicedAt(l, nb, 0);
    SplicedAt(l, nb, l.t);
  }

  lemma {:induction false} BlocksSplice(a: seq<Block>, tb: nat, l: Layout, nb: nat)
    requires l.t < |l.ring| && InBounds(a, l.ring) && nb < |a| && tb < |a| && BlockOk(a[nb])
    requires forall i :: 0 <= i < |l.ring| ==> BlockOk(a[l.ring[i]])
    ensures var a', r := a[tb := a[tb].(next := nb)], Spliced(l, nb).ring;
            forall i :: 0 <= i < |r| ==> r[i] < |a'| && BlockOk(a'[r[i]])
  {
    var a', r := a[tb := a[tb].(next := nb)], Spliced(l, nb).ring;
    forall i | 0 <= i < |r| ensures r[i] < |a'| && BlockOk(a'[r[i]]) {
      SplicedAt(l, nb, i);
      assert BlockOk(a[r[i]]);
    }
  }

  lemma {:induction false} FillSplice(a: seq<Block>, l: Layout, nb: nat)
    requires l.t < |l.ring| && InBounds(a, l.ring) && Fill(a, l, false)
    requires nb < |a| && Count(a[nb]) == 1
    ensures InBounds(a, Spliced(l, nb).ring) && Fill(a, Spliced(l, nb), true)
  {
    forall i | 0 <= i <= |l.ring|
      ensures Spliced(l, nb).ring[i] == if i <= l.t then l.ring[i] else if i == l.t + 1 then nb else l.ring[i - 1]
    {
      SplicedAt(l, nb, i);
    }
  }

  lemma {:induction false} RawSplice(a: seq<Block>, l: Layout, nb: nat)
    requires l.t < |l.ring| && InBounds(a, l.ring) && Raw(a, l, 0, -1)
    requires nb < |a| && RawBlock(a[nb], -1)
    ensures InBounds(a, Spliced(l, nb).ring) && Raw(a, Spliced(l, nb), 0, -1)
  {
    forall i | 0 <= i <= |l.ring| ensures RawBlock(a[Spliced(l, nb).ring[i]], -1) {
      SplicedAt(l, nb, i);
    }
  }

  lemma {:induction false} DataSplice(a: seq<Block>, l: Layout, q: seq<Value>, taken: bool, nb: nat)
    requires l.t < |l.ring| && Elemable(a, l.ring) && Data(a, l, q, taken)
    requires nb < |a| && BlockOk(a[nb])
    ensures Elemable(a, Spliced(l, nb).ring) && Data(a, Spliced(l, nb), q, taken)
  {
    assert Spliced(l, nb).ring[..l.t + 1] == l.ring[..l.t + 1];
  }

  /** The producer splices the new block in after the tail. */
  lemma {:induction false} CoreSplice(a: seq<Block>, fb: nat, tb: nat, l: Layout, q: seq<Value>, taken: bool, n: nat,
                                      nb: nat)
    requires l in Rings(a, fb, tb, false, 0, -1, q, taken, n)
    requires nb < |a| && nb !in l.ring && BlockOk(a[nb]) && a[nb].next == a[tb].next
    requires Count(a[nb]) == 1 && RawBlock(a[nb], -1) && (|l.ring| == 1 ==> n < Size(a[nb]))
    ensures Spliced(l, nb) in Rings(a[tb := a[tb].(next := nb)], fb, tb, true, 0, -1, q, taken, n)
  {
    ShapeSplice(a, fb, tb, l, nb);
    FillRawSplice(a, l, nb);
    DataRoomySplice(a, l, q, taken, n, nb);
  }

  lemma {:induction false} FillRawSplice(a: seq<Block>, l: Layout, nb: nat)
    requires l.t < |l.ring| && InBounds(a, l.ring) && Fill(a, l, false) && Raw(a, l, 0, -1)
    requires nb < |a| && Count(a[nb]) == 1 && RawBlock(a[nb], -1)
    ensures var a' := a[l.ring[l.t] := a[l.ring[l.t]].(next := nb)];
            && InBounds(a', Spliced(l, nb).ring)
            && Fill(a', Spliced(l, nb), true) && Raw(a', Spliced(l, nb), 0, -1)
  {
    var tb := l.ring[l.t];
    FillSplice(a, l, nb);
    FillUpdate(a, Spliced(l, nb), true, tb, a[tb].(next := nb));
    RawSplice(a, l, nb);
    assert RawBlock(a[tb], -1);
    RawUpdate(a, Spliced(l, nb), 0, -1, tb, a[tb].(next := nb), 0, -1);
  }

  lemma {:induction false} DataRoomySplice(a: seq<Block>, l: Layout, q: seq<Value>, taken: bool, n: nat, nb: nat)
    requires l.t < |l.ring| && Elemable(a, l.ring) && Data(a, l, q, taken) && Roomy(a, l.ring, n)
    requires nb < |a| && BlockOk(a[nb]) && (|l.ring| == 1 ==> n < Size(a[nb]))
    ensures var a' := a[l.ring[l.t] := a[l.ring[l.t]].(next := nb)];
            && Elemable(a', Spliced(l, nb).ring)
            && Data(a', Spliced(l, nb), q, taken) && Roomy(a', Spliced(l, nb).ring, n)
  {
    var tb := l.ring[l.t];
    DataSplice(a, l, q, taken, nb);
    DataUpdate(a, Spliced(l, nb), q, taken, tb, a[tb].(next := nb));
    RoomySplice(a, l, n, nb);
    RoomyUpdate(a, Spliced(l, nb).ring, n, tb, a[tb].(next := nb));
  }
}
