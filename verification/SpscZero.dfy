/**
 The sizes a queue may be built for. With size 0 the first block has a single slot, its tail wraps to
 where it was, and an element stored there is lost. From 2^63 on `size + 1` rounds up to 0, and the
 block has no slot at all.
 */
module SpscZero {
  import opened SpscQueue
  import opened SpscRuns
  import BitTricks

  /** The ring once it has grown to its first block and one of two slots. */
  function Ring(max: nat, x: Block, y: Block, fb: nat, tb: nat, p: Producer, c: Consumer): State {
    State([x, y], fb, tb, 2, max, p, c)
  }

  /** A queue of one block. */
  function Lone(max: nat, size: nat, slots: seq<Option<Value>>, p: Producer): State {
    State([Block(0, 0, 0, 0, 0, slots)], 0, 0, size, max, p, CIdle)
  }

  function Last(r: Run): State
    requires r.states != []
  {
    r.states[|r.states| - 1]
  }

  /** A run of a queue built for `size` that ends in `s`. */
  ghost predicate Reaches(r: Run, size: nat, max: nat, s: State) {
    IsRun(r, size, max) && Last(r) == s
  }

  /** What the calls of a run have put in and taken out. */
  function Moved(r: Run): (seq<Value>, seq<Value>) {
    (Enqueued(r.events), Dequeued(r.events))
  }

  /** One more step. */
  lemma {:induction false} Extend(r: Run, size: nat, max: nat, s: State, s': State, e: Event)
    returns (x: Run, now: State)
    requires Reaches(r, size, max, s) && Next(s, s', e)
    ensures Reaches(x, size, max, s') && now == s' && x.events == r.events + [e]
    ensures Moved(x).0 == if e.Enq? then Moved(r).0 + [e.v] else Moved(r).0
    ensures Moved(x).1 == if e.Deq? then Moved(r).1 + [e.v] else Moved(r).1
  {
    hide Next, Initial;
    now := s';
    x := Run(r.states + [s'], r.events + [e]);
    assert x.events[..|r.events|] == r.events;
    forall i | 0 <= i < |x.events| ensures Next(x.states[i], x.states[i + 1], x.events[i]) {
      if i < |r.events| {
        assert Next(r.states[i], r.states[i + 1], r.events[i]);
        assert x.states[i] == r.states[i] && x.states[i + 1] == r.states[i + 1];
      }
    }
  }

  /** The first enqueue finds the one slot unusable and allocates a block of two. */
  lemma {:induction false} ZeroAllocates(r: Run, max: nat, v: Value) returns (x: Run)
    requires 2 <= max && Reaches(r, 0, max, Lone(max, 1, [None], PIdle))
    ensures Reaches(x, 0, max, Ring(max, Block(0, 0, 0, 0, 0, [None]),
                               Block(0, 0, 0, 0, 0, [None, None]), 0, 0, PConstructNew(v, 0, 1), CIdle))
    ensures Moved(x) == (Moved(r).0, Moved(r).1)
  {
    hide Reaches, Moved;
    x := r;
    var s := Lone(max, 1, [None], PIdle);
    x, s := Extend(x, 0, max, s, s.(p := PLoadTailBlock(v, true)), EnqCall(v, true));
    x, s := Extend(x, 0, max, s, s.(p := PLoadTail(v, true, 0)), Tau);
    x, s := Extend(x, 0, max, s, s.(p := PLoadFront(v, true, 0, 0)), Tau);
    x, s := Extend(x, 0, max, s, s.(p := PLoadNext(v, true, 0)), Tau);
    x, s := Extend(x, 0, max, s, s.(p := PLoadFrontBlock(v, true, 0, 0)), Tau);
    x, s := Extend(x, 0, max, s, s.(p := PAlloc(v, 0)), Tau);
    var a, b := s.blocks[0], EmptyBlock(2);
    x, s := Extend(x, 0, max, s, Ring(max, a, b, 0, 0, PConstructNew(v, 0, 1), CIdle), Tau);
    assert a.slots == [None] && b.slots == [None, None];
  }

  /** It is spliced in. */
  lemma {:induction false} ZeroGrows(r: Run, max: nat, v: Value) returns (x: Run)
    requires Reaches(r, 0, max, Ring(max, Block(0, 0, 0, 0, 0, [None]),
                                Block(0, 0, 0, 0, 0, [None, None]), 0, 0, PConstructNew(v, 0, 1), CIdle))
    ensures Reaches(x, 0, max, Ring(max, Block(0, 0, 0, 0, 1, [None]),
                               Block(0, 1, 1, 0, 0, [Some(v), None]), 0, 1, PIdle, CIdle))
    ensures Moved(x) == (Moved(r).0 + [v], Moved(r).1)
  {
    hide Reaches, Moved;
    x := r;
    var a, b := Block(0, 0, 0, 0, 0, [None]), Block(0, 0, 0, 0, 0, [None, None]);
    var s := Ring(max, a, b, 0, 0, PConstructNew(v, 0, 1), CIdle);
    b := b.(slots := b.slots[0 := Some(v)]);
    x, s := Extend(x, 0, max, s, Ring(max, a, b, 0, 0, PStoreNewTail(v, 0, 1), CIdle), Tau);
    b := b.(localTail := 1, tail := 1);
    x, s := Extend(x, 0, max, s, Ring(max, a, b, 0, 0, PLinkNew(v, 0, 1), CIdle), Tau);
    x, s := Extend(x, 0, max, s, Ring(max, a, b, 0, 0, PSplice(v, 0, 1), CIdle), Tau);
    a := a.(next := 1);
    x, s := Extend(x, 0, max, s, Ring(max, a, b, 0, 0, PStoreTailBlock(v, 1), CIdle), Tau);
    x, s := Extend(x, 0, max, s, Ring(max, a, b, 0, 1, PIdle, CIdle), Enq(v));
    assert a.slots == [None] && b.slots == [Some(v), None];
  }

  /** A dequeue finds the first block empty and the tail moved. */
  lemma {:induction false} ZeroFindsNone(r: Run, max: nat, v: Value) returns (x: Run)
    requires Reaches(r, 0, max, Ring(max, Block(0, 0, 0, 0, 1, [None]),
                                Block(0, 1, 1, 0, 0, [Some(v), None]), 0, 1, PIdle, CIdle))
    ensures Reaches(x, 0, max, Ring(max, Block(0, 0, 0, 0, 1, [None]),
                               Block(0, 1, 1, 0, 0, [Some(v), None]), 0, 1, PIdle, CReloadTail(Remove, 0)))
    ensures Moved(x) == (Moved(r).0, Moved(r).1)
  {
    hide Reaches, Moved;
    x := r;
    var a, b := Block(0, 0, 0, 0, 1, [None]), Block(0, 1, 1, 0, 0, [Some(v), None]);
    var s := Ring(max, a, b, 0, 1, PIdle, CIdle);
    x, s := Extend(x, 0, max, s, Ring(max, a, b, 0, 1, PIdle, CLoadFrontBlock(Remove)), DeqCall(Remove));
    x, s := Extend(x, 0, max, s, Ring(max, a, b, 0, 1, PIdle, CLoadFront(Remove, 0, 0)), Tau);
    x, s := Extend(x, 0, max, s, Ring(max, a, b, 0, 1, PIdle, CLoadTail(Remove, 0, 0)), Tau);
    x, s := Extend(x, 0, max, s, Ring(max, a, b, 0, 1, PIdle, CLoadTailBlock(Remove, 0)), Tau);
    x, s := Extend(x, 0, max, s, Ring(max, a, b, 0, 1, PIdle, CReloadFrontBlock(Remove)), Tau);
    x, s := Extend(x, 0, max, s, Ring(max, a, b, 0, 1, PIdle, CReloadTail(Remove, 0)), Tau);
    assert a.slots == [None] && b.slots == [Some(v), None];
  }

  /** It looks at the new block. */
  lemma {:induction false} ZeroSeesNext(r: Run, max: nat, v: Value) returns (x: Run)
    requires Reaches(r, 0, max, Ring(max, Block(0, 0, 0, 0, 1, [None]),
                                Block(0, 1, 1, 0, 0, [Some(v), None]), 0, 1, PIdle, CReloadTail(Remove, 0)))
    ensures Reaches(x, 0, max, Ring(max, Block(0, 0, 0, 0, 1, [None]),
                               Block(0, 1, 1, 0, 0, [Some(v), None]), 0, 1, PIdle, CLoadNextTail(Remove, 1, 0)))
    ensures Moved(x) == (Moved(r).0, Moved(r).1)
  {
    hide Reaches, Moved;
    x := r;
    var a, b := Block(0, 0, 0, 0, 1, [None]), Block(0, 1, 1, 0, 0, [Some(v), None]);
    var s := Ring(max, a, b, 0, 1, PIdle, CReloadTail(Remove, 0));
    x, s := Extend(x, 0, max, s, Ring(max, a, b, 0, 1, PIdle, CReloadFront(Remove, 0, 0)), Tau);
    x, s := Extend(x, 0, max, s, Ring(max, a, b, 0, 1, PIdle, CLoadNext(Remove, 0)), Tau);
    x, s := Extend(x, 0, max, s, Ring(max, a, b, 0, 1, PIdle, CLoadNextFront(Remove, 1)), Tau);
    x, s := Extend(x, 0, max, s, Ring(max, a, b, 0, 1, PIdle, CLoadNextTail(Remove, 1, 0)), Tau);
    assert a.slots == [None] && b.slots == [Some(v), None];
  }

  /** It moves the front to that block and takes the element. */
  lemma {:induction false} ZeroMovesOn(r: Run, max: nat, v: Value) returns (x: Run)
    requires Reaches(r, 0, max, Ring(max, Block(0, 0, 0, 0, 1, [None]),
                                Block(0, 1, 1, 0, 0, [Some(v), None]), 0, 1, PIdle, CLoadNextTail(Remove, 1, 0)))
    ensures Reaches(x, 0, max, Ring(max, Block(0, 0, 0, 0, 1, [None]),
                               Block(1, 1, 1, 0, 0, [None, None]), 1, 1, PIdle, CIdle))
    ensures Moved(x) == (Moved(r).0, Moved(r).1 + [v])
  {
    hide Reaches, Moved;
    x := r;
    var a, b := Block(0, 0, 0, 0, 1, [None]), Block(0, 1, 1, 0, 0, [Some(v), None]);
    var s := Ring(max, a, b, 0, 1, PIdle, CLoadNextTail(Remove, 1, 0));
    x, s := Extend(x, 0, max, s, Ring(max, a, b, 0, 1, PIdle, CStoreFrontBlock(1, 0)), Tau);
    x, s := Extend(x, 0, max, s, Ring(max, a, b, 1, 1, PIdle, CTake(1, 0)), Tau);
    b := b.(slots := b.slots[0 := None]);
    x, s := Extend(x, 0, max, s, Ring(max, a, b, 1, 1, PIdle, CStoreFront(1, 0, v)), Tau);
    b := b.(front := 1);
    x, s := Extend(x, 0, max, s, Ring(max, a, b, 1, 1, PIdle, CIdle), Deq(v));
    assert a.slots == [None] && b.slots == [None, None];
  }

  /** The second element fills the new block. */
  lemma {:induction false} ZeroFills(r: Run, max: nat, v: Value) returns (x: Run)
    requires Reaches(r, 0, max, Ring(max, Block(0, 0, 0, 0, 1, [None]),
                                Block(1, 1, 1, 0, 0, [None, None]), 1, 1, PIdle, CIdle))
    ensures Reaches(x, 0, max, Ring(max, Block(0, 0, 0, 0, 1, [None]),
                               Block(1, 1, 0, 1, 0, [None, Some(v)]), 1, 1, PIdle, CIdle))
    ensures Moved(x) == (Moved(r).0 + [v], Moved(r).1)
  {
    hide Reaches, Moved;
    x := r;
    var a, b := Block(0, 0, 0, 0, 1, [None]), Block(1, 1, 1, 0, 0, [None, None]);
    var s := Ring(max, a, b, 1, 1, PIdle, CIdle);
    x, s := Extend(x, 0, max, s, Ring(max, a, b, 1, 1, PLoadTailBlock(v, false), CIdle), EnqCall(v, false));
    x, s := Extend(x, 0, max, s, Ring(max, a, b, 1, 1, PLoadTail(v, false, 1), CIdle), Tau);
    x, s := Extend(x, 0, max, s, Ring(max, a, b, 1, 1, PLoadFront(v, false, 1, 1), CIdle), Tau);
    b := b.(localFront := 1);
    x, s := Extend(x, 0, max, s, Ring(max, a, b, 1, 1, PConstruct(v, 1, 1), CIdle), Tau);
    b := b.(slots := b.slots[1 := Some(v)]);
    x, s := Extend(x, 0, max, s, Ring(max, a, b, 1, 1, PStoreTail(v, 1, 1), CIdle), Tau);
    b := b.(tail := 0);
    x, s := Extend(x, 0, max, s, Ring(max, a, b, 1, 1, PIdle, CIdle), Enq(v));
    assert a.slots == [None] && b.slots == [None, Some(v)];
  }

  /** The third enqueue finds it full. */
  lemma {:induction false} ZeroIsFull(r: Run, max: nat, v: Value) returns (x: Run)
    requires Reaches(r, 0, max, Ring(max, Block(0, 0, 0, 0, 1, [None]),
                                Block(1, 1, 0, 1, 0, [None, Some(v)]), 1, 1, PIdle, CIdle))
    ensures Reaches(x, 0, max, Ring(max, Block(0, 0, 0, 0, 1, [None]),
                               Block(1, 1, 0, 1, 0, [None, Some(v)]), 1, 1, PLoadFrontBlock(v, false, 1, 0), CIdle))
    ensures Moved(x) == (Moved(r).0, Moved(r).1)
  {
    hide Reaches, Moved;
    x := r;
    var a, b := Block(0, 0, 0, 0, 1, [None]), Block(1, 1, 0, 1, 0, [None, Some(v)]);
    var s := Ring(max, a, b, 1, 1, PIdle, CIdle);
    x, s := Extend(x, 0, max, s, Ring(max, a, b, 1, 1, PLoadTailBlock(v, false), CIdle), EnqCall(v, false));
    x, s := Extend(x, 0, max, s, Ring(max, a, b, 1, 1, PLoadTail(v, false, 1), CIdle), Tau);
    x, s := Extend(x, 0, max, s, Ring(max, a, b, 1, 1, PLoadFront(v, false, 1, 0), CIdle), Tau);
    x, s := Extend(x, 0, max, s, Ring(max, a, b, 1, 1, PLoadNext(v, false, 1), CIdle), Tau);
    x, s := Extend(x, 0, max, s, Ring(max, a, b, 1, 1, PLoadFrontBlock(v, false, 1, 0), CIdle), Tau);
    assert a.slots == [None] && b.slots == [None, Some(v)];
  }

  /** And looks at the block ahead. */
  lemma {:induction false} ZeroLooksAhead(r: Run, max: nat, v: Value) returns (x: Run)
    requires Reaches(r, 0, max, Ring(max, Block(0, 0, 0, 0, 1, [None]),
                                Block(1, 1, 0, 1, 0, [None, Some(v)]), 1, 1, PLoadFrontBlock(v, false, 1, 0), CIdle))
    ensures Reaches(x, 0, max, Ring(max, Block(0, 0, 0, 0, 1, [None]),
                               Block(1, 1, 0, 1, 0, [None, Some(v)]), 1, 1, PConstructNext(v, 0, 0), CIdle))
    ensures Moved(x) == (Moved(r).0, Moved(r).1)
  {
    hide Reaches, Moved;
    x := r;
    var a, b := Block(0, 0, 0, 0, 1, [None]), Block(1, 1, 0, 1, 0, [None, Some(v)]);
    var s := Ring(max, a, b, 1, 1, PLoadFrontBlock(v, false, 1, 0), CIdle);
    x, s := Extend(x, 0, max, s, Ring(max, a, b, 1, 1, PReloadNext(v, 1), CIdle), Tau);
    x, s := Extend(x, 0, max, s, Ring(max, a, b, 1, 1, PLoadNextFront(v, 0), CIdle), Tau);
    x, s := Extend(x, 0, max, s, Ring(max, a, b, 1, 1, PLoadNextTail(v, 0, 0), CIdle), Tau);
    x, s := Extend(x, 0, max, s, Ring(max, a, b, 1, 1, PConstructNext(v, 0, 0), CIdle), Tau);
    assert a.slots == [None] && b.slots == [None, Some(v)];
  }

  /** The third element goes to the block of one slot, whose tail wraps to where it was. */
  lemma {:induction false} ZeroLoses(r: Run, max: nat, v: Value) returns (x: Run)
    requires Reaches(r, 0, max, Ring(max, Block(0, 0, 0, 0, 1, [None]),
                                Block(1, 1, 0, 1, 0, [None, Some(v)]), 1, 1, PConstructNext(v, 0, 0), CIdle))
    ensures Reaches(x, 0, max, Ring(max, Block(0, 0, 0, 0, 1, [Some(v)]),
                               Block(1, 1, 0, 1, 0, [None, Some(v)]), 1, 0, PIdle, CIdle))
    ensures Moved(x) == (Moved(r).0 + [v], Moved(r).1)
  {
    hide Reaches, Moved;
    x := r;
    var a, b := Block(0, 0, 0, 0, 1, [None]), Block(1, 1, 0, 1, 0, [None, Some(v)]);
    var s := Ring(max, a, b, 1, 1, PConstructNext(v, 0, 0), CIdle);
    a := a.(slots := a.slots[0 := Some(v)]);
    x, s := Extend(x, 0, max, s, Ring(max, a, b, 1, 1, PStoreNextTail(v, 0, 0), CIdle), Tau);
    x, s := Extend(x, 0, max, s, Ring(max, a, b, 1, 1, PStoreTailBlock(v, 0), CIdle), Tau);
    x, s := Extend(x, 0, max, s, Ring(max, a, b, 1, 0, PIdle, CIdle), Enq(v));
    assert a.slots == [Some(v)] && b.slots == [None, Some(v)];
  }

  /** The second element is taken. */
  lemma {:induction false} ZeroTakes(r: Run, max: nat, v: Value) returns (x: Run)
    requires Reaches(r, 0, max, Ring(max, Block(0, 0, 0, 0, 1, [Some(v)]),
                                Block(1, 1, 0, 1, 0, [None, Some(v)]), 1, 0, PIdle, CIdle))
    ensures Reaches(x, 0, max, Ring(max, Block(0, 0, 0, 0, 1, [Some(v)]),
                               Block(0, 0, 0, 1, 0, [None, None]), 1, 0, PIdle, CIdle))
    ensures Moved(x) == (Moved(r).0, Moved(r).1 + [v])
  {
    hide Reaches, Moved;
    x := r;
    var a, b := Block(0, 0, 0, 0, 1, [Some(v)]), Block(1, 1, 0, 1, 0, [None, Some(v)]);
    var s := Ring(max, a, b, 1, 0, PIdle, CIdle);
    x, s := Extend(x, 0, max, s, Ring(max, a, b, 1, 0, PIdle, CLoadFrontBlock(Remove)), DeqCall(Remove));
    x, s := Extend(x, 0, max, s, Ring(max, a, b, 1, 0, PIdle, CLoadFront(Remove, 1, 1)), Tau);
    x, s := Extend(x, 0, max, s, Ring(max, a, b, 1, 0, PIdle, CLoadTail(Remove, 1, 1)), Tau);
    b := b.(localTail := 0);
    x, s := Extend(x, 0, max, s, Ring(max, a, b, 1, 0, PIdle, CTake(1, 1)), Tau);
    b := b.(slots := b.slots[1 := None]);
    x, s := Extend(x, 0, max, s, Ring(max, a, b, 1, 0, PIdle, CStoreFront(1, 1, v)), Tau);
    b := b.(front := 0);
    x, s := Extend(x, 0, max, s, Ring(max, a, b, 1, 0, PIdle, CIdle), Deq(v));
    assert a.slots == [Some(v)] && b.slots == [None, None];
  }

  /** The block ahead looks empty, against the assertion. */
  lemma {:induction false} ZeroFaults(r: Run, max: nat, v: Value) returns (x: Run)
    requires Reaches(r, 0, max, Ring(max, Block(0, 0, 0, 0, 1, [Some(v)]),
                                Block(0, 0, 0, 1, 0, [None, None]), 1, 0, PIdle, CIdle))
    ensures Reaches(x, 0, max, Ring(max, Block(0, 0, 0, 0, 1, [Some(v)]),
                               Block(0, 0, 0, 1, 0, [None, None]), 1, 0, PIdle, CLoadNextTail(Remove, 0, 0)))
    ensures x.events != [] && x.events[|x.events| - 1].Fault?
    ensures Moved(x) == (Moved(r).0, Moved(r).1)
  {
    hide Reaches, Moved;
    x := r;
    var a, b := Block(0, 0, 0, 0, 1, [Some(v)]), Block(0, 0, 0, 1, 0, [None, None]);
    var s := Ring(max, a, b, 1, 0, PIdle, CIdle);
    x, s := Extend(x, 0, max, s, Ring(max, a, b, 1, 0, PIdle, CLoadFrontBlock(Remove)), DeqCall(Remove));
    x, s := Extend(x, 0, max, s, Ring(max, a, b, 1, 0, PIdle, CLoadFront(Remove, 1, 0)), Tau);
    x, s := Extend(x, 0, max, s, Ring(max, a, b, 1, 0, PIdle, CLoadTail(Remove, 1, 0)), Tau);
    x, s := Extend(x, 0, max, s, Ring(max, a, b, 1, 0, PIdle, CLoadTailBlock(Remove, 1)), Tau);
    x, s := Extend(x, 0, max, s, Ring(max, a, b, 1, 0, PIdle, CReloadFrontBlock(Remove)), Tau);
    x, s := Extend(x, 0, max, s, Ring(max, a, b, 1, 0, PIdle, CReloadTail(Remove, 1)), Tau);
    x, s := Extend(x, 0, max, s, Ring(max, a, b, 1, 0, PIdle, CReloadFront(Remove, 1, 0)), Tau);
    x, s := Extend(x, 0, max, s, Ring(max, a, b, 1, 0, PIdle, CLoadNext(Remove, 1)), Tau);
    x, s := Extend(x, 0, max, s, Ring(max, a, b, 1, 0, PIdle, CLoadNextFront(Remove, 0)), Tau);
    x, s := Extend(x, 0, max, s, Ring(max, a, b, 1, 0, PIdle, CLoadNextTail(Remove, 0, 0)), Tau);
    x, s := Extend(x, 0, max, s, Ring(max, a, b, 1, 0, PIdle, CLoadNextTail(Remove, 0, 0)), Fault);
    assert a.slots == [Some(v)] && b.slots == [None, None];
  }

  lemma {:induction false} LoneBuilt(c: nat, size: nat, max: nat, slots: seq<Option<Value>>)
    requires 2 <= max && c <= Twice(max) && slots == EmptyBlock(c).slots
    ensures Built(c, size, max) == Lone(max, c, slots, PIdle)
  {
    hide Twice;
    var s := Built(c, size, max);
    assert s.blocks[0] == EmptyBlock(c);
    assert s.blocks == [EmptyBlock(c)];
  }

  lemma {:induction false} ZeroStarts(max: nat) returns (x: Run)
    requires 2 <= max < BitTricks.Pow2(63) && BitTricks.IsPow2(max)
    ensures Reaches(x, 0, max, Lone(max, 1, [None], PIdle)) && Moved(x) == ([], [])
  {
    BitTricks.WordIsPow2();
    assert BitTricks.Pow2(0) == 1;
    assert RoundsTo(1, 1);
    hide BitTricks.IsPow2, BitTricks.Pow2, RoundsTo, Built;
    assert Twice(max) == max * 2;
    assert EmptyBlock(1).slots == [None];
    LoneBuilt(1, 0, max, [None]);
    x := Run([Built(1, 0, max)], []);
  }

  /** Three elements go in and two come out, and the next dequeue stands at its assertion. */
  lemma {:induction false} SizeZeroRun(max: nat, v: Value) returns (x: Run)
    requires 2 <= max < BitTricks.Pow2(63) && BitTricks.IsPow2(max)
    ensures Reaches(x, 0, max, Ring(max, Block(0, 0, 0, 0, 1, [Some(v)]),
                                    Block(0, 0, 0, 1, 0, [None, None]), 1, 0, PIdle, CLoadNextTail(Remove, 0, 0)))
    ensures x.events != [] && x.events[|x.events| - 1].Fault? && Moved(x) == ([v, v, v], [v, v])
  {
    hide Reaches, Moved, BitTricks.IsPow2, BitTricks.Pow2;
    x := ZeroStarts(max);
    x := ZeroAllocates(x, max, v);
    x := ZeroGrows(x, max, v);
    x := ZeroFindsNone(x, max, v);
    x := ZeroSeesNext(x, max, v);
    x := ZeroMovesOn(x, max, v);
    x := ZeroFills(x, max, v);
    x := ZeroIsFull(x, max, v);
    x := ZeroLooksAhead(x, max, v);
    x := ZeroLoses(x, max, v);
    x := ZeroTakes(x, max, v);
    x := ZeroFaults(x, max, v);
    assert [] + [v] + [v] + [v] == [v, v, v] && [] + [v] + [v] == [v, v];
  }

  /**
   A run of a queue built for size 0: three values go in and two come out, and then a dequeue fails
   its assertion that the block ahead is not empty.
   */
  lemma {:induction false} SizeZeroFaults(max: nat, v: Value) returns (x: Run)
    requires 2 <= max < BitTricks.Pow2(63) && BitTricks.IsPow2(max)
    ensures IsRun(x, 0, max) && x.events != [] && x.events[|x.events| - 1].Fault?
    ensures Enqueued(x.events) == [v, v, v] && Dequeued(x.events) == [v, v] && Last(x).c.CLoadNextTail?
  {
    hide IsRun, BitTricks.IsPow2, BitTricks.Pow2, Enqueued, Dequeued;
    x := SizeZeroRun(max, v);
  }

  lemma {:induction false} HugeStarts(size: nat, max: nat) returns (x: Run)
    requires 2 <= max < BitTricks.WORD && BitTricks.IsPow2(max) && BitTricks.Pow2(63) <= size < BitTricks.WORD
    ensures Reaches(x, size, max, Lone(max, 0, [], PIdle)) && x.events == []
  {
    hide BitTricks.IsPow2, BitTricks.Pow2, Built;
    LoneBuilt(0, size, max, []);
    assert RoundsTo(0, size + 1);
    x := Run([Built(0, size, max)], []);
  }

  /** A size of 2^63 or more: the first enqueue writes outside the block, which has no slot. */
  lemma {:induction false} HugeSizeFaults(size: nat, max: nat, v: Value) returns (x: Run)
    requires 2 <= max < BitTricks.WORD && BitTricks.IsPow2(max) && BitTricks.Pow2(63) <= size < BitTricks.WORD
    ensures IsRun(x, size, max) && x.events == [EnqCall(v, true), Tau, Tau, Fault]
    ensures Last(x) == Lone(max, 0, [], PConstruct(v, 0, 0))
  {
    hide BitTricks.IsPow2, BitTricks.Pow2, IsRun, Moved;
    x := HugeStarts(size, max);
    var s := Lone(max, 0, [], PIdle);
    x, s := Extend(x, size, max, s, s.(p := PLoadTailBlock(v, true)), EnqCall(v, true));
    x, s := Extend(x, size, max, s, s.(p := PLoadTail(v, true, 0)), Tau);
    x, s := Extend(x, size, max, s, s.(p := PConstruct(v, 0, 0)), Tau);
    x, s := Extend(x, size, max, s, s, Fault);
  }

  lemma {:induction false} NoBlockStarts(size: nat, max: nat) returns (x: Run)
    requires max == BitTricks.Pow2(63) && 3 <= size < max
    ensures Reaches(x, size, max, State([], 0, 0, max, max, PIdle, CIdle)) && x.events == []
  {
    hide BitTricks.Pow2;
    BitTricks.WordIsPow2();
    var c := RoundUp(size + 1);
    LastBlockCount(c, size, max);
    hide BlockCount, Twice;
    var s := Built(c, size, max);
    assert s == State([], 0, 0, max, max, PIdle, CIdle);
    hide Built;
    x := Run([s], []);
  }

  /** With 2^63 for `MAX_BLOCK_SIZE` a size of 3 or more gets no block, and the first enqueue follows a null pointer. */
  lemma {:induction false} NoBlockFaults(size: nat, max: nat, v: Value) returns (x: Run)
    requires max == BitTricks.Pow2(63) && 3 <= size < max
    ensures IsRun(x, size, max) && x.events == [EnqCall(v, true), Tau, Fault]
    ensures Last(x).p.PLoadTail? && Last(x).blocks == []
  {
    hide BitTricks.Pow2, IsRun, Moved;
    x := NoBlockStarts(size, max);
    var s := State([], 0, 0, max, max, PIdle, CIdle);
    x, s := Extend(x, size, max, s, s.(p := PLoadTailBlock(v, true)), EnqCall(v, true));
    x, s := Extend(x, size, max, s, s.(p := PLoadTail(v, true, 0)), Tau);
    x, s := Extend(x, size, max, s, s, Fault);
  }

  /** Every positive number has a least power of two that is not smaller. */
  lemma {:induction false} RoundUp(x: nat) returns (c: nat)
    requires 0 < x
    ensures LeastPow2(c, x) && 0 < c
  {
    if x == 1 {
      assert BitTricks.Pow2(0) == 1;
      return 1;
    }
    var m := BitTricks.BitLength(x - 1);
    c := BitTricks.Pow2(m);
    forall k: nat | x <= BitTricks.Pow2(k) ensures c <= BitTricks.Pow2(k) {
      if k < m {
        BitTricks.Pow2Monotone(k, m - 1);
      } else {
        BitTricks.Pow2Monotone(m, k);
      }
    }
  }

  /** No step of any run faults. */
  ghost predicate NeverFaults(size: nat, max: nat) {
    forall r :: IsRun(r, size, max) ==> Fault !in r.events
  }

  /**
   The exact condition on the constructor's 64-bit argument, for any element type that has a value:
   from 1 up to 2^63 - 1, as long as twice `MAX_BLOCK_SIZE` fits a word.
   */
  lemma {:induction false} SafeSizes(size: nat, max: nat, v: Value)
    requires 2 <= max < BitTricks.WORD && BitTricks.IsPow2(max) && size < BitTricks.WORD
    ensures NeverFaults(size, max) <==> if max < BitTricks.Pow2(63) then 1 <= size < BitTricks.Pow2(63) else size <= 2
  {
    hide IsRun, BitTricks.Pow2, BitTricks.IsPow2;
    if Sized(size, max) {
      forall r | IsRun(r, size, max) ensures Fault !in r.events {
        forall i | 0 <= i < |r.events| ensures r.events[i] != Fault {
          NoFault(r, size, max, i);
        }
      }
    } else {
      var r := UnsizedFaults(size, max, v);
      assert r.events[|r.events| - 1] in r.events;
    }
  }

  lemma {:induction false} UnsizedFaults(size: nat, max: nat, v: Value) returns (r: Run)
    requires 2 <= max < BitTricks.WORD && BitTricks.IsPow2(max) && size < BitTricks.WORD && !Sized(size, max)
    ensures IsRun(r, size, max) && r.events != [] && r.events[|r.events| - 1].Fault?
  {
    hide IsRun, BitTricks.Pow2, BitTricks.IsPow2;
    if size >= BitTricks.Pow2(63) {
      r := HugeSizeFaults(size, max, v);
    } else if size == 0 {
      r := SizeZeroFaults(max, v);
    } else {
      LargestPow2(max);
      r := NoBlockFaults(size, max, v);
    }
  }
}
