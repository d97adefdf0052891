/**
 The double-buffered log: threads append under the lock, the writer thread swaps the filled buffers
 out under the lock and writes them outside it. One step per critical section, and one per buffer
 written. A buffer is modelled by the messages in it, a null `unique_ptr` by `None`.
 */
module AsyncLog {

  type Message = seq<char>
  type Buffer = seq<Message>

  datatype Option<T> = None | Some(value: T)

  const BUFFER_SIZE: nat := 4000 * 1000
  const BATCH_LIMIT: nat := 25

  function Length(b: Buffer): nat {
    if b == [] then 0 else Length(b[..|b| - 1]) + |b[|b| - 1]|
  }

  function Available(b: Buffer): int {
    BUFFER_SIZE - Length(b)
  }

  /** `LogBuffer::append`: a message that does not fit is left out. */
  function Appended(b: Buffer, m: Message): Buffer {
    if Available(b) > |m| then b + [m] else b
  }

  /** The messages of several buffers, in order. */
  function Flat(bs: seq<Buffer>): seq<Message> {
    if bs == [] then [] else Flat(bs[..|bs| - 1]) + bs[|bs| - 1]
  }

  /** What the writer thread is doing with its `buf_to_write`. */
  datatype Writer =
    | Top                                  // at the head of its loop; `buf_to_write` is empty
    | Swapped(batch: seq<Buffer>)
    | Writing(kept: seq<Buffer>, i: nat)   // `i` buffers written

  datatype State = State(
    cur: Option<Buffer>,
    next: Option<Buffer>,
    buffers: seq<Buffer>,
    writer: Writer,
    buf1: Option<Buffer>,
    buf2: Option<Buffer>,
    batches: seq<seq<Buffer>>,   // every batch swapped out, oldest first
    written: seq<Message>,       // the messages given to the log file
    reports: seq<Report>,        // the lines that report a drop, also given to the log file
    accepted: seq<Message>       // every message appended that is shorter than a buffer
  )

  /** The report of a drop: after how many messages it was written, and how many buffers were lost. */
  datatype Report = Report(at: nat, lost: nat)

  datatype Event = Append(m: Message) | Swap | Trim | WriteOne | Recycle

  const START := State(Some([]), Some([]), [], Top, Some([]), Some([]), [], [], [], [])

  predicate Allowed(s: State, e: Event) {
    match e
    case Append(_) => true
    case Swap => s.writer.Top?
    case Trim => s.writer.Swapped?
    case WriteOne => s.writer.Writing? && s.writer.i < |s.writer.kept|
    case Recycle => s.writer.Writing? && s.writer.i == |s.writer.kept|
  }

  /** No null buffer is used, and the writer's assertions hold. */
  predicate Safe(s: State, e: Event) {
    match e
    case Append(_) => s.cur.Some?
    case Swap => s.cur.Some? && s.buf1.Some?
    case Trim => s.writer.Swapped? ==> s.writer.batch != []
    case WriteOne => true
    case Recycle =>
      s.writer.Writing? ==>
        (if s.buf1.None? then 1 else 0) + (if s.buf2.None? then 1 else 0) <= |s.writer.kept|
  }

  predicate Enabled(s: State, e: Event) {
    Allowed(s, e) && Safe(s, e)
  }

  /** A batch of more than 25 buffers loses all but its first two. */
  function Kept(batch: seq<Buffer>): seq<Buffer> {
    if |batch| > BATCH_LIMIT then batch[..2] else batch
  }

  function AppendStep(s: State, m: Message): State
    requires s.cur.Some?
  {
    var accepted := if |m| < BUFFER_SIZE then s.accepted + [m] else s.accepted;
    if Available(s.cur.value) > |m| then s.(cur := Some(Appended(s.cur.value, m)), accepted := accepted)
    else
      var spare := if s.next.Some? then s.next.value else [];
      s.(buffers := s.buffers + [s.cur.value], cur := Some(Appended(spare, m)), next := None, accepted := accepted)
  }

  function SwapStep(s: State): State
    requires s.cur.Some? && s.buf1.Some?
  {
    var batch := s.buffers + [s.cur.value];
    s.(cur := s.buf1, buf1 := None, buffers := [], writer := Swapped(batch), batches := s.batches + [batch],
       next := if s.next.None? then s.buf2 else s.next, buf2 := if s.next.None? then None else s.buf2)
  }

  function TrimStep(s: State): State
    requires s.writer.Swapped?
  {
    var batch := s.writer.batch;
    s.(writer := Writing(Kept(batch), 0),
       reports := if |batch| > BATCH_LIMIT then s.reports + [Report(|s.written|, |batch| - 2)] else s.reports)
  }

  /** The spare buffers are taken, emptied, from the back of the batch. */
  function RecycleStep(s: State): State {
    s.(writer := Top, buf1 := Some(if s.buf1.None? then [] else s.buf1.value),
       buf2 := Some(if s.buf2.None? then [] else s.buf2.value))
  }

  function Step(s: State, e: Event): State
    requires Enabled(s, e)
  {
    match e
    case Append(m) => AppendStep(s, m)
    case Swap => SwapStep(s)
    case Trim => TrimStep(s)
    case WriteOne => s.(writer := s.writer.(i := s.writer.i + 1), written := s.written + s.writer.kept[s.writer.i])
    case Recycle => RecycleStep(s)
  }

  ghost predicate IsRun(s: State, es: seq<Event>)
    decreases |es|
  {
    es == [] || (Enabled(s, es[0]) && IsRun(Step(s, es[0]), es[1..]))
  }

  ghost function After(s: State, es: seq<Event>): State
    requires IsRun(s, es)
    decreases |es|
  {
    if es == [] then s else After(Step(s, es[0]), es[1..])
  }

  // ---------------------------------------------------------------- the invariant

  function AllOf(batches: seq<seq<Buffer>>): seq<Message> {
    if batches == [] then [] else AllOf(batches[..|batches| - 1]) + Flat(batches[|batches| - 1])
  }

  function KeptOf(batches: seq<seq<Buffer>>): seq<Message> {
    if batches == [] then [] else KeptOf(batches[..|batches| - 1]) + Flat(Kept(batches[|batches| - 1]))
  }

  /** The reports owed for the batches: one for each that was too long, after what was kept of those before. */
  function ReportsOf(batches: seq<seq<Buffer>>): seq<Report> {
    if batches == [] then []
    else
      var n := |batches| - 1;
      var before := ReportsOf(batches[..n]);
      if |batches[n]| > BATCH_LIMIT then before + [Report(|KeptOf(batches[..n])|, |batches[n]| - 2)] else before
  }

  /** What the writer still has to write of its batch. */
  function ToWrite(w: Writer): seq<Buffer> {
    match w
    case Top => []
    case Swapped(batch) => Kept(batch)
    case Writing(kept, i) => if i <= |kept| then kept[i..] else []
  }

  /** The spare buffers are empty, and none is missing that the batch cannot replace. */
  ghost predicate Spares(s: State) {
    && s.cur.Some? && Length(s.cur.value) < BUFFER_SIZE
    && (s.next.Some? ==> s.next.value == []) && (s.buf1.Some? ==> s.buf1.value == [])
    && (s.buf2.Some? ==> s.buf2.value == [])
    && (s.next.None? ==> s.buffers != [])
    && (s.writer.Top? ==> s.buf1.Some? && s.buf2.Some?)
    && (s.writer.Swapped? ==> s.writer.batch != [] && (s.buf2.None? ==> |s.writer.batch| >= 2))
    && (s.writer.Writing? ==>
          && s.writer.i <= |s.writer.kept| && s.writer.kept != []
          && (s.buf2.None? ==> |s.writer.kept| >= 2))
  }

  ghost predicate Conserved(s: State) {
    s.cur.Some? && AllOf(s.batches) + Flat(s.buffers) + s.cur.value == s.accepted
  }

  ghost predicate Progress(s: State) {
    s.written + Flat(ToWrite(s.writer)) == KeptOf(s.batches)
  }

  /** The batches whose excess, if any, has been dropped and reported. */
  function Trimmed(s: State): seq<seq<Buffer>> {
    if s.writer.Swapped? && s.batches != [] then s.batches[..|s.batches| - 1] else s.batches
  }

  ghost predicate Reported(s: State) {
    && (s.writer.Swapped? ==> s.batches != [] && s.batches[|s.batches| - 1] == s.writer.batch)
    && s.reports == ReportsOf(Trimmed(s))
  }

  ghost predicate Inv(s: State) {
    Spares(s) && Conserved(s) && Progress(s) && Reported(s)
  }

  lemma {:induction false} FlatSplit(a: seq<Buffer>, b: seq<Buffer>)
    ensures Flat(a + b) == Flat(a) + Flat(b)
    decreases |b|
  {
    if b == [] {
      assert a + b == a;
    } else {
      var n := |b| - 1;
      assert (a + b)[..|a + b| - 1] == a + b[..n];
      FlatSplit(a, b[..n]);
    }
  }

  lemma {:induction false} FlatOne(b: Buffer)
    ensures Flat([b]) == b
  {
    assert [b][..0] == [];
  }

  lemma {:induction false} Pushed(bs: seq<Buffer>, b: Buffer)
    ensures Flat(bs + [b]) == Flat(bs) + b
  {
    assert (bs + [b])[..|bs|] == bs;
  }

  lemma {:induction false} LengthPushed(b: Buffer, m: Message)
    ensures Length(b + [m]) == Length(b) + |m| && Length([]) == 0
  {
    assert (b + [m])[..|b|] == b;
  }

  lemma {:induction false} AppendKeepsSpares(s: State, m: Message)
    requires Spares(s)
    ensures Spares(AppendStep(s, m))
  {
    hide Length;
    LengthPushed(s.cur.value, m);
    LengthPushed([], m);
  }

  lemma {:induction false} AppendKeepsConserved(s: State, m: Message)
    requires Spares(s) && Conserved(s)
    ensures Conserved(AppendStep(s, m))
  {
    hide Length, Flat, AllOf;
    var t := AppendStep(s, m);
    var c := s.cur.value;
    Pushed(s.buffers, c);
    LengthPushed([], m);
    LengthNat(c);
    var before := AllOf(s.batches) + Flat(s.buffers);
    if Available(c) > |m| {
      assert t.accepted == before + c + [m] == before + (c + [m]);
    } else {
      assert before + c == AllOf(s.batches) + Flat(t.buffers);
    }
  }

  lemma {:induction false} LengthNat(b: Buffer)
    ensures Length(b) >= 0
  {}

  lemma {:induction false} AppendKeepsInv(s: State, m: Message)
    requires Inv(s)
    ensures Inv(AppendStep(s, m))
  {
    AppendKeepsSpares(s, m);
    AppendKeepsConserved(s, m);
    AppendKeepsBatches(s, m);
    hide AppendStep, Spares, Conserved, ReportsOf, Flat, KeptOf;
  }

  lemma {:induction false} AppendKeepsBatches(s: State, m: Message)
    requires s.cur.Some?
    ensures var t := AppendStep(s, m);
            t.writer == s.writer && t.batches == s.batches && t.written == s.written && t.reports == s.reports
  {}

  lemma {:induction false} BatchAdded(batches: seq<seq<Buffer>>, batch: seq<Buffer>)
    ensures AllOf(batches + [batch]) == AllOf(batches) + Flat(batch)
    ensures KeptOf(batches + [batch]) == KeptOf(batches) + Flat(Kept(batch))
  {
    hide Flat, Kept;
    assert (batches + [batch])[..|batches|] == batches;
  }

  lemma {:induction false} SwapKeepsSpares(s: State)
    requires Spares(s) && Enabled(s, Swap)
    ensures Spares(SwapStep(s))
  {
    EmptyLength();
    hide Length;
  }

  lemma {:induction false} EmptyLength()
    ensures Length([]) == 0
  {}

  lemma {:induction false} SwapKeepsMessages(s: State)
    requires Conserved(s) && Progress(s) && Enabled(s, Swap) && s.buf1 == Some([])
    ensures Conserved(SwapStep(s)) && Progress(SwapStep(s)) && AllOf(SwapStep(s).batches) == s.accepted
  {
    var batch := s.buffers + [s.cur.value];
    Pushed(s.buffers, s.cur.value);
    BatchAdded(s.batches, batch);
    NoBuffers();
    hide Flat, AllOf, KeptOf, Kept;
    Concat3(AllOf(s.batches), Flat(s.buffers), s.cur.value);
    assert s.written + Flat([]) == s.written;
  }

  lemma {:induction false} NoBuffers()
    ensures Flat([]) == []
  {}

  lemma {:induction false} Concat3(a: seq<Message>, b: seq<Message>, c: seq<Message>)
    ensures a + (b + c) == a + b + c
  {}

  lemma {:induction false} SwapKeepsInv(s: State)
    requires Inv(s) && Enabled(s, Swap)
    ensures Inv(SwapStep(s)) && AllOf(SwapStep(s).batches) == s.accepted
  {
    SwapKeepsSpares(s);
    SwapKeepsMessages(s);
    var batch := s.buffers + [s.cur.value];
    assert (s.batches + [batch])[..|s.batches|] == s.batches;
    hide Spares, Conserved, Progress, ReportsOf;
  }

  /** The report says how much had been written and how many buffers were lost. */
  lemma {:induction false} TrimKeepsReported(s: State)
    requires Progress(s) && Reported(s) && s.writer.Swapped?
    ensures Reported(TrimStep(s))
  {
    var n := |s.batches| - 1;
    assert KeptOf(s.batches) == KeptOf(s.batches[..n]) + Flat(Kept(s.batches[n]));
    hide KeptOf, Flat, Kept;
    assert |s.written| == |KeptOf(s.batches[..n])|;
  }

  lemma {:induction false} TrimKeepsInv(s: State)
    requires Inv(s) && Enabled(s, Trim)
    ensures Inv(TrimStep(s))
  {
    TrimKeepsReported(s);
    hide Reported, Flat, KeptOf, Length;
    assert Kept(s.writer.batch)[0..] == Kept(s.writer.batch);
  }

  lemma {:induction false} WriteKeepsInv(s: State)
    requires Inv(s) && Enabled(s, WriteOne)
    ensures Inv(Step(s, WriteOne))
  {
    var w := s.writer;
    FlatHead(w.kept, w.i);
    hide Flat, KeptOf, AllOf, ReportsOf, Length;
    Concat3(s.written, w.kept[w.i], Flat(w.kept[w.i + 1..]));
  }

  lemma {:induction false} FlatHead(bs: seq<Buffer>, i: nat)
    requires i < |bs|
    ensures Flat(bs[i..]) == bs[i] + Flat(bs[i + 1..])
  {
    hide Flat;
    assert bs[i..] == [bs[i]] + bs[i + 1..];
    FlatSplit([bs[i]], bs[i + 1..]);
    FlatOne(bs[i]);
  }

  lemma {:induction false} StepKeepsInv(s: State, e: Event)
    requires Inv(s) && Enabled(s, e)
    ensures Inv(Step(s, e))
  {
    match e
    case Append(m) => AppendKeepsInv(s, m);
    case Swap => SwapKeepsInv(s);
    case Trim => TrimKeepsInv(s);
    case WriteOne => WriteKeepsInv(s);
    case Recycle =>
  }

  lemma {:induction false} RunKeepsInv(s: State, es: seq<Event>)
    requires Inv(s) && IsRun(s, es)
    ensures Inv(After(s, es))
    decreases |es|
  {
    if es != [] {
      StepKeepsInv(s, es[0]);
      RunKeepsInv(Step(s, es[0]), es[1..]);
    }
  }

  lemma {:induction false} StartInv()
    ensures Inv(START)
  {
    assert Length([]) == 0;
  }

  // ---------------------------------------------------------------- what holds over every run

  lemma {:induction false} StepIsSafe(s: State, e: Event)
    requires Inv(s) && Allowed(s, e)
    ensures Safe(s, e)
  {}

  /** In every run the buffers are there when they are needed. */
  lemma {:induction false} RunsAreSafe(es: seq<Event>, e: Event)
    requires IsRun(START, es) && Allowed(After(START, es), e)
    ensures Safe(After(START, es), e)
  {
    StartInv();
    RunKeepsInv(START, es);
  }

  /** A message of a buffer's size or more is never taken. */
  function Taken(m: Message): seq<Message> {
    if |m| < 4000 * 1000 then [m] else []
  }

  /** The messages of the appends of `es` that are taken, in order. */
  function AcceptedOf(es: seq<Event>): seq<Message> {
    if es == [] then [] else (if es[0].Append? then Taken(es[0].m) else []) + AcceptedOf(es[1..])
  }

  lemma {:induction false} StepAccepts(s: State, e: Event)
    requires Enabled(s, e)
    ensures Step(s, e).accepted == s.accepted + if e.Append? then Taken(e.m) else []
  {
    hide Available, Appended;
  }

  lemma {:induction false} RunAccepts(s: State, es: seq<Event>)
    requires IsRun(s, es)
    ensures After(s, es).accepted == s.accepted + AcceptedOf(es)
    decreases |es|
  {
    hide Step, Enabled, Taken;
    if es != [] {
      StepAccepts(s, es[0]);
      RunAccepts(Step(s, es[0]), es[1..]);
    }
  }

  ghost predicate NoneTooLong(batches: seq<seq<Buffer>>) {
    forall i :: 0 <= i < |batches| ==> |batches[i]| <= 25
  }

  lemma {:induction false} NothingDropped(batches: seq<seq<Buffer>>)
    requires NoneTooLong(batches)
    ensures KeptOf(batches) == AllOf(batches)
  {
    if batches != [] {
      NothingDropped(batches[..|batches| - 1]);
    }
  }

  /**
   Every message appended that is shorter than a buffer is in exactly one place, in order: in a batch
   that was swapped out, in a queued buffer or in the current one; and what is written, followed by
   what the writer still holds, is the batches less the buffers dropped from those longer than 25.
   */
  lemma {:induction false} Conservation(es: seq<Event>)
    requires IsRun(START, es)
    ensures var s := After(START, es);
            && s.cur.Some? && AllOf(s.batches) + Flat(s.buffers) + s.cur.value == AcceptedOf(es)
            && s.written + Flat(ToWrite(s.writer)) == KeptOf(s.batches)
            && (NoneTooLong(s.batches) ==>
                  s.written + Flat(ToWrite(s.writer)) + Flat(s.buffers) + s.cur.value == AcceptedOf(es))
  {
    StartInv();
    RunKeepsInv(START, es);
    RunAccepts(START, es);
    var s := After(START, es);
    if NoneTooLong(s.batches) { NothingDropped(s.batches); }
  }

  /** Every drop is reported in the log, with the number of buffers lost, and nothing else is. */
  lemma {:induction false} DropsAreReported(es: seq<Event>)
    requires IsRun(START, es)
    ensures After(START, es).reports == ReportsOf(Trimmed(After(START, es)))
  {
    StartInv();
    RunKeepsInv(START, es);
  }

  lemma {:induction false} SameBatches(s: State, es: seq<Event>)
    requires IsRun(s, es) && Swap !in es
    ensures After(s, es).batches == s.batches
    decreases |es|
  {
    if es != [] {
      assert es[0] in es;
      SameBatches(Step(s, es[0]), es[1..]);
    }
  }

  lemma {:induction false} AllWritten(s: State)
    requires Inv(s) && s.writer.Top?
    ensures s.written == KeptOf(s.batches)
  {
    NoBuffers();
    assert s.written + [] == s.written;
  }

  /** When a round of the writer ends, every message taken before it swapped is written, in order. */
  lemma {:induction false} RoundFlushes(es: seq<Event>, round: seq<Event>)
    requires IsRun(START, es) && Enabled(After(START, es), Swap) && Swap !in round
    requires IsRun(Step(After(START, es), Swap), round)
    ensures var s := After(START, es);
            var t := After(Step(s, Swap), round);
            t.writer.Top? && NoneTooLong(t.batches) ==> t.written == AcceptedOf(es)
  {
    RunAccepts(START, es);
    hide Inv, IsRun, After, AllOf, KeptOf, SwapStep, AcceptedOf;
    StartInv();
    RunKeepsInv(START, es);
    var s := After(START, es);
    SwapKeepsInv(s);
    RunKeepsInv(Step(s, Swap), round);
    SameBatches(Step(s, Swap), round);
    var t := After(Step(s, Swap), round);
    if t.writer.Top? && NoneTooLong(t.batches) {
      AllWritten(t);
      NothingDropped(t.batches);
    }
  }

  // ---------------------------------------------------------------- bytes

  /** The bytes of a buffer. */
  function Bytes(b: Buffer): seq<char> {
    if b == [] then [] else Bytes(b[..|b| - 1]) + b[|b| - 1]
  }

  /** `LogBuffer`: a fixed array and the place of its next byte. */
  class LogBuffer {
    const data: array<char>
    var cur: nat

    ghost predicate Valid()
      reads this
    {
      cur <= data.Length
    }

    ghost function Contents(): seq<char>
      reads this, data
      requires Valid()
    {
      data[..cur]
    }

    constructor (size: nat)
      ensures Valid() && fresh(data) && data.Length == size && Contents() == []
    {
      data := new char[size](_ => '\0');
      cur := 0;
    }

    method Append(buf: seq<char>)
      requires Valid()
      modifies this, data
      ensures Valid()
      ensures Contents() == if data.Length - old(cur) > |buf| then old(Contents()) + buf else old(Contents())
    {
      if data.Length - cur > |buf| {
        for i := 0 to |buf|
          modifies data
          invariant data[..cur] == old(data[..cur]) && data[cur..cur + i] == buf[..i]
        {
          data[cur + i] := buf[i];
        }
        assert data[..cur + |buf|] == data[..cur] + data[cur..cur + |buf|];
        cur := cur + |buf|;
      }
    }

    method Reset()
      requires Valid()
      modifies this, data
      ensures Valid() && Contents() == []
    {
      for i := 0 to data.Length
        modifies data
      {
        data[i] := '\0';
      }
      cur := 0;
    }
  }

  /** The array buffer and the list of messages take the same messages. */
  lemma {:induction false} BytesOf(b: Buffer, m: Message)
    ensures |Bytes(b)| == Length(b)
    ensures Bytes(Appended(b, m)) == if BUFFER_SIZE - |Bytes(b)| > |m| then Bytes(b) + m else Bytes(b)
  {
    assert (b + [m])[..|b|] == b;
    if b != [] {
      BytesOf(b[..|b| - 1], m);
    }
  }

  // ---------------------------------------------------------------- when messages are lost

  /** A batch of 26 buffers or more drops exactly the whole buffers after the second. */
  lemma {:induction false} DropsWholeBuffers(batch: seq<Buffer>)
    ensures exists lost: seq<Buffer> ::
              Flat(batch) == Flat(Kept(batch)) + Flat(lost) && |Kept(batch)| + |lost| == |batch|
    ensures |Kept(batch)| == if |batch| > 25 then 2 else |batch|
  {
    var k := |Kept(batch)|;
    FlatSplit(batch[..k], batch[k..]);
    assert batch[..k] + batch[k..] == batch;
    assert Flat(batch) == Flat(Kept(batch)) + Flat(batch[k..]) && |Kept(batch)| + |batch[k..]| == |batch|;
  }

  /** The bytes in the buffers. */
  function Total(bs: seq<Buffer>): nat {
    if bs == [] then 0 else Total(bs[..|bs| - 1]) + Length(bs[|bs| - 1])
  }

  /** No two buffers in a row would have fitted into one. */
  ghost predicate Packed(bs: seq<Buffer>) {
    forall i :: 0 <= i < |bs| - 1 ==> Length(bs[i]) + Length(bs[i + 1]) >= 4000 * 1000
  }

  ghost predicate AllPacked(s: State) {
    s.cur.Some? && Packed(s.buffers + [s.cur.value]) && forall i :: 0 <= i < |s.batches| ==> Packed(s.batches[i])
  }

  lemma {:induction false} PackedHolds(bs: seq<Buffer>)
    requires Packed(bs) && bs != []
    ensures 2 * Total(bs) >= (|bs| - 1) * (4000 * 1000) + Length(bs[|bs| - 1])
    decreases |bs|
  {
    hide Length;
    var n := |bs| - 1;
    assert bs[n..][0] == bs[n] && Total(bs) == Total(bs[..n]) + Length(bs[n]);
    if n > 0 {
      PackedHolds(bs[..n]);
    }
  }

  lemma {:induction false} AppendKeepsPacked(s: State, m: Message)
    requires Spares(s) && AllPacked(s) && |m| < 4000 * 1000
    ensures AllPacked(AppendStep(s, m))
  {
    hide Length;
    LengthPushed(s.cur.value, m);
    LengthPushed([], m);
    var before, after := s.buffers + [s.cur.value], AppendStep(s, m).buffers + [AppendStep(s, m).cur.value];
    assert before[|s.buffers|] == s.cur.value;
    if Available(s.cur.value) <= |m| {
      assert Appended([], m) == [m];
      assert after == before + [[m]];
    }
    forall i | 0 <= i < |after| - 1 ensures Length(after[i]) + Length(after[i + 1]) >= 4000 * 1000 {
      if i < |before| - 1 { assert Length(before[i]) + Length(before[i + 1]) >= 4000 * 1000; }
    }
  }

  lemma {:induction false} StepKeepsPacked(s: State, e: Event)
    requires Inv(s) && AllPacked(s) && Enabled(s, e) && (e.Append? ==> |e.m| < 4000 * 1000)
    ensures AllPacked(Step(s, e))
  {
    hide Length, Conserved, Progress, Reported;
    match e
    case Append(m) => AppendKeepsPacked(s, m);
    case _ => hide AppendStep;
  }

  lemma {:induction false} RunKeepsPacked(s: State, es: seq<Event>)
    requires Inv(s) && AllPacked(s) && IsRun(s, es) && forall e :: e in es && e.Append? ==> |e.m| < 4000 * 1000
    ensures AllPacked(After(s, es))
    decreases |es|
  {
    hide Inv, AllPacked, Step, Enabled;
    if es != [] {
      assert es[0] in es;
      StepKeepsInv(s, es[0]);
      StepKeepsPacked(s, es[0]);
      RunKeepsPacked(Step(s, es[0]), es[1..]);
    }
  }

  /** Of messages shorter than a buffer, a batch loses some only if fifty million bytes came in one round. */
  lemma {:induction false} LossNeedsBacklog(es: seq<Event>, i: nat)
    requires IsRun(START, es) && forall e :: e in es && e.Append? ==> |e.m| < 4000 * 1000
    requires i < |After(START, es).batches|
    ensures var batch := After(START, es).batches[i]; Kept(batch) != batch ==> Total(batch) >= 50 * 1000 * 1000
  {
    StartInv();
    RunKeepsPacked(START, es);
    var batch := After(START, es).batches[i];
    if batch != [] { PackedHolds(batch); }
  }

  // ---------------------------------------------------------------- the methods

  /** The messages of `ms` that are taken. */
  function Fitting(ms: seq<Message>): seq<Message> {
    if ms == [] then [] else Fitting(ms[..|ms| - 1]) + Taken(ms[|ms| - 1])
  }

  lemma {:induction false} FittingNext(ms: seq<Message>, i: nat)
    requires i < |ms|
    ensures Fitting(ms[..i + 1]) == Fitting(ms[..i]) + Taken(ms[i])
  {
    assert ms[..i + 1][..i] == ms[..i];
  }

  /** What is not in a batch yet is in the buffers, in order. */
  lemma {:induction false} Unwritten(s: State)
    requires Inv(s)
    ensures s.cur.Some? && AllOf(s.batches) + (Flat(s.buffers) + s.cur.value) == s.accepted
  {
    assert s.cur.Some?;
    Concat3(AllOf(s.batches), Flat(s.buffers), s.cur.value);
  }

  lemma {:induction false} SameTails(a: seq<Message>, b: seq<Message>, c: seq<Message>)
    requires a + b == a + c
    ensures b == c
  {
    assert (a + b)[|a|..] == b && (a + c)[|a|..] == c;
  }

  /** The writer's `buf_to_write`. */
  function Held(w: Writer): seq<Buffer> {
    match w
    case Top => []
    case Swapped(batch) => batch
    case Writing(kept, _) => kept
  }

  lemma {:induction false} SparesThere(s: State)
    requires Inv(s)
    ensures s.cur.Some? && (s.next.Some? ==> s.next.value == [])
    ensures s.writer.Top? ==> s.buf1.Some? && s.buf2.Some?
    ensures s.buf1.Some? ==> s.buf1.value == []
    ensures s.buf2.Some? ==> s.buf2.value == []
  {}

  /** The log's fields and the writer thread's locals; each method performs one step. */
  class AsyncLog {
    var cur: Option<Buffer>
    var next: Option<Buffer>
    var buffers: seq<Buffer>
    var buf1: Option<Buffer>
    var buf2: Option<Buffer>
    var toWrite: seq<Buffer>
    var output: seq<Message>
    var reports: seq<Report>
    ghost var model: State

    ghost predicate Valid()
      reads this
    {
      && Inv(model)
      && model == model.(cur := cur, next := next, buffers := buffers, buf1 := buf1, buf2 := buf2, written := output,
                         reports := reports)
      && toWrite == Held(model.writer)
    }

    constructor ()
      ensures Valid() && model == START
    {
      cur, next, buffers, buf1, buf2 := Some([]), Some([]), [], Some([]), Some([]);
      toWrite, output, reports := [], [], [];
      model := START;
      StartInv();
    }

    method Append(m: Message)
      requires Valid()
      modifies this
      ensures Valid() && Enabled(old(model), Event.Append(m)) && model == Step(old(model), Event.Append(m))
      ensures model.accepted == old(model.accepted) + Taken(m)
      ensures old(cur).Some? && cur.Some?
      ensures if Length(old(cur).value) + |m| < 4000 * 1000 then
                cur.value == old(cur).value + [m] && next == old(next) && buffers == old(buffers)
              else
                cur.value == Taken(m) && next == None && buffers == old(buffers) + [old(cur).value]
    {
      SparesThere(model);
      AppendKeepsInv(model, m);
      StepAccepts(model, Event.Append(m));
      EmptyLength();
      hide Inv, Length, Held;
      if Available(cur.value) > |m| {
        cur := Some(Appended(cur.value, m));
      } else {
        Rotate();
        cur := Some(Appended(cur.value, m));
      }
      model := Step(model, Event.Append(m));
    }

    /** Queues the current buffer and takes the spare one, or a new one. */
    method Rotate()
      requires cur.Some?
      modifies this`cur, this`next, this`buffers
      ensures buffers == old(buffers) + [old(cur).value] && next == None
      ensures cur == Some(if old(next).Some? then old(next).value else [])
    {
      buffers := buffers + [cur.value];
      if next.Some? {
        cur, next := next, None;
      } else {
        cur := Some([]);
      }
    }

    /** What the writer's critical section does to the buffers. */
    method SwapFields()
      requires cur.Some?
      modifies this`cur, this`next, this`buffers, this`buf1, this`buf2, this`toWrite
      ensures toWrite == old(buffers) + [old(cur).value] && buffers == old(toWrite) && cur == old(buf1) && buf1 == None
      ensures next == if old(next).None? then old(buf2) else old(next)
      ensures buf2 == if old(next).None? then None else old(buf2)
    {
      buffers := buffers + [cur.value];
      cur, buf1 := buf1, None;
      toWrite, buffers := buffers, toWrite;
      if next.None? {
        next, buf2 := buf2, None;
      }
    }

    /** The writer's critical section, once it is past the wait. */
    method SwapBuffers()
      requires Valid() && model.writer.Top?
      modifies this
      ensures Valid() && Enabled(old(model), Swap) && model == Step(old(model), Swap)
      ensures model.writer.Swapped? && AllOf(model.batches) == old(model.accepted) == model.accepted
    {
      hide Inv, AllOf, KeptOf, Flat, ReportsOf, AppendStep, RecycleStep, TrimStep;
      SparesThere(model);
      SwapKeepsInv(model);
      SwapFields();
      model := Step(model, Swap);
    }

    method TrimBatch()
      requires Valid() && model.writer.Swapped?
      modifies this
      ensures Valid() && Enabled(old(model), Trim) && model == Step(old(model), Trim)
      ensures model.writer.Writing? && model.writer.i == 0
      ensures model.batches == old(model.batches) && model.accepted == old(model.accepted)
    {
      hide Inv, Flat, AllOf, KeptOf, ReportsOf, AppendStep, SwapStep;
      SparesThere(model);
      StepIsSafe(model, Trim);
      StepKeepsInv(model, Trim);
      if |toWrite| > 25 {
        reports := reports + [Report(|output|, |toWrite| - 2)];
        toWrite := toWrite[..2];
      }
      model := Step(model, Trim);
    }

    method WriteBuffer(i: nat)
      requires Valid() && model.writer.Writing? && i == model.writer.i < |toWrite|
      modifies this
      ensures Valid() && Enabled(old(model), WriteOne) && model == Step(old(model), WriteOne)
      ensures output == old(output) + old(toWrite)[i] && toWrite == old(toWrite)
    {
      hide Inv, Flat, AllOf, KeptOf, ReportsOf, AppendStep, SwapStep;
      SparesThere(model);
      StepIsSafe(model, WriteOne);
      StepKeepsInv(model, WriteOne);
      output := output + toWrite[i];
      model := Step(model, WriteOne);
    }

    /** The tail of the writer's loop. */
    method RecycleSpares()
      requires Valid() && model.writer.Writing? && model.writer.i == |toWrite|
      modifies this
      ensures Valid() && Enabled(old(model), Recycle) && model == Step(old(model), Recycle)
      ensures model.writer.Top? && model.batches == old(model.batches) && model.accepted == old(model.accepted)
    {
      hide Inv, Flat, AllOf, KeptOf, ReportsOf, AppendStep, SwapStep;
      SparesThere(model);
      StepIsSafe(model, Recycle);
      StepKeepsInv(model, Recycle);
      if |toWrite| > 2 {
        toWrite := toWrite[..2];
      }
      if buf1.None? {
        assert toWrite != [];
        buf1 := Some([]);
        toWrite := toWrite[..|toWrite| - 1];
      }
      if buf2.None? {
        assert toWrite != [];
        buf2 := Some([]);
        toWrite := toWrite[..|toWrite| - 1];
      }
      toWrite := [];
      model := Step(model, Recycle);
    }

    /** The writer's loop over the batch. */
    method WriteAll()
      requires Valid() && model.writer.Writing? && model.writer.i == 0
      modifies this
      ensures Valid() && model.writer.Writing? && model.writer.i == |toWrite|
      ensures model.batches == old(model.batches) && model.accepted == old(model.accepted)
    {
      hide Inv;
      var i := 0;
      while i < |toWrite|
        invariant Valid() && model.writer.Writing? && model.writer.i == i <= |toWrite|
        invariant model.batches == old(model.batches) && model.accepted == old(model.accepted)
        decreases |toWrite| - i
      {
        WriteBuffer(i);
        i := i + 1;
      }
    }

    /** Messages appended by other threads. */
    method AppendAll(ms: seq<Message>)
      requires Valid()
      modifies this
      ensures Valid() && model.writer == old(model.writer) && model.batches == old(model.batches)
      ensures model.accepted == old(model.accepted) + Fitting(ms)
    {
      hide Inv, Taken;
      for i := 0 to |ms|
        invariant Valid() && model.writer == old(model.writer) && model.batches == old(model.batches)
        invariant model.accepted == old(model.accepted) + Fitting(ms[..i])
      {
        SparesThere(model);
        AppendKeepsBatches(model, ms[i]);
        FittingNext(ms, i);
        hide AppendStep, Fitting;
        Append(ms[i]);
      }
      assert ms[..|ms|] == ms;
    }

    /**
     A whole round of the writer, other threads appending `during` while it writes: everything
     accepted before the round is in the log file, but for what a batch that was too long lost.
     */
    method WriterRound(during: seq<Message>)
      requires Valid() && model.writer.Top?
      modifies this
      ensures Valid() && model.writer.Top? && AllOf(model.batches) == old(model.accepted)
      ensures output == KeptOf(model.batches) && (NoneTooLong(model.batches) ==> output == old(model.accepted))
      ensures cur.Some? && Flat(buffers) + cur.value == Fitting(during)
      ensures model.accepted == old(model.accepted) + Fitting(during)
      ensures buf1 == Some([]) && buf2 == Some([])
    {
      hide Inv, AllOf, KeptOf, Flat, Kept, Step, Enabled, Fitting;
      SwapBuffers();
      AppendAll(during);
      TrimBatch();
      WriteAll();
      RecycleSpares();
      SparesThere(model);
      AllWritten(model);
      Unwritten(model);
      SameTails(AllOf(model.batches), Flat(buffers) + cur.value, Fitting(during));
      if NoneTooLong(model.batches) { NothingDropped(model.batches); }
    }
  }
}
