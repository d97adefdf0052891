/**
 The output side of a connection, driven from its loop thread: sends, one file, shutdown and
 writable events against a socket that takes any prefix of what it is offered.
 */
module TcpConnection {

  type Bytes = seq<char>

  datatype Link = Connected | Disconnecting | Disconnected

  /** What a write or sendfile call did: took bytes, would have blocked, or found the connection broken. */
  datatype Wrote = Took(count: nat) | WouldBlock | Broken

  function Taken(w: Wrote): nat {
    match w
    case Took(n) => n
    case _ => 0
  }

  datatype Conn = Conn(
    link: Link,
    writing: bool,       // the channel watches for writability
    out: Bytes,          // _outputBuffer
    file: Bytes,         // the last _sendLen bytes of the file being sent
    wire: Bytes,         // given to the socket, in order
    shut: bool,          // the write side was shut down
    asked: Bytes         // everything sends and files were asked to transmit, in order of the calls
  )

  datatype Event =
    | Send(message: Bytes, sent: Wrote)
    | SendFile(content: Bytes, sentOfFile: Wrote)
    | Shutdown
    | Writable(accepted: Wrote)
    | Close

  const START := Conn(Connected, false, [], [], [], false, [])

  /** The socket never takes more than it is offered. */
  predicate Enabled(c: Conn, e: Event) {
    match e
    case Send(m, w) => Taken(w) <= |m|
    case SendFile(f, w) => Taken(w) <= |f|
    case Writable(w) => Taken(w) <= if c.out != [] then |c.out| else |c.file|
    case Shutdown => true
    case Close => true
  }

  function ShutdownInLoop(c: Conn): Conn {
    if c.writing then c else c.(shut := true)
  }

  /** Nothing waits, so that bytes are offered to the socket at once. */
  predicate Direct(c: Conn) {
    !c.writing && c.out == []
  }

  /** What cannot be sent at once waits in the buffer, unless the connection is found broken. */
  function SendStep(c: Conn, m: Bytes, w: Wrote): Conn
    requires Taken(w) <= |m|
  {
    var n := if Direct(c) then Taken(w) else 0;
    var sent := c.(wire := c.wire + m[..n], asked := c.asked + m);
    if m[n..] == [] || (Direct(c) && w.Broken?) then sent else sent.(out := c.out + m[n..], writing := true)
  }

  function SendFileStep(c: Conn, f: Bytes, w: Wrote): Conn
    requires Taken(w) <= |f|
  {
    var n := if Direct(c) then Taken(w) else 0;
    c.(wire := c.wire + f[..n], file := f[n..], asked := c.asked + f,
       writing := c.writing || (f[n..] != [] && !(Direct(c) && w.Broken?)))
  }

  /** The end of a transfer: stop watching, and shut down if that was asked for. */
  function Drained(c: Conn): Conn {
    var d := c.(writing := false);
    if c.link.Disconnecting? then ShutdownInLoop(d) else d
  }

  function WritableStep(c: Conn, w: Wrote): Conn
    requires Enabled(c, Writable(w))
  {
    var n := Taken(w);
    if !c.writing then c
    else if c.out != [] then
      if n == 0 then c
      else
        var d := c.(wire := c.wire + c.out[..n], out := c.out[n..]);
        if d.out == [] && d.file == [] then Drained(d) else d
    else if n == 0 then c.(file := [], writing := false)
    else
      var d := c.(wire := c.wire + c.file[..n], file := c.file[n..]);
      if d.file == [] then Drained(d) else d
  }

  function Step(c: Conn, e: Event): Conn
    requires Enabled(c, e)
  {
    match e
    case Send(m, w) => if c.link.Connected? then SendStep(c, m, w) else c
    case SendFile(f, w) => if c.link.Connected? then SendFileStep(c, f, w) else c
    case Shutdown => if c.link.Connected? then ShutdownInLoop(c.(link := Disconnecting)) else c
    case Writable(w) => WritableStep(c, w)
    case Close => c.(link := Disconnected, writing := false)
  }

  ghost predicate IsRun(c: Conn, es: seq<Event>)
    decreases |es|
  {
    es == [] || (Enabled(c, es[0]) && Orderly(c, es[0]) && IsRun(Step(c, es[0]), es[1..]))
  }

  ghost function After(c: Conn, es: seq<Event>): Conn
    requires IsRun(c, es)
    decreases |es|
  {
    if es == [] then c else After(Step(c, es[0]), es[1..])
  }

  // ---------------------------------------------------------------- order and completeness

  /** No send or second file while a file is being sent, and no write that fails with bytes to lose. */
  predicate Orderly(c: Conn, e: Event) {
    match e
    case Send(m, w) => c.link.Connected? && m != [] ==> c.file == [] && !(Direct(c) && w.Broken?)
    case SendFile(f, w) => c.link.Connected? ==> c.file == [] && !(Direct(c) && w.Broken? && f != [])
    case Writable(w) => c.writing && c.out == [] ==> Taken(w) > 0
    case Shutdown => true
    case Close => true
  }

  /** Nothing is lost, doubled or reordered. */
  ghost predicate Faithful(c: Conn) {
    c.wire + c.out + c.file == c.asked
  }

  /** The channel watches for writability exactly while bytes are waiting; the write side is shut only without. */
  ghost predicate Watched(c: Conn) {
    && (!c.link.Disconnected? ==> (c.writing <==> c.out != [] || c.file != []))
    && (c.shut ==> c.out == [] && c.file == [] && !c.link.Connected?)
    && (c.link.Disconnecting? && !c.writing ==> c.shut)
    && (c.link.Disconnected? ==> !c.writing)
  }

  ghost predicate Good(c: Conn) {
    Watched(c) && Faithful(c)
  }

  lemma {:induction false} StepKeepsWatched(c: Conn, e: Event)
    requires Watched(c) && Enabled(c, e) && Orderly(c, e)
    ensures Watched(Step(c, e))
  {}

  lemma {:induction false} Rejoin(a: Bytes, b: Bytes, m: Bytes, n: nat)
    requires n <= |m| && (b == [] || n == 0)
    ensures a + m[..n] + (b + m[n..]) == a + b + m
    ensures a + m[..n] + b + m[n..] == a + b + m
  {}

  lemma {:induction false} SamePrefix(p: Bytes, a: Bytes, b: Bytes)
    ensures p + a == p + b <==> a == b
  {
    assert (p + a)[|p|..] == a && (p + b)[|p|..] == b;
  }

  /** A send adds its bytes behind the buffer, in front of the rest of a file. */
  lemma {:induction false} SendAppends(c: Conn, m: Bytes, w: Wrote)
    requires Enabled(c, Send(m, w)) && c.link.Connected?
    ensures var d := Step(c, Send(m, w));
            && d.file == c.file && d.asked == c.asked + m
            && d.wire + d.out == if Direct(c) && w.Broken? then c.wire + c.out else c.wire + c.out + m
  {
    var n := if Direct(c) then Taken(w) else 0;
    var d := Step(c, Send(m, w));
    assert d.wire == c.wire + m[..n];
    if Direct(c) && w.Broken? {
      assert m[..0] == [];
    } else {
      assert d.out == c.out + m[n..];
      Rejoin(c.wire, c.out, m, n);
    }
  }

  /** A send keeps the order exactly if it does not lose its bytes, and they commute with the rest of the file. */
  lemma {:induction false} SendOrder(c: Conn, m: Bytes, w: Wrote)
    requires Good(c) && Enabled(c, Send(m, w)) && c.link.Connected?
    ensures Good(Step(c, Send(m, w))) <==> (Direct(c) && w.Broken? ==> m == []) && m + c.file == c.file + m
  {
    var head, d := c.wire + c.out, Step(c, Send(m, w));
    SendAppends(c, m, w);
    assert Watched(d);
    hide Watched;
    if Direct(c) && w.Broken? {
      assert |d.asked| == |d.wire + d.out + d.file| + |m|;
      assert m == [] ==> d.asked == c.asked;
    } else {
      assert head + m + c.file == head + (m + c.file);
      assert head + c.file + m == head + (c.file + m);
      SamePrefix(head, m + c.file, c.file + m);
    }
  }

  lemma {:induction false} FileAppends(c: Conn, f: Bytes, w: Wrote)
    requires Enabled(c, SendFile(f, w)) && c.link.Connected?
    ensures var d := Step(c, SendFile(f, w));
            d.wire + d.out + d.file == c.wire + c.out + f && d.asked == c.asked + f
  {
    var n := if Direct(c) then Taken(w) else 0;
    var d := Step(c, SendFile(f, w));
    assert d.wire == c.wire + f[..n] && d.out == c.out && d.file == f[n..];
    Rejoin(c.wire, c.out, f, n);
  }

  lemma {:induction false} FileOrder(c: Conn, f: Bytes, w: Wrote)
    requires Good(c) && Enabled(c, SendFile(f, w)) && c.link.Connected?
    ensures Good(Step(c, SendFile(f, w))) <==> Orderly(c, SendFile(f, w))
  {
    FileAppends(c, f, w);
    OnlyWithoutFile(c.wire + c.out, c.file, f);
    FileWatched(c, f, w);
    hide Step, Watched;
  }

  lemma {:induction false} OnlyWithoutFile(head: Bytes, file: Bytes, f: Bytes)
    ensures head + f == head + file + f <==> file == []
  {
    assert |head + f| + |file| == |head + file + f|;
    if file == [] { assert head + file == head; }
  }

  lemma {:induction false} FileWatched(c: Conn, f: Bytes, w: Wrote)
    requires Watched(c) && Enabled(c, SendFile(f, w)) && c.link.Connected?
    ensures Orderly(c, SendFile(f, w)) ==> Watched(Step(c, SendFile(f, w)))
    ensures c.file == [] && Watched(Step(c, SendFile(f, w))) ==> Orderly(c, SendFile(f, w))
  {}

  lemma {:induction false} WritableOrder(c: Conn, w: Wrote)
    requires Good(c) && Enabled(c, Writable(w))
    ensures Good(Step(c, Writable(w))) <==> Orderly(c, Writable(w))
  {
    var d := Step(c, Writable(w));
    var n := Taken(w);
    if c.writing && c.out != [] {
      assert c.out[..n] + c.out[n..] == c.out;
      assert d.wire + d.out + d.file == c.wire + c.out + c.file;
    } else if c.writing {
      assert c.file[..n] + c.file[n..] == c.file;
      if n > 0 { assert d.wire + d.out + d.file == c.wire + c.out + c.file; }
    }
  }

  lemma {:induction false} Ignored(c: Conn, e: Event)
    requires Good(c) && Enabled(c, e)
    requires e.Shutdown? || e.Close? || ((e.Send? || e.SendFile?) && !c.link.Connected?)
    ensures Good(Step(c, e))
  {}

  /**
   A step keeps order and interest exactly when it is orderly; a send during a file transfer does so
   only if its bytes and the rest of the file are the same in both orders.
   */
  lemma {:induction false} StepKeepsOrder(c: Conn, e: Event)
    requires Good(c) && Enabled(c, e)
    ensures Orderly(c, e) ==> Good(Step(c, e))
    ensures !e.Send? && Good(Step(c, e)) ==> Orderly(c, e)
    ensures e.Send? && c.link.Connected? ==>
              (Good(Step(c, e)) <==>
               (Direct(c) && e.sent.Broken? ==> e.message == []) && e.message + c.file == c.file + e.message)
  {
    hide Step, Good, Direct;
    match e
    case Send(m, w) =>
      if c.link.Connected? { SendOrder(c, m, w); } else { Ignored(c, e); }
    case SendFile(f, w) =>
      if c.link.Connected? { FileOrder(c, f, w); } else { Ignored(c, e); }
    case Writable(w) => WritableOrder(c, w);
    case _ => Ignored(c, e);
  }

  lemma {:induction false} RunInv(c: Conn, es: seq<Event>)
    requires Good(c) && IsRun(c, es)
    ensures Good(After(c, es))
    decreases |es|
  {
    hide Good, Step;
    if es != [] {
      StepKeepsOrder(c, es[0]);
      RunInv(Step(c, es[0]), es[1..]);
    }
  }

  /** The bytes of the sends and files before the first shutdown or close, in order. */
  function AskedOf(es: seq<Event>): Bytes {
    if es == [] then []
    else
      match es[0]
      case Send(m, _) => m + AskedOf(es[1..])
      case SendFile(f, _) => f + AskedOf(es[1..])
      case Writable(_) => AskedOf(es[1..])
      case Shutdown => []
      case Close => []
  }

  lemma {:induction false} StepAsks(c: Conn, e: Event)
    requires Enabled(c, e)
    ensures Step(c, e).asked == c.asked + if c.link.Connected? then AskedOf([e]) else []
    ensures Step(c, e).link.Connected? <==> c.link.Connected? && !e.Shutdown? && !e.Close?
  {
    assert forall m: Bytes :: m + [] == m;
  }

  lemma {:induction false} AskedHead(es: seq<Event>)
    requires es != []
    ensures AskedOf(es) == AskedOf([es[0]]) + if es[0].Shutdown? || es[0].Close? then [] else AskedOf(es[1..])
  {
    assert [es[0]][1..] == [];
    assert forall m: Bytes :: m + [] == m && [] + m == m;
  }

  lemma {:induction false} RunAsks(c: Conn, es: seq<Event>)
    requires IsRun(c, es)
    ensures After(c, es).asked == c.asked + if c.link.Connected? then AskedOf(es) else []
    ensures After(c, es).link.Connected? <==> c.link.Connected? && Shutdown !in es && Close !in es
    decreases |es|
  {
    hide Step, Enabled, Orderly, AskedOf;
    if es == [] {
      assert AskedOf([]) == [] by { NothingAsked(); }
    } else {
      StepAsks(c, es[0]);
      AskedHead(es);
      RunAsks(Step(c, es[0]), es[1..]);
      assert es == [es[0]] + es[1..];
    }
  }

  lemma {:induction false} NothingAsked()
    ensures AskedOf([]) == []
  {}

  /**
   The bytes on the wire are always a prefix of what was asked for before the connection was shut down
   or closed, the rest is waiting in order, and all of it is out once the write side is shut.
   */
  lemma {:induction false} WireIsFaithful(es: seq<Event>)
    requires IsRun(START, es)
    ensures var c := After(START, es);
            && c.wire + c.out + c.file == AskedOf(es) && c.wire <= AskedOf(es)
            && (c.shut ==> c.wire == AskedOf(es))
  {
    RunInv(START, es);
    RunAsks(START, es);
    hide IsRun, After, AskedOf;
    var c := After(START, es);
    GoodParts(c);
    NothingAskedYet(AskedOf(es));
    hide Good;
    FirstOfThree(c.wire, c.out, c.file);
  }

  lemma {:induction false} GoodParts(c: Conn)
    requires Good(c)
    ensures c.wire + c.out + c.file == c.asked && (c.shut ==> c.out == [] && c.file == [])
  {}

  lemma {:induction false} NothingAskedYet(later: Bytes)
    ensures START.asked + later == later
  {}

  lemma {:induction false} FirstOfThree(a: Bytes, b: Bytes, c: Bytes)
    ensures a <= a + b + c && (b == [] && c == [] ==> a == a + b + c)
  {}

  /** What a step offers to the socket: new bytes if none wait, and on a writable event those that wait. */
  function Offered(c: Conn, e: Event): Bytes {
    match e
    case Send(m, _) => if c.link.Connected? && c.out == [] && c.file == [] then m else []
    case SendFile(f, _) => if c.link.Connected? && c.out == [] && c.file == [] then f else []
    case Writable(_) => if c.link.Disconnected? then [] else if c.out != [] then c.out else c.file
    case _ => []
  }

  function Outcome(e: Event): Wrote {
    match e
    case Send(_, w) => w
    case SendFile(_, w) => w
    case Writable(w) => w
    case _ => WouldBlock
  }

  /** A step puts on the wire exactly those bytes it offers that the socket takes. */
  lemma {:induction false} SocketTakes(c: Conn, e: Event)
    requires Watched(c) && Enabled(c, e)
    ensures var offered, n := Offered(c, e), Taken(Outcome(e));
            if offered == [] then Step(c, e).wire == c.wire
            else n <= |offered| && Step(c, e).wire == c.wire + offered[..n]
  {}

  /** A shutdown changes nothing but the state, and shuts the write side at once if no bytes wait. */
  lemma {:induction false} ShutdownEffect(c: Conn)
    requires Watched(c)
    ensures var d := Step(c, Shutdown);
            if c.link.Connected? then
              && d.link.Disconnecting? && d.wire == c.wire && d.out == c.out && d.file == c.file && d.asked == c.asked
              && (d.shut <==> c.out == [] && c.file == []) && (d.writing <==> !d.shut)
            else d == c
  {}

  /** A close is the end: whatever comes after it, nothing is sent, kept or shut. */
  lemma {:induction false} CloseIsFinal(c: Conn, es: seq<Event>)
    requires Watched(c) && IsRun(Step(c, Close), es)
    ensures After(Step(c, Close), es) == c.(link := Disconnected, writing := false)
  {
    ClosedStays(Step(c, Close), es);
  }

  lemma {:induction false} ClosedStays(c: Conn, es: seq<Event>)
    requires c.link.Disconnected? && !c.writing && IsRun(c, es)
    ensures After(c, es) == c
    decreases |es|
  {
    if es != [] {
      ClosedStaysOne(c, es[0]);
      hide Step;
      ClosedStays(c, es[1..]);
    }
  }

  lemma {:induction false} ClosedStaysOne(c: Conn, e: Event)
    requires c.link.Disconnected? && !c.writing && Enabled(c, e)
    ensures Step(c, e) == c
  {}

  // ---------------------------------------------------------------- finishing

  function Waiting(c: Conn): nat {
    |c.out| + |c.file|
  }

  /** How many writable events of the run take something. */
  function Productive(es: seq<Event>): nat {
    if es == [] then 0 else (if es[0].Writable? && Taken(es[0].accepted) > 0 then 1 else 0) + Productive(es[1..])
  }

  /** A closing connection is shut, with everything on the wire, once as many such events have come as bytes wait. */
  lemma {:induction false} Finishes(c: Conn, es: seq<Event>)
    requires Good(c) && c.link.Disconnecting? && IsRun(c, es) && Close !in es && Productive(es) >= Waiting(c)
    ensures After(c, es).shut && After(c, es).wire == c.asked
    decreases |es|
  {
    if es == [] {
      assert c.wire + c.out + c.file == c.wire;
    } else {
      assert es[0] in es;
      StepKeepsOrder(c, es[0]);
      ClosingStep(c, es[0]);
      Finishes(Step(c, es[0]), es[1..]);
    }
  }

  lemma {:induction false} RunSplits(c: Conn, es: seq<Event>, fs: seq<Event>)
    requires IsRun(c, es + fs)
    ensures IsRun(c, es) && IsRun(After(c, es), fs) && After(c, es + fs) == After(After(c, es), fs)
    decreases |es|
  {
    hide Step, Enabled, Orderly;
    if es == [] {
      assert es + fs == fs;
    } else {
      assert (es + fs)[1..] == es[1..] + fs;
      RunSplits(Step(c, es[0]), es[1..], fs);
    }
  }

  /**
   A shutdown after any orderly sends goes through: once as many writable events after it have taken
   something as bytes were waiting, the write side is shut and every byte asked for before it is out.
   */
  lemma {:induction false} ShutdownCompletes(es: seq<Event>, fs: seq<Event>)
    requires IsRun(START, es + ([Shutdown] + fs)) && Shutdown !in es && Close !in es && Close !in fs
    requires IsRun(START, es) && Productive(fs) >= |AskedOf(es)| - |After(START, es).wire|
    ensures var c := After(START, es + ([Shutdown] + fs)); c.shut && c.wire == AskedOf(es)
  {
    RunSplits(START, es, [Shutdown] + fs);
    RunAsks(START, es);
    RunInv(START, es);
    var c := After(START, es);
    ShutdownEffect(c);
    Ignored(c, Shutdown);
    hide AskedOf;
    assert ([Shutdown] + fs)[1..] == fs;
    assert |c.asked| == |c.wire| + Waiting(c);
    hide Step, Orderly, Good;
    Finishes(Step(c, Shutdown), fs);
  }

  lemma {:induction false} ClosingStep(c: Conn, e: Event)
    requires Good(c) && c.link.Disconnecting? && Enabled(c, e) && Orderly(c, e) && !e.Close?
    ensures var d := Step(c, e);
            && d.link.Disconnecting? && d.asked == c.asked
            && Waiting(d) <= Waiting(c) - if e.Writable? && Taken(e.accepted) > 0 then 1 else 0
  {}

  /** A closing connection that will not be shut by anything that can still happen to it. */
  ghost predicate StaysOpen(c: Conn) {
    !c.link.Connected? && !c.writing && !c.shut
  }

  lemma {:induction false} OpenForGood(c: Conn, e: Event)
    requires StaysOpen(c) && Enabled(c, e)
    ensures StaysOpen(Step(c, e))
  {
    if e.Writable? { assert Step(c, e) == c; }
  }

  /** The one step that leaves a closing connection open for good is the failed write of file bytes. */
  lemma {:induction false} FailedFileWriteStaysOpen(c: Conn, w: Wrote)
    requires Watched(c) && c.link.Disconnecting? && !c.shut && Enabled(c, Writable(w))
    ensures StaysOpen(Step(c, Writable(w))) <==> !Orderly(c, Writable(w))
  {}

  // ---------------------------------------------------------------- the methods

  lemma {:induction false} SendKeeps(c: Conn, m: Bytes, w: Wrote)
    requires Good(c) && Enabled(c, Send(m, w)) && Orderly(c, Send(m, w))
    ensures Good(Step(c, Send(m, w)))
  {
    hide Step, Good, Orderly;
    StepKeepsOrder(c, Send(m, w));
  }

  lemma {:induction false} SendFileKeeps(c: Conn, f: Bytes, w: Wrote)
    requires Good(c) && Enabled(c, SendFile(f, w))
    ensures Good(Step(c, SendFile(f, w))) <==> Orderly(c, SendFile(f, w))
  {
    hide Step, Good, Orderly;
    StepKeepsOrder(c, SendFile(f, w));
  }

  lemma {:induction false} GoodIsWatched(c: Conn)
    requires Good(c)
    ensures Watched(c)
  {}

  class TcpConnection {
    var state: Link
    var channelWriting: bool
    var outputBuffer: Bytes
    var sendLen: nat
    var sendFd: Bytes          // the next `sendLen` bytes of the file behind the descriptor
    var wire: Bytes
    var shut: bool
    ghost var asked: Bytes

    /** The file's bytes and their number go together. */
    ghost predicate Linked()
      reads this
    {
      sendLen == |sendFd|
    }

    /** And everything asked for is on its way, in order. */
    ghost predicate Valid()
      reads this
    {
      Linked() && Good(Snapshot())
    }

    ghost function Snapshot(): Conn
      reads this
    {
      Conn(state, channelWriting, outputBuffer, sendFd, wire, shut, asked)
    }

    constructor ()
      ensures Valid() && Snapshot() == START
    {
      state, channelWriting, outputBuffer, sendLen, sendFd, wire, shut := Connected, false, [], 0, [], [], false;
      asked := [];
    }

    method SendInLoop(message: Bytes, w: Wrote)
      requires Linked() && Enabled(Snapshot(), Send(message, w))
      modifies this
      ensures Linked() && Snapshot() == Step(old(Snapshot()), Send(message, w))
      ensures old(Valid()) ==> (Orderly(old(Snapshot()), Send(message, w)) ==> Valid())
    {
      ghost var before := Snapshot();
      if state.Connected? {
        Transmit(message, w);
      }
      assert Snapshot() == Step(before, Send(message, w));
      hide Good, Orderly, Step;
      if Good(before) && Orderly(before, Send(message, w)) { SendKeeps(before, message, w); }
    }

    /** `sendInLoop` on a live connection. */
    method Transmit(message: Bytes, w: Wrote)
      requires Taken(w) <= |message|
      modifies this`wire, this`asked, this`outputBuffer, this`channelWriting
      ensures Snapshot() == SendStep(old(Snapshot()), message, w)
    {
      var nwrote, faultError := 0, false;
      if !channelWriting && outputBuffer == [] {
        nwrote, faultError := Taken(w), w.Broken?;
        wire := wire + message[..nwrote];
      }
      asked := asked + message;
      var remaining := |message| - nwrote;
      if !faultError && remaining > 0 {
        outputBuffer := outputBuffer + message[nwrote..];
        if !channelWriting {
          channelWriting := true;
        }
      }
    }

    /** `sendFile` from the loop thread; `content` is the file's next `count` bytes. */
    method SendFile(content: Bytes, w: Wrote)
      requires Linked() && Enabled(Snapshot(), Event.SendFile(content, w))
      modifies this
      ensures Linked() && Snapshot() == Step(old(Snapshot()), Event.SendFile(content, w))
      ensures old(Valid()) ==> (Valid() <==> Orderly(old(Snapshot()), Event.SendFile(content, w)))
    {
      hide Good, Orderly;
      ghost var before := Snapshot();
      if state.Connected? {
        sendFd, sendLen := content, |content|;
        asked := asked + content;
        SendFileInLoop(w);
      }
      assert Snapshot() == Step(before, Event.SendFile(content, w));
      hide Step;
      if Good(before) { SendFileKeeps(before, content, w); }
    }

    method SendFileInLoop(w: Wrote)
      requires Linked() && Taken(w) <= sendLen
      modifies this`wire, this`sendFd, this`sendLen, this`channelWriting
      ensures Linked()
      ensures var direct := !old(channelWriting) && outputBuffer == [];
              var n := if direct then Taken(w) else 0;
              && wire == old(wire) + old(sendFd)[..n] && sendFd == old(sendFd)[n..]
              && channelWriting == (old(channelWriting) || (sendFd != [] && !(direct && w.Broken?)))
    {
      var faultError := false;
      if !channelWriting && outputBuffer == [] {
        SendfileCall(Taken(w));
        faultError := w.Broken?;
      }
      if !faultError && sendLen > 0 && !channelWriting {
        channelWriting := true;
      }
    }

    /** The system call: `n` bytes go out and the file offset moves on. */
    method SendfileCall(n: nat)
      requires sendLen == |sendFd| && n <= sendLen
      modifies this`wire, this`sendFd, this`sendLen
      ensures sendLen == |sendFd| && wire == old(wire) + old(sendFd)[..n] && sendFd == old(sendFd)[n..]
    {
      wire := wire + sendFd[..n];
      sendFd := sendFd[n..];
      sendLen := sendLen - n;
    }

    method ShutdownWriteInLoop()
      modifies this`shut
      ensures shut == (old(shut) || !channelWriting)
    {
      if !channelWriting {
        shut := true;
      }
    }

    method ShutdownWrite()
      requires Linked()
      modifies this
      ensures Linked() && Snapshot() == Step(old(Snapshot()), Shutdown)
      ensures old(Valid()) ==> Valid()
      ensures old(Valid()) && old(state).Connected? ==>
                && state.Disconnecting? && wire == old(wire) && outputBuffer == old(outputBuffer)
                && sendFd == old(sendFd) && asked == old(asked) && (shut <==> outputBuffer == [] && sendLen == 0)
      ensures !old(state).Connected? ==> Snapshot() == old(Snapshot())
    {
      ghost var before := Snapshot();
      if state.Connected? {
        state := Disconnecting;
        ShutdownWriteInLoop();
      }
      assert Snapshot() == Step(before, Shutdown);
      hide Good, Step;
      if Good(before) {
        Ignored(before, Shutdown);
        GoodIsWatched(before);
        ShutdownEffect(before);
      }
    }

    method HandleWrite(w: Wrote)
      requires Linked() && Enabled(Snapshot(), Writable(w))
      modifies this
      ensures Linked() && Snapshot() == Step(old(Snapshot()), Writable(w))
      ensures old(Valid()) ==> (Valid() <==> Orderly(old(Snapshot()), Writable(w)))
    {
      ghost var before := Snapshot();
      if channelWriting {
        WriteOut(Taken(w));
      }
      assert Snapshot() == Step(before, Writable(w));
      hide Good, Orderly, Step;
      if Good(before) { WritableOrder(before, w); }
    }

    /** `handleWrite` while the channel watches for writability. */
    method WriteOut(n: nat)
      requires Linked() && channelWriting && n <= if outputBuffer != [] then |outputBuffer| else sendLen
      modifies this
      ensures Linked() && Snapshot() == WritableStep(old(Snapshot()), Took(n))
    {
      if outputBuffer != [] {
        if n > 0 {
          wire := wire + outputBuffer[..n];
          outputBuffer := outputBuffer[n..];
          if outputBuffer == [] && sendLen == 0 {
            channelWriting := false;
            if state.Disconnecting? {
              ShutdownWriteInLoop();
            }
          }
        }
      } else if n > 0 {
        SendfileCall(n);
        if sendLen == 0 {
          channelWriting := false;
          sendFd := [];
          if state.Disconnecting? {
            ShutdownWriteInLoop();
          }
        }
      } else {
        sendFd, sendLen := [], 0;
        channelWriting := false;
      }
    }
  }
}
