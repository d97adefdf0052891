/** The connection buffer: a growing array with a read and a write index, refining a queue of bytes. */
module Buffer {

  type Bytes = seq<char>

  const CHEAP_PREPEND: nat := 8
  const INITIAL_SIZE: nat := 1024
  const EXTRA_SIZE: nat := 65536

  /** What one `readv` or `write` call on a descriptor did. */
  datatype ReadResult = Got(bytes: Bytes) | ReadWouldBlock | ReadError

  datatype WriteResult = Wrote(count: nat) | WriteWouldBlock | WriteError

  function Concat(rs: seq<ReadResult>): Bytes {
    if rs == [] then [] else (if rs[0].Got? then rs[0].bytes else []) + Concat(rs[1..])
  }

  /** A call that ends the loop of `writeFdET`: it would block, fails or writes nothing. */
  predicate Ends(w: WriteResult) {
    !w.Wrote? || w.count == 0
  }

  /** The bytes the descriptor would take in these calls. */
  function Total(calls: seq<WriteResult>): nat {
    if calls == [] then 0
    else Total(calls[..|calls| - 1]) + var w := calls[|calls| - 1]; if w.Wrote? then w.count else 0
  }

  lemma {:induction false} TotalNext(calls: seq<WriteResult>, i: nat)
    requires i < |calls|
    ensures Total(calls[..i + 1]) == Total(calls[..i]) + if calls[i].Wrote? then calls[i].count else 0
  {
    assert calls[..i + 1][..i] == calls[..i];
  }

  lemma {:induction false} Rejoin(a: Bytes, b: Bytes, n: nat)
    requires n <= |b|
    ensures a + b[..n] + b[n..] == a + b
  {}

  class Buffer {
    var buffer: array<char>
    var readerIndex: nat
    var writerIndex: nat

    ghost predicate Valid()
      reads this
    {
      CHEAP_PREPEND <= readerIndex <= writerIndex <= buffer.Length
    }

    /** The queue: the readable bytes. */
    ghost function Contents(): Bytes
      reads this, buffer
      requires Valid()
    {
      buffer[readerIndex..writerIndex]
    }

    /** The constructor asserts that the writable space is the default one. */
    constructor (initSize: nat)
      requires initSize == INITIAL_SIZE
      ensures Valid() && fresh(buffer) && Contents() == []
      ensures buffer.Length == 8 + 1024 && readerIndex == 8 && writerIndex == 8
    {
      buffer := new char[CHEAP_PREPEND + initSize](_ => '\0');
      readerIndex, writerIndex := CHEAP_PREPEND, CHEAP_PREPEND;
    }

    function WritableBytes(): int
      reads this
    {
      buffer.Length - writerIndex
    }

    function ReadableBytes(): int
      reads this
    {
      writerIndex - readerIndex
    }

    method RetrieveAll()
      requires Valid() && buffer.Length >= CHEAP_PREPEND
      modifies this`readerIndex, this`writerIndex
      ensures Valid() && Contents() == [] && readerIndex == writerIndex == 8
    {
      readerIndex, writerIndex := CHEAP_PREPEND, CHEAP_PREPEND;
    }

    method Retrieve(len: nat)
      requires Valid() && len <= ReadableBytes()
      modifies this`readerIndex, this`writerIndex
      ensures Valid() && Contents() == old(Contents())[len..]
      ensures readerIndex == if len < old(ReadableBytes()) then old(readerIndex) + len else 8
    {
      if len < ReadableBytes() {
        assert buffer[readerIndex..writerIndex][len..] == buffer[readerIndex + len..writerIndex];
        readerIndex := readerIndex + len;
      } else {
        RetrieveAll();
      }
    }

    method UnWrite(len: nat)
      requires Valid() && len <= ReadableBytes()
      modifies this`writerIndex
      ensures Valid() && Contents() == old(Contents())[..|old(Contents())| - len]
    {
      assert buffer[readerIndex..writerIndex][..ReadableBytes() - len] == buffer[readerIndex..writerIndex - len];
      writerIndex := writerIndex - len;
    }

    /** Moves the readable bytes to the front; the copy is never onto itself. */
    method Compact()
      requires Valid() && readerIndex > CHEAP_PREPEND
      modifies this`readerIndex, this`writerIndex, buffer
      ensures Valid() && Contents() == old(Contents()) && readerIndex == CHEAP_PREPEND
    {
      var n := ReadableBytes();
      for i := 0 to n
        modifies buffer
        invariant buffer[CHEAP_PREPEND..CHEAP_PREPEND + i] == old(buffer[readerIndex..writerIndex])[..i]
        invariant buffer[readerIndex + i..writerIndex] == old(buffer[readerIndex..writerIndex])[i..]
      {
        assert buffer[readerIndex + i] == buffer[readerIndex + i..writerIndex][0];
        buffer[CHEAP_PREPEND + i] := buffer[readerIndex + i];
      }
      readerIndex := CHEAP_PREPEND;
      writerIndex := readerIndex + n;
    }

    /** `resize`: a larger array with the same bytes in front. */
    method Grow(size: nat)
      requires Valid() && size >= buffer.Length
      modifies this`buffer
      ensures Valid() && fresh(buffer) && Contents() == old(Contents()) && buffer.Length == size
    {
      var bigger := new char[size](_ => '\0');
      for i := 0 to buffer.Length
        modifies bigger
        invariant forall k :: 0 <= k < i ==> bigger[k] == buffer[k]
      {
        bigger[i] := buffer[i];
      }
      assert bigger[readerIndex..writerIndex] == buffer[readerIndex..writerIndex];
      buffer := bigger;
    }

    method MakeSpace(len: nat)
      requires Valid() && WritableBytes() < len
      modifies this, buffer
      ensures Valid() && Contents() == old(Contents()) && WritableBytes() >= len
      ensures if old(WritableBytes() + readerIndex) < len + 8
              then fresh(buffer) && buffer.Length == old(writerIndex) + len && readerIndex == old(readerIndex)
              else buffer == old(buffer) && readerIndex == 8
    {
      if WritableBytes() + readerIndex < len + CHEAP_PREPEND {
        Grow(writerIndex + len);
      } else {
        assert readerIndex > CHEAP_PREPEND;
        Compact();
      }
    }

    method EnsureWritable(len: nat)
      requires Valid()
      modifies this, buffer
      ensures Valid() && (buffer == old(buffer) || fresh(buffer)) && Contents() == old(Contents())
              && WritableBytes() >= len
      ensures old(WritableBytes()) >= len ==> buffer == old(buffer) && readerIndex == old(readerIndex)
    {
      if WritableBytes() < len {
        MakeSpace(len);
      }
    }

    /** Puts bytes into the writable space, as a copy or a system call does. */
    method Fill(bytes: Bytes)
      requires Valid() && |bytes| <= WritableBytes()
      modifies buffer
      ensures Contents() == old(Contents()) && buffer[writerIndex..writerIndex + |bytes|] == bytes
    {
      for i := 0 to |bytes|
        modifies buffer
        invariant buffer[readerIndex..writerIndex] == old(buffer[readerIndex..writerIndex])
        invariant buffer[writerIndex..writerIndex + i] == bytes[..i]
      {
        buffer[writerIndex + i] := bytes[i];
      }
    }

    method Append(bytes: Bytes)
      requires Valid()
      modifies this, buffer
      ensures Valid() && (buffer == old(buffer) || fresh(buffer)) && Contents() == old(Contents()) + bytes
    {
      EnsureWritable(|bytes|);
      FillAndAdvance(bytes);
    }

    method FillAndAdvance(bytes: Bytes)
      requires Valid() && |bytes| <= WritableBytes()
      modifies this`writerIndex, buffer
      ensures Valid() && Contents() == old(Contents()) + bytes && writerIndex == old(writerIndex) + |bytes|
    {
      Fill(bytes);
      ghost var w := writerIndex + |bytes|;
      assert buffer[readerIndex..w] == buffer[readerIndex..writerIndex] + buffer[writerIndex..w];
      writerIndex := writerIndex + |bytes|;
    }

    /** Takes in what a scattering read put into the writable space and the extra buffer. */
    method TakeIn(bytes: Bytes)
      requires Valid()
      modifies this, buffer
      ensures Valid() && (buffer == old(buffer) || fresh(buffer)) && Contents() == old(Contents()) + bytes
    {
      var writable := WritableBytes();
      if |bytes| <= writable {
        FillAndAdvance(bytes);
      } else {
        FillAndAdvance(bytes[..writable]);
        assert writerIndex == buffer.Length;
        Append(bytes[writable..]);
        assert bytes == bytes[..writable] + bytes[writable..];
      }
    }

    method ReadFd(got: ReadResult) returns (len: int)
      requires Valid()
      requires got.Got? ==> |got.bytes| <= WritableBytes() + (if WritableBytes() < EXTRA_SIZE then EXTRA_SIZE else 0)
      modifies this, buffer
      ensures Valid() && (buffer == old(buffer) || fresh(buffer))
      ensures Contents() == old(Contents()) + Concat([got])
      ensures len == if got.Got? then |got.bytes| else -1
    {
      assert Concat([got]) == (if got.Got? then got.bytes else []) + Concat([]);
      if !got.Got? {
        return -1;
      }
      TakeIn(got.bytes);
      len := |got.bytes|;
    }

    /** Reads until the descriptor would block, fails or ends; `calls` are the results of the calls made. */
    method ReadFdET(calls: seq<ReadResult>) returns (readLen: int)
      requires Valid()
      requires calls != [] && (calls[|calls| - 1].Got? ==> calls[|calls| - 1].bytes == [])
      requires forall i :: 0 <= i < |calls| - 1 ==> calls[i].Got? && calls[i].bytes != []
      modifies this, buffer
      ensures Valid() && Contents() == old(Contents()) + Concat(calls)
      ensures var last := calls[|calls| - 1];
              readLen == if last.Got? then 0 else if last.ReadError? then -1 else |Concat(calls)|
    {
      readLen := 0;
      var i := 0;
      while i < |calls| - 1
        invariant 0 <= i <= |calls| - 1 && Valid() && (buffer == old(buffer) || fresh(buffer))
        invariant Contents() + Concat(calls[i..]) == old(Contents()) + Concat(calls)
        invariant readLen + |Concat(calls[i..])| == |Concat(calls)|
      {
        assert calls[i..][1..] == calls[i + 1..];
        TakeIn(calls[i].bytes);
        readLen := readLen + |calls[i].bytes|;
        i := i + 1;
      }
      assert calls[i..] == [calls[i]];
      assert calls[i..][1..] == [] && Concat(calls[i..]) == [];
      match calls[i] {
        case Got(_) => readLen := 0;
        case ReadError => readLen := -1;
        case ReadWouldBlock =>
      }
    }

    /** One `write` of a descriptor that takes up to `n` bytes. */
    method WriteSome(n: nat, ghost sent: Bytes) returns (taken: nat, ghost now: Bytes)
      requires Valid()
      modifies this`readerIndex, this`writerIndex
      ensures Valid() && now + Contents() == sent + old(Contents()) && |now| == |sent| + taken
      ensures taken == if n < |old(Contents())| then n else |old(Contents())|
      ensures taken == 0 ==> now == sent && Contents() == old(Contents())
    {
      taken, now := 0, sent;
      var most := if n < ReadableBytes() then n else ReadableBytes();
      if most > 0 {
        ghost var before := Contents();
        Rejoin(sent, before, most);
        taken, now := most, sent + before[..most];
        Retrieve(most);
      }
    }

    /**
     Writes until the buffer is empty or a call ends it; `calls` are the results the calls have, `made`
     how many there were and `sent` what the descriptor took.
     */
    method WriteFdET(calls: seq<WriteResult>) returns (writesum: int, ghost sent: Bytes, ghost made: nat)
      requires Valid() && calls != [] && Ends(calls[|calls| - 1])
      modifies this`readerIndex, this`writerIndex
      ensures Valid() && sent + Contents() == old(Contents())
      ensures 0 < made <= |calls| && forall i :: 0 <= i < made - 1 ==> !Ends(calls[i])
      ensures var all := |old(Contents())|;
              && |sent| == (if Total(calls[..made]) < all then Total(calls[..made]) else all)
              && (made > 1 ==> Total(calls[..made - 1]) < all)
      ensures match calls[made - 1]
              case WriteWouldBlock => writesum == |sent|
              case WriteError => writesum == -1
              case Wrote(n) =>
                if n == 0 || old(Contents()) == [] then writesum == 0 else writesum == |sent| && Contents() == []
    {
      writesum, sent, made := 0, [], 0;
      var i := 0;
      while true
        invariant 0 <= i == made < |calls| && Valid() && sent + Contents() == old(Contents())
        invariant writesum == |sent| == Total(calls[..made]) && (made > 0 ==> Contents() != [])
        invariant forall i :: 0 <= i < made ==> !Ends(calls[i])
        decreases |calls| - i
      {
        var call := calls[i];
        TotalNext(calls, i);
        i := i + 1;
        made := i;
        hide Total;
        match call {
          case Wrote(n) =>
            var taken;
            taken, sent := WriteSome(n, sent);
            if taken == 0 {
              return 0, sent, made;
            }
            writesum := writesum + taken;
            if ReadableBytes() == 0 {
              return;
            }
          case WriteWouldBlock => return;
          case WriteError => return -1, sent, made;
        }
      }
    }
  }
}
