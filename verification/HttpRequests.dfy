/**
 Whole requests, from the first byte and in any pieces: what each way of framing a body gives, when a
 request is refused, and that nothing is decided before its last byte.
 */
module HttpRequests {
  import opened HttpParser
  import opened Letters

  // ---------------------------------------------------------------- fields by name

  lemma {:induction false} LowerIsSame(s: string, t: string)
    ensures ToLower(s) == ToLower(t) <==> SameWord(s, t)
  {
    if ToLower(s) == ToLower(t) {
      forall i | 0 <= i < |s| ensures SameLetter(s[i], t[i]) {
        assert ToLower(s)[i] == ToLower(t)[i];
      }
    }
  }

  /** The value of the last field of that name, whatever the case of its letters. */
  function FieldValue(fields: seq<(string, string)>, name: string): Option<string> {
    if fields == [] then None
    else
      var later := FieldValue(fields[1..], name);
      if later.Some? then later else if SameWord(fields[0].0, name) then Some(fields[0].1) else None
  }

  /** What a look-up in the header map finds. */
  lemma {:induction false} AddedHolds(headers: map<string, string>, fields: seq<(string, string)>, name: string)
    requires ToLower(name) == name
    ensures var m, v := Added(headers, fields), FieldValue(fields, name);
            && (name in m <==> v.Some? || name in headers)
            && (name in m ==> m[name] == if v.Some? then v.value else headers[name])
    decreases |fields|
  {
    hide ToLower, SameWord;
    if fields != [] {
      var f := fields[0];
      LowerIsSame(f.0, name);
      AddedHolds(headers[ToLower(f.0) := f.1], fields[1..], name);
    }
  }

  lemma {:induction false} KeysAreLower()
    ensures ToLower("content-length") == "content-length" && ToLower("transfer-encoding") == "transfer-encoding"
    ensures ToLower("chunked") == "chunked"
  {}

  /** What the fields say about the body: its length and its encoding. */
  function LengthOf(fields: seq<(string, string)>): Option<string> {
    FieldValue(fields, "content-length")
  }

  function EncodingOf(fields: seq<(string, string)>): Option<string> {
    FieldValue(fields, "transfer-encoding")
  }

  /** How the parser sets out to read the body. */
  lemma {:induction false} FramingOf(env: Env, line: Line, fields: seq<(string, string)>)
    ensures var f, n, e := Framed(env, Headed(line, fields)), LengthOf(fields), EncodingOf(fields);
            if n.Some? && env.stoul(n.value).None? then f.None?
            else
              && f.Some? && f.value.contentLength == (if n.Some? then env.stoul(n.value) else None)
              && f.value.transferEncoding == e.Some?
              && f.value.chunked == (e.Some? && SameWord(e.value, "chunked"))
              && f.value.chunk == NoLen && f.value.body == "" && f.value.line == Some(line)
              && f.value.headers == Added(map[], fields)
  {
    KeysAreLower();
    AddedHolds(map[], fields, "content-length");
    AddedHolds(map[], fields, "transfer-encoding");
    var e := EncodingOf(fields);
    if e.Some? { LowerIsSame(e.value, "chunked"); }
    hide Added, FieldValue, ToLower, SameWord;
  }

  // ---------------------------------------------------------------- nothing is decided early

  /** If parsing `a + b` leaves fewer bytes than `b` has, `a` alone is not enough to decide. */
  lemma {:induction false} NeverEarly(env: Env, p: Parser, a: string, b: string)
    requires WellFormed(p) && |Parse(env, p, a + b).rest| < |b|
    ensures Parse(env, p, a).v == Again
  {
    hide Parse, WellFormed;
    SplitOnce(env, p, a, b);
  }

  /** So no proper part of a complete request, cut anywhere, is taken for a request or refused. */
  lemma {:induction false} PartsWait(env: Env, whole: string, part: seq<string>, missing: string)
    requires missing != "" && Joined(part) + missing == whole
    requires Parse(env, START, whole).v == Ok && Parse(env, START, whole).rest == ""
    ensures Feed(env, START, "", part).v == Again
  {
    hide Parse;
    AnySplit(env, START, "", part);
    assert "" + Joined(part) == Joined(part);
    NeverEarly(env, START, Joined(part), missing);
  }

  // ---------------------------------------------------------------- the ways to frame a body

  /** A request line that the grammar reads as `line`, and fields whose head the parser accepts. */
  ghost predicate GoodRequest(env: Env, text: string, line: Line, fields: seq<(string, string)>) {
    && '\r' !in text && env.line(text + CRLF) == Some(line)
    && fields != [] && (forall i :: 0 <= i < |fields| ==> GoodField(fields[i])) && Leading(fields) <= 8192
  }

  /** The bytes of a request up to its body. */
  function Head(text: string, fields: seq<(string, string)>): string {
    text + CRLF + Block(fields)
  }

  /** Complete with this body, the request line and the fields as sent, and `rest` left in the buffer. */
  ghost predicate Complete(r: Outcome, line: Line, fields: seq<(string, string)>, body: string, rest: string) {
    && r.v == Ok && r.p.phase == CheckDone && r.rest == rest && r.p.body == body
    && r.p.line == Some(line) && r.p.headers == Added(map[], fields)
  }

  lemma {:induction false} ContentIsParsed(env: Env, text: string, line: Line, fields: seq<(string, string)>,
                                           content: string, pieces: seq<string>)
    requires GoodRequest(env, text, line, fields) && Framed(env, Headed(line, fields)).Some?
    requires Joined(pieces) == Head(text, fields) + content
    ensures var p := Framed(env, Headed(line, fields)).value.(phase := CheckContent);
            WellFormed(p) && Feed(env, START, "", pieces) == Parse(env, p, content)
  {
    hide Parse, Block, Framed, Headed, GoodField, Leading;
    GoodHead(env, text, line, fields, content);
    AnySplit(env, START, "", pieces);
    assert "" + Joined(pieces) == Joined(pieces);
    assert text + CRLF + Block(fields) + content == text + CRLF + (Block(fields) + content);
  }

  /** With a length, the body is as many bytes as it says, and the rest is left. */
  lemma {:induction false} LengthRequest(env: Env, text: string, line: Line, fields: seq<(string, string)>,
                                         body: string, tail: string, pieces: seq<string>)
    requires GoodRequest(env, text, line, fields) && EncodingOf(fields).None?
    requires LengthOf(fields).Some? && env.stoul(LengthOf(fields).value) == Some(|body|)
    requires Joined(pieces) == Head(text, fields) + (body + tail)
    ensures Complete(Feed(env, START, "", pieces), line, fields, body, tail)
  {
    hide Block, Framed, Headed, GoodRequest, LengthOf, EncodingOf, Added;
    FramingOf(env, line, fields);
    ContentIsParsed(env, text, line, fields, body + tail, pieces);
    assert (body + tail)[..|body|] == body && (body + tail)[|body|..] == tail;
    assert "" + body == body;
  }

  /** Until that many bytes are there, more are asked for, and those that are stay in the buffer. */
  lemma {:induction false} LengthWaits(env: Env, text: string, line: Line, fields: seq<(string, string)>,
                                       part: string, n: nat, pieces: seq<string>)
    requires GoodRequest(env, text, line, fields) && EncodingOf(fields).None?
    requires LengthOf(fields).Some? && env.stoul(LengthOf(fields).value) == Some(n) && |part| < n
    requires Joined(pieces) == Head(text, fields) + part
    ensures var r := Feed(env, START, "", pieces); r.v == Again && r.rest == part && r.p.body == ""
  {
    hide Block, Framed, Headed, GoodRequest, LengthOf, EncodingOf, Added;
    FramingOf(env, line, fields);
    ContentIsParsed(env, text, line, fields, part, pieces);
    assert part[0..] == part;
  }

  /** With neither length nor encoding, GET and HEAD are complete without a body, and POST is refused. */
  lemma {:induction false} UnframedRequest(env: Env, text: string, line: Line, fields: seq<(string, string)>,
                                           tail: string, pieces: seq<string>)
    requires GoodRequest(env, text, line, fields) && EncodingOf(fields).None? && LengthOf(fields).None?
    requires Joined(pieces) == Head(text, fields) + tail
    ensures var r := Feed(env, START, "", pieces);
            if line.httpMethod.Get? || line.httpMethod.Head? then Complete(r, line, fields, "", tail)
            else r.v == Bad && r.rest == tail
  {
    hide Block, Framed, Headed, GoodRequest, LengthOf, EncodingOf, Added;
    FramingOf(env, line, fields);
    ContentIsParsed(env, text, line, fields, tail, pieces);
    assert tail[0..] == tail;
  }

  /** An encoding other than chunked is refused, with or without a length. */
  lemma {:induction false} OtherEncoding(env: Env, text: string, line: Line, fields: seq<(string, string)>,
                                         tail: string, pieces: seq<string>)
    requires GoodRequest(env, text, line, fields) && Joined(pieces) == Head(text, fields) + tail
    requires EncodingOf(fields).Some? && !SameWord(EncodingOf(fields).value, "chunked")
    requires LengthOf(fields).Some? ==> env.stoul(LengthOf(fields).value).Some?
    ensures var r := Feed(env, START, "", pieces); r.v == Bad && r.rest == tail && r.p.body == ""
  {
    hide Block, Framed, Headed, GoodRequest, LengthOf, EncodingOf, Added, SameWord;
    FramingOf(env, line, fields);
    ContentIsParsed(env, text, line, fields, tail, pieces);
    assert tail[0..] == tail;
  }

  /** A length that `stoul` does not take throws, whatever the encoding. */
  lemma {:induction false} LengthThrows(env: Env, text: string, line: Line, fields: seq<(string, string)>,
                                        tail: string, pieces: seq<string>)
    requires GoodRequest(env, text, line, fields) && Joined(pieces) == Head(text, fields) + tail
    requires LengthOf(fields).Some? && env.stoul(LengthOf(fields).value).None?
    ensures Feed(env, START, "", pieces).v == Throws
  {
    hide Block, Framed, Headed, LengthOf, EncodingOf, Added, SameWord, GoodField, Leading, Parse;
    FramingOf(env, line, fields);
    Unframed(env, text, line, fields, tail);
    AnySplit(env, START, "", pieces);
    assert "" + Joined(pieces) == text + CRLF + (Block(fields) + tail);
  }

  lemma {:induction false} Unframed(env: Env, text: string, line: Line, fields: seq<(string, string)>, t: string)
    requires GoodRequest(env, text, line, fields) && Framed(env, Headed(line, fields)).None?
    ensures Parse(env, START, text + CRLF + (Block(fields) + t)).v == Throws
  {
    var rest := Block(fields) + t;
    var p1 := START.(phase := CheckHeader, line := Some(line));
    LineIsRead(env, text, line, rest);
    BlockThrows(env, line, fields, t);
    var data, n := text + CRLF + rest, |text| + 2;
    assert data[n..] == rest;
    hide LineRound, HeaderRound, Framed, Block, Headed, GoodField;
    assert Parse(env, START, data) == Parse(env, p1, rest);
  }

  lemma {:induction false} BlockThrows(env: Env, line: Line, fields: seq<(string, string)>, t: string)
    requires fields != [] && (forall i :: 0 <= i < |fields| ==> GoodField(fields[i])) && Leading(fields) <= 8192
    requires Framed(env, Headed(line, fields)).None?
    ensures var r := HeaderRound(env, START.(phase := CheckHeader, line := Some(line)), Block(fields) + t);
            r.Stop? && r.v == Throws
  {
    hide Find, HeaderLines, GoodField, Framed, Block, Added;
    BlockEnds(fields, t);
    BlockLines(fields, map[], 0);
    assert (Block(fields) + t)[..|Block(fields)|] == Block(fields);
  }

  /** A chunked request, by whatever spelling of the field, gives the chunks' bytes and leaves what follows. */
  lemma {:induction false} ChunkedRequest(env: Env, text: string, line: Line, fields: seq<(string, string)>,
                                          chunks: seq<string>, tail: string, pieces: seq<string>)
    requires GoodRequest(env, text, line, fields)
    requires EncodingOf(fields).Some? && SameWord(EncodingOf(fields).value, "chunked")
    requires LengthOf(fields).Some? ==> env.stoul(LengthOf(fields).value).Some?
    requires Sized(chunks) && Joined(pieces) == Head(text, fields) + (Framing(chunks) + tail)
    ensures Complete(Feed(env, START, "", pieces), line, fields, Joined(chunks), tail)
  {
    hide Block, Framed, Headed, GoodRequest, LengthOf, EncodingOf, Added, SameWord, Parse, Framing;
    FramingOf(env, line, fields);
    ContentIsParsed(env, text, line, fields, Framing(chunks) + tail, pieces);
    var p := Framed(env, Headed(line, fields)).value.(phase := CheckContent);
    ChunksRoundTrip(env, p, chunks, tail);
    assert "" + Joined(chunks) == Joined(chunks);
  }

  /** A head whose fields before the last pass the limit is refused, whatever its framing. */
  lemma {:induction false} LongRequest(env: Env, text: string, line: Line, fields: seq<(string, string)>,
                                       content: string, pieces: seq<string>)
    requires '\r' !in text && env.line(text + CRLF) == Some(line) && fields != []
    requires (forall i :: 0 <= i < |fields| ==> GoodField(fields[i])) && Leading(fields) > 8192
    requires Joined(pieces) == Head(text, fields) + content
    ensures Feed(env, START, "", pieces).v == Bad
  {
    hide Parse, Block, Framed, Headed, GoodField, Leading;
    LongHeadIsBad(env, text, line, fields, content);
    AnySplit(env, START, "", pieces);
    assert "" + Joined(pieces) == text + CRLF + (Block(fields) + content);
  }

  // ---------------------------------------------------------------- malformed requests

  /** A request line outside the grammar is refused. */
  lemma {:induction false} BadRequestLine(env: Env, text: string, t: string, pieces: seq<string>)
    requires '\r' !in text && env.line(text + CRLF) == None && Joined(pieces) == text + CRLF + t
    ensures var r := Feed(env, START, "", pieces); r.v == Bad && r.p == START && r.rest == t
  {
    AnySplit(env, START, "", pieces);
    var data := text + CRLF + t;
    assert "" + Joined(pieces) == data;
    FindAfter(text, t);
    hide Find;
    assert data[..|text| + 2] == text + CRLF && data[|text| + 2..] == t;
  }

  /** Field lines in front of `rest`. */
  function Lines(fields: seq<(string, string)>, rest: string): string {
    if fields == [] then rest else FieldLine(fields[0]) + CRLF + Lines(fields[1..], rest)
  }

  /** The block ends with an empty line behind the bad one. */
  lemma {:induction false} BadBlockEnds(before: seq<(string, string)>, bad: string, after: seq<(string, string)>,
                                        t: string)
    requires (forall i :: 0 <= i < |before| ==> GoodField(before[i])) && '\r' !in bad && bad != ""
    requires forall i :: 0 <= i < |after| ==> GoodField(after[i])
    ensures |Lines(before, bad + CRLF + Block(after))| >= 4
    ensures Find(Lines(before, bad + CRLF + (Block(after) + t)), CRLF + CRLF)
         == Some(|Lines(before, bad + CRLF + Block(after))| - 4)
    decreases |before|
  {
    hide GoodField, Find, FieldLine, Block;
    if before == [] {
      BlockStarts(after, t);
      if after != [] { BlockEnds(after, t); } else { EmptyIsBreak(); }
      SkipLine(bad, Block(after) + t);
    } else {
      LineOf(before[0]);
      var line, rest := FieldLine(before[0]), Lines(before[1..], bad + CRLF + (Block(after) + t));
      BadBlockEnds(before[1..], bad, after, t);
      LinesStart(before[1..], bad, Block(after) + t);
      SkipLine(line, rest);
    }
  }

  lemma {:induction false} EmptyIsBreak()
    ensures Block([]) == CRLF
  {}

  lemma {:induction false} LinesStart(before: seq<(string, string)>, bad: string, t: string)
    requires (forall i :: 0 <= i < |before| ==> GoodField(before[i])) && '\r' !in bad && bad != ""
    ensures var s := Lines(before, bad + CRLF + t); |s| >= 2 && s[..2] != CRLF
  {
    var s := Lines(before, bad + CRLF + t);
    if before == [] {
      assert s[..2][0] == bad[0];
    } else {
      LineOf(before[0]);
      hide GoodField, FieldLine;
      assert s[0] == FieldLine(before[0])[0] && s[..2][0] == s[0];
    }
  }

  lemma {:induction false} LinesJoin(before: seq<(string, string)>, a: string, t: string)
    ensures Lines(before, a) + t == Lines(before, a + t)
  {
    hide FieldLine;
    if before != [] {
      LinesJoin(before[1..], a, t);
      assert FieldLine(before[0]) + CRLF + Lines(before[1..], a) + t
          == FieldLine(before[0]) + CRLF + (Lines(before[1..], a) + t);
    }
  }

  /** The loop over the lines comes to the bad one, or has refused the head before. */
  lemma {:induction false} BadLineFound(before: seq<(string, string)>, bad: string, rest: string,
                                        headers: map<string, string>, size: nat)
    requires (forall i :: 0 <= i < |before| ==> GoodField(before[i])) && '\r' !in bad && ':' !in bad && bad != ""
    ensures HeaderLines(Lines(before, bad + CRLF + rest), headers, size).0 == Bad
    decreases |before|
  {
    hide HeaderLines, GoodField, FieldLine, ToLower, Find, HeaderLine;
    var h := Lines(before, bad + CRLF + rest);
    LinesStart(before, bad, rest);
    if size > 8192 {
      TooLong(h, headers, size);
    } else if before == [] {
      BadLineHere(bad, rest, headers, size);
    } else {
      var f := before[0];
      OneLine(f, Lines(before[1..], bad + CRLF + rest), headers, size);
      BadLineFound(before[1..], bad, rest, headers[ToLower(f.0) := f.1], size + |f.0| + |f.1|);
    }
  }

  lemma {:induction false} BadLineHere(bad: string, rest: string, headers: map<string, string>, size: nat)
    requires '\r' !in bad && ':' !in bad && bad != "" && size <= 8192
    ensures HeaderLines(bad + CRLF + rest, headers, size).0 == Bad
  {
    FindAfter(bad, rest);
    LineShape(bad, rest);
    NoColon(bad);
    hide Find, HeaderLine, ToLower;
  }

  lemma {:induction false} NoColon(bad: string)
    requires ':' !in bad
    ensures HeaderLine(bad).None?
  {}

  /** A field line without a colon, anywhere in the head, makes the request a bad one. */
  lemma {:induction false} BadFieldLine(env: Env, text: string, line: Line, before: seq<(string, string)>, bad: string,
                                        after: seq<(string, string)>, t: string)
    requires '\r' !in text && env.line(text + CRLF) == Some(line)
    requires (forall i :: 0 <= i < |before| ==> GoodField(before[i])) && '\r' !in bad && ':' !in bad && bad != ""
    requires forall i :: 0 <= i < |after| ==> GoodField(after[i])
    ensures var r := Parse(env, START, text + CRLF + Lines(before, bad + CRLF + (Block(after) + t)));
            r.v == Bad && r.p.phase.CheckHeader? && r.rest == t
  {
    hide GoodField, Find, FieldLine, Block, HeaderLines, Lines;
    var lines := Lines(before, bad + CRLF + Block(after));
    var rest, p1 := Lines(before, bad + CRLF + (Block(after) + t)), START.(phase := CheckHeader, line := Some(line));
    LineIsRead(env, text, line, rest);
    BadBlockEnds(before, bad, after, t);
    LinesJoin(before, bad + CRLF + Block(after), t);
    assert bad + CRLF + Block(after) + t == bad + CRLF + (Block(after) + t);
    BadLineFound(before, bad, Block(after), map[], 0);
    var data, n := text + CRLF + rest, |text| + 2;
    assert data[n..] == rest && rest[..|lines|] == lines && rest[|lines|..] == t;
    hide LineRound;
    assert Parse(env, START, data) == Parse(env, p1, rest);
  }

  // ---------------------------------------------------------------- malformed chunks

  /** Framed chunks in front of `rest`. */
  function Chunked(chunks: seq<string>, rest: string): string {
    if chunks == [] then rest
    else WriteNumber(|chunks[0]|) + CRLF + (chunks[0] + CRLF + Chunked(chunks[1..], rest))
  }

  /** The parser when `chunks` have been read, for the first of which it is at its start. */
  function GatheredAll(p: Parser, chunks: seq<string>): Parser
    decreases |chunks|
  {
    if chunks == [] then p else GatheredAll(Gathered(p, chunks[0]), chunks[1..])
  }

  lemma {:induction false} ChunksAreRead(env: Env, p: Parser, chunks: seq<string>, rest: string)
    requires WellFormed(p) && AtChunk(p) && Sized(chunks)
    ensures var q := GatheredAll(p, chunks);
            && WellFormed(q) && AtChunk(q) && q.body == p.body + Joined(chunks)
            && Parse(env, p, Chunked(chunks, rest)) == Parse(env, q, rest)
    decreases |chunks|
  {
    hide Parse, WriteNumber;
    if chunks == [] {
      assert p.body + "" == p.body;
    } else {
      OneChunk(env, p, chunks[0], Chunked(chunks[1..], rest));
      ChunksAreRead(env, Gathered(p, chunks[0]), chunks[1..], rest);
      assert p.body + chunks[0] + Joined(chunks[1..]) == p.body + Joined(chunks);
    }
  }

  /** A character that is no digit spoils the length. */
  lemma {:induction false} NotANumber(s: string, i: nat)
    requires i < |s| && !IsDigit(s[i])
    ensures ReadNumber(s) == -1
  {
    var n := |s| - 1;
    if i < n { NotANumber(s[..n], i); }
  }

  lemma {:induction false} BadLengthRound(env: Env, q: Parser, digits: string, i: nat, t: string)
    requires WellFormed(q) && AtChunk(q) && i < |digits| <= 5 && !IsDigit(digits[i]) && '\r' !in digits
    ensures var r := Parse(env, q, digits + CRLF + t); r.v == Bad && r.p.body == q.body
  {
    var data := digits + CRLF + t;
    NotANumber(digits, i);
    BreakInWindow(digits, t);
    hide Find, ReadNumber, Window;
  }

  lemma {:induction false} BreakInWindow(digits: string, t: string)
    requires |digits| <= 5 && '\r' !in digits
    ensures var data := digits + CRLF + t; Find(Window(data), CRLF) == Some(|digits|) && data[..|digits|] == digits
  {
    var k := if |t| < 5 - |digits| then |t| else 5 - |digits|;
    FindAfter(digits, t[..k]);
    hide Find;
    assert Window(digits + CRLF + t) == digits + CRLF + t[..k];
  }

  /** A length line with a character that is no digit is refused, whatever chunks came before it. */
  lemma {:induction false} BadLength(env: Env, p: Parser, chunks: seq<string>, digits: string, i: nat, t: string)
    requires WellFormed(p) && AtChunk(p) && Sized(chunks)
    requires i < |digits| <= 5 && !IsDigit(digits[i]) && '\r' !in digits
    ensures var r := Parse(env, p, Chunked(chunks, digits + CRLF + t));
            r.v == Bad && r.p.body == p.body + Joined(chunks)
  {
    hide Parse, GatheredAll, Chunked, Joined, Sized;
    ChunksAreRead(env, p, chunks, digits + CRLF + t);
    BadLengthRound(env, GatheredAll(p, chunks), digits, i, t);
  }

  /** The length line of `n` bytes is read. */
  lemma {:induction false} LengthIsRead(env: Env, q: Parser, n: nat, data: string)
    requires WellFormed(q) && AtChunk(q) && 1 <= n <= 99999
    ensures var q1 := q.(chunkSize := n, chunk := NoData);
            WellFormed(q1) && Parse(env, q, WriteNumber(n) + CRLF + data) == Parse(env, q1, data)
  {
    var digits := WriteNumber(n);
    NumberLength(n, 5);
    assert Pow10(5) == 100000;
    NumberRoundTrip(n);
    hide WriteNumber, ReadNumber, ChunkRound;
    LengthRound(q, digits, data);
    assert (digits + CRLF + data)[|digits| + 2..] == data;
  }

  lemma {:induction false} BadDataRound(env: Env, q: Parser, data: string)
    requires WellFormed(q) && q.phase.CheckContent? && q.transferEncoding && q.chunked && q.chunk.NoData?
    requires |data| >= q.chunkSize + 2 && data[q.chunkSize..q.chunkSize + 2] != CRLF
    ensures Parse(env, q, data).v == Bad && Parse(env, q, data).p == q
  {}

  /** Data that does not end where its length says is refused. */
  lemma {:induction false} BadChunkEnd(env: Env, p: Parser, chunks: seq<string>, n: nat, data: string)
    requires WellFormed(p) && AtChunk(p) && Sized(chunks) && 1 <= n <= 99999
    requires |data| >= n + 2 && data[n..n + 2] != CRLF
    ensures var r := Parse(env, p, Chunked(chunks, WriteNumber(n) + CRLF + data));
            r.v == Bad && r.p.body == p.body + Joined(chunks)
  {
    hide Parse, WriteNumber, GatheredAll, Chunked, Joined, Sized;
    ChunksAreRead(env, p, chunks, WriteNumber(n) + CRLF + data);
    var q := GatheredAll(p, chunks);
    LengthIsRead(env, q, n, data);
    BadDataRound(env, q.(chunkSize := n, chunk := NoData), data);
  }

  lemma {:induction false} BadLastRound(env: Env, q: Parser, t: string)
    requires WellFormed(q) && q.phase.CheckContent? && q.transferEncoding && q.chunked && q.chunk.LastSeen?
    requires |t| >= 2 && t[..2] != CRLF
    ensures Parse(env, q, t).v == Bad && Parse(env, q, t).p == q
  {}

  lemma {:induction false} ZerosAreRead(env: Env, q: Parser, zeros: string, t: string)
    requires WellFormed(q) && AtChunk(q) && |zeros| <= 5 && forall i :: 0 <= i < |zeros| ==> zeros[i] == '0'
    ensures Parse(env, q, zeros + CRLF + t) == Parse(env, q.(chunkSize := 0, chunk := LastSeen), t)
  {
    ReadsZero(zeros);
    hide ReadNumber, ChunkRound;
    LengthRound(q, zeros, t);
    assert (zeros + CRLF + t)[|zeros| + 2..] == t;
  }

  /** And so is anything but an empty line behind the last chunk, a trailer field for one. */
  lemma {:induction false} BadBodyEnd(env: Env, p: Parser, chunks: seq<string>, zeros: string, t: string)
    requires WellFormed(p) && AtChunk(p) && Sized(chunks)
    requires |zeros| <= 5 && (forall i :: 0 <= i < |zeros| ==> zeros[i] == '0') && |t| >= 2 && t[..2] != CRLF
    ensures var r := Parse(env, p, Chunked(chunks, zeros + CRLF + t));
            r.v == Bad && r.p.body == p.body + Joined(chunks)
  {
    hide Parse, GatheredAll, Chunked, Joined, Sized;
    ChunksAreRead(env, p, chunks, zeros + CRLF + t);
    var q := GatheredAll(p, chunks);
    ZerosAreRead(env, q, zeros, t);
    BadLastRound(env, q.(chunkSize := 0, chunk := LastSeen), t);
  }
}
