/**
 Incremental parsing of HTTP requests. The request-line grammar and the library's `stoul` are
 parameters; the multipart and JSON bodies that follow a complete request are not part of this model.
 Chunk lengths are read in base ten, as the program does.
 */
module HttpParser {

  datatype Option<T> = None | Some(value: T)

  const CRLF := "\r\n"
  const HEADER_LIMIT: nat := 8192
  const CHUNK_LENGTH_LIMIT: nat := 5

  datatype Method = Get | Post | Head

  datatype Line = Line(httpMethod: Method, url: string, version: string)

  /** The request-line grammar, and `stoul`, which may throw. */
  datatype Env = Env(line: string -> Option<Line>, stoul: string -> Option<nat>)

  datatype Verdict = Ok | Again | Bad | Throws

  datatype Phase = CheckLine | CheckHeader | CheckContent | CheckDone

  datatype ChunkState = NoLen | NoData | LastSeen

  /** The parser's fields. */
  datatype Parser = Parser(
    phase: Phase,
    line: Option<Line>,
    headers: map<string, string>,
    headerSize: nat,
    contentLength: Option<nat>,
    transferEncoding: bool,
    chunked: bool,
    chunk: ChunkState,
    chunkSize: int,
    body: string
  )

  const START := Parser(CheckLine, None, map[], 0, None, false, false, NoLen, 0, "")

  // ---------------------------------------------------------------- searching

  /** The first place where `pat` occurs. */
  function Find(s: string, pat: string): (r: Option<nat>)
    ensures r.Some? ==> r.value + |pat| <= |s| && s[r.value..r.value + |pat|] == pat
  {
    if |s| < |pat| then None
    else if s[..|pat|] == pat then Some(0)
    else if s == [] then None
    else
      match Find(s[1..], pat)
      case None => None
      case Some(i) =>
        assert s[1..][i..i + |pat|] == s[i + 1..i + 1 + |pat|];
        Some(i + 1)
  }

  /** The first place from `from` on of a character that is `c`, or is not if `other`. */
  function FindChar(s: string, c: char, from: nat, other: bool): (r: Option<nat>)
    ensures r.Some? ==> from <= r.value < |s| && (s[r.value] == c) != other
    ensures r.Some? ==> forall i :: from <= i < r.value ==> (s[i] == c) == other
    ensures r.None? ==> forall i :: from <= i < |s| ==> (s[i] == c) == other
    decreases |s| - from
  {
    if from >= |s| then None
    else if (s[from] == c) != other then Some(from)
    else FindChar(s, c, from + 1, other)
  }

  lemma {:induction false} FindExtends(a: string, b: string, pat: string)
    requires Find(a, pat).Some?
    ensures Find(a + b, pat) == Find(a, pat)
    decreases |a|
  {
    assert (a + b)[..|pat|] == a[..|pat|];
    if a[..|pat|] != pat {
      assert (a + b)[1..] == a[1..] + b;
      FindExtends(a[1..], b, pat);
    }
  }

  // ---------------------------------------------------------------- header lines

  function ToLower(s: string): string {
    seq(|s|, i requires 0 <= i < |s| => if 'A' <= s[i] <= 'Z' then (s[i] as int + 32) as char else s[i])
  }

  /** Where the value starts in the text behind the colon: past the first run of blanks in it. */
  function ValueStart(v: string): (k: nat)
    ensures k <= |v|
  {
    var gap := match FindChar(v, ' ', 0, false) { case Some(i) => i case None => 0 };
    match FindChar(v, ' ', gap, true) { case Some(i) => i case None => |v| }
  }

  /** Key and value of a header line; the value starts after the first blank behind the colon, if there is one. */
  function HeaderLine(line: string): Option<(string, string)> {
    match FindChar(line, ':', 0, false)
    case None => None
    case Some(colon) =>
      var v := line[colon + 1..];
      Some((line[..colon], v[ValueStart(v)..]))
  }

  function TrimLeft(v: string): string {
    if v != "" && v[0] == ' ' then TrimLeft(v[1..]) else v
  }

  lemma {:induction false} TrimIs(v: string, k: nat)
    requires k <= |v| && (forall i :: 0 <= i < k ==> v[i] == ' ') && (k < |v| ==> v[k] != ' ')
    ensures TrimLeft(v) == v[k..]
  {
    if k > 0 { TrimIs(v[1..], k - 1); }
  }

  /** The value is what follows the colon, less leading blanks, exactly when that starts with a blank or has none. */
  lemma {:induction false} HeaderValue(key: string, v: string)
    requires ':' !in key
    ensures HeaderLine(key + ":" + v) == Some((key, TrimLeft(v))) <==> ' ' !in v || v[0] == ' '
  {
    var line, n := key + ":" + v, |key|;
    ColonAt(key, v);
    assert line[..n] == key && line[n + 1..] == v;
    hide FindChar;
    ValueStarts(v);
  }

  lemma {:induction false} ColonAt(key: string, v: string)
    requires ':' !in key
    ensures FindChar(key + ":" + v, ':', 0, false) == Some(|key|)
  {
    var line, n := key + ":" + v, |key|;
    assert forall i :: 0 <= i < n ==> line[i] in key;
    var f := FindChar(line, ':', 0, false);
    assert line[n] == ':';
  }

  lemma {:induction false} ValueStarts(v: string)
    ensures v[ValueStart(v)..] == TrimLeft(v) <==> ' ' !in v || v[0] == ' '
  {
    var k := ValueStart(v);
    if ' ' in v {
      if v[0] == ' ' {
        TrimIs(v, k);
      } else {
        TrimIs(v, 0);
        assert k > 0 && |v[k..]| < |v[0..]|;
      }
    } else if v != "" {
      assert v[0] in v;
      TrimIs(v, 0);
    }
  }

  /** The loop over the header block: the verdict, the fields and their total size. */
  function HeaderLines(h: string, headers: map<string, string>, size: nat): (Verdict, map<string, string>, nat)
    decreases |h|
  {
    if h == [] then (Again, headers, size)
    else if |h| >= 2 && h[..2] == CRLF then (Ok, headers, size)
    else if size > HEADER_LIMIT then (Bad, headers, size)
    else match Find(h, CRLF)
      case None => (Again, headers, size)
      case Some(i) =>
        match HeaderLine(h[..i])
        case None => (Bad, headers, size)
        case Some((key, value)) =>
          HeaderLines(h[i + 2..], headers[ToLower(key) := value], size + |key| + |value|)
  }

  /** What is left of a header block after some of its lines. */
  predicate BlockTail(h: string) {
    h == CRLF || (|h| >= 4 && h[|h| - 4..] == CRLF + CRLF)
  }

  /** A block that ends in an empty line is never found incomplete. */
  lemma {:induction false} BlockIsComplete(h: string, headers: map<string, string>, size: nat)
    requires BlockTail(h)
    ensures HeaderLines(h, headers, size).0 != Again
    decreases |h|
  {
    hide HeaderLine, ToLower, Find;
    if !(|h| >= 2 && h[..2] == CRLF) && size <= HEADER_LIMIT {
      FindsEnd(h);
      var i := Find(h, CRLF).value;
      var line := HeaderLine(h[..i]);
      if line.Some? {
        BlockIsComplete(h[i + 2..], headers[ToLower(line.value.0) := line.value.1],
                        size + |line.value.0| + |line.value.1|);
      }
    }
  }

  lemma {:induction false} FindsEnd(h: string)
    requires BlockTail(h) && h[..2] != CRLF
    ensures var r := Find(h, CRLF); r.Some? && BlockTail(h[r.value + 2..])
  {
    var n := |h|;
    TailChars(h);
    assert h[n - 4..n - 2] == CRLF;
    FindIsFirst(h, CRLF, n - 4);
    var i := Find(h, CRLF).value;
    hide Find;
    assert h[i..i + 2][0] == h[i] && h[i..i + 2][1] == h[i + 1];
    assert i != n - 5;
    TailOfTail(h, i + 2);
  }

  lemma {:induction false} TailChars(h: string)
    requires BlockTail(h) && h[..2] != CRLF
    ensures |h| >= 4 && h[|h| - 4] == '\r' && h[|h| - 3] == '\n' && h[|h| - 2] == '\r' && h[|h| - 1] == '\n'
  {
    var t := h[|h| - 4..];
    assert t[0] == h[|h| - 4] && t[1] == h[|h| - 3] && t[2] == h[|h| - 2] && t[3] == h[|h| - 1];
  }

  lemma {:induction false} TailOfTail(h: string, k: nat)
    requires |h| >= 4 && h[|h| - 4..] == CRLF + CRLF && (k <= |h| - 4 || k == |h| - 2)
    ensures BlockTail(h[k..])
  {
    var t := h[k..];
    if k == |h| - 2 {
      assert t == h[|h| - 4..][2..] && (CRLF + CRLF)[2..] == CRLF;
    } else {
      assert t[|t| - 4..] == h[|h| - 4..];
    }
  }

  lemma {:induction false} FindIsFirst(s: string, pat: string, k: nat)
    requires k + |pat| <= |s| && s[k..k + |pat|] == pat
    ensures Find(s, pat).Some? && Find(s, pat).value <= k
    decreases |s|
  {
    if s[..|pat|] != pat {
      assert k > 0;
      assert s[1..][k - 1..k - 1 + |pat|] == s[k..k + |pat|];
      FindIsFirst(s[1..], pat, k - 1);
    }
  }

  // ---------------------------------------------------------------- numbers

  predicate IsDigit(c: char) {
    '0' <= c <= '9'
  }

  /** Signed 32-bit wrap-around. */
  function Wrap32(x: int): (r: int)
    ensures -0x8000_0000 <= r < 0x8000_0000
    ensures -0x8000_0000 <= x < 0x8000_0000 ==> r == x
  {
    (x + 0x8000_0000) % 0x1_0000_0000 - 0x8000_0000
  }

  /** `hexString2Int`: decimal digits in a 32-bit accumulator; -1 for anything else, or once it turns negative. */
  function ReadNumber(s: string): (n: int)
    ensures -1 <= n < 0x8000_0000
  {
    if s == [] then 0
    else
      var m := ReadNumber(s[..|s| - 1]);
      if m == -1 || !IsDigit(s[|s| - 1]) then -1
      else
        var n := Wrap32(m * 10 + (s[|s| - 1] as int - '0' as int));
        if n < 0 then -1 else n
  }

  // ---------------------------------------------------------------- one step

  /** One round of the parsing loops: go on with `n` bytes consumed, or return. */
  datatype Round = Next(p: Parser, n: nat) | Stop(v: Verdict, p: Parser, n: nat)

  function LineRound(env: Env, p: Parser, data: string): (r: Round)
    ensures r.n <= |data| && (r.Next? ==> 0 < r.n)
    ensures if r.Next? then r.p.phase.CheckHeader? else r.p == p && (r.v == Again || r.v == Bad)
    ensures WellFormed(p) && p.phase.CheckLine? ==> WellFormed(r.p)
  {
    match Find(data, CRLF)
    case None => Stop(Again, p, 0)
    case Some(i) =>
      match env.line(data[..i + 2])
      case None => Stop(Bad, p, i + 2)
      case Some(line) => Next(p.(phase := CheckHeader, line := Some(line)), i + 2)
  }

  /** `parseContentLength` and `parseTransferEncoding`, once the fields are known. */
  function Framed(env: Env, p: Parser): Option<Parser> {
    var q := if "transfer-encoding" in p.headers
             then p.(transferEncoding := true,
                     chunked := p.chunked || ToLower(p.headers["transfer-encoding"]) == "chunked")
             else p;
    if "content-length" !in p.headers then Some(q)
    else match env.stoul(p.headers["content-length"])
      case None => None
      case Some(n) => Some(q.(contentLength := Some(n)))
  }

  function HeaderRound(env: Env, p: Parser, data: string): (r: Round)
    ensures r.n <= |data| && (r.Next? ==> 0 < r.n)
    ensures if r.Next? then r.p.phase.CheckContent? else r.p.phase == p.phase && r.v != Ok
    ensures WellFormed(p) && p.phase.CheckHeader? ==> WellFormed(r.p)
  {
    match Find(data, CRLF + CRLF)
    case None => Stop(Again, p, 0)
    case Some(i) =>
      var (v, headers, size) := HeaderLines(data[..i + 4], p.headers, p.headerSize);
      var q := p.(headers := headers, headerSize := size);
      if v != Ok then Stop(v, q, i + 4)
      else match Framed(env, q)
        case None => Stop(Throws, q, i + 4)
        case Some(f) => Next(f.(phase := CheckContent), i + 4)
  }

  /** Where a chunk length and its line break are looked for. */
  function Window(data: string): string {
    if |data| < CHUNK_LENGTH_LIMIT + 2 then data else data[..CHUNK_LENGTH_LIMIT + 2]
  }

  function ChunkRound(p: Parser, data: string): (r: Round)
    requires p.chunk.NoData? ==> p.chunkSize > 0
    ensures r.n <= |data| && (r.Next? ==> 0 < r.n)
    ensures p.phase.CheckContent? && p.transferEncoding ==> WellFormed(r.p)
  {
    match p.chunk
    case NoLen =>
      (match Find(Window(data), CRLF)
       case None => Stop(Again, p, 0)
       case Some(i) =>
         if i > CHUNK_LENGTH_LIMIT then Stop(Bad, p, 0)
         else
           var size := ReadNumber(data[..i]);
           if size == 0 then Next(p.(chunkSize := 0, chunk := LastSeen), i + 2)
           else if size == -1 then Stop(Bad, p.(chunkSize := -1), 0)
           else Next(p.(chunkSize := size, chunk := NoData), i + 2))
    case NoData =>
      if |data| < p.chunkSize + 2 then Stop(Again, p, 0)
      else if data[p.chunkSize..p.chunkSize + 2] == CRLF then
        Next(p.(body := p.body + data[..p.chunkSize], chunk := NoLen), p.chunkSize + 2)
      else Stop(Bad, p, 0)
    case LastSeen =>
      if |data| < 2 then Stop(Again, p, 0)
      else if data[..2] == CRLF then Stop(Ok, p.(phase := CheckDone), 2)
      else Stop(Bad, p, 0)
  }

  function ContentRound(p: Parser, data: string): (r: Round)
    requires WellFormed(p) && p.phase.CheckContent?
    ensures r.n <= |data| && (r.Next? ==> 0 < r.n)
    ensures WellFormed(r.p)
  {
    if p.transferEncoding then
      if p.chunked then ChunkRound(p, data) else Stop(Bad, p, 0)
    else if p.contentLength.Some? then
      if p.contentLength.value > |p.body| + |data| then Stop(Again, p, 0)
      else
        var n := p.contentLength.value - |p.body|;
        Stop(Ok, p.(body := p.body + data[..n], phase := CheckDone), n)
    else if p.line.Some? && !p.line.value.httpMethod.Post? then Stop(Ok, p.(phase := CheckDone), 0)
    else Stop(Bad, p, 0)
  }

  /** A body is only gathered from chunks until the request is complete; a chunk being read has a length. */
  predicate WellFormed(p: Parser) {
    && (p.chunk.NoData? ==> p.chunkSize > 0)
    && (p.phase.CheckLine? || p.phase.CheckHeader? ==> p.chunk.NoLen? && p.body == "")
    && (p.phase.CheckContent? && !p.transferEncoding ==> p.body == "")
  }

  function OneRound(env: Env, p: Parser, data: string): (r: Round)
    requires WellFormed(p)
    ensures r.n <= |data| && (r.Next? ==> 0 < r.n)
    ensures WellFormed(r.p)
  {
    match p.phase
    case CheckLine => LineRound(env, p, data)
    case CheckHeader => HeaderRound(env, p, data)
    case CheckContent => ContentRound(p, data)
    case CheckDone => Stop(Ok, p, 0)
  }

  /** The result of a call: verdict, parser and the bytes left in the buffer. */
  datatype Outcome = Outcome(v: Verdict, p: Parser, rest: string)

  /** `parseRequest` on the readable bytes `data`. */
  function Parse(env: Env, p: Parser, data: string): (r: Outcome)
    requires WellFormed(p)
    ensures WellFormed(r.p)
    decreases |data|
  {
    match OneRound(env, p, data)
    case Stop(v, q, n) => Outcome(v, q, data[n..])
    case Next(q, n) => Parse(env, q, data[n..])
  }

  // ---------------------------------------------------------------- splitting the stream

  /** More bytes do not change a round that has not asked for them, and one that has consumed nothing. */
  lemma {:induction false} RoundExtends(env: Env, p: Parser, a: string, b: string)
    requires WellFormed(p)
    ensures var r := OneRound(env, p, a);
            if r.Stop? && r.v == Again then r.n == 0 && r.p == p else OneRound(env, p, a + b) == r
  {
    match p.phase
    case CheckLine => LineExtends(env, p, a, b);
    case CheckHeader => HeaderExtends(env, p, a, b);
    case CheckContent => ContentExtends(p, a, b);
    case CheckDone =>
  }

  lemma {:induction false} LineExtends(env: Env, p: Parser, a: string, b: string)
    ensures var r := LineRound(env, p, a);
            if r.Stop? && r.v == Again then r.n == 0 && r.p == p else LineRound(env, p, a + b) == r
  {
    var f := Find(a, CRLF);
    if f.Some? {
      FindExtends(a, b, CRLF);
      assert (a + b)[..f.value + 2] == a[..f.value + 2];
    }
  }

  lemma {:induction false} HeaderExtends(env: Env, p: Parser, a: string, b: string)
    ensures var r := HeaderRound(env, p, a);
            if r.Stop? && r.v == Again then r.n == 0 && r.p == p else HeaderRound(env, p, a + b) == r
  {
    hide HeaderLines, Framed;
    var f := Find(a, CRLF + CRLF);
    if f.Some? {
      FindExtends(a, b, CRLF + CRLF);
      var h := a[..f.value + 4];
      assert (a + b)[..f.value + 4] == h;
      assert h[|h| - 4..] == a[f.value..f.value + 4];
      BlockIsComplete(h, p.headers, p.headerSize);
    }
  }

  lemma {:induction false} ContentExtends(p: Parser, a: string, b: string)
    requires WellFormed(p) && p.phase.CheckContent?
    ensures var r := ContentRound(p, a);
            if r.Stop? && r.v == Again then r.n == 0 && r.p == p else ContentRound(p, a + b) == r
  {
    if p.transferEncoding && p.chunked {
      ChunkExtends(p, a, b);
    } else if !p.transferEncoding && p.contentLength.Some? && p.contentLength.value <= |a| {
      assert (a + b)[..p.contentLength.value] == a[..p.contentLength.value];
    }
  }

  lemma {:induction false} ChunkExtends(p: Parser, a: string, b: string)
    requires p.chunk.NoData? ==> p.chunkSize > 0
    ensures var r := ChunkRound(p, a);
            if r.Stop? && r.v == Again then r.n == 0 && r.p == p else ChunkRound(p, a + b) == r
  {
    match p.chunk
    case NoLen => LengthExtends(p, a, b);
    case NoData =>
      if |a| >= p.chunkSize + 2 {
        assert (a + b)[..p.chunkSize] == a[..p.chunkSize];
        assert (a + b)[p.chunkSize..p.chunkSize + 2] == a[p.chunkSize..p.chunkSize + 2];
      }
    case LastSeen =>
      if |a| >= 2 { assert (a + b)[..2] == a[..2]; }
  }

  lemma {:induction false} LengthExtends(p: Parser, a: string, b: string)
    requires p.chunk.NoLen?
    ensures var r := ChunkRound(p, a);
            if r.Stop? && r.v == Again then r.n == 0 && r.p == p else ChunkRound(p, a + b) == r
  {
    var w, w' := Window(a), Window(a + b);
    var f := Find(w, CRLF);
    if f.Some? {
      assert w' == w + w'[|w|..];
      FindExtends(w, w'[|w|..], CRLF);
      hide Find;
      assert (a + b)[..f.value] == a[..f.value];
    }
  }

  /** Parsing what has arrived and then the rest is parsing all at once. */
  lemma {:induction false} SplitOnce(env: Env, p: Parser, a: string, b: string)
    requires WellFormed(p)
    ensures var r := Parse(env, p, a);
            Parse(env, p, a + b) == if r.v == Again then Parse(env, r.p, r.rest + b) else Outcome(r.v, r.p, r.rest + b)
    decreases |a|
  {
    hide OneRound, WellFormed;
    RoundExtends(env, p, a, b);
    var r := OneRound(env, p, a);
    assert (a + b)[r.n..] == a[r.n..] + b;
    if r.Next? {
      SplitOnce(env, r.p, a[r.n..], b);
    }
  }

  function Joined(pieces: seq<string>): string {
    if pieces == [] then "" else pieces[0] + Joined(pieces[1..])
  }

  /** Calls `parseRequest` as the pieces arrive, until it no longer asks for more. */
  function Feed(env: Env, p: Parser, buffered: string, pieces: seq<string>): Outcome
    requires WellFormed(p)
    decreases |pieces|
  {
    var r := Parse(env, p, buffered);
    if r.v != Again || pieces == [] then Outcome(r.v, r.p, r.rest + Joined(pieces))
    else Feed(env, r.p, r.rest + pieces[0], pieces[1..])
  }

  /** However the stream is cut, verdict, line, headers, body and the bytes left are those of one call. */
  lemma {:induction false} AnySplit(env: Env, p: Parser, buffered: string, pieces: seq<string>)
    requires WellFormed(p)
    ensures Feed(env, p, buffered, pieces) == Parse(env, p, buffered + Joined(pieces))
    decreases |pieces|
  {
    hide Parse, WellFormed;
    var r := Parse(env, p, buffered);
    SplitOnce(env, p, buffered, Joined(pieces));
    if r.v == Again {
      if pieces == [] {
        AgainIsFinal(env, p, buffered);
        assert buffered + Joined(pieces) == buffered;
        assert r.rest + Joined(pieces) == r.rest;
      } else {
        AnySplit(env, r.p, r.rest + pieces[0], pieces[1..]);
        assert r.rest + pieces[0] + Joined(pieces[1..]) == r.rest + Joined(pieces);
      }
    }
  }

  /** Calling again without new bytes changes nothing. */
  lemma {:induction false} AgainIsFinal(env: Env, p: Parser, a: string)
    requires WellFormed(p) && Parse(env, p, a).v == Again
    ensures var r := Parse(env, p, a); Parse(env, r.p, r.rest) == r
  {
    SplitOnce(env, p, a, "");
    assert a + "" == a;
    var r := Parse(env, p, a);
    assert r.rest + "" == r.rest;
  }

  // ---------------------------------------------------------------- chunks

  /** `int2HexString`: decimal digits, none at all for zero. */
  function WriteNumber(n: nat): (s: string)
    ensures forall i :: 0 <= i < |s| ==> IsDigit(s[i])
  {
    if n == 0 then "" else WriteNumber(n / 10) + [('0' as int + n % 10) as char]
  }

  lemma {:induction false} NumberRoundTrip(n: nat)
    requires n < 0x8000_0000
    ensures ReadNumber(WriteNumber(n)) == n
  {
    if n > 0 {
      NumberRoundTrip(n / 10);
      var s := WriteNumber(n);
      assert s[..|s| - 1] == WriteNumber(n / 10);
    }
  }

  lemma {:induction false} NumberLength(n: nat, k: nat)
    ensures |WriteNumber(n)| <= k <==> n < Pow10(k)
  {
    if n > 0 && k > 0 {
      NumberLength(n / 10, k - 1);
    } else if n == 0 {
      PowPositive(k);
    }
  }

  function Pow10(k: nat): nat {
    if k == 0 then 1 else 10 * Pow10(k - 1)
  }

  lemma {:induction false} PowPositive(k: nat)
    ensures Pow10(k) > 0
  {
    if k > 0 {
      PowPositive(k - 1);
    }
  }

  /** Chunks framed as the parser reads them, then the empty chunk and line. */
  function Framing(chunks: seq<string>): string {
    if chunks == [] then "0" + CRLF + CRLF
    else WriteNumber(|chunks[0]|) + CRLF + (chunks[0] + CRLF + Framing(chunks[1..]))
  }

  /** The first line break after characters none of which is a carriage return. */
  lemma {:induction false} FindAfter(s: string, t: string)
    requires '\r' !in s
    ensures Find(s + CRLF + t, CRLF) == Some(|s|)
  {
    var u := s + CRLF + t;
    if s == [] {
      assert u[..2] == CRLF;
    } else {
      assert u[0] == s[0] && u[..2][0] != '\r';
      assert u[1..] == s[1..] + CRLF + t;
      FindAfter(s[1..], t);
    }
  }

  /** The parser is at the start of a chunk. */
  predicate AtChunk(p: Parser) {
    p.phase.CheckContent? && p.transferEncoding && p.chunked && p.chunk.NoLen?
  }

  lemma {:induction false} LengthRound(p: Parser, digits: string, t: string)
    requires AtChunk(p) && |digits| <= CHUNK_LENGTH_LIMIT && (forall i :: 0 <= i < |digits| ==> IsDigit(digits[i]))
    ensures ChunkRound(p, digits + CRLF + t)
         == match ReadNumber(digits)
            case 0 => Next(p.(chunkSize := 0, chunk := LastSeen), |digits| + 2)
            case -1 => Stop(Bad, p.(chunkSize := -1), 0)
            case n => Next(p.(chunkSize := n, chunk := NoData), |digits| + 2)
  {
    hide Find, Window, ReadNumber;
    LengthFound(digits, t);
  }

  lemma {:induction false} LengthFound(digits: string, t: string)
    requires |digits| <= CHUNK_LENGTH_LIMIT && (forall i :: 0 <= i < |digits| ==> IsDigit(digits[i]))
    ensures Find(Window(digits + CRLF + t), CRLF) == Some(|digits|) && (digits + CRLF + t)[..|digits|] == digits
  {
    var k := if |t| < 5 - |digits| then |t| else 5 - |digits|;
    FindAfter(digits, t[..k]);
    hide Find;
    assert Window(digits + CRLF + t) == digits + CRLF + t[..k];
  }

  lemma {:induction false} DataRound(p: Parser, chunk: string, t: string)
    requires p.phase.CheckContent? && p.transferEncoding && p.chunked && p.chunk.NoData? && p.chunkSize == |chunk| > 0
    ensures ChunkRound(p, chunk + CRLF + t) == Next(p.(body := p.body + chunk, chunk := NoLen), |chunk| + 2)
  {
    var data := chunk + CRLF + t;
    assert data[..|chunk|] == chunk && data[|chunk|..|chunk| + 2] == CRLF;
  }

  /** One framed chunk is read in two rounds. */
  lemma {:induction false} OneChunk(env: Env, p: Parser, chunk: string, t: string)
    requires WellFormed(p) && AtChunk(p) && 1 <= |chunk| <= 99999
    ensures WellFormed(Gathered(p, chunk))
    ensures Parse(env, p, WriteNumber(|chunk|) + CRLF + (chunk + CRLF + t)) == Parse(env, Gathered(p, chunk), t)
  {
    var digits := WriteNumber(|chunk|);
    NumberLength(|chunk|, 5);
    assert Pow10(5) == 100000;
    NumberRoundTrip(|chunk|);
    hide WriteNumber, ReadNumber, ChunkRound;
    var rest := chunk + CRLF + t;
    LengthRound(p, digits, rest);
    var p1 := p.(chunkSize := |chunk|, chunk := NoData);
    assert (digits + CRLF + rest)[|digits| + 2..] == rest;
    assert Parse(env, p, digits + CRLF + rest) == Parse(env, p1, rest);
    DataRound(p1, chunk, t);
    assert rest[|chunk| + 2..] == t;
  }

  /** Chunks whose lengths fit the five digits that are looked at. */
  ghost predicate Sized(chunks: seq<string>) {
    forall i :: 0 <= i < |chunks| ==> 1 <= |chunks[i]| <= 99999
  }

  /** The parser after one more chunk, and after the last one. */
  function Gathered(p: Parser, chunk: string): Parser {
    p.(body := p.body + chunk, chunkSize := |chunk|)
  }

  function Ended(p: Parser, body: string): Parser {
    p.(phase := CheckDone, chunk := LastSeen, chunkSize := 0, body := p.body + body)
  }

  /** Framing any chunks of 1 to 99999 bytes and parsing restores their bytes and leaves what follows. */
  lemma {:induction false} ChunksRoundTrip(env: Env, p: Parser, chunks: seq<string>, tail: string)
    requires WellFormed(p) && AtChunk(p) && Sized(chunks)
    ensures Parse(env, p, Framing(chunks) + tail) == Outcome(Ok, Ended(p, Joined(chunks)), tail)
    decreases |chunks|
  {
    hide Parse, Framing;
    if chunks == [] {
      NoChunks(env, p, tail);
    } else {
      FirstChunk(env, p, chunks, tail);
      ChunksRoundTrip(env, Gathered(p, chunks[0]), chunks[1..], tail);
      assert p.body + chunks[0] + Joined(chunks[1..]) == p.body + Joined(chunks);
    }
  }

  lemma {:induction false} FirstChunk(env: Env, p: Parser, chunks: seq<string>, tail: string)
    requires WellFormed(p) && AtChunk(p) && Sized(chunks) && chunks != []
    ensures var q := Gathered(p, chunks[0]);
            && WellFormed(q) && AtChunk(q) && Sized(chunks[1..])
            && Parse(env, p, Framing(chunks) + tail) == Parse(env, q, Framing(chunks[1..]) + tail)
  {
    FramingHead(chunks, tail);
    hide Parse, Framing, WriteNumber;
    OneChunk(env, p, chunks[0], Framing(chunks[1..]) + tail);
  }

  lemma {:induction false} NoChunks(env: Env, p: Parser, tail: string)
    requires WellFormed(p) && AtChunk(p)
    ensures Parse(env, p, Framing([]) + tail) == Outcome(Ok, Ended(p, Joined([])), tail)
  {
    ReadsZero("0");
    hide Parse, ReadNumber;
    EndsBody(env, p, "0", tail);
    assert Framing([]) + tail == "0" + CRLF + (CRLF + tail);
    assert p.body + Joined([]) == p.body;
  }

  lemma {:induction false} FramingHead(chunks: seq<string>, tail: string)
    requires chunks != []
    ensures Framing(chunks) + tail
         == WriteNumber(|chunks[0]|) + CRLF + (chunks[0] + CRLF + (Framing(chunks[1..]) + tail))
  {
    var n, c, rest := WriteNumber(|chunks[0]|), chunks[0], Framing(chunks[1..]);
    assert Framing(chunks) == n + CRLF + (c + CRLF + rest);
    hide Framing, WriteNumber;
    Assoc(n, c + CRLF + rest, tail);
    Assoc(c, rest, tail);
  }

  lemma {:induction false} ReadsZero(digits: string)
    requires |digits| <= 9 && forall i :: 0 <= i < |digits| ==> IsDigit(digits[i])
    ensures 0 <= ReadNumber(digits) < Pow10(|digits|) && Pow10(|digits|) <= 1000000000
    ensures ReadNumber(digits) == 0 <==> forall i :: 0 <= i < |digits| ==> digits[i] == '0'
  {
    if digits != [] {
      var k := |digits| - 1;
      ReadsZero(digits[..k]);
      assert Pow10(|digits|) == 10 * Pow10(k);
      PowBound(k);
    }
  }

  lemma {:induction false} PowBound(k: nat)
    requires k <= 8
    ensures Pow10(k) <= 100000000
    decreases 8 - k
  {
    if k < 8 { PowBound(k + 1); }
  }

  /** A length line ends the body exactly when its digits, if any, are all zero: an empty line does too. */
  lemma {:induction false} LastChunkLine(p: Parser, digits: string, t: string)
    requires AtChunk(p) && |digits| <= 5 && forall i :: 0 <= i < |digits| ==> IsDigit(digits[i])
    ensures ChunkRound(p, digits + CRLF + t).p.chunk.LastSeen? <==> forall i :: 0 <= i < |digits| ==> digits[i] == '0'
  {
    hide ChunkRound;
    LengthRound(p, digits, t);
    ReadsZero(digits);
  }

  lemma {:induction false} EmptyLengthLineEnds(env: Env, p: Parser, tail: string)
    requires WellFormed(p) && AtChunk(p)
    ensures Parse(env, p, CRLF + (CRLF + tail))
         == Outcome(Ok, p.(phase := CheckDone, chunk := LastSeen, chunkSize := 0), tail)
  {
    EndsBody(env, p, "", tail);
    assert "" + CRLF + (CRLF + tail) == CRLF + (CRLF + tail);
  }

  /** The same for a framed body that arrives in any pieces. */
  lemma {:induction false} ChunksInPieces(env: Env, p: Parser, chunks: seq<string>, pieces: seq<string>)
    requires WellFormed(p) && AtChunk(p) && Sized(chunks)
    requires Joined(pieces) == Framing(chunks)
    ensures Feed(env, p, "", pieces)
         == Outcome(Ok, Ended(p, Joined(chunks)), "")
  {
    AnySplit(env, p, "", pieces);
    ChunksRoundTrip(env, p, chunks, "");
    assert "" + Joined(pieces) == Framing(chunks) + "";
  }

  lemma {:induction false} EndsBody(env: Env, p: Parser, digits: string, tail: string)
    requires WellFormed(p) && AtChunk(p) && |digits| <= CHUNK_LENGTH_LIMIT && ReadNumber(digits) == 0
    requires forall i :: 0 <= i < |digits| ==> IsDigit(digits[i])
    ensures Parse(env, p, digits + CRLF + (CRLF + tail))
         == Outcome(Ok, p.(phase := CheckDone, chunk := LastSeen, chunkSize := 0), tail)
  {
    var rest := CRLF + tail;
    LengthRound(p, digits, rest);
    hide ReadNumber, Find;
    var p1 := p.(chunkSize := 0, chunk := LastSeen);
    assert (digits + CRLF + rest)[|digits| + 2..] == rest;
    assert Parse(env, p, digits + CRLF + rest) == Parse(env, p1, rest);
    assert rest[..2] == CRLF && rest[2..] == tail;
  }

  lemma {:induction false} NoBreak(s: string)
    requires forall i :: 0 <= i < |s| - 1 ==> IsDigit(s[i])
    ensures Find(s, CRLF).None?
    decreases |s|
  {
    if |s| >= 2 {
      assert s[..2][0] == s[0];
      NoBreak(s[1..]);
    }
  }

  /** The bound is sharp: a longer chunk's length line is waited for for ever, never refused. */
  lemma {:induction false} LongChunkStalls(env: Env, p: Parser, n: nat, t: string)
    requires WellFormed(p) && AtChunk(p) && n >= 100000
    ensures Parse(env, p, WriteNumber(n) + CRLF + t) == Outcome(Again, p, WriteNumber(n) + CRLF + t)
  {
    var digits := WriteNumber(n);
    var data := digits + CRLF + t;
    NumberLength(n, 5);
    assert Pow10(5) == 100000;
    assert forall i :: 0 <= i < 6 ==> Window(data)[i] == digits[i];
    NoBreak(Window(data));
    hide Find;
    assert data[0..] == data;
  }

  function HexDigit(d: nat): (c: char)
    requires d < 16
    ensures if d < 10 then IsDigit(c) && c as int - '0' as int == d else 'a' <= c <= 'f'
  {
    (if d < 10 then '0' as int + d else 'a' as int + d - 10) as char
  }

  /** A length in hexadecimal, as section 7.1 of RFC 9112 has it. */
  function Hex(n: nat): (s: string)
    ensures s != "" && forall i :: 0 <= i < |s| ==> IsDigit(s[i]) || 'a' <= s[i] <= 'f'
  {
    (if n < 16 then "" else Hex(n / 16)) + [HexDigit(n % 16)]
  }

  lemma {:induction false} ReadDigit(s: string, c: char)
    ensures var m, d := ReadNumber(s), c as int - '0' as int;
            ReadNumber(s + [c]) == if m == -1 || !IsDigit(c) || Wrap32(m * 10 + d) < 0 then -1 else Wrap32(m * 10 + d)
  {
    assert (s + [c])[..|s|] == s;
  }

  lemma {:induction false} HexStep(high: string, n: nat)
    requires 16 <= n && ReadNumber(high) <= n / 16
    ensures ReadNumber(high + [HexDigit(n % 16)]) < n
  {
    hide Wrap32, ReadNumber, HexDigit;
    ReadDigit(high, HexDigit(n % 16));
    if n < 0x8000_0000 {
      assert ReadNumber(high) * 10 + n % 16 < n / 16 * 16 + n % 16 == n;
    }
  }

  lemma {:induction false} HexSmall(n: nat)
    requires n < 16
    ensures Hex(n) == [HexDigit(n)] && ReadNumber(Hex(n)) == if n < 10 then n else -1
  {
    assert "" + [HexDigit(n)] == [HexDigit(n)] && ReadNumber("") == 0;
    ReadDigit("", HexDigit(n));
    hide ReadNumber, HexDigit;
  }

  lemma {:induction false} HexReadsLow(n: nat)
    ensures ReadNumber(Hex(n)) <= n && (ReadNumber(Hex(n)) == n <==> n < 10) && (n < 10 ==> Hex(n) == [HexDigit(n)])
  {
    hide ReadNumber, HexDigit;
    if n < 16 {
      HexSmall(n);
    } else {
      HexReadsLow(n / 16);
      HexStep(Hex(n / 16), n);
    }
  }

  /** A length line in hexadecimal announces the length it stands for exactly if that is below ten. */
  lemma {:induction false} HexLength(p: Parser, n: nat, t: string)
    requires AtChunk(p)
    ensures ReadNumber(Hex(n)) == n <==> n < 10
    ensures ChunkRound(p, Hex(n) + CRLF + t).p.chunkSize == n && ChunkRound(p, Hex(n) + CRLF + t).Next? <==> n < 10
  {
    HexReadsLow(n);
    var h := Hex(n);
    var data := h + CRLF + t;
    hide ReadNumber, Hex;
    if n < 10 {
      LengthRound(p, h, t);
    } else if Find(Window(data), CRLF).Some? {
      var i := Find(Window(data), CRLF).value;
      BreakFollows(h, t, i);
    }
  }

  /** The break that ends the length line is the first one. */
  lemma {:induction false} BreakFollows(h: string, t: string, i: nat)
    requires '\r' !in h && Find(Window(h + CRLF + t), CRLF) == Some(i)
    ensures i == |h| && (h + CRLF + t)[..i] == h
  {
    var data := h + CRLF + t;
    var w := Window(data);
    FindAfter(h, t);
    assert data == w + data[|w|..];
    FindExtends(w, data[|w|..], CRLF);
  }

  // ---------------------------------------------------------------- whole requests

  /** A header block with the given fields, and the empty line. */
  function Block(fields: seq<(string, string)>): string {
    if fields == [] then CRLF else FieldLine(fields[0]) + CRLF + Block(fields[1..])
  }

  function FieldLine(f: (string, string)): string {
    f.0 + ":" + (" " + f.1)
  }

  /** Names without colon, no line breaks, and values that do not start with a blank. */
  ghost predicate GoodField(f: (string, string)) {
    ':' !in f.0 && '\r' !in f.0 && '\r' !in f.1 && (f.1 != "" ==> f.1[0] != ' ')
  }

  function FieldsSize(fields: seq<(string, string)>): nat {
    if fields == [] then 0 else |fields[0].0| + |fields[0].1| + FieldsSize(fields[1..])
  }

  /** The header map with the fields added, names in lower case, later ones winning. */
  function Added(headers: map<string, string>, fields: seq<(string, string)>): map<string, string>
    decreases |fields|
  {
    if fields == [] then headers else Added(headers[ToLower(fields[0].0) := fields[0].1], fields[1..])
  }

  lemma {:induction false} LineOf(f: (string, string))
    requires GoodField(f)
    ensures HeaderLine(FieldLine(f)) == Some(f) && FieldLine(f) != "" && '\r' !in FieldLine(f)
  {
    var v := " " + f.1;
    HeaderValue(f.0, v);
    hide HeaderLine;
    assert v[1..] == f.1 && TrimLeft(v) == f.1;
    assert f == (f.0, f.1);
  }

  lemma {:induction false} HeaderStep(h: string, headers: map<string, string>, size: nat, i: nat, f: (string, string))
    requires h != [] && !(|h| >= 2 && h[..2] == CRLF) && size <= HEADER_LIMIT
    requires Find(h, CRLF) == Some(i) && i + 2 <= |h| && HeaderLine(h[..i]) == Some(f)
    ensures HeaderLines(h, headers, size) == HeaderLines(h[i + 2..], headers[ToLower(f.0) := f.1], size + |f.0| + |f.1|)
  {
    hide Find, HeaderLine, ToLower;
  }

  lemma {:induction false} LineShape(line: string, rest: string)
    requires line != "" && '\r' !in line
    ensures var h := line + CRLF + rest;
            h != [] && !(|h| >= 2 && h[..2] == CRLF) && h[..|line|] == line && h[|line| + 2..] == rest
  {
    var h := line + CRLF + rest;
    assert line[0] in line && h[0] == line[0];
    assert h[..2][0] == h[0];
  }

  /** One line of the block. */
  lemma {:induction false} OneLine(f: (string, string), rest: string, headers: map<string, string>, size: nat)
    requires GoodField(f) && size <= HEADER_LIMIT
    ensures HeaderLines(FieldLine(f) + CRLF + rest, headers, size)
         == HeaderLines(rest, headers[ToLower(f.0) := f.1], size + |f.0| + |f.1|)
  {
    hide HeaderLines, HeaderLine, Find, GoodField, ToLower, FieldLine;
    LineOf(f);
    var line := FieldLine(f);
    FindAfter(line, rest);
    LineShape(line, rest);
    HeaderStep(line + CRLF + rest, headers, size, |line|, f);
  }

  /** The size of all fields but the last, which is what the loop has seen when it comes to the last line. */
  function Leading(fields: seq<(string, string)>): nat {
    if |fields| <= 1 then 0 else |fields[0].0| + |fields[0].1| + Leading(fields[1..])
  }

  lemma {:induction false} BlockLines(fields: seq<(string, string)>, headers: map<string, string>, size: nat)
    requires forall i :: 0 <= i < |fields| ==> GoodField(fields[i])
    ensures var r := HeaderLines(Block(fields), headers, size);
            if fields == [] || size + Leading(fields) <= 8192
            then r == (Ok, Added(headers, fields), size + FieldsSize(fields)) else r.0 == Bad
    decreases |fields|
  {
    hide HeaderLines, HeaderLine, Find, GoodField, ToLower, FieldLine;
    if fields == [] {
      EmptyBlock(headers, size);
    } else if size > HEADER_LIMIT {
      LineOf(fields[0]);
      LineShape(FieldLine(fields[0]), Block(fields[1..]));
      TooLong(Block(fields), headers, size);
    } else {
      var f := fields[0];
      OneLine(f, Block(fields[1..]), headers, size);
      BlockLines(fields[1..], headers[ToLower(f.0) := f.1], size + |f.0| + |f.1|);
    }
  }

  lemma {:induction false} TooLong(h: string, headers: map<string, string>, size: nat)
    requires h != [] && !(|h| >= 2 && h[..2] == CRLF) && size > HEADER_LIMIT
    ensures HeaderLines(h, headers, size).0 == Bad
  {}

  lemma {:induction false} EmptyBlock(headers: map<string, string>, size: nat)
    ensures HeaderLines(CRLF, headers, size) == (Ok, headers, size)
  {
    assert CRLF[..2] == CRLF;
  }

  lemma {:induction false} FindStep(s: string, pat: string)
    requires 0 < |pat| <= |s| && s[..|pat|] != pat
    ensures var f := Find(s[1..], pat); Find(s, pat) == if f.None? then None else Some(f.value + 1)
  {}

  /** An empty line after `line` and its break, or one found further on. */
  lemma {:induction false} SkipLine(line: string, rest: string)
    requires '\r' !in line && |rest| >= 2
    ensures rest[..2] == CRLF ==> Find(line + CRLF + rest, CRLF + CRLF) == Some(|line|)
    ensures var f := Find(rest, CRLF + CRLF);
            rest[..2] != CRLF && f.Some? ==> Find(line + CRLF + rest, CRLF + CRLF) == Some(|line| + 2 + f.value)
    decreases |line|
  {
    hide Find;
    var s, pat := line + CRLF + rest, CRLF + CRLF;
    if line == "" {
      SkipBreak(rest);
      assert s == CRLF + rest;
    } else {
      assert s[0] == line[0] && line[0] in line && s[..4][0] == s[0];
      FindStep(s, pat);
      assert s[1..] == line[1..] + CRLF + rest;
      SkipLine(line[1..], rest);
    }
  }

  lemma {:induction false} SkipBreak(rest: string)
    requires |rest| >= 2
    ensures rest[..2] == CRLF ==> Find(CRLF + rest, CRLF + CRLF) == Some(0)
    ensures var f := Find(rest, CRLF + CRLF);
            rest[..2] != CRLF && f.Some? ==> Find(CRLF + rest, CRLF + CRLF) == Some(2 + f.value)
  {
    hide Find;
    if rest[..2] == CRLF { BreakHere(rest); } else if Find(rest, CRLF + CRLF).Some? { BreakLater(rest); }
  }

  lemma {:induction false} BreakHere(rest: string)
    requires |rest| >= 2 && rest[..2] == CRLF
    ensures Find(CRLF + rest, CRLF + CRLF) == Some(0)
  {
    FindHere(CRLF + CRLF, rest[2..]);
    hide Find;
    assert CRLF + rest == CRLF + CRLF + rest[2..];
  }

  lemma {:induction false} BreakLater(rest: string)
    requires |rest| >= 2 && rest[..2] != CRLF && Find(rest, CRLF + CRLF).Some?
    ensures Find(CRLF + rest, CRLF + CRLF) == Some(2 + Find(rest, CRLF + CRLF).value)
  {
    hide Find;
    var s, pat := CRLF + rest, CRLF + CRLF;
    NoBreakYet(rest);
    FindStep(s, pat);
    FindStep(s[1..], pat);
  }

  lemma {:induction false} NoBreakYet(rest: string)
    requires |rest| >= 3 && rest[..2] != CRLF
    ensures var s := CRLF + rest; s[..4] != CRLF + CRLF && s[1..][..4] != CRLF + CRLF && s[1..][1..] == rest
  {
    var s := CRLF + rest;
    assert s[..4] == CRLF + rest[..2];
    assert s[1..][..4][0] == '\n';
    assert s[..4][2..] == rest[..2];
    assert (CRLF + CRLF)[2..] == CRLF;
  }

  lemma {:induction false} FindHere(pat: string, t: string)
    ensures Find(pat + t, pat) == Some(0)
  {
    assert (pat + t)[..|pat|] == pat;
  }

  lemma {:induction false} BlockStarts(fields: seq<(string, string)>, t: string)
    requires forall i :: 0 <= i < |fields| ==> GoodField(fields[i])
    ensures var s := Block(fields) + t; |s| >= 2 && (s[..2] == CRLF <==> fields == [])
  {
    if fields != [] {
      LineOf(fields[0]);
      var s, line := Block(fields) + t, FieldLine(fields[0]);
      hide GoodField, FieldLine;
      assert line[0] in line && s[0] == line[0];
      assert s[..2][0] == s[0];
    } else {
      assert (CRLF + t)[..2] == CRLF;
    }
  }

  lemma {:induction false} BlockSplits(fields: seq<(string, string)>, t: string)
    requires fields != []
    ensures Block(fields) + t == FieldLine(fields[0]) + CRLF + (Block(fields[1..]) + t)
    ensures |Block(fields)| == |FieldLine(fields[0])| + 2 + |Block(fields[1..])|
    ensures |fields| == 1 ==> |Block(fields[1..])| == 2
  {
    var line, rest := FieldLine(fields[0]), Block(fields[1..]);
    assert Block(fields) == line + CRLF + rest;
    assert |fields| == 1 ==> rest == CRLF;
    hide FieldLine, Block;
    Assoc(line, rest, t);
  }

  lemma {:induction false} Assoc(line: string, rest: string, t: string)
    ensures line + CRLF + rest + t == line + CRLF + (rest + t)
  {}

  /** The first empty line is the one at the end of the block. */
  lemma {:induction false} BlockEnds(fields: seq<(string, string)>, t: string)
    requires fields != [] && forall i :: 0 <= i < |fields| ==> GoodField(fields[i])
    ensures |Block(fields)| >= 4 && Find(Block(fields) + t, CRLF + CRLF) == Some(|Block(fields)| - 4)
    decreases |fields|
  {
    hide GoodField, Find, FieldLine, Block;
    var line, rest := FieldLine(fields[0]), Block(fields[1..]) + t;
    LineOf(fields[0]);
    BlockStarts(fields[1..], t);
    BlockSplits(fields, t);
    SkipLine(line, rest);
    if |fields| > 1 { BlockEnds(fields[1..], t); }
  }

  /** The parser once the request line and the header block have been read. */
  function Headed(line: Line, fields: seq<(string, string)>): Parser {
    START.(phase := CheckHeader, line := Some(line), headers := Added(map[], fields), headerSize := FieldsSize(fields))
  }

  /**
   A request line and a header block in front of anything are read, and parsing goes on behind them,
   exactly if there is a field and the fields before the last do not pass the limit.
   */
  lemma {:induction false} HeadIsRead(env: Env, text: string, line: Line, fields: seq<(string, string)>, t: string)
    requires '\r' !in text && env.line(text + CRLF) == Some(line)
    requires forall i :: 0 <= i < |fields| ==> GoodField(fields[i])
    requires Framed(env, Headed(line, fields)).Some?
    ensures var p := Framed(env, Headed(line, fields)).value.(phase := CheckContent);
            WellFormed(p) && (Parse(env, START, text + CRLF + (Block(fields) + t)) == Parse(env, p, t)
                              <==> fields != [] && Leading(fields) <= 8192)
  {
    var p := Framed(env, Headed(line, fields)).value.(phase := CheckContent);
    hide Block, Framed, Parse, OneRound;
    ContentStays(env, p, t);
    if fields == [] {
      NoFieldsSwallows(env, text, line, t);
      assert Framed(env, Headed(line, [])) == Some(Headed(line, [])) by {
        FramedNothing(env, line);
      }
      if Find(CRLF + t, CRLF + CRLF).Some? {
        NoFieldsDiffers(env, p, t, Find(CRLF + t, CRLF + CRLF).value);
      }
    } else if Leading(fields) > 8192 {
      LongHeadIsBad(env, text, line, fields, t);
    } else {
      GoodHead(env, text, line, fields, t);
    }
  }

  lemma {:induction false} GoodHead(env: Env, text: string, line: Line, fields: seq<(string, string)>, t: string)
    requires '\r' !in text && env.line(text + CRLF) == Some(line)
    requires fields != [] && (forall i :: 0 <= i < |fields| ==> GoodField(fields[i])) && Leading(fields) <= 8192
    requires Framed(env, Headed(line, fields)).Some?
    ensures var p := Framed(env, Headed(line, fields)).value.(phase := CheckContent);
            WellFormed(p) && Parse(env, START, text + CRLF + (Block(fields) + t)) == Parse(env, p, t)
  {
    var rest := Block(fields) + t;
    var p1 := START.(phase := CheckHeader, line := Some(line));
    LineIsRead(env, text, line, rest);
    BlockIsRead(env, line, fields, t);
    var data, n, m := text + CRLF + rest, |text| + 2, |Block(fields)|;
    assert data[n..] == rest && rest[m..] == t;
    hide LineRound, HeaderRound, Framed, Block, Headed;
    assert Parse(env, START, data) == Parse(env, p1, rest);
  }

  /** Fields before the last that pass the limit make the request a bad one. */
  lemma {:induction false} LongHeadIsBad(env: Env, text: string, line: Line, fields: seq<(string, string)>, t: string)
    requires '\r' !in text && env.line(text + CRLF) == Some(line)
    requires fields != [] && (forall i :: 0 <= i < |fields| ==> GoodField(fields[i])) && Leading(fields) > 8192
    ensures var r := Parse(env, START, text + CRLF + (Block(fields) + t)); r.v == Bad && r.p.phase.CheckHeader?
  {
    var rest := Block(fields) + t;
    var p1 := START.(phase := CheckHeader, line := Some(line));
    LineIsRead(env, text, line, rest);
    LongBlock(env, line, fields, t);
    var data, n := text + CRLF + rest, |text| + 2;
    assert data[n..] == rest;
    hide LineRound, HeaderRound, Framed, Block, Headed;
    assert Parse(env, START, data) == Parse(env, p1, rest);
  }

  lemma {:induction false} LongBlock(env: Env, line: Line, fields: seq<(string, string)>, t: string)
    requires fields != [] && (forall i :: 0 <= i < |fields| ==> GoodField(fields[i])) && Leading(fields) > 8192
    ensures var r := HeaderRound(env, START.(phase := CheckHeader, line := Some(line)), Block(fields) + t);
            r.Stop? && r.v == Bad && r.p.phase.CheckHeader?
  {
    hide Find, HeaderLines, GoodField, Framed, Block, Added;
    BlockEnds(fields, t);
    BlockLines(fields, map[], 0);
    assert (Block(fields) + t)[..|Block(fields)|] == Block(fields);
  }

  lemma {:induction false} FramedNothing(env: Env, line: Line)
    ensures Headed(line, []) == START.(phase := CheckHeader, line := Some(line))
    ensures Framed(env, Headed(line, [])) == Some(Headed(line, []))
  {}

  /**
   A request without a field: the line break of its request line is already gone, so the parser waits
   for the next empty line and drops everything up to it.
   */
  lemma {:induction false} NoFieldsSwallows(env: Env, text: string, line: Line, t: string)
    requires '\r' !in text && env.line(text + CRLF) == Some(line)
    ensures var p := START.(phase := CheckHeader, line := Some(line));
            var r := Parse(env, START, text + CRLF + (Block([]) + t));
            match Find(CRLF + t, CRLF + CRLF)
            case None => r == Outcome(Again, p, CRLF + t)
            case Some(i) => i + 2 <= |t| && r == Parse(env, p.(phase := CheckContent), t[i + 2..])
  {
    var rest := CRLF + t;
    var p := START.(phase := CheckHeader, line := Some(line));
    LineIsRead(env, text, line, rest);
    EmptyHead(env, line, t);
    var data, n := text + CRLF + rest, |text| + 2;
    assert data[n..] == rest && rest[0..] == rest;
    hide LineRound, HeaderRound, Find;
    assert Parse(env, START, data) == Parse(env, p, rest);
    if Find(rest, CRLF + CRLF).Some? {
      var i := Find(rest, CRLF + CRLF).value;
      assert rest[i + 4..] == t[i + 2..];
    }
  }

  lemma {:induction false} EmptyHead(env: Env, line: Line, t: string)
    ensures var p := START.(phase := CheckHeader, line := Some(line));
            var r := HeaderRound(env, p, CRLF + t);
            match Find(CRLF + t, CRLF + CRLF)
            case None => r == Stop(Again, p, 0)
            case Some(i) => r == Next(p.(phase := CheckContent), i + 4)
  {
    hide Find, Framed;
    FramedNothing(env, line);
    var f := Find(CRLF + t, CRLF + CRLF);
    if f.Some? {
      var h := (CRLF + t)[..f.value + 4];
      assert h[..2] == CRLF;
    }
  }

  /** Once the head is read, the outcome is about the content. */
  lemma {:induction false} ContentStays(env: Env, p: Parser, t: string)
    requires WellFormed(p) && p.phase.CheckContent?
    ensures !Parse(env, p, t).p.phase.CheckHeader?
    decreases |t|
  {
    hide Find, ReadNumber;
    var r := OneRound(env, p, t);
    if r.Next? {
      ContentStays(env, r.p, t[r.n..]);
    }
  }

  lemma {:induction false} NoFieldsDiffers(env: Env, p: Parser, t: string, i: nat)
    requires WellFormed(p) && p.phase.CheckContent? && !p.transferEncoding && p.contentLength.None? && i + 2 <= |t|
    ensures Parse(env, p, t[i + 2..]) != Parse(env, p, t)
  {
    var r, r' := Parse(env, p, t), Parse(env, p, t[i + 2..]);
    assert r.rest == t && r'.rest == t[i + 2..];
    assert |r.rest| != |r'.rest|;
  }

  lemma {:induction false} LineIsRead(env: Env, text: string, line: Line, rest: string)
    requires '\r' !in text && env.line(text + CRLF) == Some(line)
    ensures LineRound(env, START, text + CRLF + rest)
         == Next(START.(phase := CheckHeader, line := Some(line)), |text| + 2)
  {
    FindAfter(text, rest);
    hide Find;
    assert (text + CRLF + rest)[..|text| + 2] == text + CRLF;
  }

  lemma {:induction false} BlockIsRead(env: Env, line: Line, fields: seq<(string, string)>, t: string)
    requires fields != [] && (forall i :: 0 <= i < |fields| ==> GoodField(fields[i])) && Leading(fields) <= 8192
    requires Framed(env, Headed(line, fields)).Some?
    ensures HeaderRound(env, START.(phase := CheckHeader, line := Some(line)), Block(fields) + t)
         == Next(Framed(env, Headed(line, fields)).value.(phase := CheckContent), |Block(fields)|)
  {
    hide Find, HeaderLines, GoodField, Framed, Block, Added;
    BlockEnds(fields, t);
    BlockLines(fields, map[], 0);
    assert (Block(fields) + t)[..|Block(fields)|] == Block(fields);
  }

  // ---------------------------------------------------------------- the number methods

  /** `hexString2Int`. */
  method HexString2Int(s: string) returns (res: int)
    ensures res == ReadNumber(s)
  {
    res := 0;
    for i := 0 to |s|
      invariant res >= 0 && res == ReadNumber(s[..i])
    {
      assert s[..i + 1][..i] == s[..i];
      if !IsDigit(s[i]) {
        StaysBad(s, i + 1);
        return -1;
      }
      res := Wrap32(res * 10 + (s[i] as int - '0' as int));
      if res < 0 {
        StaysBad(s, i + 1);
        return -1;
      }
    }
    assert s[..|s|] == s;
  }

  lemma {:induction false} StaysBad(s: string, i: nat)
    requires i <= |s| && ReadNumber(s[..i]) == -1
    ensures ReadNumber(s) == -1
    decreases |s|
  {
    if i == |s| {
      assert s[..i] == s;
    } else {
      assert s[..|s| - 1][..i] == s[..i];
      StaysBad(s[..|s| - 1], i);
    }
  }

  function Reverse(s: string): string {
    if s == [] then [] else Reverse(s[1..]) + [s[0]]
  }

  lemma {:induction false} ReverseSnoc(s: string, c: char)
    ensures Reverse(s + [c]) == [c] + Reverse(s)
  {
    if s != [] {
      assert (s + [c])[1..] == s[1..] + [c];
      ReverseSnoc(s[1..], c);
    }
  }

  method Int2HexString(n: nat) returns (hex: string)
    ensures hex == WriteNumber(n)
  {
    var digits, dec := "", n;
    while dec != 0
      invariant WriteNumber(n) == WriteNumber(dec) + Reverse(digits)
    {
      var c := ('0' as int + dec % 10) as char;
      ReverseSnoc(digits, c);
      digits := digits + [c];
      dec := dec / 10;
    }
    hex := Reverse(digits);
  }

  // ---------------------------------------------------------------- the methods

  lemma {:induction false} LineParse(env: Env, p: Parser, data: string)
    requires WellFormed(p) && p.phase.CheckLine?
    ensures var r := LineRound(env, p, data);
            && WellFormed(r.p)
            && Parse(env, p, data) == if r.Stop? then Outcome(r.v, r.p, data[r.n..]) else Parse(env, r.p, data[r.n..])
  {
    hide LineRound;
  }

  lemma {:induction false} HeaderParse(env: Env, p: Parser, data: string)
    requires WellFormed(p) && p.phase.CheckHeader?
    ensures var r := HeaderRound(env, p, data);
            && WellFormed(r.p)
            && Parse(env, p, data) == if r.Stop? then Outcome(r.v, r.p, data[r.n..]) else Parse(env, r.p, data[r.n..])
  {
    hide HeaderRound;
  }

  lemma {:induction false} DoneParse(env: Env, p: Parser, data: string)
    requires p.phase.CheckDone? && WellFormed(p)
    ensures Parse(env, p, data) == Outcome(Ok, p, data)
  {
    assert data[0..] == data;
  }

  lemma {:induction false} ChunkParse(env: Env, p: Parser, data: string)
    requires WellFormed(p) && p.phase.CheckContent? && p.transferEncoding && p.chunked
    ensures var r := ChunkRound(p, data);
            Parse(env, p, data) == if r.Stop? then Outcome(r.v, r.p, data[r.n..]) else Parse(env, r.p, data[r.n..])
  {
    hide ChunkRound;
  }

  /** `BAD_REQUESTLINE`, `BAD_HEADER` and `BAD_CONTENT`. */
  function ReasonOf(phase: Phase): nat {
    match phase
    case CheckLine => 1
    case CheckHeader => 2
    case CheckContent => 4
    case CheckDone => 0
  }

  function Rank(phase: Phase): nat {
    match phase
    case CheckLine => 3
    case CheckHeader => 2
    case CheckContent => 1
    case CheckDone => 0
  }

  /** A round of the loop in `parseRequest` either goes on with the same parse, or ends it. */
  ghost predicate RoundOk(env: Env, p0: Parser, data0: string, p: Parser, data: string, v: Verdict)
    requires WellFormed(p0)
  {
    if v == Ok then
      WellFormed(p) && Rank(p.phase) < Rank(p0.phase) && Parse(env, p, data) == Parse(env, p0, data0)
    else
      && p.phase == p0.phase && Parse(env, p0, data0).v == v
      && (v != Throws ==> WellFormed(p) && Parse(env, p0, data0) == Outcome(v, p, data))
  }

  lemma {:induction false} LineRoundOk(env: Env, p: Parser, d: string, q: Parser, rest: string, v: Verdict)
    requires WellFormed(p) && p.phase.CheckLine?
    requires var r := LineRound(env, p, d);
             && rest == d[r.n..] && q == r.p.(phase := p.phase) && v == if r.Next? then Ok else r.v
    ensures RoundOk(env, p, d, if v == Ok then q.(phase := CheckHeader) else q, rest, v) && v != Throws
  {
    LineParse(env, p, d);
    hide LineRound, Parse, WellFormed;
  }

  lemma {:induction false} HeaderRoundOk(env: Env, p: Parser, d: string, q: Parser, rest: string, v: Verdict)
    requires WellFormed(p) && p.phase.CheckHeader? && q.phase == p.phase
    requires var r := HeaderRound(env, p, d);
             && rest == d[r.n..] && v == (if r.Next? then Ok else r.v)
             && (v != Throws ==> q == r.p.(phase := p.phase))
    ensures RoundOk(env, p, d, if v == Ok then q.(phase := CheckContent) else q, rest, v)
  {
    HeaderParse(env, p, d);
    hide HeaderRound, Parse, WellFormed;
  }

  class HttpRequest {
    var phase: Phase
    var retState: Verdict
    var reason: nat
    var receiveTime: int
    var line: Option<Line>
    var headers: map<string, string>
    var headerSize: nat
    var contentLength: Option<nat>
    var transferEncoding: bool
    var chunked: bool
    var chunk: ChunkState
    var chunkSize: int
    var body: string
    var data: string         // the readable bytes of the connection's input buffer

    function P(): Parser
      reads this
    {
      Parser(phase, line, headers, headerSize, contentLength, transferEncoding, chunked, chunk, chunkSize, body)
    }

    ghost predicate Valid()
      reads this
    {
      WellFormed(P()) && (phase.CheckDone? ==> retState == Ok)
    }

    constructor ()
      ensures Valid() && P() == START && data == ""
    {
      phase, retState, reason, receiveTime := CheckLine, Again, 0, 0;
      line, headers, headerSize := None, map[], 0;
      contentLength, transferEncoding, chunked := None, false, false;
      chunk, chunkSize, body, data := NoLen, 0, "", "";
    }

    method ParseRequestLine(env: Env) returns (v: Verdict)
      requires Valid() && phase.CheckLine?
      modifies this`line, this`data
      ensures var r := LineRound(env, old(P()), old(data));
              && data == old(data)[r.n..] && P() == r.p.(phase := phase) && v == if r.Next? then Ok else r.v
    {
      var end := Find(data, CRLF);
      if end.None? {
        return Again;
      }
      var view := data[..end.value + 2];
      data := data[end.value + 2..];
      var parsed := env.line(view);
      if parsed.None? {
        return Bad;
      }
      line := parsed;
      return Ok;
    }

    /** The loop over the header block. */
    method ParseHeaderLines(block: string) returns (v: Verdict)
      modifies this`headers, this`headerSize
      ensures (v, headers, headerSize) == HeaderLines(block, old(headers), old(headerSize))
    {
      hide Find, HeaderLine, ToLower;
      ghost var goal := HeaderLines(block, headers, headerSize);
      var header := block;
      while header != ""
        invariant HeaderLines(header, headers, headerSize) == goal
        decreases |header|
      {
        if |header| >= 2 && header[..2] == CRLF {
          return Ok;
        }
        if headerSize > HEADER_LIMIT {
          return Bad;
        }
        var end := Find(header, CRLF);
        if end.None? {
          return Again;
        }
        var field := HeaderLine(header[..end.value]);
        if field.None? {
          return Bad;
        }
        headers := headers[ToLower(field.value.0) := field.value.1];
        headerSize := headerSize + |field.value.0| + |field.value.1|;
        header := header[end.value + 2..];
      }
      return Again;
    }

    method ParseRequestHeader(env: Env) returns (v: Verdict)
      requires Valid() && phase.CheckHeader?
      modifies this`headers, this`headerSize, this`contentLength, this`transferEncoding, this`chunked, this`data
      ensures var r := HeaderRound(env, old(P()), old(data));
              && data == old(data)[r.n..] && v == (if r.Next? then Ok else r.v)
              && (v != Throws ==> P() == r.p.(phase := phase))
    {
      hide HeaderLines, ToLower, Find;
      var end := Find(data, CRLF + CRLF);
      if end.None? {
        return Again;
      }
      var block := data[..end.value + 4];
      data := data[end.value + 4..];
      v := ParseHeaderLines(block);
      if v != Ok {
        return v;
      }
      v := ReadFraming(env);
    }

    method ReadFraming(env: Env) returns (v: Verdict)
      modifies this`contentLength, this`transferEncoding, this`chunked
      ensures var f := Framed(env, old(P()));
              if f.None? then v == Throws else v == Ok && P() == f.value
    {
      hide ToLower;
      v := Ok;
      if "content-length" in headers {
        var n := env.stoul(headers["content-length"]);
        if n.None? {
          return Throws;
        }
        contentLength := n;
      }
      if "transfer-encoding" in headers {
        transferEncoding := true;
        if ToLower(headers["transfer-encoding"]) == "chunked" {
          chunked := true;
        }
      }
    }

    method ParseChunked(env: Env) returns (v: Verdict)
      requires Valid() && phase.CheckContent? && transferEncoding && chunked
      modifies this`chunk, this`chunkSize, this`body, this`data
      ensures Valid()
      ensures Parse(env, old(P()), old(data)) == Outcome(v, if v == Ok then P().(phase := CheckDone) else P(), data)
      ensures v != Throws
    {
      hide Find, ReadNumber, Parse;
      ghost var goal := Parse(env, P(), data);
      while true
        invariant Valid() && Parse(env, P(), data) == goal
        decreases |data|
      {
        ChunkParse(env, P(), data);
        match chunk {
          case NoLen =>
            var pos := Find(Window(data), CRLF);
            if pos.None? {
              return Again;
            }
            if pos.value > CHUNK_LENGTH_LIMIT {
              return Bad;
            }
            chunkSize := ReadNumber(data[..pos.value]);
            if chunkSize == 0 {
              data := data[pos.value + 2..];
              chunk := LastSeen;
              continue;
            }
            if chunkSize == -1 {
              return Bad;
            }
            data := data[pos.value + 2..];
            chunk := NoData;
          case NoData =>
            if |data| < chunkSize + 2 {
              return Again;
            } else if data[chunkSize..chunkSize + 2] == CRLF {
              body := body + data[..chunkSize];
              data := data[chunkSize + 2..];
              chunk := NoLen;
            } else {
              return Bad;
            }
          case LastSeen =>
            if |data| < 2 {
              return Again;
            } else if data[..2] == CRLF {
              data := data[2..];
              return Ok;
            } else {
              return Bad;
            }
        }
      }
    }

    method ParseRequestContent(env: Env) returns (v: Verdict)
      requires Valid() && phase.CheckContent?
      modifies this`chunk, this`chunkSize, this`body, this`data
      ensures if v == Ok then WellFormed(P().(phase := CheckDone)) else Valid()
      ensures Parse(env, old(P()), old(data)) == Outcome(v, if v == Ok then P().(phase := CheckDone) else P(), data)
      ensures v != Throws
    {
      hide ChunkRound;
      if transferEncoding {
        if chunked {
          v := ParseChunked(env);
        } else {
          v := Bad;
        }
      } else if contentLength.Some? {
        if contentLength.value > |body| + |data| {
          return Again;
        }
        var n := contentLength.value - |body|;
        body := body + data[..n];
        data := data[n..];
        v := Ok;
      } else if line.Some? && !line.value.httpMethod.Post? {
        v := Ok;
      } else {
        v := Bad;
      }
    }

    method LinePhase(env: Env, now: int)
      requires Valid() && phase.CheckLine?
      modifies this
      ensures RoundOk(env, old(P()), old(data), P(), data, retState)
      ensures if retState == Ok then reason == old(reason) && receiveTime == now
              else reason == ReasonOf(phase) && receiveTime == old(receiveTime) && retState != Throws
    {
      hide RoundOk, LineRound, WellFormed, Parse, Find;
      ghost var p, d := P(), data;
      retState := ParseRequestLine(env);
      LineRoundOk(env, p, d, P(), data, retState);
      if retState == Ok {
        receiveTime, phase := now, CheckHeader;
      } else {
        reason := ReasonOf(phase);
      }
    }

    method HeaderPhase(env: Env)
      requires Valid() && phase.CheckHeader?
      modifies this
      ensures RoundOk(env, old(P()), old(data), P(), data, retState) && receiveTime == old(receiveTime)
      ensures reason == if retState == Ok || retState == Throws then old(reason) else ReasonOf(phase)
    {
      hide RoundOk, HeaderRound, WellFormed, Parse, Find;
      ghost var p, d := P(), data;
      retState := ParseRequestHeader(env);
      HeaderRoundOk(env, p, d, P(), data, retState);
      if retState == Ok {
        phase := CheckContent;
      } else if retState != Throws {
        reason := ReasonOf(phase);
      }
    }

    method ContentPhase(env: Env)
      requires Valid() && phase.CheckContent?
      modifies this
      ensures RoundOk(env, old(P()), old(data), P(), data, retState) && receiveTime == old(receiveTime)
      ensures reason == (if retState == Ok then old(reason) else ReasonOf(phase)) && retState != Throws
    {
      hide WellFormed, Parse;
      retState := ParseRequestContent(env);
      if retState == Ok {
        phase := CheckDone;
        DoneParse(env, P(), data);
      } else {
        reason := ReasonOf(phase);
      }
    }

    /** A reason is recorded whenever the call does not end in `Ok`, also when it only asks for more bytes. */
    method ParseRequest(env: Env, now: int) returns (v: Verdict)
      requires Valid()
      modifies this
      ensures v != Throws ==> Valid() && Parse(env, old(P()), old(data)) == Outcome(v, P(), data)
      ensures v == Throws <==> Parse(env, old(P()), old(data)).v == Throws
      ensures reason == if v == Again || v == Bad then ReasonOf(phase) else old(reason)
      ensures receiveTime == if old(phase).CheckLine? && !phase.CheckLine? then now else old(receiveTime)
    {
      hide WellFormed;
      ghost var goal := Parse(env, P(), data);
      while !phase.CheckDone?
        invariant Valid() && Parse(env, P(), data) == goal && reason == old(reason) && Rank(phase) <= Rank(old(phase))
        invariant receiveTime == if old(phase).CheckLine? && !phase.CheckLine? then now else old(receiveTime)
        decreases Rank(phase)
      {
        hide Parse;
        match phase {
          case CheckLine => LinePhase(env, now);
          case CheckHeader => HeaderPhase(env);
          case CheckContent => ContentPhase(env);
        }
        if retState != Ok {
          return retState;
        }
      }
      v := retState;
      assert data[0..] == data;
    }
  }
}
