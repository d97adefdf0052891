/**
 The multipart/form-data parser: one state loop over the body. The loop does not advance on
 malformed input, so a parse either ends or is `Stuck` for ever.
 */
module Multipart {
  import opened Letters

  const CRLF := "\r\n"
  const BLOCK_SIZE: nat := 4096

  datatype State =
    | StartBody | StartBoundary | EndBoundary | StartDisposition | EndDisposition
    | StartType | EndType | StartData | EndData | EndBody

  datatype File = File(name: string, filename: string, mime: string, data: string)

  /** The form fields, and the files by name. */
  datatype Store = Store(form: map<string, string>, files: map<string, seq<File>>)

  /** The loop's variables; `rest` is the body from `i` on. */
  datatype Parser = Parser(
    rest: string, state: State, name: string, filename: string, mime: string, data: string, fileMark: bool, store: Store
  )

  datatype Result = Parsed(store: Store) | Stuck

  predicate Starts(s: string, p: string) {
    |p| <= |s| && s[..|p|] == p
  }

  function Lower(c: char): char {
    if 'A' <= c <= 'Z' then (c as int + 32) as char else c
  }

  predicate StartsNoCase(s: string, p: string) {
    |p| <= |s| && forall i :: 0 <= i < |p| ==> Lower(s[i]) == Lower(p[i])
  }

  function Drop(s: string, n: nat): string {
    if n <= |s| then s[n..] else ""
  }

  /** The text between two parts. */
  function Delimiter(boundary: string): string {
    CRLF + "--" + boundary
  }

  // ---------------------------------------------------------------- the inner loops

  /** The loop over the disposition line: what is left, whether its end was found, and both names. */
  function Disposition(s: string, quoted: bool, isName: bool, name: string,
                       filename: string): (r: (string, bool, string, string))
    ensures s != "" ==> |r.0| < |s|
    ensures s == "" ==> r.0 == ""
    decreases |s|
  {
    if s == "" then ("", false, name, filename)
    else if Starts(s, CRLF) then (s[2..], true, name, filename)
    else if Starts(s, "=\"") then Disposition(s[2..], true, isName, name, filename)
    else if s[0] == '\"' then Disposition(s[1..], false, !isName, name, filename)
    else if quoted && isName then Disposition(s[1..], quoted, isName, name + [s[0]], filename)
    else if quoted then Disposition(s[1..], quoted, isName, name, filename + [s[0]])
    else Disposition(s[1..], quoted, isName, name, filename)
  }

  /** The loop over the content type. */
  function TypeLine(s: string, mime: string): (r: (string, bool, string))
    ensures s != "" ==> |r.0| < |s|
    decreases |s|
  {
    if s == "" then ("", false, mime)
    else if Starts(s, CRLF) then (s[2..], true, mime)
    else TypeLine(s[1..], mime + [s[0]])
  }

  predicate AtDelimiter(s: string, boundary: string) {
    4 < |s| && Starts(s, Delimiter(boundary))
  }

  /** How many bytes come before the delimiter, or before the end if there is none. */
  function DataLength(s: string, boundary: string): (n: nat)
    ensures n <= |s| && (n < |s| ==> n + 4 < |s|)
  {
    if s == "" || AtDelimiter(s, boundary) then 0 else 1 + DataLength(s[1..], boundary)
  }

  // ---------------------------------------------------------------- the state loop

  function Stored(store: Store, fileMark: bool, f: File): Store {
    if !fileMark then store.(form := store.form[f.name := f.data])
    else if f.name in store.files then store
    else store.(files := store.files[f.name := [f]])
  }

  // One function for each state of the loop: the parser stands still or makes progress.

  function InBody(m: Parser): (t: Parser)
    ensures t == m || |t.rest| < |m.rest|
  {
    if Starts(m.rest, "--") then m.(rest := m.rest[2..], state := StartBoundary) else m
  }

  function InBoundary(boundary: string, m: Parser): (t: Parser)
    ensures t == m || |t.rest| < |m.rest|
  {
    if !Starts(m.rest, boundary) then m
    else
      var r := m.rest[|boundary|..];
      if Starts(r, CRLF) then m.(rest := r[2..], state := EndBoundary)
      else if Starts(r, "--") then m.(rest := r[2..], state := EndBody)
      else m.(rest := r)
  }

  function AfterBoundaryLine(m: Parser): (t: Parser)
    ensures t == m || |t.rest| < |m.rest|
  {
    if StartsNoCase(m.rest, "Content-Disposition") then m.(rest := m.rest[19..], state := StartDisposition) else m
  }

  function InDisposition(m: Parser): (t: Parser)
    ensures m.rest != "" ==> |t.rest| < |m.rest|
  {
    var (r, found, name, filename) := Disposition(Drop(m.rest, 13), false, true, m.name, m.filename);
    m.(rest := r, name := name, filename := filename, state := if found then EndDisposition else StartDisposition)
  }

  function AfterDisposition(m: Parser): (t: Parser)
    ensures t == m || |t.rest| < |m.rest|
  {
    if Starts(m.rest, CRLF) then m.(rest := m.rest[2..], fileMark := false, state := StartData)
    else if StartsNoCase(m.rest, "Content-Type") then m.(rest := Drop(m.rest, 14), fileMark := true, state := StartType)
    else m
  }

  function InType(m: Parser): (t: Parser)
    ensures m.rest != "" ==> |t.rest| < |m.rest|
  {
    var (r, found, mime) := TypeLine(m.rest, m.mime);
    m.(rest := r, mime := mime, state := if found then EndType else StartType)
  }

  function AfterType(m: Parser): (t: Parser)
    ensures t == m || |t.rest| < |m.rest|
  {
    if Starts(m.rest, CRLF) then m.(rest := m.rest[2..], state := StartData) else m
  }

  function InData(boundary: string, m: Parser): (t: Parser)
    ensures m.rest != "" ==> |t.rest| < |m.rest|
  {
    var s := m.rest;
    var n := DataLength(s, boundary);
    if n < |s| then m.(rest := s[n + 2..], data := m.data + s[..n], state := EndData)
    else m.(rest := "", data := m.data + s[..n - n % BLOCK_SIZE])
  }

  function AfterData(m: Parser): (t: Parser)
    ensures t.rest == m.rest && t.state.StartBody?
  {
    m.(store := Stored(m.store, m.fileMark, File(m.name, m.filename, m.mime, m.data)),
       name := "", filename := "", mime := "", data := "", fileMark := false, state := StartBody)
  }

  function Step(boundary: string, m: Parser): Parser {
    match m.state
    case StartBody => InBody(m)
    case StartBoundary => InBoundary(boundary, m)
    case EndBoundary => AfterBoundaryLine(m)
    case StartDisposition => InDisposition(m)
    case EndDisposition => AfterDisposition(m)
    case StartType => InType(m)
    case EndType => AfterType(m)
    case StartData => InData(boundary, m)
    case EndData => AfterData(m)
    case EndBody => m.(rest := Drop(m.rest, 2))
  }

  lemma {:induction false} DataEnds(s: string, boundary: string)
    ensures var n := DataLength(s, boundary); n < |s| ==> AtDelimiter(s[n..], boundary)
  {
    if s != "" && !AtDelimiter(s, boundary) {
      DataEnds(s[1..], boundary);
      var n := DataLength(s[1..], boundary);
      assert s[1..][n..] == s[n + 1..];
    }
  }

  function Rank(state: State): nat {
    if state.EndData? then 1 else 0
  }

  /** A step leaves everything as it is, or makes progress. */
  lemma {:induction false} StepProgress(boundary: string, m: Parser)
    requires m.rest != ""
    ensures var t := Step(boundary, m);
            t == m || |t.rest| < |m.rest| || (t.rest == m.rest && Rank(t.state) < Rank(m.state))
  {
    hide InBody, InBoundary, AfterBoundaryLine, AfterDisposition, AfterType;
    hide Disposition, TypeLine, DataLength, Stored;
  }

  /** The whole loop. */
  function Run(boundary: string, m: Parser): Result
    decreases |m.rest|, Rank(m.state)
  {
    if m.rest == "" then Parsed(m.store)
    else
      var t := Step(boundary, m);
      if t == m then Stuck
      else
        StepProgress(boundary, m);
        Run(boundary, t)
  }

  function Fresh(body: string, store: Store): Parser {
    Parser(body, StartBody, "", "", "", "", false, store)
  }

  /** `parse`. */
  function Parse(boundary: string, body: string): Result {
    Run(boundary, Fresh(body, Store(map[], map[])))
  }

  // ---------------------------------------------------------------- rendering

  datatype Part = Field(name: string, data: string) | Upload(name: string, filename: string, mime: string, data: string)

  function Names(p: Part): string {
    match p
    case Field(name, _) => "name=\"" + name + "\""
    case Upload(name, filename, _, _) => "name=\"" + name + "\"; filename=\"" + filename + "\""
  }

  function TypeHeader(p: Part): string {
    match p
    case Field(_, _) => ""
    case Upload(_, _, mime, _) => "Content-Type: " + mime + CRLF
  }

  /** Section 5.1.1 of RFC 2046: each part after a delimiter line, then the closing delimiter. */
  function Render(boundary: string, parts: seq<Part>): string {
    if parts == [] then "--" + boundary + "--" + CRLF
    else RenderPart(boundary, parts[0]) + Render(boundary, parts[1..])
  }

  function RenderPart(boundary: string, p: Part): string {
    "--" + boundary + CRLF
    + "Content-Disposition: form-data; " + Names(p) + CRLF
    + TypeHeader(p) + CRLF
    + p.data + CRLF
  }

  // What is left of a rendering after the first delimiter, after its first names and at its first data;
  // `end` is what comes after the closing delimiter.

  function Opened(boundary: string, parts: seq<Part>, end: string): string
    decreases |parts|, 2
  {
    if parts == [] then "--" + end
    else
      CRLF + ("Content-Disposition" + (": form-data; " + (Names(parts[0]) + (CRLF + AfterNames(boundary, parts, end)))))
  }

  function AfterNames(boundary: string, parts: seq<Part>, end: string): string
    requires parts != []
    decreases |parts|, 1
  {
    TypeHeader(parts[0]) + (CRLF + AtData(boundary, parts, end))
  }

  function AtData(boundary: string, parts: seq<Part>, end: string): string
    requires parts != []
    decreases |parts|, 0
  {
    parts[0].data + (CRLF + ("--" + (boundary + Opened(boundary, parts[1..], end))))
  }

  lemma {:induction false} RenderOpens(boundary: string, parts: seq<Part>, epilogue: string)
    ensures Render(boundary, parts) + epilogue == "--" + (boundary + Opened(boundary, parts, CRLF + epilogue))
    decreases |parts|
  {
    var end := CRLF + epilogue;
    if parts == [] {
      assert "--" + boundary + "--" + CRLF + epilogue == "--" + (boundary + ("--" + end));
    } else {
      var p, t := parts[0], "--" + (boundary + Opened(boundary, parts[1..], end));
      RenderOpens(boundary, parts[1..], epilogue);
      hide Names, TypeHeader;
      Regroup("--", boundary, Names(p), TypeHeader(p), p.data, t);
      assert AtData(boundary, parts, end) == p.data + (CRLF + t);
      assert AfterNames(boundary, parts, end) == TypeHeader(p) + (CRLF + (p.data + (CRLF + t)));
      assert RenderPart(boundary, p) + Render(boundary, parts[1..]) + epilogue
          == RenderPart(boundary, p) + (Render(boundary, parts[1..]) + epilogue);
    }
  }

  /** Concatenation is associative, spelled out for one part. */
  lemma {:induction false} Regroup(dashes: string, boundary: string, names: string, types: string, data: string,
                                   t: string)
    ensures dashes + boundary + CRLF
            + "Content-Disposition: form-data; " + names + CRLF
            + types + CRLF
            + data + CRLF + t
         == dashes + (boundary + (CRLF
            + ("Content-Disposition" + (": form-data; " + (names + (CRLF
            + (types + (CRLF
            + (data + (CRLF + t))))))))))
  {
    assert "Content-Disposition: form-data; " == "Content-Disposition" + ": form-data; ";
  }

  // ---------------------------------------------------------------- what parts survive

  predicate Unbroken(s: string) {
    forall i :: 0 <= i < |s| - 1 ==> s[i] != '\r' || s[i + 1] != '\n'
  }

  /** Names without quote or line break that do not end in an equals sign; see `NameReadExactly`. */
  predicate Plain(s: string) {
    Unbroken(s) && '\"' !in s && (s != "" ==> s[|s| - 1] != '=')
  }

  predicate StartsAt(s: string, j: nat, p: string) {
    j <= |s| && Starts(s[j..], p)
  }

  /** The delimiter after the data is the first one. */
  predicate Clean(boundary: string, data: string) {
    forall j :: 0 <= j < |data| ==> !StartsAt(data + Delimiter(boundary), j, Delimiter(boundary))
  }

  predicate Good(boundary: string, p: Part) {
    && Plain(p.name) && Clean(boundary, p.data)
    && (p.Upload? ==> Plain(p.filename) && Unbroken(p.mime))
  }

  /** With a boundary free of carriage returns, data is clean exactly if it does not contain the delimiter. */
  lemma {:induction false} CleanIfFree(boundary: string, data: string)
    requires '\r' !in boundary
    ensures Clean(boundary, data) <==> forall j :: 0 <= j < |data| ==> !StartsAt(data, j, Delimiter(boundary))
  {
    var d := Delimiter(boundary);
    forall j | 0 <= j < |data| ensures StartsAt(data + d, j, d) <==> StartsAt(data, j, d) {
      var s := (data + d)[j..];
      if j + |d| <= |data| {
        assert s[..|d|] == data[j..][..|d|];
      } else {
        var k := |data| - j;
        assert s[k] == d[0] && d[k] != '\r';
        assert s[..|d|][k] == s[k];
      }
    }
  }

  // ---------------------------------------------------------------- the round trip

  function StorePart(store: Store, p: Part): Store {
    match p
    case Field(name, data) => Stored(store, false, File(name, "", "", data))
    case Upload(name, filename, mime, data) => Stored(store, true, File(name, filename, mime, data))
  }

  function StoreAll(store: Store, parts: seq<Part>): Store
    decreases |parts|
  {
    if parts == [] then store else StoreAll(StorePart(store, parts[0]), parts[1..])
  }

  lemma {:induction false} Hop(boundary: string, m: Parser, t: Parser)
    requires m.rest != "" && Step(boundary, m) == t && t != m
    ensures Run(boundary, m) == Run(boundary, t)
  {
    hide Step;
  }

  lemma {:induction false} StartsWith(p: string, t: string)
    ensures Starts(p + t, p) && (p + t)[|p|..] == t
  {}

  /** Outside quotes, plain characters are skipped; inside, they are gathered. */
  lemma {:induction false} PlainRun(s: string, t: string, quoted: bool, isName: bool, name: string, filename: string)
    requires Plain(s) && t != "" && t[0] != '\n'
    ensures Disposition(s + t, quoted, isName, name, filename)
         == if !quoted then Disposition(t, quoted, isName, name, filename)
            else if isName then Disposition(t, quoted, isName, name + s, filename)
            else Disposition(t, quoted, isName, name, filename + s)
    decreases |s|
  {
    if s == "" {
      assert s + t == t && name + s == name && filename + s == filename;
    } else {
      var u := s + t;
      assert u[0] == s[0] && u[1..] == s[1..] + t && s[0] in s;
      assert u[1] == if |s| > 1 then s[1] else t[0];
      assert |s| > 1 ==> s[1] in s;
      assert u[..2][0] == u[0] && u[..2][1] == u[1] && !Starts(u, CRLF) && !Starts(u, "=\"");
      var n := if quoted && isName then name + [s[0]] else name;
      var f := if quoted && !isName then filename + [s[0]] else filename;
      PlainRun(s[1..], t, quoted, isName, n, f);
      assert name + [s[0]] + s[1..] == name + s && filename + [s[0]] + s[1..] == filename + s;
    }
  }

  /** One `key="value"` of the disposition line. */
  lemma {:induction false} OneName(key: string, value: string, t: string, isName: bool, name: string, filename: string)
    requires Plain(key) && Plain(value)
    ensures Disposition(key + ("=\"" + (value + ("\"" + t))), false, isName, name, filename)
         == if isName then Disposition(t, false, false, name + value, filename)
            else Disposition(t, false, true, name, filename + value)
  {
    PlainRun(key, "=\"" + (value + ("\"" + t)), false, isName, name, filename);
    StartsWith("=\"", value + ("\"" + t));
    PlainRun(value, "\"" + t, true, isName, name, filename);
    var u := "\"" + t;
    assert u[0] == '\"' && u[1..] == t && !Starts(u, CRLF) && !Starts(u, "=\"");
    var v := "=\"" + (value + u);
    assert v[0] == '=' && !Starts(v, CRLF);
  }

  lemma {:induction false} NamesRead(p: Part, t: string)
    requires Plain(p.name) && (p.Upload? ==> Plain(p.filename))
    ensures Disposition(Names(p) + (CRLF + t), false, true, "", "")
         == (t, true, p.name, FilenameOf(p))
  {
    match p
    case Field(name, _) => FieldNameRead(name, t);
    case Upload(name, filename, _, _) => UploadNamesRead(name, filename, t);
  }

  lemma {:induction false} LineEnd(t: string, isName: bool, name: string, filename: string)
    ensures Disposition(CRLF + t, false, isName, name, filename) == (t, true, name, filename)
  {
    StartsWith(CRLF, t);
  }

  lemma {:induction false} FieldNameRead(name: string, t: string)
    requires Plain(name)
    ensures Disposition("name=\"" + name + "\"" + (CRLF + t), false, true, "", "") == (t, true, name, "")
  {
    hide Disposition;
    var e := CRLF + t;
    OneName("name", name, e, true, "", "");
    assert "name=\"" + name + "\"" + e == "name" + ("=\"" + (name + ("\"" + e)));
    LineEnd(t, false, name, "");
    assert "" + name == name;
  }

  lemma {:induction false} TwoNames(name: string, filename: string, e: string)
    ensures "name=\"" + name + "\"; filename=\"" + filename + "\"" + e
         == "name" + ("=\"" + (name + ("\"" + ("; filename" + ("=\"" + (filename + ("\"" + e)))))))
  {
    var tail := filename + ("\"" + e);
    assert "\"; filename=\"" + tail == "\"" + ("; filename" + ("=\"" + tail));
  }

  lemma {:induction false} UploadNamesRead(name: string, filename: string, t: string)
    requires Plain(name) && Plain(filename)
    ensures Disposition("name=\"" + name + "\"; filename=\"" + filename + "\"" + (CRLF + t), false, true, "", "")
         == (t, true, name, filename)
  {
    hide Disposition;
    var e := CRLF + t;
    var second := "; filename" + ("=\"" + (filename + ("\"" + e)));
    OneName("name", name, second, true, "", "");
    OneName("; filename", filename, e, false, name, "");
    LineEnd(t, true, name, filename);
    TwoNames(name, filename, e);
    assert "" + name == name && "" + filename == filename;
  }

  /** Quotes never get into the names. */
  lemma {:induction false} NoQuotes(s: string, quoted: bool, isName: bool, name: string, filename: string)
    requires '\"' !in name
    ensures '\"' !in Disposition(s, quoted, isName, name, filename).2
    decreases |s|
  {
    if s != "" && !Starts(s, CRLF) {
      if Starts(s, "=\"") {
        NoQuotes(s[2..], true, isName, name, filename);
      } else if s[0] == '\"' {
        NoQuotes(s[1..], false, !isName, name, filename);
      } else {
        NoQuotes(s[1..], quoted, isName, if quoted && isName then name + [s[0]] else name,
                 if quoted && !isName then filename + [s[0]] else filename);
      }
    }
  }

  /** A name with a line break in it, or an equals sign at its end, is read short. */
  lemma {:induction false} BadNameIsCut(s: string, t: string, name: string)
    requires !Plain(s) && '\"' !in s
    ensures |Disposition(s + ("\"" + (CRLF + t)), true, true, name, "").2| < |name + s|
    decreases |s|
  {
    var u := s + ("\"" + (CRLF + t));
    assert s[0] in s && u[0] == s[0] && u[1] == if |s| > 1 then s[1] else '\"';
    assert u[..2] == [u[0], u[1]] && (|s| > 1 ==> s[1] in s);
    if !Starts(u, CRLF) {
      if |s| == 1 {
        assert s[0] == '=' && u[2..] == CRLF + t;
        LineEndQuoted(t, name);
      } else {
        assert u[1..] == s[1..] + ("\"" + (CRLF + t));
        assert forall i :: 0 <= i < |s[1..]| ==> s[1..][i] in s;
        assert !Plain(s[1..]);
        BadNameIsCut(s[1..], t, name + [s[0]]);
      }
    }
  }

  lemma {:induction false} LineEndQuoted(t: string, name: string)
    ensures Disposition(CRLF + t, true, true, name, "") == (t, true, name, "")
  {
    StartsWith(CRLF, t);
  }

  /** A field's name comes back exactly if it is plain. */
  lemma {:induction false} NameReadExactly(name: string, t: string)
    ensures Disposition(Names(Field(name, "")) + (CRLF + t), false, true, "", "").2 == name <==> Plain(name)
  {
    var e := CRLF + t;
    var u := "name=\"" + name + "\"" + e;
    if Plain(name) {
      FieldNameRead(name, t);
    } else if '\"' in name {
      NoQuotes(u, false, true, "", "");
    } else {
      var v := name + ("\"" + e);
      assert u == "name" + ("=\"" + v);
      PlainRun("name", "=\"" + v, false, true, "", "");
      StartsWith("=\"", v);
      assert ("=\"" + v)[0] == '=' && !Starts("=\"" + v, CRLF);
      BadNameIsCut(name, t, "");
    }
  }

  lemma {:induction false} TypeRead(s: string, t: string, mime: string)
    requires Unbroken(s)
    ensures TypeLine(s + (CRLF + t), mime) == (t, true, mime + s)
    decreases |s|
  {
    var u := s + (CRLF + t);
    if s == "" {
      StartsWith(CRLF, t);
      assert u == CRLF + t && mime + s == mime;
    } else {
      assert u[0] == s[0] && u[1] == if |s| > 1 then s[1] else '\r';
      assert u[..2][1] == u[1] && !Starts(u, CRLF) && u[1..] == s[1..] + (CRLF + t);
      TypeRead(s[1..], t, mime + [s[0]]);
      assert mime + [s[0]] + s[1..] == mime + s;
    }
  }

  lemma {:induction false} CleanStep(boundary: string, data: string)
    requires data != ""
    ensures var d := Delimiter(boundary);
            Clean(boundary, data) <==> !Starts(data + d, d) && Clean(boundary, data[1..])
  {
    var d := Delimiter(boundary);
    assert (data + d)[0..] == data + d;
    assert Starts(data + d, d) <==> StartsAt(data + d, 0, d);
    forall j | 0 <= j < |data| - 1 ensures StartsAt(data[1..] + d, j, d) <==> StartsAt(data + d, j + 1, d) {
      assert (data[1..] + d)[j..] == (data + d)[j + 1..];
    }
    if Clean(boundary, data[1..]) {
      forall j | 1 <= j < |data| ensures !StartsAt(data + d, j, d) {
        assert !StartsAt(data[1..] + d, j - 1, d);
      }
    }
  }

  /** All of the data is read, and nothing behind it, exactly if it is clean. */
  lemma {:induction false} DataRead(boundary: string, data: string, t: string)
    requires t != ""
    ensures DataLength(data + (Delimiter(boundary) + t), boundary) == |data| <==> Clean(boundary, data)
    decreases |data|
  {
    var d := Delimiter(boundary);
    var u := data + (d + t);
    if data == "" {
      StartsWith(d, t);
      assert u == d + t;
    } else {
      assert u[1..] == data[1..] + (d + t);
      assert u[..|d|] == (data + d)[..|d|];
      CleanStep(boundary, data);
      hide Clean;
      DataRead(boundary, data[1..], t);
    }
  }

  function FilenameOf(p: Part): string {
    if p.Upload? then p.filename else ""
  }

  function MimeOf(p: Part): string {
    if p.Upload? then p.mime else ""
  }

  /** From a boundary to the end of the disposition line. */
  lemma {:induction false} ReadsNames(boundary: string, parts: seq<Part>, end: string, store: Store)
    requires parts != [] && Good(boundary, parts[0])
    ensures Run(boundary, Parser(boundary + Opened(boundary, parts, end), StartBoundary, "", "", "", "", false, store))
         == Run(boundary, Parser(AfterNames(boundary, parts, end), EndDisposition, parts[0].name,
                                 FilenameOf(parts[0]), "", "", false, store))
  {
    var p, after := parts[0], AfterNames(boundary, parts, end);
    var x := Names(p) + (CRLF + after);
    assert Opened(boundary, parts, end) == CRLF + ("Content-Disposition" + (": form-data; " + x));
    hide Names, AfterNames, Opened, Run, Clean, Plain;
    ReadsBoundary(boundary, "Content-Disposition" + (": form-data; " + x), store);
    ReadsKeyword(boundary, ": form-data; " + x, store);
    ReadsLine(boundary, p, after, store);
  }

  lemma {:induction false} ReadsBoundary(boundary: string, x: string, store: Store)
    ensures Run(boundary, Parser(boundary + (CRLF + x), StartBoundary, "", "", "", "", false, store))
         == Run(boundary, Parser(x, EndBoundary, "", "", "", "", false, store))
  {
    hide Run;
    hide InBody, AfterBoundaryLine, InDisposition, AfterDisposition, InType, AfterType, InData, AfterData;
    StartsWith(boundary, CRLF + x);
    StartsWith(CRLF, x);
    Hop(boundary, Parser(boundary + (CRLF + x), StartBoundary, "", "", "", "", false, store),
        Parser(x, EndBoundary, "", "", "", "", false, store));
  }

  lemma {:induction false} ReadsKeyword(boundary: string, x: string, store: Store)
    ensures Run(boundary, Parser("Content-Disposition" + x, EndBoundary, "", "", "", "", false, store))
         == Run(boundary, Parser(x, StartDisposition, "", "", "", "", false, store))
  {
    hide Run;
    hide InBody, InBoundary, InDisposition, AfterDisposition, InType, AfterType, InData, AfterData;
    var s := "Content-Disposition" + x;
    StartsWith("Content-Disposition", x);
    assert forall i :: 0 <= i < 19 ==> s[i] == "Content-Disposition"[i];
    Hop(boundary, Parser(s, EndBoundary, "", "", "", "", false, store),
        Parser(x, StartDisposition, "", "", "", "", false, store));
  }

  lemma {:induction false} ReadsLine(boundary: string, p: Part, after: string, store: Store)
    requires Plain(p.name) && (p.Upload? ==> Plain(p.filename))
    ensures Run(boundary, Parser(": form-data; " + (Names(p) + (CRLF + after)), StartDisposition, "", "", "", "", false,
                                 store))
         == Run(boundary, Parser(after, EndDisposition, p.name, FilenameOf(p), "", "", false, store))
  {
    hide Run, Disposition, Names;
    hide InBody, InBoundary, AfterBoundaryLine, AfterDisposition, InType, AfterType, InData, AfterData;
    var x := Names(p) + (CRLF + after);
    NamesRead(p, after);
    StartsWith(": form-data; ", x);
    assert Drop(": form-data; " + x, 13) == x;
    Hop(boundary, Parser(": form-data; " + x, StartDisposition, "", "", "", "", false, store),
        Parser(after, EndDisposition, p.name, FilenameOf(p), "", "", false, store));
  }

  /** From there to the data. */
  lemma {:induction false} ReadsType(boundary: string, parts: seq<Part>, end: string, store: Store)
    requires parts != [] && Good(boundary, parts[0])
    ensures Run(boundary, Parser(AfterNames(boundary, parts, end), EndDisposition, parts[0].name,
                                 FilenameOf(parts[0]), "", "", false, store))
         == Run(boundary, Parser(AtData(boundary, parts, end), StartData, parts[0].name, FilenameOf(parts[0]),
                                 MimeOf(parts[0]), "", parts[0].Upload?, store))
  {
    var p, x := parts[0], AtData(boundary, parts, end);
    TypeText(boundary, parts, end);
    hide AtData, AfterNames, Run, Good, TypeHeader;
    if p.Field? {
      ReadsNoType(boundary, p.name, x, store);
    } else {
      ReadsMime(boundary, p.name, p.filename, p.mime, x, store);
    }
  }

  lemma {:induction false} ReadsNoType(boundary: string, name: string, x: string, store: Store)
    ensures Run(boundary, Parser(CRLF + x, EndDisposition, name, "", "", "", false, store))
         == Run(boundary, Parser(x, StartData, name, "", "", "", false, store))
  {
    hide Run;
    hide InBody, InBoundary, AfterBoundaryLine, InDisposition, InType, AfterType, InData, AfterData;
    StartsWith(CRLF, x);
    Hop(boundary, Parser(CRLF + x, EndDisposition, name, "", "", "", false, store),
        Parser(x, StartData, name, "", "", "", false, store));
  }

  lemma {:induction false} TypeText(boundary: string, parts: seq<Part>, end: string)
    requires parts != [] && Good(boundary, parts[0])
    ensures var p, x := parts[0], AtData(boundary, parts, end);
            && (p.Upload? ==> Unbroken(p.mime))
            && AfterNames(boundary, parts, end)
               == if p.Field? then CRLF + x else "Content-Type: " + (p.mime + (CRLF + (CRLF + x)))
  {
    var p, x := parts[0], AtData(boundary, parts, end);
    assert AfterNames(boundary, parts, end) == TypeHeader(p) + (CRLF + x);
    hide AtData, AfterNames;
    if p.Upload? {
      assert "Content-Type: " + p.mime + CRLF + (CRLF + x) == "Content-Type: " + (p.mime + (CRLF + (CRLF + x)));
    }
  }

  lemma {:induction false} ReadsMime(boundary: string, name: string, filename: string, mime: string, x: string,
                                     store: Store)
    requires Unbroken(mime)
    ensures Run(boundary, Parser("Content-Type: " + (mime + (CRLF + (CRLF + x))), EndDisposition, name, filename, "",
                                 "", false, store))
         == Run(boundary, Parser(x, StartData, name, filename, mime, "", true, store))
  {
    hide Run, TypeLine;
    hide InBody, InBoundary, AfterBoundaryLine, InDisposition, InData, AfterData;
    var line := mime + (CRLF + (CRLF + x));
    var s := "Content-Type: " + line;
    StartsWith("Content-Type: ", line);
    assert s[0] == 'C' && !Starts(s, CRLF);
    assert forall i :: 0 <= i < 12 ==> s[i] == "Content-Type"[i];
    assert Drop(s, 14) == line;
    var m1 := Parser(line, StartType, name, filename, "", "", true, store);
    Hop(boundary, Parser(s, EndDisposition, name, filename, "", "", false, store), m1);
    TypeRead(mime, CRLF + x, "");
    assert "" + mime == mime;
    var m2 := Parser(CRLF + x, EndType, name, filename, mime, "", true, store);
    Hop(boundary, m1, m2);
    StartsWith(CRLF, x);
    Hop(boundary, m2, Parser(x, StartData, name, filename, mime, "", true, store));
  }

  /** From the data to the next boundary. */
  lemma {:induction false} ReadsData(boundary: string, data: string, t: string, name: string, filename: string,
                                     mime: string, mark: bool, store: Store)
    requires Clean(boundary, data) && t != ""
    ensures Run(boundary, Parser(data + (CRLF + ("--" + (boundary + t))), StartData, name, filename, mime, "", mark,
                                 store))
         == Run(boundary, Parser(boundary + t, StartBoundary, "", "", "", "", false,
                                 Stored(store, mark, File(name, filename, mime, data))))
  {
    hide Run, DataLength, Clean;
    hide InBoundary, AfterBoundaryLine, InDisposition, AfterDisposition, InType, AfterType;
    var x := boundary + t;
    var s := data + (CRLF + ("--" + x));
    assert s == data + (Delimiter(boundary) + t);
    DataRead(boundary, data, t);
    assert s[..|data|] == data && s[|data| + 2..] == "--" + x && "" + data == data;
    var m1 := Parser("--" + x, EndData, name, filename, mime, data, mark, store);
    Hop(boundary, Parser(s, StartData, name, filename, mime, "", mark, store), m1);
    var store' := Stored(store, mark, File(name, filename, mime, data));
    var m2 := Parser("--" + x, StartBody, "", "", "", "", false, store');
    Hop(boundary, m1, m2);
    StartsWith("--", x);
    Hop(boundary, m2, Parser(x, StartBoundary, "", "", "", "", false, store'));
  }

  lemma {:induction false} OnePart(boundary: string, parts: seq<Part>, end: string, store: Store)
    requires parts != [] && Good(boundary, parts[0])
    ensures Run(boundary, Parser(boundary + Opened(boundary, parts, end), StartBoundary, "", "", "", "", false, store))
         == Run(boundary, Parser(boundary + Opened(boundary, parts[1..], end), StartBoundary, "", "", "", "", false,
                                 StorePart(store, parts[0])))
  {
    var p, t := parts[0], Opened(boundary, parts[1..], end);
    assert AtData(boundary, parts, end) == p.data + (CRLF + ("--" + (boundary + t)));
    hide Run, Clean, Plain;
    assert t != "" by { OpenedNotEmpty(boundary, parts[1..], end); }
    hide AtData, Opened, AfterNames;
    ReadsNames(boundary, parts, end, store);
    ReadsType(boundary, parts, end, store);
    ReadsData(boundary, p.data, t, p.name, FilenameOf(p), MimeOf(p), p.Upload?, store);
  }

  lemma {:induction false} OpenedNotEmpty(boundary: string, parts: seq<Part>, end: string)
    ensures Opened(boundary, parts, end) != ""
  {}

  /** Behind the closing delimiter nothing is looked at. */
  lemma {:induction false} Epilogue(boundary: string, m: Parser)
    requires m.state.EndBody?
    ensures Run(boundary, m) == Parsed(m.store)
    decreases |m.rest|
  {
    if m.rest != "" { Epilogue(boundary, m.(rest := Drop(m.rest, 2))); }
  }

  lemma {:induction false} Closing(boundary: string, end: string, store: Store)
    ensures Run(boundary, Parser(boundary + ("--" + end), StartBoundary, "", "", "", "", false, store)) == Parsed(store)
  {
    hide Run;
    StartsWith(boundary, "--" + end);
    StartsWith("--", end);
    var r := "--" + end;
    assert r[0] == '-' && !Starts(r, CRLF);
    var m := Parser(end, EndBody, "", "", "", "", false, store);
    Hop(boundary, Parser(boundary + r, StartBoundary, "", "", "", "", false, store), m);
    Epilogue(boundary, m);
  }

  lemma {:induction false} AllParts(boundary: string, parts: seq<Part>, end: string, store: Store)
    requires forall i :: 0 <= i < |parts| ==> Good(boundary, parts[i])
    ensures Run(boundary, Parser(boundary + Opened(boundary, parts, end), StartBoundary, "", "", "", "", false, store))
         == Parsed(StoreAll(store, parts))
    decreases |parts|
  {
    hide Run, Good;
    if parts == [] {
      Closing(boundary, end, store);
    } else {
      OnePart(boundary, parts, end, store);
      AllParts(boundary, parts[1..], end, StorePart(store, parts[0]));
    }
  }

  /**
   Parsing a rendering, whatever comes after it, ends and stores every part: the last value of each
   field, the first file of each name.
   */
  lemma {:induction false} RoundTrip(boundary: string, parts: seq<Part>, epilogue: string)
    requires forall i :: 0 <= i < |parts| ==> Good(boundary, parts[i])
    ensures Parse(boundary, Render(boundary, parts) + epilogue) == Parsed(StoreAll(Store(map[], map[]), parts))
  {
    hide Run, Good, Opened;
    var store := Store(map[], map[]);
    var x := boundary + Opened(boundary, parts, CRLF + epilogue);
    RenderOpens(boundary, parts, epilogue);
    StartsWith("--", x);
    Hop(boundary, Fresh("--" + x, store), Parser(x, StartBoundary, "", "", "", "", false, store));
    AllParts(boundary, parts, CRLF + epilogue, store);
  }

  // ---------------------------------------------------------------- where the loop stands still

  lemma {:induction false} NoCaseIs(s: string, word: string)
    ensures StartsNoCase(s, word) <==> BeginsWith(s, word)
  {}

  /** A body in which anything comes before the first delimiter is never parsed to its end. */
  lemma {:induction false} PreambleSticks(boundary: string, body: string)
    requires body != "" && !("--" <= body)
    ensures Parse(boundary, body) == Stuck
  {
    StuckHere(boundary, Fresh(body, Store(map[], map[])));
  }

  /** Nor is one in which another boundary is where this one is expected. */
  lemma {:induction false} OtherBoundarySticks(boundary: string, m: Parser)
    requires m.state.StartBoundary? && m.rest != "" && !(boundary <= m.rest)
    ensures Run(boundary, m) == Stuck
  {
    StuckHere(boundary, m);
  }

  /** After a delimiter line only a disposition line is accepted, its keyword in any letter case. */
  lemma {:induction false} DispositionExactly(boundary: string, m: Parser)
    requires m.state.EndBoundary? && m.rest != ""
    ensures Run(boundary, m) == if BeginsWith(m.rest, "Content-Disposition")
                                then Run(boundary, m.(rest := m.rest[19..], state := StartDisposition)) else Stuck
  {
    hide Run, SameLetter, Lower;
    NoCaseIs(m.rest, "Content-Disposition");
    if BeginsWith(m.rest, "Content-Disposition") {
      Hop(boundary, m, m.(rest := m.rest[19..], state := StartDisposition));
    } else {
      StuckHere(boundary, m);
    }
  }

  /** And after that an empty line or the content type, in any letter case too. */
  lemma {:induction false} TypeExactly(boundary: string, m: Parser)
    requires m.state.EndDisposition? && m.rest != "" && !(CRLF <= m.rest)
    ensures Run(boundary, m)
         == if BeginsWith(m.rest, "Content-Type")
            then Run(boundary, m.(rest := Drop(m.rest, 14), fileMark := true, state := StartType)) else Stuck
  {
    hide Run, SameLetter, Lower;
    NoCaseIs(m.rest, "Content-Type");
    if BeginsWith(m.rest, "Content-Type") {
      Hop(boundary, m, m.(rest := Drop(m.rest, 14), fileMark := true, state := StartType));
    } else {
      StuckHere(boundary, m);
    }
  }

  /** Part `p` is in the store with exactly its bytes. */
  predicate Holds(store: Store, p: Part) {
    match p
    case Field(name, data) => name in store.form && store.form[name] == data
    case Upload(name, filename, mime, data) =>
      name in store.files && store.files[name] == [File(name, filename, mime, data)]
  }

  /** Both fields or both uploads, with one name. */
  predicate Rivals(p: Part, q: Part) {
    p.Field? == q.Field? && p.name == q.name
  }

  ghost predicate HasRival(parts: seq<Part>, p: Part) {
    exists k :: 0 <= k < |parts| && Rivals(parts[k], p)
  }

  /** `p` is the last of the fields with its name, or the first of the uploads with its name. */
  ghost predicate Wins(parts: seq<Part>, p: Part) {
    exists j :: 0 <= j < |parts| && parts[j] == p && !HasRival(if p.Field? then parts[j + 1..] else parts[..j], p)
  }

  lemma {:induction false} RivalStep(parts: seq<Part>, p: Part)
    requires parts != []
    ensures HasRival(parts, p) <==> Rivals(parts[0], p) || HasRival(parts[1..], p)
  {
    if HasRival(parts, p) && !Rivals(parts[0], p) {
      var k :| 0 <= k < |parts| && Rivals(parts[k], p);
      assert Rivals(parts[1..][k - 1], p);
    }
    if HasRival(parts[1..], p) {
      var k :| 0 <= k < |parts[1..]| && Rivals(parts[1..][k], p);
      assert Rivals(parts[k + 1], p);
    }
  }

  lemma {:induction false} FieldWinStep(parts: seq<Part>, p: Part)
    requires parts != [] && p.Field?
    ensures Wins(parts, p) <==> (parts[0] == p && !HasRival(parts[1..], p)) || Wins(parts[1..], p)
  {
    hide HasRival;
    var rest := parts[1..];
    if Wins(parts, p) {
      var j :| 0 <= j < |parts| && parts[j] == p && !HasRival(parts[j + 1..], p);
      if j > 0 {
        assert rest[j - 1] == p && rest[j..] == parts[j + 1..];
      }
    }
    if Wins(rest, p) {
      var j :| 0 <= j < |rest| && rest[j] == p && !HasRival(rest[j + 1..], p);
      assert parts[j + 1] == p && rest[j + 1..] == parts[j + 2..];
    }
  }

  /** The form after some parts: what a later field replaces is gone. */
  lemma {:induction false} FieldHolds(store: Store, parts: seq<Part>, p: Part)
    requires p.Field?
    ensures Holds(StoreAll(store, parts), p) <==> Wins(parts, p) || (Holds(store, p) && !HasRival(parts, p))
    decreases |parts|
  {
    if parts != [] {
      FieldHolds(StorePart(store, parts[0]), parts[1..], p);
      FieldWinStep(parts, p);
      RivalStep(parts, p);
      hide Wins, HasRival;
    }
  }

  lemma {:induction false} UploadWinStep(parts: seq<Part>, p: Part)
    requires parts != [] && p.Upload?
    ensures Wins(parts, p) <==> parts[0] == p || (!Rivals(parts[0], p) && Wins(parts[1..], p))
  {
    var rest := parts[1..];
    if parts[0] == p {
      assert !HasRival(parts[..0], p);
    } else if Wins(parts, p) {
      var j :| 0 <= j < |parts| && parts[j] == p && !HasRival(parts[..j], p);
      RivalStep(parts[..j], p);
      assert rest[j - 1] == p && rest[..j - 1] == parts[..j][1..];
    } else if Wins(rest, p) {
      var j :| 0 <= j < |rest| && rest[j] == p && !HasRival(rest[..j], p);
      assert parts[j + 1] == p && parts[..j + 1][1..] == rest[..j] && parts[..j + 1][0] == parts[0];
      RivalStep(parts[..j + 1], p);
    }
  }

  /** The uploads after some parts: a name that is taken stays as it is. */
  lemma {:induction false} UploadHolds(store: Store, parts: seq<Part>, p: Part)
    requires p.Upload?
    ensures Holds(StoreAll(store, parts), p) <==> if p.name in store.files then Holds(store, p) else Wins(parts, p)
    decreases |parts|
  {
    if parts != [] {
      UploadHolds(StorePart(store, parts[0]), parts[1..], p);
      UploadWinStep(parts, p);
      hide Wins, HasRival;
    }
  }

  /**
   Of a rendering exactly these come back, byte for byte: the last of the fields with a name and the
   first of the uploads with a name.
   */
  lemma {:induction false} ComesBack(boundary: string, parts: seq<Part>, p: Part)
    requires forall i :: 0 <= i < |parts| ==> Good(boundary, parts[i])
    ensures var r := Parse(boundary, Render(boundary, parts)); r.Parsed? && (Holds(r.store, p) <==> Wins(parts, p))
  {
    hide Good, Wins, Parse, Render;
    RoundTrip(boundary, parts, "");
    assert Render(boundary, parts) + "" == Render(boundary, parts);
    if p.Field? {
      FieldHolds(Store(map[], map[]), parts, p);
    } else {
      UploadHolds(Store(map[], map[]), parts, p);
    }
  }

  /** Parts of one kind and name are the same. */
  predicate Agreeing(parts: seq<Part>) {
    forall i, j :: 0 <= i < |parts| && 0 <= j < |parts| && Rivals(parts[i], parts[j]) ==> parts[i] == parts[j]
  }

  lemma {:induction false} LastRival(parts: seq<Part>, p: Part) returns (j: nat)
    requires HasRival(parts, p)
    ensures j < |parts| && Rivals(parts[j], p) && !HasRival(parts[j + 1..], p)
  {
    if HasRival(parts[1..], p) {
      var k := LastRival(parts[1..], p);
      assert parts[1..][k + 1..] == parts[k + 2..];
      return k + 1;
    }
    RivalStep(parts, p);
    return 0;
  }

  lemma {:induction false} FirstRival(parts: seq<Part>, p: Part) returns (j: nat)
    requires HasRival(parts, p)
    ensures j < |parts| && Rivals(parts[j], p) && !HasRival(parts[..j], p)
  {
    if Rivals(parts[0], p) {
      return 0;
    }
    RivalStep(parts, p);
    var k := FirstRival(parts[1..], p);
    j := k + 1;
    assert parts[..j][1..] == parts[1..][..k] && parts[..j][0] == parts[0];
    RivalStep(parts[..j], p);
  }

  /** Every part comes back exactly if no two fields of one name differ and no two uploads of one name do. */
  lemma {:induction false} EveryPartComesBack(boundary: string, parts: seq<Part>)
    requires forall i :: 0 <= i < |parts| ==> Good(boundary, parts[i])
    ensures var r := Parse(boundary, Render(boundary, parts));
            r.Parsed? && ((forall i :: 0 <= i < |parts| ==> Holds(r.store, parts[i])) <==> Agreeing(parts))
  {
    hide Good, Parse, Render;
    var r := Parse(boundary, Render(boundary, parts));
    RoundTrip(boundary, parts, "");
    assert Render(boundary, parts) + "" == Render(boundary, parts);
    if Agreeing(parts) {
      forall i | 0 <= i < |parts| ensures Holds(r.store, parts[i]) {
        var p := parts[i];
        assert HasRival(parts, p);
        ComesBack(boundary, parts, p);
        if p.Field? {
          var j := LastRival(parts, p);
          assert parts[j] == p;
        } else {
          var j := FirstRival(parts, p);
          assert parts[j] == p;
        }
      }
    }
  }

  // ---------------------------------------------------------------- the methods

  predicate PairAt(body: string, i: nat, c: char, d: char) {
    i + 1 < |body| && body[i] == c && body[i + 1] == d
  }

  lemma {:induction false} DispositionAt(body: string, i: nat, quoted: bool, isName: bool, name: string,
                                         filename: string)
    requires i < |body|
    ensures Disposition(Drop(body, i), quoted, isName, name, filename)
         == if PairAt(body, i, '\r', '\n') then (Drop(body, i + 2), true, name, filename)
            else if PairAt(body, i, '=', '\"') then Disposition(Drop(body, i + 2), true, isName, name, filename)
            else if body[i] == '\"' then Disposition(Drop(body, i + 1), false, !isName, name, filename)
            else Disposition(Drop(body, i + 1), quoted, isName, if quoted && isName then name + [body[i]] else name,
                             if quoted && !isName then filename + [body[i]] else filename)
  {
    var s := Drop(body, i);
    assert s[1..] == Drop(body, i + 1) && s[0] == body[i];
    PairStarts(body, i, '\r', '\n');
    PairStarts(body, i, '=', '\"');
  }

  lemma {:induction false} PairStarts(body: string, i: nat, c: char, d: char)
    requires i < |body|
    ensures PairAt(body, i, c, d) <==> Starts(Drop(body, i), [c, d])
    ensures PairAt(body, i, c, d) ==> Drop(body, i)[2..] == Drop(body, i + 2)
  {
    var s := Drop(body, i);
    assert |s| >= 2 ==> s[..2] == [body[i], body[i + 1]];
  }

  /** The loop over the disposition line. */
  method ReadDisposition(body: string, start: nat, name0: string, filename0: string)
    returns (i: nat, found: bool, name: string, filename: string)
    ensures (Drop(body, i), found, name, filename) == Disposition(Drop(body, start), false, true, name0, filename0)
    ensures start <= i
  {
    var quoted, isName := false, true;
    i, name, filename := start, name0, filename0;
    ghost var goal := Disposition(Drop(body, start), false, true, name0, filename0);
    while i < |body|
      invariant start <= i && Disposition(Drop(body, i), quoted, isName, name, filename) == goal
      decreases |body| - i
    {
      DispositionAt(body, i, quoted, isName, name, filename);
      hide Disposition, Drop;
      if PairAt(body, i, '\r', '\n') {
        i, found := i + 2, true;
        return;
      }
      if PairAt(body, i, '=', '\"') {
        i, quoted := i + 2, true;
      } else if body[i] == '\"' {
        i, quoted, isName := i + 1, false, !isName;
      } else if quoted {
        if isName {
          name := name + [body[i]];
        } else {
          filename := filename + [body[i]];
        }
        i := i + 1;
      } else {
        i := i + 1;
      }
    }
    found := false;
  }

  /** The loop over the content type. */
  method ReadType(body: string, start: nat, mime0: string) returns (i: nat, found: bool, mime: string)
    requires start < |body|
    ensures (Drop(body, i), found, mime) == TypeLine(Drop(body, start), mime0)
    ensures start <= i
  {
    hide TypeLine;
    i, mime := start, mime0;
    ghost var goal := TypeLine(Drop(body, start), mime0);
    while i < |body|
      invariant start <= i && TypeLine(Drop(body, i), mime) == goal
      decreases |body| - i
    {
      TypeLineAt(body, i, mime);
      hide Drop;
      if PairAt(body, i, '\r', '\n') {
        i, found := i + 2, true;
        return;
      } else {
        mime := mime + [body[i]];
        i := i + 1;
      }
    }
    TypeLineEnds(mime);
    found := false;
  }

  lemma {:induction false} TypeLineEnds(mime: string)
    ensures TypeLine("", mime) == ("", false, mime)
  {}

  lemma {:induction false} TypeLineAt(body: string, i: nat, mime: string)
    requires i < |body|
    ensures TypeLine(Drop(body, i), mime)
         == if PairAt(body, i, '\r', '\n') then (Drop(body, i + 2), true, mime)
            else TypeLine(Drop(body, i + 1), mime + [body[i]])
  {
    PairStarts(body, i, '\r', '\n');
    assert Drop(body, i)[1..] == Drop(body, i + 1) && Drop(body, i)[0] == body[i];
  }

  /** Puts one byte into the staging buffer, and empties it into `data0` when it is full. */
  method StageByte(buffer: array<char>, k0: nat, data0: string, c: char) returns (k: nat, data: string)
    requires k0 < buffer.Length == BLOCK_SIZE
    modifies buffer
    ensures k == (if k0 + 1 == BLOCK_SIZE then 0 else k0 + 1)
    ensures data + buffer[..k] == data0 + old(buffer[..k0]) + [c] && |data| == |data0| + k0 + 1 - k
  {
    buffer[k0] := c;
    k, data := k0 + 1, data0;
    assert buffer[..k] == old(buffer[..k0]) + [c];
    if k >= BLOCK_SIZE {
      assert buffer[..] == buffer[..k];
      data := data + buffer[..];
      k := 0;
      assert data + buffer[..0] == data;
    }
  }

  lemma {:induction false} DataLengthAt(body: string, i: nat, boundary: string)
    requires i < |body|
    ensures DataLength(body[i..], boundary)
         == if AtDelimiter(body[i..], boundary) then 0 else 1 + DataLength(body[i + 1..], boundary)
  {
    assert body[i..][1..] == body[i + 1..];
  }

  lemma {:induction false} NextRemainder(x: nat, k: nat)
    requires k == x % BLOCK_SIZE
    ensures (x + 1) % BLOCK_SIZE == if k + 1 == BLOCK_SIZE then 0 else k + 1
  {}

  lemma {:induction false} StagedPrefix(body: string, start: nat, i: nat, data: string, staged: string)
    requires start <= i <= |body| && data + staged == body[start..i]
    ensures data == body[start..][..|data|] && body[start..i] == body[start..][..i - start]
    ensures i < |body| ==> data + staged + [body[i]] == body[start..i + 1]
  {
    assert data == (data + staged)[..|data|];
  }

  /** The loop over the data, staged in blocks of 4096 bytes. */
  method ReadData(body: string, start: nat, boundary: string) returns (i: nat, found: bool, data: string)
    requires start < |body|
    ensures var s := body[start..]; var n := DataLength(s, boundary);
            && found == (n < |s|) && i == (if found then start + n + 2 else |body|)
            && data == if found then s[..n] else s[..n - n % BLOCK_SIZE]
  {
    ghost var n := DataLength(body[start..], boundary);
    var buffer := new char[BLOCK_SIZE];
    var k := 0;
    i, data := start, "";
    hide DataLength, AtDelimiter;
    while i < |body|
      invariant start <= i <= |body| && 0 <= k < BLOCK_SIZE && k == (i - start) % BLOCK_SIZE
      invariant data + buffer[..k] == body[start..i] && |data| == i - start - k
      invariant n == i - start + DataLength(body[i..], boundary)
      decreases |body| - i
    {
      DataLengthAt(body, i, boundary);
      StagedPrefix(body, start, i, data, buffer[..k]);
      if AtDelimiter(body[i..], boundary) {
        if k != 0 {
          data := data + buffer[..k];
        }
        i, found := i + 2, true;
        return;
      }
      NextRemainder(i - start, k);
      k, data := StageByte(buffer, k, data, body[i]);
      i := i + 1;
    }
    StagedPrefix(body, start, i, data, buffer[..k]);
    NoDataLeft(body, boundary);
    found := false;
  }

  lemma {:induction false} NoDataLeft(body: string, boundary: string)
    ensures DataLength(body[|body|..], boundary) == 0
  {}

  class HttpMultiPart {
    const boundary: string
    var store: Store

    constructor (b: string)
      ensures boundary == b && store == Store(map[], map[])
    {
      boundary, store := b, Store(map[], map[]);
    }

    /** `parse`; the original does not return where this reports `stuck`. */
    method ParseBody(body: string) returns (stuck: bool)
      modifies this`store
      ensures var r := Run(boundary, Fresh(body, old(store)));
              if stuck then r.Stuck? else r == Parsed(store)
    {
      var m := Fresh(body, store);
      ghost var goal := Run(boundary, m);
      var i: nat := 0;
      while i < |body|
        invariant m.rest == Drop(body, i) && m.store == store && Run(boundary, m) == goal
        invariant !m.state.EndData? && m.rest != "" ==> m.data == ""
        decreases |m.rest|, Rank(m.state)
      {
        hide Run;
        var n, t := Round(boundary, body, i, m);
        if n == i && t.state == m.state {
          StuckHere(boundary, m);
          return true;
        }
        StepProgress(boundary, m);
        Hop(boundary, m, t);
        i, m := n, t;
        store := t.store;
      }
      stuck := false;
    }
  }

  lemma {:induction false} StuckHere(boundary: string, m: Parser)
    requires m.rest != "" && Step(boundary, m) == m
    ensures Run(boundary, m) == Stuck
  {
    hide Step;
  }

  predicate InHeaders(state: State) {
    state.EndBoundary? || state.StartDisposition? || state.EndDisposition? || state.StartType? || state.EndType?
  }

  /** The rounds that read a part's headers. */
  method HeaderRound(boundary: string, body: string, i: nat, m: Parser) returns (n: nat, t: Parser)
    requires i < |body| && m.rest == Drop(body, i) && InHeaders(m.state)
    ensures t == Step(boundary, m) && t.rest == Drop(body, n)
    ensures n == i && t.state == m.state ==> t == m
    ensures !t.state.EndData? && t.data == m.data
  {
    hide Disposition, TypeLine, DataLength;
    n, t := i, m;
    match m.state {
      case EndBoundary =>
        if StartsNoCase(body[i..], "Content-Disposition") {
          n, t := i + 19, t.(state := StartDisposition);
        }
      case StartDisposition =>
        var found, name, filename;
        assert Drop(m.rest, 13) == Drop(body, i + 13);
        n, found, name, filename := ReadDisposition(body, i + 13, m.name, m.filename);
        t := t.(name := name, filename := filename, state := if found then EndDisposition else StartDisposition);
      case EndDisposition =>
        PairStarts(body, i, '\r', '\n');
        if PairAt(body, i, '\r', '\n') {
          n, t := i + 2, t.(fileMark := false, state := StartData);
        } else if StartsNoCase(body[i..], "Content-Type") {
          assert Drop(m.rest, 14) == Drop(body, i + 14);
          n, t := i + 14, t.(fileMark := true, state := StartType);
        }
      case StartType =>
        var found, mime;
        n, found, mime := ReadType(body, i, m.mime);
        t := t.(mime := mime, state := if found then EndType else StartType);
      case EndType =>
        PairStarts(body, i, '\r', '\n');
        if PairAt(body, i, '\r', '\n') {
          n, t := i + 2, t.(state := StartData);
        }
    }
    t := t.(rest := Drop(body, n));
  }

  /** One round of the state loop at `i`. */
  method Round(boundary: string, body: string, i: nat, m: Parser) returns (n: nat, t: Parser)
    requires i < |body| && m.rest == Drop(body, i) && (!m.state.EndData? ==> m.data == "")
    ensures t == Step(boundary, m) && t.rest == Drop(body, n)
    ensures n == i && t.state == m.state ==> t == m
    ensures !t.state.EndData? && t.rest != "" ==> t.data == ""
  {
    if InHeaders(m.state) {
      n, t := HeaderRound(boundary, body, i, m);
      return;
    }
    hide Disposition, TypeLine, Stored, Delimiter, AtDelimiter;
    n, t := i, m;
    match m.state {
      case StartBody =>
        PairStarts(body, i, '-', '-');
        if PairAt(body, i, '-', '-') {
          n, t := i + 2, t.(state := StartBoundary);
        }
      case StartBoundary =>
        n, t := AfterBoundary(boundary, body, i, m);
      case StartData =>
        var found, data;
        n, found, data := ReadData(body, i, boundary);
        t := t.(data := data, state := if found then EndData else StartData);
      case EndData =>
        t := Parser("", StartBody, "", "", "", "", false,
                    Stored(m.store, m.fileMark, File(m.name, m.filename, m.mime, m.data)));
      case EndBody =>
        n := i + 2;
        assert Drop(m.rest, 2) == Drop(body, i + 2);
    }
    t := t.(rest := Drop(body, n));
  }

  method AfterBoundary(boundary: string, body: string, i: nat, m: Parser) returns (n: nat, t: Parser)
    requires i < |body| && m.rest == Drop(body, i) && m.state.StartBoundary?
    ensures t.(rest := Drop(body, n)) == Step(boundary, m)
    ensures n == i && t.state == m.state ==> t == m
    ensures t == m.(state := t.state) && !t.state.EndData?
  {
    n, t := i, m;
    if Starts(body[i..], boundary) {
      n := i + |boundary|;
      assert body[i..][|boundary|..] == Drop(body, n);
      if n < |body| {
        PairStarts(body, n, '\r', '\n');
        PairStarts(body, n, '-', '-');
      }
      if PairAt(body, n, '\r', '\n') {
        n, t := n + 2, t.(state := EndBoundary);
      } else if PairAt(body, n, '-', '-') {
        n, t := n + 2, t.(state := EndBody);
      }
    }
  }
}
