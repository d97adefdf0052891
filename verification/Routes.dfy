/**
 The route trie: patterns split into segments, `:name` segments match anything. Nodes are values
 here; the original updates its nodes in place, and no node has two parents.
 */
module Routes {

  datatype Option<T> = None | Some(value: T)

  datatype Node = Node(part: string, wild: bool, pattern: string, handler: nat, children: seq<Node>)

  const ROOT := Node("/", false, "", 0, [])

  predicate IsWild(part: string) {
    part != "" && part[0] == ':'
  }

  // ---------------------------------------------------------------- segments

  /** The loop of `Split`: after a slash the next character is not looked at. */
  function SplitFrom(s: string, begin: nat, end: nat): (r: seq<string>)
    requires begin <= |s|
    requires begin <= end
    ensures r != []
    decreases |s| - end
  {
    if end >= |s| then [s[begin..]]
    else if s[end] == '/' then [s[begin..end]] + SplitFrom(s, end + 1, end + 2)
    else SplitFrom(s, begin, end + 1)
  }

  function Split(s: string): (r: seq<string>)
    ensures r != []
  {
    if s != "" && s[0] == '/' then SplitFrom(s, 1, 1) else SplitFrom(s, 0, 0)
  }

  function Join(parts: seq<string>): string {
    if parts == [] then "" else if |parts| == 1 then parts[0] else parts[0] + "/" + Join(parts[1..])
  }

  /** No character is lost: joining the segments gives the text back. */
  lemma {:induction false} JoinSplit(s: string, begin: nat, end: nat)
    requires begin <= |s| && begin <= end
    ensures Join(SplitFrom(s, begin, end)) == s[begin..]
    decreases |s| - end
  {
    if end < |s| {
      if s[end] == '/' {
        JoinSplit(s, end + 1, end + 2);
        var t := SplitFrom(s, end + 1, end + 2);
        assert ([s[begin..end]] + t)[1..] == t;
        assert s[begin..] == s[begin..end] + "/" + s[end + 1..];
      } else {
        JoinSplit(s, begin, end + 1);
      }
    }
  }

  ghost predicate NoSlashes(parts: seq<string>) {
    forall i :: 0 <= i < |parts| ==> '/' !in parts[i]
  }

  /** No segment but the first and the last is empty: the character after a slash is not looked at. */
  ghost predicate MiddleFilled(parts: seq<string>) {
    forall i :: 0 < i < |parts| - 1 ==> parts[i] != ""
  }

  /** Segments without a slash come back exactly when none in the middle is empty. */
  lemma {:induction false} SplitJoin(parts: seq<string>)
    requires parts != [] && NoSlashes(parts)
    ensures Split("/" + Join(parts)) == parts <==> MiddleFilled(parts)
  {
    var s := "/" + Join(parts);
    assert s[1..] == Join(parts);
    WholeSegment(parts, s, 1, 1);
    if |parts| > 1 {
      AfterSlash(parts[1..], s, |parts[0]| + 2);
    }
  }

  lemma {:induction false} JoinHead(parts: seq<string>)
    requires parts != []
    ensures var p, s := parts[0], Join(parts);
            && |p| <= |s| && s[..|p|] == p && (|parts| == 1 ==> s == p)
            && (|parts| > 1 ==> |p| < |s| && s[|p|] == '/' && s[|p| + 1..] == Join(parts[1..]))
  {}

  /** From inside the first segment the scan comes to its end, and goes on after the slash if there is one. */
  lemma {:induction false} WholeSegment(parts: seq<string>, s: string, begin: nat, end: nat)
    requires parts != [] && NoSlashes(parts) && begin <= |s| && s[begin..] == Join(parts)
    requires begin <= end <= begin + |parts[0]|
    ensures var e := begin + |parts[0]|;
            if |parts| == 1 then SplitFrom(s, begin, end) == parts
            else e < |s| && s[e + 1..] == Join(parts[1..])
                 && (SplitFrom(s, begin, end) == parts <==> SplitFrom(s, e + 1, e + 2) == parts[1..])
  {
    var p := parts[0];
    var e := begin + |p|;
    JoinHead(parts);
    HeadAt(s, begin, p);
    Scan(s, begin, end, e);
    hide Join;
    if |parts| > 1 {
      assert s[e] == s[begin..][|p|];
      assert s[e + 1..] == s[begin..][|p| + 1..];
      hide SplitFrom;
      Uncons(p, SplitFrom(s, e + 1, e + 2), parts);
    }
  }

  lemma {:induction false} Uncons(p: string, rest: seq<string>, parts: seq<string>)
    requires parts != [] && p == parts[0]
    ensures [p] + rest == parts <==> rest == parts[1..]
  {
    assert parts == [parts[0]] + parts[1..];
  }

  lemma {:induction false} HeadAt(s: string, begin: nat, p: string)
    requires begin + |p| <= |s| && s[begin..][..|p|] == p
    ensures s[begin..begin + |p|] == p && forall i :: begin <= i < begin + |p| ==> s[i] in p
  {
    assert s[begin..][..|p|] == s[begin..begin + |p|];
    forall i | begin <= i < begin + |p| ensures s[i] in p {
      assert s[begin..begin + |p|][i - begin] == s[i];
    }
  }

  /** The scan passes over characters that are no slash. */
  lemma {:induction false} Scan(s: string, begin: nat, end: nat, e: nat)
    requires begin <= end <= e <= |s| && forall i :: end <= i < e ==> s[i] != '/'
    ensures SplitFrom(s, begin, end) == SplitFrom(s, begin, e)
    decreases e - end
  {
    if end < e { Scan(s, begin, end + 1, e); }
  }

  /** After a slash, only the last segment may be empty. */
  lemma {:induction false} AfterSlash(parts: seq<string>, s: string, begin: nat)
    requires parts != [] && NoSlashes(parts) && begin <= |s| && s[begin..] == Join(parts)
    ensures SplitFrom(s, begin, begin + 1) == parts <==> forall i :: 0 <= i < |parts| - 1 ==> parts[i] != ""
    decreases |parts|
  {
    var p := parts[0];
    if p != "" {
      WholeSegment(parts, s, begin, begin + 1);
      if |parts| > 1 {
        AfterSlash(parts[1..], s, begin + |p| + 1);
        Shifted(parts);
      }
    } else if |parts| > 1 {
      JoinHead(parts);
      FirstIsLong(s, begin, begin + 1);
    }
  }

  lemma {:induction false} Shifted(parts: seq<string>)
    requires parts != [] && parts[0] != ""
    ensures (forall i :: 0 <= i < |parts[1..]| - 1 ==> parts[1..][i] != "")
       <==> (forall i :: 0 <= i < |parts| - 1 ==> parts[i] != "")
  {
    forall i | 0 < i < |parts| ensures parts[i] == parts[1..][i - 1] {}
  }

  lemma {:induction false} FirstIsLong(s: string, begin: nat, end: nat)
    requires begin <= end <= |s|
    ensures |SplitFrom(s, begin, end)[0]| >= end - begin
    decreases |s| - end
  {
    if end < |s| && s[end] != '/' { FirstIsLong(s, begin, end + 1); }
  }

  // ---------------------------------------------------------------- the trie

  predicate Fits(n: Node, part: string) {
    n.part == part || n.wild
  }

  /** `FindChild`: the place of the first child that fits, or the number of children. */
  function FindChild(children: seq<Node>, part: string): (k: nat)
    ensures k <= |children| && (k < |children| ==> Fits(children[k], part))
    ensures forall i :: 0 <= i < k ==> !Fits(children[i], part)
  {
    if children == [] then 0
    else if Fits(children[0], part) then 0
    else 1 + FindChild(children[1..], part)
  }

  /** The child an insertion goes to. */
  function Target(n: Node, part: string): Node {
    var k := FindChild(n.children, part);
    if k < |n.children| then n.children[k] else Node(part, IsWild(part), "", 0, [])
  }

  function Insert(n: Node, parts: seq<string>, pattern: string, handler: nat): (r: Node)
    ensures r.part == n.part && r.wild == n.wild
    decreases |parts|
  {
    if parts == [] then n.(pattern := pattern, handler := handler)
    else
      var k := FindChild(n.children, parts[0]);
      if k == |n.children| then
        n.(children := n.children + [Insert(Node(parts[0], IsWild(parts[0]), "", 0, []), parts[1..], pattern, handler)])
      else n.(children := n.children[k := Insert(n.children[k], parts[1..], pattern, handler)])
  }

  /** `search`: the first hit among the fitting children, depth first. */
  function Search(n: Node, parts: seq<string>): Option<Node>
    decreases |parts|, 1, 0
  {
    if parts == [] then (if n.pattern == "" then None else Some(n)) else SearchIn(n.children, parts)
  }

  function SearchIn(children: seq<Node>, parts: seq<string>): Option<Node>
    requires parts != []
    decreases |parts|, 0, |children|
  {
    if children == [] then None
    else
      var hit := if Fits(children[0], parts[0]) then Search(children[0], parts[1..]) else None;
      if hit.Some? then hit else SearchIn(children[1..], parts)
  }

  /** Segment by segment, a wild one matching anything. */
  predicate Matches(parts: seq<string>, path: seq<string>) {
    |parts| == |path| && forall i :: 0 <= i < |parts| ==> IsWild(parts[i]) || parts[i] == path[i]
  }

  // ---------------------------------------------------------------- shape

  /** Children are wild exactly by their name; a wild child is the last. */
  ghost predicate Siblings(children: seq<Node>) {
    && (forall i :: 0 <= i < |children| ==> (children[i].wild <==> IsWild(children[i].part)))
    && (forall i :: 0 <= i < |children| - 1 ==> !children[i].wild)
  }

  /** At depth `d`, every stored pattern has as many segments as its node is deep. */
  ghost predicate Shaped(n: Node, d: nat) {
    && Siblings(n.children)
    && (n.pattern != "" ==> |Split(n.pattern)| == d)
    && forall i :: 0 <= i < |n.children| ==> Shaped(n.children[i], d + 1)
  }

  lemma {:induction false} InsertKeepsShape(n: Node, parts: seq<string>, pattern: string, handler: nat, d: nat)
    requires Shaped(n, d) && |Split(pattern)| == d + |parts|
    ensures Shaped(Insert(n, parts, pattern, handler), d)
    decreases |parts|
  {
    if parts != [] {
      var k, c := FindChild(n.children, parts[0]), Target(n, parts[0]);
      var r := Insert(n, parts, pattern, handler);
      var x := Insert(c, parts[1..], pattern, handler);
      assert r.children == if k == |n.children| then n.children + [x] else n.children[k := x];
      InsertKeepsShape(c, parts[1..], pattern, handler, d + 1);
      SiblingsKept(n.children, parts[0], x);
      hide Siblings, Split, Insert;
    }
  }

  lemma {:induction false} SiblingsKept(children: seq<Node>, part: string, x: Node)
    requires Siblings(children)
    requires var k := FindChild(children, part);
             if k == |children| then x.part == part && x.wild == IsWild(part)
             else x.part == children[k].part && x.wild == children[k].wild
    ensures var k := FindChild(children, part);
            Siblings(if k == |children| then children + [x] else children[k := x])
  {}

  lemma {:induction false} SearchDepth(n: Node, path: seq<string>, d: nat)
    requires Shaped(n, d) && Search(n, path).Some?
    ensures var m := Search(n, path).value; m.pattern != "" && |Split(m.pattern)| == d + |path|
    decreases |path|, 1, 0
  {
    if path != [] { SearchInDepth(n.children, path, d + 1); }
  }

  lemma {:induction false} SearchInDepth(children: seq<Node>, path: seq<string>, d: nat)
    requires path != [] && (forall i :: 0 <= i < |children| ==> Shaped(children[i], d))
             && SearchIn(children, path).Some?
    ensures var m := SearchIn(children, path).value; m.pattern != "" && |Split(m.pattern)| == d + |path| - 1
    decreases |path|, 0, |children|
  {
    if Fits(children[0], path[0]) && Search(children[0], path[1..]).Some? {
      SearchDepth(children[0], path[1..], d);
    } else {
      SearchInDepth(children[1..], path, d);
    }
  }

  // ---------------------------------------------------------------- every inserted route is found

  /** Where an insertion of `parts` ends. */
  function Walk(n: Node, parts: seq<string>): Option<Node>
    decreases |parts|
  {
    if parts == [] then Some(n)
    else
      var k := FindChild(n.children, parts[0]);
      if k == |n.children| then None else Walk(n.children[k], parts[1..])
  }

  predicate HasRoute(n: Node, parts: seq<string>) {
    Walk(n, parts).Some? && Walk(n, parts).value.pattern != ""
  }

  lemma {:induction false} FindChildIs(children: seq<Node>, part: string, k: nat)
    requires k < |children| && Fits(children[k], part) && forall i :: 0 <= i < k ==> !Fits(children[i], part)
    ensures FindChild(children, part) == k
  {}

  lemma {:induction false} InsertAdds(n: Node, parts: seq<string>, pattern: string, handler: nat)
    requires pattern != ""
    ensures HasRoute(Insert(n, parts, pattern, handler), parts)
    decreases |parts|
  {
    if parts != [] {
      var k := FindChild(n.children, parts[0]);
      var r := Insert(n, parts, pattern, handler);
      FindChildIs(r.children, parts[0], k);
      if k == |n.children| {
        InsertAdds(Node(parts[0], IsWild(parts[0]), "", 0, []), parts[1..], pattern, handler);
      } else {
        InsertAdds(n.children[k], parts[1..], pattern, handler);
      }
    }
  }

  lemma {:induction false} InsertKeepsRoutes(n: Node, parts: seq<string>, pattern: string, handler: nat,
                                             route: seq<string>)
    requires pattern != "" && HasRoute(n, route)
    ensures HasRoute(Insert(n, parts, pattern, handler), route)
    decreases |parts|
  {
    if parts != [] && route != [] {
      var r := Insert(n, parts, pattern, handler);
      var k, j := FindChild(n.children, parts[0]), FindChild(n.children, route[0]);
      FindChildIs(r.children, route[0], j);
      if k == j {
        InsertKeepsRoutes(n.children[k], parts[1..], pattern, handler, route[1..]);
      }
    }
  }

  lemma {:induction false} RouteIsFound(n: Node, parts: seq<string>, path: seq<string>, d: nat)
    requires Shaped(n, d) && HasRoute(n, parts) && Matches(parts, path)
    ensures Search(n, path).Some?
    decreases |path|
  {
    if path != [] {
      var k := FindChild(n.children, parts[0]);
      var c := n.children[k];
      assert Fits(c, path[0]);
      RouteIsFound(c, parts[1..], path[1..], d + 1);
      HitIn(n.children, path, k);
    }
  }

  lemma {:induction false} HitIn(children: seq<Node>, path: seq<string>, k: nat)
    requires path != [] && k < |children| && Fits(children[k], path[0]) && Search(children[k], path[1..]).Some?
    ensures SearchIn(children, path).Some?
    decreases |children|
  {
    if k > 0 { HitIn(children[1..], path, k - 1); }
  }

  // ---------------------------------------------------------------- the route found matches the path

  /** What the labels on the way to a node must say about the pattern stored there. */
  ghost predicate Covers(labels: seq<string>, parts: seq<string>) {
    && |labels| == |parts|
    && forall i :: 0 <= i < |labels| ==> if IsWild(labels[i]) then IsWild(parts[i]) else parts[i] == labels[i]
  }

  ghost predicate Sound(n: Node, labels: seq<string>) {
    && (n.pattern != "" ==> Covers(labels, Split(n.pattern)))
    && forall i :: 0 <= i < |n.children| ==> Sound(n.children[i], labels + [n.children[i].part])
  }

  /** No literal segment falls to a wild child: its literal siblings came first. */
  predicate LiteralsFirst(n: Node, parts: seq<string>)
    decreases |parts|
  {
    parts == [] ||
    var k := FindChild(n.children, parts[0]);
    k == |n.children| ||
    ((n.children[k].wild ==> IsWild(parts[0])) && LiteralsFirst(n.children[k], parts[1..]))
  }

  lemma {:induction false} CoversMore(labels: seq<string>, parts: seq<string>, l: string, p: string)
    requires Covers(labels, parts)
    ensures Covers(labels + [l], parts + [p]) <==> if IsWild(l) then IsWild(p) else p == l
  {
    assert (labels + [l])[|labels|] == l && (parts + [p])[|parts|] == p;
  }

  /** A pattern that its labels do not cover stays uncovered wherever it is put below. */
  lemma {:induction false} InsertUncovered(n: Node, parts: seq<string>, pattern: string, handler: nat,
                                           labels: seq<string>, before: seq<string>)
    requires pattern != "" && Split(pattern) == before + parts && |before| == |labels| && !Covers(labels, before)
    ensures !Sound(Insert(n, parts, pattern, handler), labels)
    decreases |parts|
  {
    var r := Insert(n, parts, pattern, handler);
    if parts == [] {
      assert before + parts == before;
    } else {
      var k := FindChild(n.children, parts[0]);
      var c := if k == |n.children| then Node(parts[0], IsWild(parts[0]), "", 0, []) else n.children[k];
      assert before + parts == before + [parts[0]] + parts[1..];
      assert !Covers(labels + [c.part], before + [parts[0]]) by {
        var i :| 0 <= i < |labels| && !(if IsWild(labels[i]) then IsWild(before[i]) else before[i] == labels[i]);
        assert (labels + [c.part])[i] == labels[i] && (before + [parts[0]])[i] == before[i];
      }
      InsertUncovered(c, parts[1..], pattern, handler, labels + [c.part], before + [parts[0]]);
      assert r.children[k] == Insert(c, parts[1..], pattern, handler);
    }
  }

  /** An insertion keeps the trie sound exactly when no literal falls to a wild child. */
  lemma {:induction false} InsertSound(n: Node, parts: seq<string>, pattern: string, handler: nat, labels: seq<string>,
                                       before: seq<string>)
    requires Sound(n, labels) && Shaped(n, |labels|) && pattern != "" && Split(pattern) == before + parts
             && Covers(labels, before)
    ensures Sound(Insert(n, parts, pattern, handler), labels) <==> LiteralsFirst(n, parts)
    decreases |parts|
  {
    var r := Insert(n, parts, pattern, handler);
    if parts == [] {
      assert before + parts == before;
    } else {
      var k := FindChild(n.children, parts[0]);
      var created := Node(parts[0], IsWild(parts[0]), "", 0, []);
      var c := if k == |n.children| then created else n.children[k];
      var l', b' := labels + [c.part], before + [parts[0]];
      assert before + parts == b' + parts[1..];
      assert r.children[k] == Insert(c, parts[1..], pattern, handler);
      CoversMore(labels, before, c.part, parts[0]);
      if c.wild && !IsWild(parts[0]) {
        InsertUncovered(c, parts[1..], pattern, handler, l', b');
      } else {
        InsertSound(c, parts[1..], pattern, handler, l', b');
        OthersSound(n, r, k, labels);
        if k == |n.children| { assert LiteralsFirst(created, parts[1..]); }
      }
    }
  }

  lemma {:induction false} OthersSound(n: Node, r: Node, k: nat, labels: seq<string>)
    requires Sound(n, labels) && k < |r.children| && r.pattern == n.pattern
             && k <= |n.children| <= |r.children| <= |n.children| + 1
    requires forall i :: 0 <= i < |r.children| && i != k ==> i < |n.children| && r.children[i] == n.children[i]
    ensures Sound(r, labels) <==> Sound(r.children[k], labels + [r.children[k].part])
  {}

  /** The labels admit the path so far. */
  ghost predicate Admits(labels: seq<string>, path: seq<string>) {
    |labels| == |path| && forall i :: 0 <= i < |labels| ==> IsWild(labels[i]) || labels[i] == path[i]
  }

  lemma {:induction false} SearchSound(n: Node, path: seq<string>, labels: seq<string>, before: seq<string>)
    requires Sound(n, labels) && Shaped(n, |labels|) && Admits(labels, before) && Search(n, path).Some?
    ensures Matches(Split(Search(n, path).value.pattern), before + path)
    decreases |path|, 1, 0
  {
    if path == [] {
      assert before + path == before;
    } else {
      SearchInSound(n.children, path, labels, before);
    }
  }

  lemma {:induction false} SearchInSound(children: seq<Node>, path: seq<string>, labels: seq<string>,
                                         before: seq<string>)
    requires path != [] && Admits(labels, before) && SearchIn(children, path).Some?
    requires forall i :: 0 <= i < |children| ==>
               Sound(children[i], labels + [children[i].part]) && Shaped(children[i], |labels| + 1)
               && (children[i].wild <==> IsWild(children[i].part))
    ensures Matches(Split(SearchIn(children, path).value.pattern), before + path)
    decreases |path|, 0, |children|
  {
    var c := children[0];
    if Fits(c, path[0]) && Search(c, path[1..]).Some? {
      assert before + path == before + [path[0]] + path[1..];
      SearchSound(c, path[1..], labels + [c.part], before + [path[0]]);
    } else {
      SearchInSound(children[1..], path, labels, before);
    }
  }

  // ---------------------------------------------------------------- all insertions

  /** The trie after inserting the patterns, the last one last. */
  function Built(ops: seq<(string, nat)>): Node {
    if ops == [] then ROOT
    else
      var (pattern, handler) := ops[|ops| - 1];
      Insert(Built(ops[..|ops| - 1]), Split(pattern), pattern, handler)
  }

  /** No insertion of the sequence lets a literal fall to a wild child. */
  ghost predicate AllLiteralsFirst(ops: seq<(string, nat)>) {
    ops == [] ||
    var n := |ops| - 1;
    AllLiteralsFirst(ops[..n]) && LiteralsFirst(Built(ops[..n]), Split(ops[n].0))
  }

  lemma {:induction false} BuiltShape(ops: seq<(string, nat)>)
    ensures Shaped(Built(ops), 0)
  {
    if ops != [] {
      var n := |ops| - 1;
      BuiltShape(ops[..n]);
      InsertKeepsShape(Built(ops[..n]), Split(ops[n].0), ops[n].0, ops[n].1, 0);
    }
  }

  lemma {:induction false} BuiltRoutes(ops: seq<(string, nat)>)
    requires forall i :: 0 <= i < |ops| ==> ops[i].0 != ""
    ensures forall i :: 0 <= i < |ops| ==> HasRoute(Built(ops), Split(ops[i].0))
  {
    if ops != [] {
      var n := |ops| - 1;
      var t, pattern, handler := Built(ops[..n]), ops[n].0, ops[n].1;
      BuiltRoutes(ops[..n]);
      forall i | 0 <= i < |ops| ensures HasRoute(Built(ops), Split(ops[i].0)) {
        if i == n {
          InsertAdds(t, Split(pattern), pattern, handler);
        } else {
          assert ops[..n][i] == ops[i];
          InsertKeepsRoutes(t, Split(pattern), pattern, handler, Split(ops[i].0));
        }
      }
    }
  }

  lemma {:induction false} RootSound()
    ensures Built([]) == ROOT && Sound(ROOT, [])
  {}

  lemma {:induction false} CoversNone()
    ensures Covers([], [])
  {}

  lemma {:induction false} BuiltSound(ops: seq<(string, nat)>)
    requires (forall i :: 0 <= i < |ops| ==> ops[i].0 != "") && AllLiteralsFirst(ops)
    ensures Sound(Built(ops), [])
  {
    hide LiteralsFirst, Sound, Shaped, Insert, Split, Covers;
    if ops == [] {
      RootSound();
    } else {
      var n := |ops| - 1;
      var t, pattern, handler := Built(ops[..n]), ops[n].0, ops[n].1;
      BuiltSound(ops[..n]);
      BuiltShape(ops[..n]);
      assert [] + Split(pattern) == Split(pattern);
      CoversNone();
      InsertSound(t, Split(pattern), pattern, handler, [], []);
    }
  }

  /**
   After any insertions of patterns that are not empty: a path that matches one of them is found;
   what is found has as many segments as the path; and it matches the path if literals always came
   before a wild sibling.
   */
  lemma {:induction false} SearchIsRight(ops: seq<(string, nat)>, path: seq<string>)
    requires forall i :: 0 <= i < |ops| ==> ops[i].0 != ""
    ensures (exists i :: 0 <= i < |ops| && Matches(Split(ops[i].0), path)) ==> Search(Built(ops), path).Some?
    ensures Search(Built(ops), path).Some? ==> |Split(Search(Built(ops), path).value.pattern)| == |path|
    ensures Search(Built(ops), path).Some? && AllLiteralsFirst(ops) ==>
              Matches(Split(Search(Built(ops), path).value.pattern), path)
  {
    var t := Built(ops);
    BuiltShape(ops);
    BuiltRoutes(ops);
    if i :| 0 <= i < |ops| && Matches(Split(ops[i].0), path) {
      RouteIsFound(t, Split(ops[i].0), path, 0);
    }
    if Search(t, path).Some? {
      SearchDepth(t, path, 0);
      if AllLiteralsFirst(ops) {
        BuiltSound(ops);
        assert [] + path == path;
        SearchSound(t, path, [], []);
      }
    }
  }

  // ---------------------------------------------------------------- the handler found

  /** The node at a place, given by the numbers of the children on the way. */
  function At(n: Node, place: seq<nat>): Option<Node>
    decreases |place|
  {
    if place == [] then Some(n)
    else if place[0] < |n.children| then At(n.children[place[0]], place[1..])
    else None
  }

  /** The place where an insertion of `parts` ends. */
  function PlaceOf(n: Node, parts: seq<string>): (place: seq<nat>)
    ensures |place| == |parts|
    decreases |parts|
  {
    if parts == [] then [] else [FindChild(n.children, parts[0])] + PlaceOf(Target(n, parts[0]), parts[1..])
  }

  /** An insertion writes pattern and handler at its place and nowhere else; nodes it creates on the way have none. */
  lemma {:induction false} InsertWrites(n: Node, parts: seq<string>, pattern: string, handler: nat, place: seq<nat>)
    ensures var before, after := At(n, place), At(Insert(n, parts, pattern, handler), place);
            && (before.Some? ==> after.Some?)
            && if place == PlaceOf(n, parts) then
                 after.Some? && after.value.pattern == pattern && after.value.handler == handler
               else
                 after.Some? ==>
                   && after.value.pattern == (if before.Some? then before.value.pattern else "")
                   && after.value.handler == (if before.Some? then before.value.handler else 0)
    decreases |place|
  {
    if parts != [] && place != [] {
      var k, c := FindChild(n.children, parts[0]), Target(n, parts[0]);
      var r := Insert(n, parts, pattern, handler);
      InsertChild(n, parts, pattern, handler);
      hide Insert, Target;
      assert place == [place[0]] + place[1..];
      if place[0] == k {
        InsertWrites(c, parts[1..], pattern, handler, place[1..]);
        TargetAt(n, parts[0], place);
        assert PlaceOf(n, parts)[1..] == PlaceOf(c, parts[1..]);
      }
    }
  }

  /** The child an insertion goes to is new and bare, or already there. */
  lemma {:induction false} TargetAt(n: Node, part: string, place: seq<nat>)
    requires place != [] && place[0] == FindChild(n.children, part)
    ensures var c := Target(n, part);
            if place[0] < |n.children| then At(n, place) == At(c, place[1..])
            else
              && At(n, place).None? && c.children == [] && c.pattern == "" && c.handler == 0
              && (At(c, place[1..]).Some? <==> |place| == 1)
  {}

  /** The last insertion that ended at the place. */
  function Latest(ops: seq<(string, nat)>, place: seq<nat>): Option<(string, nat)> {
    if ops == [] then None
    else
      var n := |ops| - 1;
      if PlaceOf(Built(ops[..n]), Split(ops[n].0)) == place then Some(ops[n]) else Latest(ops[..n], place)
  }

  lemma {:induction false} LatestIsStored(ops: seq<(string, nat)>, place: seq<nat>)
    ensures var m, l := At(Built(ops), place), Latest(ops, place);
            if l.Some? then m.Some? && (m.value.pattern, m.value.handler) == l.value
            else m.Some? ==> m.value.pattern == ""
  {
    if ops != [] {
      var n := |ops| - 1;
      LatestIsStored(ops[..n], place);
      InsertWrites(Built(ops[..n]), Split(ops[n].0), ops[n].0, ops[n].1, place);
      hide Insert, At, PlaceOf, Split;
    }
  }

  lemma {:induction false} SearchPlace(n: Node, path: seq<string>) returns (place: seq<nat>)
    requires Search(n, path).Some?
    ensures At(n, place) == Search(n, path) && Search(n, path).value.pattern != ""
    decreases |path|, 1, 0
  {
    if path == [] {
      place := [];
    } else {
      var k, rest := SearchInPlace(n.children, path);
      place := [k] + rest;
      assert place[1..] == rest;
    }
  }

  lemma {:induction false} SearchInPlace(children: seq<Node>, path: seq<string>) returns (k: nat, rest: seq<nat>)
    requires path != [] && SearchIn(children, path).Some?
    ensures k < |children| && At(children[k], rest) == SearchIn(children, path)
    ensures SearchIn(children, path).value.pattern != ""
    decreases |path|, 0, |children|
  {
    if Fits(children[0], path[0]) && Search(children[0], path[1..]).Some? {
      k := 0;
      rest := SearchPlace(children[0], path[1..]);
    } else {
      k, rest := SearchInPlace(children[1..], path);
      k := k + 1;
    }
  }

  /** What a search finds is the pattern and the handler of the last insertion that ended at that node. */
  lemma {:induction false} FoundIsLatest(ops: seq<(string, nat)>, path: seq<string>) returns (place: seq<nat>)
    requires Search(Built(ops), path).Some?
    ensures At(Built(ops), place) == Search(Built(ops), path)
    ensures var m := Search(Built(ops), path).value; Latest(ops, place) == Some((m.pattern, m.handler))
  {
    place := SearchPlace(Built(ops), path);
    LatestIsStored(ops, place);
  }

  // ---------------------------------------------------------------- a literal that comes late

  /** `w` is longer than every label and every pattern below the children. */
  ghost predicate Strange(children: seq<Node>, w: string) {
    forall i :: 0 <= i < |children| ==>
                  |children[i].part| < |w| && |children[i].pattern| < |w| && Strange(children[i].children, w)
  }

  /** At least the length of every label and pattern below the children. */
  function Longest(children: seq<Node>): nat {
    if children == [] then 0
    else
      |children[0].part| + |children[0].pattern| + Longest(children[0].children) + Longest(children[1..])
  }

  lemma {:induction false} LongIsStrange(children: seq<Node>, w: string)
    requires Longest(children) < |w|
    ensures Strange(children, w)
  {
    if children != [] {
      LongIsStrange(children[0].children, w);
      LongIsStrange(children[1..], w);
      forall i | 0 <= i < |children|
        ensures |children[i].part| < |w| && |children[i].pattern| < |w| && Strange(children[i].children, w)
      {
        if i > 0 { assert children[i] == children[1..][i - 1]; }
      }
    }
  }

  /** A path that leads a search where the insertion of `parts` leads: the word `w` under every wild node. */
  function PathTo(n: Node, parts: seq<string>, w: string): (path: seq<string>)
    ensures |path| == |parts|
    decreases |parts|
  {
    if parts == [] then []
    else
      var c := Target(n, parts[0]);
      [if c.wild then w else parts[0]] + PathTo(c, parts[1..], w)
  }

  lemma {:induction false} PathIsFollowed(n: Node, parts: seq<string>, pattern: string, handler: nat, w: string)
    requires pattern != "" && Strange(n.children, w) && forall i :: 0 <= i < |parts| ==> |parts[i]| < |w|
    ensures var r := Search(Insert(n, parts, pattern, handler), PathTo(n, parts, w));
            r.Some? && r.value.pattern == pattern
    decreases |parts|
  {
    if parts != [] {
      var k, c := FindChild(n.children, parts[0]), Target(n, parts[0]);
      var r, path := Insert(n, parts, pattern, handler), PathTo(n, parts, w);
      PathIsFollowed(c, parts[1..], pattern, handler, w);
      assert r.children[k] == Insert(c, parts[1..], pattern, handler) && path[1..] == PathTo(c, parts[1..], w);
      forall i | 0 <= i < k ensures !Fits(r.children[i], path[0]) {
        assert r.children[i] == n.children[i] && !Fits(n.children[i], parts[0]);
      }
      FirstHit(r.children, path, k);
    }
  }

  lemma {:induction false} FirstHit(children: seq<Node>, path: seq<string>, k: nat)
    requires path != [] && k < |children| && Fits(children[k], path[0]) && Search(children[k], path[1..]).Some?
    requires forall i :: 0 <= i < k ==> !Fits(children[i], path[0])
    ensures SearchIn(children, path) == Search(children[k], path[1..])
    decreases |children|
  {
    if k > 0 { FirstHit(children[1..], path, k - 1); }
  }

  lemma {:induction false} LateLiteralMismatches(n: Node, parts: seq<string>, w: string)
    requires !LiteralsFirst(n, parts) && forall i :: 0 <= i < |parts| ==> |parts[i]| < |w|
    ensures !Matches(parts, PathTo(n, parts, w))
    decreases |parts|
  {
    var c, path := Target(n, parts[0]), PathTo(n, parts, w);
    if c.wild && !IsWild(parts[0]) {
      assert path[0] == w;
    } else {
      LateLiteralMismatches(c, parts[1..], w);
      var rest := PathTo(c, parts[1..], w);
      var i :| 0 <= i < |rest| && !IsWild(parts[1..][i]) && parts[1..][i] != rest[i];
      assert path[i + 1] == rest[i] && parts[i + 1] == parts[1..][i];
    }
  }

  /** What the search finds for the path, if anything, matches it. */
  predicate FindsRight(t: Node, path: seq<string>) {
    Search(t, path).Some? ==> Matches(Split(Search(t, path).value.pattern), path)
  }

  ghost predicate AlwaysRight(t: Node) {
    forall path :: FindsRight(t, path)
  }

  function WordLength(parts: seq<string>): (m: nat)
    ensures forall i :: 0 <= i < |parts| ==> |parts[i]| <= m
  {
    if parts == [] then 0
    else
      var m := WordLength(parts[1..]);
      if m < |parts[0]| then |parts[0]| else m
  }

  /** In any trie, a literal that falls to a wild child makes some search return a pattern that does not match. */
  lemma {:induction false} LateLiteralGoesWrong(n: Node, pattern: string, handler: nat) returns (path: seq<string>)
    requires pattern != "" && !LiteralsFirst(n, Split(pattern))
    ensures !FindsRight(Insert(n, Split(pattern), pattern, handler), path)
  {
    var parts := Split(pattern);
    var w := seq(WordLength(parts) + Longest(n.children) + 1, _ => 'a');
    LongIsStrange(n.children, w);
    path := PathTo(n, parts, w);
    hide Split, LiteralsFirst, PathTo, Insert, Search;
    PathIsFollowed(n, parts, pattern, handler, w);
    LateLiteralMismatches(n, parts, w);
  }

  /** Where a label is a literal, so is the pattern's segment, and the same one. */
  ghost predicate Follows(labels: seq<string>, parts: seq<string>) {
    |labels| == |parts| && forall i :: 0 <= i < |labels| && !IsWild(labels[i]) ==> parts[i] == labels[i]
  }

  ghost predicate Distinct(children: seq<Node>) {
    forall i, j :: 0 <= i < j < |children| ==> children[i].part != children[j].part
  }

  /** What every insertion keeps, late literals or not: siblings differ, and patterns follow literal labels. */
  ghost predicate Neat(n: Node, labels: seq<string>) {
    && Distinct(n.children)
    && (n.pattern != "" ==> Follows(labels, Split(n.pattern)))
    && forall i :: 0 <= i < |n.children| ==> Neat(n.children[i], labels + [n.children[i].part])
  }

  lemma {:induction false} FollowsMore(labels: seq<string>, parts: seq<string>, l: string, p: string)
    requires Follows(labels, parts) && (IsWild(l) || l == p)
    ensures Follows(labels + [l], parts + [p])
  {}

  lemma {:induction false} DistinctKept(children: seq<Node>, part: string, x: Node)
    requires Distinct(children)
    requires var k := FindChild(children, part); x.part == if k == |children| then part else children[k].part
    ensures var k := FindChild(children, part);
            Distinct(if k == |children| then children + [x] else children[k := x])
  {}

  /** The child an insertion goes to is neat, be it new or not. */
  lemma {:induction false} TargetNeat(n: Node, part: string, labels: seq<string>)
    requires Neat(n, labels) && Shaped(n, |labels|)
    ensures var c := Target(n, part);
            && Neat(c, labels + [c.part]) && Shaped(c, |labels| + 1) && (IsWild(c.part) || c.part == part)
  {
    hide Split, Follows;
  }

  lemma {:induction false} ChildrenNeat(n: Node, part: string, x: Node, labels: seq<string>, r: Node)
    requires Neat(n, labels) && Neat(x, labels + [x.part]) && x.part == Target(n, part).part
    requires r.pattern == n.pattern
             && r.children == var k := FindChild(n.children, part);
                              if k == |n.children| then n.children + [x] else n.children[k := x]
    ensures Neat(r, labels)
  {
    DistinctKept(n.children, part, x);
    hide Distinct, Split, Follows, IsWild;
  }

  lemma {:induction false} InsertChild(n: Node, parts: seq<string>, pattern: string, handler: nat)
    requires parts != []
    ensures var r, k := Insert(n, parts, pattern, handler), FindChild(n.children, parts[0]);
            var x := Insert(Target(n, parts[0]), parts[1..], pattern, handler);
            r.pattern == n.pattern
            && r.children == if k == |n.children| then n.children + [x] else n.children[k := x]
  {}

  lemma {:induction false} InsertHereNeat(n: Node, pattern: string, handler: nat, labels: seq<string>)
    requires Neat(n, labels) && Follows(labels, Split(pattern))
    ensures Neat(Insert(n, [], pattern, handler), labels)
  {
    hide Split, Follows, Distinct;
  }

  lemma {:induction false} InsertNeat(n: Node, parts: seq<string>, pattern: string, handler: nat, labels: seq<string>,
                                      before: seq<string>)
    requires Neat(n, labels) && Shaped(n, |labels|) && Split(pattern) == before + parts && Follows(labels, before)
    ensures Neat(Insert(n, parts, pattern, handler), labels)
    decreases |parts|
  {
    hide Neat, Shaped, Split, Insert, Target, IsWild, Follows;
    if parts == [] {
      assert before + parts == before;
      InsertHereNeat(n, pattern, handler, labels);
    } else {
      var c := Target(n, parts[0]);
      var r, x := Insert(n, parts, pattern, handler), Insert(c, parts[1..], pattern, handler);
      InsertChild(n, parts, pattern, handler);
      assert before + parts == before + [parts[0]] + parts[1..];
      TargetNeat(n, parts[0], labels);
      FollowsMore(labels, before, c.part, parts[0]);
      InsertNeat(c, parts[1..], pattern, handler, labels + [c.part], before + [parts[0]]);
      ChildrenNeat(n, parts[0], x, labels, r);
    }
  }

  lemma {:induction false} BuiltNeat(ops: seq<(string, nat)>)
    ensures Neat(Built(ops), [])
  {
    if ops != [] {
      var n := |ops| - 1;
      BuiltNeat(ops[..n]);
      BuiltShape(ops[..n]);
      assert [] + Split(ops[n].0) == Split(ops[n].0);
      InsertNeat(Built(ops[..n]), Split(ops[n].0), ops[n].0, ops[n].1, [], []);
    }
  }

  lemma {:induction false} SegmentsFit(s: string, begin: nat, end: nat, i: nat)
    requires begin <= |s| && begin <= end && i < |SplitFrom(s, begin, end)|
    ensures |SplitFrom(s, begin, end)[i]| <= |s|
    decreases |s| - end
  {
    if end < |s| {
      if s[end] != '/' {
        SegmentsFit(s, begin, end + 1, i);
      } else if i > 0 {
        SegmentsFit(s, end + 1, end + 2, i - 1);
      }
    }
  }

  /** The path that the labels lead along, with the word `w` under every wild one. */
  ghost predicate Leads(labels: seq<string>, path: seq<string>, w: string) {
    |labels| == |path| && forall i :: 0 <= i < |labels| ==> path[i] == if IsWild(labels[i]) then w else labels[i]
  }

  lemma {:induction false} UncoveredMismatches(pattern: string, labels: seq<string>, before: seq<string>, w: string)
    requires Follows(labels, Split(pattern)) && !Covers(labels, Split(pattern)) && Leads(labels, before, w)
    requires |pattern| < |w|
    ensures !Matches(Split(pattern), before)
  {
    var parts := Split(pattern);
    var i :| 0 <= i < |labels| && !(if IsWild(labels[i]) then IsWild(parts[i]) else parts[i] == labels[i]);
    if pattern != "" && pattern[0] == '/' { SegmentsFit(pattern, 1, 1, i); } else { SegmentsFit(pattern, 0, 0, i); }
    assert before[i] == w;
  }

  /** The word that leads to child `k`. */
  function WordFor(c: Node, w: string): string {
    if c.wild then w else c.part
  }

  lemma {:induction false} OnlyOneFits(children: seq<Node>, k: nat, w: string)
    requires k < |children| && Siblings(children) && Distinct(children) && Strange(children, w)
    ensures var x := WordFor(children[k], w);
            && Fits(children[k], x) && (children[k].wild <==> IsWild(children[k].part))
            && forall i :: 0 <= i < k ==> !Fits(children[i], x)
  {}

  lemma {:induction false} LeadsMore(labels: seq<string>, path: seq<string>, l: string, w: string)
    requires Leads(labels, path, w)
    ensures Leads(labels + [l], path + [if IsWild(l) then w else l], w)
  {}

  /** A node has all a wrong search needs: see `UnsoundGoesWrong`. */
  ghost predicate Suspect(n: Node, labels: seq<string>, w: string) {
    Neat(n, labels) && Shaped(n, |labels|) && !Sound(n, labels) && Strange(n.children, w) && |n.pattern| < |w|
  }

  lemma {:induction false} SuspectChild(n: Node, labels: seq<string>, w: string) returns (k: nat)
    requires Suspect(n, labels, w) && (n.pattern != "" ==> Covers(labels, Split(n.pattern)))
    ensures k < |n.children| && Suspect(n.children[k], labels + [n.children[k].part], w)
    ensures Siblings(n.children) && Distinct(n.children)
  {
    k :| 0 <= k < |n.children| && !Sound(n.children[k], labels + [n.children[k].part]);
  }

  /** The search returns a pattern that does not match the path behind `before`. */
  ghost predicate Wrong(n: Node, before: seq<string>, path: seq<string>) {
    Search(n, path).Some? && !Matches(Split(Search(n, path).value.pattern), before + path)
  }

  lemma {:induction false} WrongHere(n: Node, labels: seq<string>, before: seq<string>, w: string)
    requires Suspect(n, labels, w) && Leads(labels, before, w)
    requires n.pattern != "" && !Covers(labels, Split(n.pattern))
    ensures Wrong(n, before, [])
  {
    assert before + [] == before;
    UncoveredMismatches(n.pattern, labels, before, w);
  }

  lemma {:induction false} WrongAbove(n: Node, k: nat, before: seq<string>, x: string, rest: seq<string>)
    requires k < |n.children| && Fits(n.children[k], x) && forall i :: 0 <= i < k ==> !Fits(n.children[i], x)
    requires Wrong(n.children[k], before + [x], rest)
    ensures Wrong(n, before, [x] + rest)
  {
    hide Split, Matches, Search, Fits;
    var path := [x] + rest;
    assert before + path == before + [x] + rest && path[1..] == rest;
    FirstHit(n.children, path, k);
    SearchChildren(n, path);
  }

  /** A pattern out of line with its labels, wherever it is below `n`, is what some search returns. */
  lemma {:induction false} UnsoundGoesWrong(n: Node, labels: seq<string>, before: seq<string>, w: string)
    returns (path: seq<string>)
    requires Suspect(n, labels, w) && Leads(labels, before, w)
    ensures Wrong(n, before, path)
    decreases n
  {
    hide Wrong, Split, Neat, Shaped, Sound, Leads;
    if n.pattern != "" && !Covers(labels, Split(n.pattern)) {
      path := [];
      WrongHere(n, labels, before, w);
    } else {
      var k := SuspectChild(n, labels, w);
      var c := n.children[k];
      var x := WordFor(c, w);
      OnlyOneFits(n.children, k, w);
      LeadsMore(labels, before, c.part, w);
      hide Suspect, Fits, IsWild, Covers;
      var rest := UnsoundGoesWrong(c, labels + [c.part], before + [x], w);
      path := [x] + rest;
      WrongAbove(n, k, before, x, rest);
    }
  }

  lemma {:induction false} SearchChildren(n: Node, path: seq<string>)
    requires path != []
    ensures Search(n, path) == SearchIn(n.children, path)
  {}

  /**
   The exact condition, for every sequence of insertions: searches return patterns that match for
   every path if and only if every stored pattern is in line with the labels on the way to it.
   */
  lemma {:induction false} RightExactly(ops: seq<(string, nat)>)
    ensures AlwaysRight(Built(ops)) <==> Sound(Built(ops), [])
  {
    var t := Built(ops);
    BuiltShape(ops);
    BuiltNeat(ops);
    hide Built, Sound, Shaped, Neat, Search, Split, Matches;
    if Sound(t, []) {
      forall path ensures FindsRight(t, path) {
        assert [] + path == path;
        if Search(t, path).Some? { SearchSound(t, path, [], []); }
      }
    } else {
      var w := seq(Longest(t.children) + |t.pattern| + 1, _ => 'a');
      LongIsStrange(t.children, w);
      var path := UnsoundGoesWrong(t, [], [], w);
      assert [] + path == path;
      assert !FindsRight(t, path);
    }
  }

  /** As long as no literal came late, the next insertion keeps searches right exactly if its literals do not either. */
  lemma {:induction false} StaysRightExactly(ops: seq<(string, nat)>)
    requires ops != [] && (forall i :: 0 <= i < |ops| ==> ops[i].0 != "") && AllLiteralsFirst(ops[..|ops| - 1])
    ensures AlwaysRight(Built(ops)) <==> AllLiteralsFirst(ops)
  {
    var n := |ops| - 1;
    assert Built(ops) == Insert(Built(ops[..n]), Split(ops[n].0), ops[n].0, ops[n].1);
    assert AllLiteralsFirst(ops) <==> LiteralsFirst(Built(ops[..n]), Split(ops[n].0));
    hide Built, AllLiteralsFirst, LiteralsFirst, Insert, Search, Split, Matches;
    if AllLiteralsFirst(ops) {
      forall path ensures FindsRight(Built(ops), path) {
        SearchIsRight(ops, path);
      }
    } else {
      var path := LateLiteralGoesWrong(Built(ops[..n]), ops[n].0, ops[n].1);
      assert !FindsRight(Built(ops), path);
    }
  }

  /** Without that order it can go wrong: the literal takes the wild route over. */
  lemma {:induction false} LateLiteralTakesOver()
    ensures var t := Built([("/:id", 1), ("/users", 2)]);
            && Search(t, ["zzz"]).Some? && Search(t, ["zzz"]).value.pattern == "/users"
            && !Matches(Split("/users"), ["zzz"])
  {
    hide Split;
    TwoSplits();
    var ops: seq<(string, nat)> := [("/:id", 1), ("/users", 2)];
    var first: seq<(string, nat)> := ops[..1];
    assert first == [("/:id", 1)] && first[..0] == [];
    var wildNode := Node(":id", true, "/:id", 1, []);
    assert [":id"][1..] == [] && ["users"][1..] == [];
    assert Insert(ROOT, [":id"], "/:id", 1) == ROOT.(children := [wildNode]);
    assert Built(first) == ROOT.(children := [wildNode]);
    var taken := wildNode.(pattern := "/users", handler := 2);
    assert Built(ops) == ROOT.(children := [taken]);
    assert ["zzz"][1..] == [] && Search(taken, []) == Some(taken);
    assert SearchIn([taken], ["zzz"]) == Some(taken);
  }

  lemma {:induction false} TwoSplits()
    ensures Split("/:id") == [":id"] && Split("/users") == ["users"]
  {
    SplitJoin([":id"]);
    SplitJoin(["users"]);
    assert "/" + Join([":id"]) == "/:id" && "/" + Join(["users"]) == "/users";
  }

  // ---------------------------------------------------------------- the methods

  method SplitPath(s: string) returns (parts: seq<string>)
    ensures parts == Split(s)
  {
    var begin, end := 0, 0;
    if s != "" && s[0] == '/' {
      begin, end := 1, 1;
    }
    parts := [];
    ghost var goal := Split(s);
    assert goal == [] + SplitFrom(s, begin, end);
    while end < |s|
      invariant 0 <= begin <= |s| && begin <= end && goal == parts + SplitFrom(s, begin, end)
      decreases |s| - end
    {
      if s[end] == '/' {
        Regroup(parts, s[begin..end], SplitFrom(s, end + 1, end + 2));
        parts := parts + [s[begin..end]];
        begin, end := end + 1, end + 1;
      }
      end := end + 1;
    }
    parts := parts + [s[begin..]];
  }

  lemma {:induction false} Regroup(a: seq<string>, x: string, b: seq<string>)
    ensures a + ([x] + b) == a + [x] + b
  {}

  lemma {:induction false} BuiltMore(ops: seq<(string, nat)>, pattern: string, handler: nat)
    ensures Built(ops + [(pattern, handler)]) == Insert(Built(ops), Split(pattern), pattern, handler)
  {
    var more := ops + [(pattern, handler)];
    assert more[..|more| - 1] == ops;
  }

  /** The parameters of a route: each wild segment's name with the path's segment, a later one winning. */
  function Params(parts: seq<string>, path: seq<string>): map<string, string>
    requires |parts| <= |path|
  {
    if parts == [] then map[]
    else
      var n := |parts| - 1;
      var m := Params(parts[..n], path);
      if IsWild(parts[n]) then m[parts[n][1..] := path[n]] else m
  }

  /** A parameter is there exactly if a segment of the pattern names it; the last one that does gives the value. */
  ghost predicate AreParams(params: map<string, string>, parts: seq<string>, path: seq<string>)
    requires |parts| <= |path|
  {
    && (forall name :: name in params <==> Names(parts, name))
    && forall i :: 0 <= i < |parts| && IsLast(parts, i) && parts[i] != "" && parts[i][0] == ':' ==>
         parts[i][1..] in params && params[parts[i][1..]] == path[i]
  }

  predicate Names(parts: seq<string>, name: string) {
    exists i :: 0 <= i < |parts| && parts[i] == ":" + name
  }

  predicate IsLast(parts: seq<string>, i: nat)
    requires i < |parts|
  {
    forall j :: i < j < |parts| ==> parts[j] != parts[i]
  }

  lemma {:induction false} ParamsHold(parts: seq<string>, path: seq<string>)
    requires |parts| <= |path|
    ensures AreParams(Params(parts, path), parts, path)
  {
    if parts != [] {
      var n := |parts| - 1;
      var r := Params(parts, path);
      ParamsHold(parts[..n], path);
      forall name ensures name in r <==> Names(parts, name) {
        ParamNamed(parts, path, name);
      }
      forall i | 0 <= i < |parts| && IsLast(parts, i) && IsWild(parts[i])
        ensures parts[i][1..] in r && r[parts[i][1..]] == path[i]
      {
        ParamValue(parts, path, i);
      }
    }
  }

  lemma {:induction false} ParamValue(parts: seq<string>, path: seq<string>, i: nat)
    requires i < |parts| <= |path| && IsLast(parts, i) && IsWild(parts[i])
    ensures parts[i][1..] in Params(parts, path) && Params(parts, path)[parts[i][1..]] == path[i]
  {
    var n := |parts| - 1;
    if i < n {
      assert parts[..n][i] == parts[i] && forall j :: i < j < n ==> parts[..n][j] == parts[j];
      ParamValue(parts[..n], path, i);
      Named(parts[i]);
      if IsWild(parts[n]) { Named(parts[n]); }
    }
  }

  lemma {:induction false} Named(part: string)
    requires IsWild(part)
    ensures part == ":" + part[1..]
  {}

  lemma {:induction false} ParamNamed(parts: seq<string>, path: seq<string>, name: string)
    requires 0 < |parts| <= |path|
    requires name in Params(parts[..|parts| - 1], path) <==> Names(parts[..|parts| - 1], name)
    ensures name in Params(parts, path) <==> Names(parts, name)
  {
    var n := |parts| - 1;
    if IsWild(parts[n]) { Named(parts[n]); }
    assert (":" + name)[1..] == name;
    if i :| 0 <= i < |parts| && parts[i] == ":" + name {
      if i < n { assert parts[..n][i] == ":" + name; }
    }
    if i :| 0 <= i < n && parts[..n][i] == ":" + name { assert parts[i] == ":" + name; }
  }

  class Router {
    var roots: map<string, Node>
    ghost var ops: map<string, seq<(string, nat)>>

    /** Each method's trie is built by the insertions made for it. */
    ghost predicate Valid()
      reads this
    {
      && roots.Keys == ops.Keys
      && forall verb :: verb in roots ==> roots[verb] == Built(ops[verb])
    }

    constructor ()
      ensures Valid() && ops == map[]
    {
      roots, ops := map[], map[];
    }

    /** A method seen for the first time gets an empty trie. */
    method EnsureTrie(verb: string)
      requires Valid()
      modifies this
      ensures Valid() && ops == if verb in old(ops) then old(ops) else old(ops)[verb := []]
    {
      RootSound();
      hide Built;
      if verb !in roots {
        roots := roots[verb := ROOT];
        ops := ops[verb := []];
      }
    }

    method AddRouter(verb: string, pattern: string, handler: nat)
      requires Valid()
      modifies this
      ensures Valid()
      ensures ops == old(ops)[verb := (if verb in old(ops) then old(ops)[verb] else []) + [(pattern, handler)]]
    {
      hide Built, Insert, Split;
      var parts := SplitPath(pattern);
      EnsureTrie(verb);
      var trie := roots[verb];
      BuiltMore(ops[verb], pattern, handler);
      roots := roots[verb := Insert(trie, parts, pattern, handler)];
      ops := ops[verb := ops[verb] + [(pattern, handler)]];
    }

    method FindRoute(verb: string, path: string) returns (node: Option<Node>, flag: bool, params: map<string, string>)
      requires Valid()
      ensures node == if verb in roots then Search(roots[verb], Split(path)) else None
      ensures node.None? ==> !flag && params == map[]
      ensures node.Some? ==>
                && |Split(node.value.pattern)| == |Split(path)|
                && AreParams(params, Split(node.value.pattern), Split(path))
                && verb in ops
                && (exists place :: Latest(ops[verb], place) == Some((node.value.pattern, node.value.handler)))
                && (flag <==> exists i :: 0 <= i < |Split(node.value.pattern)| && IsWild(Split(node.value.pattern)[i]))
    {
      hide Built, Search, Split, AreParams, Latest, At;
      node, flag, params := None, false, map[];
      if verb !in roots {
        return;
      }
      var parts := SplitPath(path);
      node := Search(roots[verb], parts);
      if node.None? {
        return;
      }
      BuiltShape(ops[verb]);
      SearchDepth(roots[verb], parts, 0);
      ghost var place := FoundIsLatest(ops[verb], parts);
      var nodeParts := SplitPath(node.value.pattern);
      flag, params := ReadParams(nodeParts, parts);
    }
  }

  /** The loop of `findRoute` over the pattern's segments. */
  method ReadParams(nodeParts: seq<string>, parts: seq<string>) returns (flag: bool, params: map<string, string>)
    requires |nodeParts| <= |parts|
    ensures AreParams(params, nodeParts, parts)
    ensures flag <==> exists i :: 0 <= i < |nodeParts| && IsWild(nodeParts[i])
  {
    flag, params := false, map[];
    for i := 0 to |nodeParts|
      invariant params == Params(nodeParts[..i], parts)
      invariant flag <==> exists j :: 0 <= j < i && IsWild(nodeParts[j])
    {
      assert nodeParts[..i + 1][..i] == nodeParts[..i];
      if IsWild(nodeParts[i]) {
        flag := true;
        params := params[nodeParts[i][1..] := parts[i]];
      }
    }
    assert nodeParts[..|nodeParts|] == nodeParts;
    ParamsHold(nodeParts, parts);
  }
}
