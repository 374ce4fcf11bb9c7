/** Route matching: specificity, the two ways of not matching, and the parameters. */
module Routing {
  import opened Wrappers

  datatype Route = Route(verb: string, path: string)

  datatype Compiled = Compiled(route: Route, segments: seq<string>)

  type Params = map<string, string>

  /** What `match` returns or throws. */
  datatype Answer = Matched(route: Route, params: Params) | NotFound | MethodNotAllowed

  function RouteId(r: Route): string { r.verb + " " + r.path }

  /* ---- paths ---- */

  function Until(s: string, c: char): (r: string)
    ensures |r| <= |s| && c !in r && r <= s
    ensures |r| < |s| ==> s[|r|] == c
  {
    if s == [] || s[0] == c then [] else [s[0]] + Until(s[1..], c)
  }

  /** The pieces closed so far, and the open one. */
  datatype Scan = Scan(closed: seq<string>, current: string)
  {
    /** `filter(s => s.length > 0)` drops empty pieces. */
    function Close(): seq<string> { if current == [] then closed else closed + [current] }
  }

  function ScanOf(s: string): Scan {
    if s == [] then Scan([], [])
    else
      var before, c := ScanOf(s[..|s| - 1]), s[|s| - 1];
      if c == '/' then Scan(before.Close(), []) else Scan(before.closed, before.current + [c])
  }

  /** `split('/').filter(s => s.length > 0)` */
  function Pieces(s: string): seq<string> { ScanOf(s).Close() }

  function Segments(path: string): seq<string> { Pieces(Until(path, '?')) }

  function Path(parts: seq<string>): string {
    if parts == [] then "" else Path(parts[..|parts| - 1]) + "/" + parts[|parts| - 1]
  }

  predicate Plain(part: string) { part != [] && '/' !in part && '?' !in part }

  lemma {:induction false} NoQuestionMark(parts: seq<string>)
    requires forall i :: 0 <= i < |parts| ==> Plain(parts[i])
    ensures '?' !in Path(parts)
  {
    if parts != [] {
      assert Plain(parts[|parts| - 1]);
      NoQuestionMark(parts[..|parts| - 1]);
    }
  }

  lemma UntilStop(p: string, c: char, rest: string)
    requires c !in p && (rest == [] || rest[0] == c)
    ensures Until(p + rest, c) == p
  {
    var s := p + rest;
    var r := Until(s, c);
    assert forall i :: 0 <= i < |p| ==> s[i] == p[i];
    assert rest != [] ==> s[|p|] == c;
    assert forall i :: 0 <= i < |r| ==> s[i] == r[i];
  }

  lemma ScanMore(s: string, x: char)
    requires x != '/'
    ensures ScanOf(s + [x]) == Scan(ScanOf(s).closed, ScanOf(s).current + [x])
  {
    assert (s + [x])[..|s|] == s;
  }

  /** What plain characters do to a scan, for any scan that takes them one by one. */
  ghost predicate OneByOne(scan: string -> Scan) {
    forall s: string, x: char {:trigger scan(s + [x])} :: x != '/' ==>
      scan(s + [x]) == Scan(scan(s).closed, scan(s).current + [x])
  }

  lemma {:induction false} PlainText(scan: string -> Scan, s: string, p: string)
    requires OneByOne(scan) && '/' !in p
    ensures scan(s + p) == Scan(scan(s).closed, scan(s).current + p)
    decreases |p|
  {
    if p == [] {
      assert s + p == s;
    } else {
      var front, x := p[..|p| - 1], p[|p| - 1];
      PlainText(scan, s, front);
      assert s + p == (s + front) + [x];
      assert scan(s).current + p == (scan(s).current + front) + [x];
    }
  }

  lemma ScanPlain(s: string, p: string)
    requires '/' !in p
    ensures ScanOf(s + p) == Scan(ScanOf(s).closed, ScanOf(s).current + p)
  {
    var scan := (t: string) => ScanOf(t);
    forall t: string, x: char {:trigger scan(t + [x])} | x != '/'
      ensures scan(t + [x]) == Scan(scan(t).closed, scan(t).current + [x])
    {
      ScanMore(t, x);
    }
    PlainText(scan, s, p);
    assert scan(s + p) == ScanOf(s + p);
  }

  lemma ScanSlash(s: string)
    ensures ScanOf(s + "/") == Scan(Pieces(s), [])
  {
    assert (s + "/")[..|s|] == s;
  }

  lemma {:induction false} PiecesOfPath(parts: seq<string>)
    requires forall i :: 0 <= i < |parts| ==> Plain(parts[i])
    ensures Pieces(Path(parts)) == parts
    decreases |parts|
  {
    if parts != [] {
      var front, last := parts[..|parts| - 1], parts[|parts| - 1];
      assert Plain(last);
      PiecesOfPath(front);
      ScanSlash(Path(front));
      ScanPlain(Path(front) + "/", last);
      assert [] + last == last && front + [last] == parts;
    }
  }

  /** A path built from plain parts, with any query string, is taken apart into those parts. */
  lemma SegmentsOfPath(parts: seq<string>, query: string)
    requires (forall i :: 0 <= i < |parts| ==> Plain(parts[i])) && (query == [] || query[0] == '?')
    ensures Segments(Path(parts) + query) == parts
  {
    NoQuestionMark(parts);
    UntilStop(Path(parts), '?', query);
    PiecesOfPath(parts);
  }

  lemma {:induction false} ScanJoined(a: string, b: string)
    ensures ScanOf(a + "/" + b) == Scan(Pieces(a) + ScanOf(b).closed, ScanOf(b).current)
    decreases |b|
  {
    if b == [] {
      assert a + "/" + b == a + "/";
      ScanSlash(a);
    } else {
      var front, x := b[..|b| - 1], b[|b| - 1];
      ScanJoined(a, front);
      assert (a + "/" + b)[..|a| + |b|] == a + "/" + front;
      CloseJoined(Pieces(a), ScanOf(front));
    }
  }

  lemma CloseJoined(before: seq<string>, s: Scan)
    ensures Scan(before + s.closed, s.current).Close() == before + s.Close()
  {
  }

  /** A slash separates pieces, wherever it is: what is between two of them counts unless it is
      empty. */
  lemma PiecesJoin(a: string, b: string)
    ensures Pieces(a + "/" + b) == Pieces(a) + Pieces(b)
    ensures '/' !in a ==> Pieces(a) == if a == [] then [] else [a]
  {
    ScanJoined(a, b);
    CloseJoined(Pieces(a), ScanOf(b));
    if '/' !in a {
      ScanPlain([], a);
      assert [] + a == a;
    }
  }

  /* ---- one route against one path ---- */

  predicate IsParam(s: string) { s != [] && s[0] == ':' }

  predicate FitsAt(seg: string, part: string) { IsParam(seg) || seg == part }

  predicate Fits(segs: seq<string>, parts: seq<string>) {
    |segs| == |parts| && forall i :: 0 <= i < |segs| ==> FitsAt(segs[i], parts[i])
  }

  /** The literal segments among the first `n`. */
  function Literals(segs: seq<string>, n: nat): nat
    requires n <= |segs|
  {
    if n == 0 then 0 else Literals(segs, n - 1) + if IsParam(segs[n - 1]) then 0 else 1
  }

  function Specificity(segs: seq<string>): nat { Literals(segs, |segs|) }

  /** The segment is a literal, not a parameter. */
  predicate LiteralAt(segs: seq<string>, i: int) { 0 <= i < |segs| && !(segs[i] != [] && segs[i][0] == ':') }

  function LiteralPlaces(segs: seq<string>, n: nat): set<int> { set i | 0 <= i < n && LiteralAt(segs, i) }

  lemma OnePlaceMore(segs: seq<string>, n: nat)
    requires 0 < n <= |segs|
    ensures LiteralPlaces(segs, n) == LiteralPlaces(segs, n - 1) + (if IsParam(segs[n - 1]) then {} else {n - 1})
  {
  }

  lemma {:induction false} LiteralsCount(segs: seq<string>, n: nat)
    requires n <= |segs|
    ensures Literals(segs, n) == |LiteralPlaces(segs, n)|
  {
    if n > 0 {
      LiteralsCount(segs, n - 1);
      OnePlaceMore(segs, n);
    }
  }

  /** Specificity is the number of places that hold a literal. */
  lemma SpecificityCounts(segs: seq<string>)
    ensures Specificity(segs) == |set i | 0 <= i < |segs| && !(segs[i] != [] && segs[i][0] == ':')|
  {
    LiteralsCount(segs, |segs|);
    assert LiteralPlaces(segs, |segs|) == set i | 0 <= i < |segs| && !(segs[i] != [] && segs[i][0] == ':');
  }

  /** The parameters among the first `n` segments; a repeated name keeps its last value. */
  function Bound(segs: seq<string>, parts: seq<string>, decode: string -> string, n: nat): Params
    requires n <= |segs| == |parts|
  {
    if n == 0 then map[]
    else if IsParam(segs[n - 1]) then Bound(segs, parts, decode, n - 1)[segs[n - 1][1..] := decode(parts[n - 1])]
    else Bound(segs, parts, decode, n - 1)
  }

  function Bindings(segs: seq<string>, parts: seq<string>, decode: string -> string): Params
    requires |segs| == |parts|
  {
    Bound(segs, parts, decode, |segs|)
  }

  /* ---- the best of a table ---- */

  predicate Candidate(c: Compiled, verb: string, parts: seq<string>) { c.route.verb == verb && Fits(c.segments, parts) }

  /** Among the first `n` routes, `k` has the most literal segments of all candidates, and is
      the first of those on a tie. */
  ghost predicate Leads(table: seq<Compiled>, verb: string, parts: seq<string>, k: nat, n: nat)
    requires n <= |table|
  {
    && k < n && Candidate(table[k], verb, parts)
    && forall j :: 0 <= j < n && Candidate(table[j], verb, parts) ==>
         Specificity(table[j].segments) < Specificity(table[k].segments)
         || (Specificity(table[j].segments) == Specificity(table[k].segments) && k <= j)
  }

  ghost predicate Wins(table: seq<Compiled>, verb: string, parts: seq<string>, k: nat) {
    Leads(table, verb, parts, k, |table|)
  }

  ghost predicate FitsSome(table: seq<Compiled>, parts: seq<string>, n: nat)
    requires n <= |table|
  {
    exists k :: 0 <= k < n && Fits(table[k].segments, parts)
  }

  /** The answer the router owes to a request. */
  ghost predicate Right(table: seq<Compiled>, verb: string, parts: seq<string>, decode: string -> string, a: Answer) {
    match a
    case Matched(route, params) =>
      exists k: nat :: Wins(table, verb, parts, k) && route == table[k].route
                  && params == Bindings(table[k].segments, parts, decode)
    case NotFound => !FitsSome(table, parts, |table|)
    case MethodNotAllowed =>
      FitsSome(table, parts, |table|) && forall c :: c in table ==> !Candidate(c, verb, parts)
  }

  /** Segment for segment: what starts with a colon takes any part, anything else only itself. */
  ghost predicate Takes(segs: seq<string>, parts: seq<string>) {
    |segs| == |parts| && forall i :: 0 <= i < |segs| ==> (segs[i] != [] && segs[i][0] == ':') || segs[i] == parts[i]
  }

  ghost predicate Last(segs: seq<string>, i: int)
    requires 0 <= i < |segs|
  {
    forall j :: i < j < |segs| ==> segs[j] != segs[i]
  }

  /** The last place of a name gives its value, and there is nothing else. */
  ghost predicate LastValues(params: Params, segs: seq<string>, parts: seq<string>, decode: string -> string)
    requires |segs| == |parts|
  {
    && (forall name :: name in params <==> exists i :: 0 <= i < |segs| && segs[i] == [':'] + name)
    && forall i :: 0 <= i < |segs| && segs[i] != [] && segs[i][0] == ':' && Last(segs, i) ==>
         segs[i][1..] in params && params[segs[i][1..]] == decode(parts[i])
  }

  /** What a caller may rely on, place by place. */
  ghost predicate Fair(table: seq<Compiled>, verb: string, parts: seq<string>, decode: string -> string, a: Answer) {
    && (a == NotFound <==> forall c :: c in table ==> !Takes(c.segments, parts))
    && (a.Matched? <==> exists c :: c in table && c.route.verb == verb && Takes(c.segments, parts))
    && (a.Matched? ==> exists c :: c in table && c.route == a.route && c.route.verb == verb
                         && Takes(c.segments, parts) && LastValues(a.params, c.segments, parts, decode))
  }

  lemma {:induction false} BoundNames(segs: seq<string>, parts: seq<string>, decode: string -> string, n: nat,
                                      name: string)
    requires n <= |segs| == |parts|
    ensures name in Bound(segs, parts, decode, n) <==> exists i :: 0 <= i < n && segs[i] == [':'] + name
  {
    if n > 0 {
      BoundNames(segs, parts, decode, n - 1, name);
      if IsParam(segs[n - 1]) { assert segs[n - 1] == [':'] + segs[n - 1][1..]; }
    }
  }

  lemma BindingsAreLast(segs: seq<string>, parts: seq<string>, decode: string -> string)
    requires |segs| == |parts|
    ensures LastValues(Bindings(segs, parts, decode), segs, parts, decode)
  {
    forall name
      ensures name in Bindings(segs, parts, decode) <==> exists i :: 0 <= i < |segs| && segs[i] == [':'] + name
    {
      BoundNames(segs, parts, decode, |segs|, name);
    }
    forall i | 0 <= i < |segs| && IsParam(segs[i]) && Last(segs, i)
      ensures segs[i][1..] in Bindings(segs, parts, decode)
      ensures Bindings(segs, parts, decode)[segs[i][1..]] == decode(parts[i])
    {
      BoundLast(segs, parts, decode, |segs|, i);
    }
  }

  lemma RightIsFair(table: seq<Compiled>, verb: string, parts: seq<string>, decode: string -> string, a: Answer)
    requires Right(table, verb, parts, decode, a)
    ensures Fair(table, verb, parts, decode, a)
  {
    forall c | c in table && Takes(c.segments, parts)
      ensures a != NotFound && (c.route.verb == verb ==> a.Matched?)
    {
      var j :| 0 <= j < |table| && table[j] == c;
      assert Fits(c.segments, parts) && FitsSome(table, parts, |table|);
    }
    match a
    case Matched(route, params) =>
      var k: nat :| Wins(table, verb, parts, k) && route == table[k].route
                    && params == Bindings(table[k].segments, parts, decode);
      assert Takes(table[k].segments, parts) && table[k] in table;
      BindingsAreLast(table[k].segments, parts, decode);
    case MethodNotAllowed =>
      var k :| 0 <= k < |table| && Fits(table[k].segments, parts);
      assert Takes(table[k].segments, parts) && table[k] in table;
      forall c | c in table && c.route.verb == verb ensures !Takes(c.segments, parts) {
        assert !Candidate(c, verb, parts);
      }
    case NotFound =>
  }

  function Compile(r: Route): Compiled { Compiled(r, Pieces(r.path)) }

  function CompileAll(routes: seq<Route>): seq<Compiled> {
    seq(|routes|, i requires 0 <= i < |routes| => Compile(routes[i]))
  }

  predicate Distinct(routes: seq<Route>) {
    forall i, j :: 0 <= i < j < |routes| ==> RouteId(routes[i]) != RouteId(routes[j])
  }

  /** The id of a route is its method and its path, as long as methods have no space in them. */
  lemma SameId(a: Route, b: Route)
    requires ' ' !in a.verb && ' ' !in b.verb && RouteId(a) == RouteId(b)
    ensures a == b
  {
    assert RouteId(a) == a.verb + (" " + a.path) && RouteId(b) == b.verb + (" " + b.path);
    UntilStop(a.verb, ' ', " " + a.path);
    UntilStop(b.verb, ' ', " " + b.path);
    assert a.path == RouteId(a)[|a.verb| + 1..] && b.path == RouteId(b)[|b.verb| + 1..];
  }

  lemma IdsAreRoutes(routes: seq<Route>)
    requires forall r :: r in routes ==> ' ' !in r.verb
    ensures Distinct(routes) <==> !exists i, j ::
      0 <= i < j < |routes| && routes[i].verb == routes[j].verb && routes[i].path == routes[j].path
  {
    forall i, j | 0 <= i < j < |routes| && RouteId(routes[i]) == RouteId(routes[j]) ensures routes[i] == routes[j] {
      SameId(routes[i], routes[j]);
    }
  }

  class Router {
    const compiled: seq<Compiled>

    constructor (routes: seq<Route>)
      ensures compiled == CompileAll(routes)
    {
      compiled := CompileAll(routes);
    }

    /** The constructor's loop; it throws on the first id seen before. */
    static method Create(routes: seq<Route>) returns (router: Option<Router>)
      ensures router == None <==> !Distinct(routes)
      ensures (forall r :: r in routes ==> ' ' !in r.verb) ==>
        (router == None <==> exists i, j ::
           0 <= i < j < |routes| && routes[i].verb == routes[j].verb && routes[i].path == routes[j].path)
      ensures router.Some? ==> router.value.compiled == CompileAll(routes)
    {
      if forall r :: r in routes ==> ' ' !in r.verb { IdsAreRoutes(routes); }
      var seen: set<string> := {};
      for n := 0 to |routes|
        invariant Distinct(routes[..n])
        invariant forall id :: id in seen <==> exists i :: 0 <= i < n && RouteId(routes[i]) == id
      {
        var id := RouteId(routes[n]);
        if id in seen { return None; }
        seen := seen + {id};
        assert routes[..n + 1][..n] == routes[..n];
      }
      assert routes[..|routes|] == routes;
      var made := new Router(routes);
      router := Some(made);
    }

    /** The inner loop, for one route whose length agrees. */
    method MatchOne(segs: seq<string>, parts: seq<string>, decode: string -> string)
        returns (matched: bool, params: Params, staticSegments: nat)
      requires |segs| == |parts|
      ensures matched <==> Fits(segs, parts)
      ensures matched ==> params == Bindings(segs, parts, decode) && staticSegments == Specificity(segs)
      // the number of segments that do not start with a colon
      ensures matched ==> staticSegments == |set i | 0 <= i < |segs| && !(segs[i] != [] && segs[i][0] == ':')|
    {
      SpecificityCounts(segs);
      params, matched, staticSegments := map[], true, 0;
      for i := 0 to |segs|
        invariant matched && forall j :: 0 <= j < i ==> FitsAt(segs[j], parts[j])
        invariant params == Bound(segs, parts, decode, i) && staticSegments == Literals(segs, i)
      {
        var seg, part := segs[i], parts[i];
        if IsParam(seg) {
          params := params[seg[1..] := decode(part)];
        } else if seg == part {
          staticSegments := staticSegments + 1;
        } else {
          matched := false;
          assert !FitsAt(segs[i], parts[i]);
          return;
        }
      }
    }

    method Match(verb: string, path: string, decode: string -> string) returns (answer: Answer)
      ensures Right(compiled, verb, Segments(path), decode, answer)
      ensures Fair(compiled, verb, Segments(path), decode, answer)
    {
      var parts := Segments(path);
      var pathMatchedAnyMethod := false;
      var best: Option<(Route, Params, nat)> := None;
      ghost var at := 0;
      for n := 0 to |compiled|
        invariant pathMatchedAnyMethod == FitsSome(compiled, parts, n)
        invariant best == None ==> forall k :: 0 <= k < n ==> !Candidate(compiled[k], verb, parts)
        invariant best.Some? ==> Leads(compiled, verb, parts, at, n)
        invariant best.Some? ==> Recorded(compiled[at], parts, decode, best.value)
      {
        var c := compiled[n];
        if |c.segments| == |parts| {
          var matched, params, staticSegments := MatchOne(c.segments, parts, decode);
          if matched {
            pathMatchedAnyMethod := true;
            if c.route.verb == verb && (best == None || staticSegments > best.value.2) {
              best := Some((c.route, params, staticSegments));
              at := n;
            }
          }
        }
      }
      if best.Some? {
        answer := Matched(best.value.0, best.value.1);
      } else {
        answer := if pathMatchedAnyMethod then MethodNotAllowed else NotFound;
      }
      RightIsFair(compiled, verb, parts, decode, answer);
    }
  }

  /** What `best` holds of the route it stands for. */
  predicate Recorded(c: Compiled, parts: seq<string>, decode: string -> string, b: (Route, Params, nat)) {
    |c.segments| == |parts| && b == (c.route, Bindings(c.segments, parts, decode), Specificity(c.segments))
  }

  /** There is one right answer to every request. */
  lemma OneRightAnswer(table: seq<Compiled>, verb: string, parts: seq<string>, decode: string -> string,
                       a: Answer, b: Answer)
    requires Right(table, verb, parts, decode, a) && Right(table, verb, parts, decode, b)
    ensures a == b
  {
    if a.Matched? && b.Matched? {
      var k: nat :| Wins(table, verb, parts, k) && a.route == table[k].route
                    && a.params == Bindings(table[k].segments, parts, decode);
      var l: nat :| Wins(table, verb, parts, l) && b.route == table[l].route
                    && b.params == Bindings(table[l].segments, parts, decode);
      assert k == l;
    }
  }

  /* ---- order of the table ---- */

  /** No two different routes are the most specific. */
  ghost predicate Untied(table: seq<Compiled>, verb: string, parts: seq<string>) {
    forall c, d :: Top(table, verb, parts, c) && Top(table, verb, parts, d) ==> c.route == d.route
  }

  /** A candidate no other candidate is more specific than. */
  ghost predicate Top(table: seq<Compiled>, verb: string, parts: seq<string>, c: Compiled) {
    && c in table && Candidate(c, verb, parts)
    && forall d :: d in table && Candidate(d, verb, parts) ==> Specificity(d.segments) <= Specificity(c.segments)
  }

  /** Every order of the table has the same right answer. */
  ghost predicate OrderIsNoMatter(table: seq<Compiled>, verb: string, parts: seq<string>, decode: string -> string) {
    forall a, b, x, y ::
      multiset(a) == multiset(b) == multiset(table)
      && Right(a, verb, parts, decode, x) && Right(b, verb, parts, decode, y) ==>
        x == y
  }

  ghost predicate WellCompiled(table: seq<Compiled>) { forall c :: c in table ==> c == Compile(c.route) }

  lemma SameRoutes(a: seq<Compiled>, b: seq<Compiled>, c: Compiled)
    requires multiset(a) == multiset(b)
    ensures c in a <==> c in b
  {
    assert c in a <==> c in multiset(a);
  }

  lemma WinnerIsTop(a: seq<Compiled>, table: seq<Compiled>, verb: string, parts: seq<string>, k: nat)
    requires multiset(a) == multiset(table) && Wins(a, verb, parts, k)
    ensures Top(table, verb, parts, a[k])
  {
    SameRoutes(a, table, a[k]);
    forall d | d in table && Candidate(d, verb, parts) ensures Specificity(d.segments) <= Specificity(a[k].segments) {
      SameRoutes(a, table, d);
      var j :| 0 <= j < |a| && a[j] == d;
    }
  }

  /** Whether anything fits, and whether it is of the method, is the same in every order. */
  lemma SameKindOfAnswer(a: seq<Compiled>, b: seq<Compiled>, verb: string, parts: seq<string>, decode: string -> string,
                         x: Answer, y: Answer)
    requires multiset(a) == multiset(b) && Right(a, verb, parts, decode, x) && Right(b, verb, parts, decode, y)
    ensures x.Matched? <==> y.Matched?
    ensures x.NotFound? <==> y.NotFound?
  {
    FitsTransfer(a, b, parts);
    FitsTransfer(b, a, parts);
    CandidateTransfer(a, b, verb, parts, decode, x);
    CandidateTransfer(b, a, verb, parts, decode, y);
  }

  lemma FitsTransfer(a: seq<Compiled>, b: seq<Compiled>, parts: seq<string>)
    requires multiset(a) == multiset(b)
    ensures FitsSome(a, parts, |a|) ==> FitsSome(b, parts, |b|)
  {
    if k :| 0 <= k < |a| && Fits(a[k].segments, parts) {
      SameRoutes(a, b, a[k]);
      var j :| 0 <= j < |b| && b[j] == a[k];
    }
  }

  lemma CandidateTransfer(a: seq<Compiled>, b: seq<Compiled>, verb: string, parts: seq<string>,
                          decode: string -> string, x: Answer)
    requires multiset(a) == multiset(b) && Right(a, verb, parts, decode, x)
    ensures x.Matched? <==> exists c :: c in b && Candidate(c, verb, parts)
  {
    match x
    case Matched(route, params) =>
      var k: nat :| Wins(a, verb, parts, k) && route == a[k].route && params == Bindings(a[k].segments, parts, decode);
      SameRoutes(a, b, a[k]);
    case NotFound =>
      forall c | c in b ensures !Candidate(c, verb, parts) {
        SameRoutes(a, b, c);
        var j :| 0 <= j < |a| && a[j] == c;
      }
    case MethodNotAllowed =>
      forall c | c in b ensures !Candidate(c, verb, parts) { SameRoutes(a, b, c); }
  }

  lemma ToFront(table: seq<Compiled>, verb: string, parts: seq<string>, decode: string -> string, c: Compiled)
      returns (a: seq<Compiled>)
    requires Top(table, verb, parts, c)
    ensures multiset(a) == multiset(table)
    ensures Right(a, verb, parts, decode, Matched(c.route, Bindings(c.segments, parts, decode)))
  {
    var i :| 0 <= i < |table| && table[i] == c;
    a := [table[i]] + table[..i] + table[i + 1..];
    assert table == table[..i] + [table[i]] + table[i + 1..];
    forall j | 0 <= j < |a| ensures a[j] in table {
      SameRoutes(a, table, a[j]);
    }
    assert Wins(a, verb, parts, 0);
  }

  lemma UntiedIsOneAnswer(table: seq<Compiled>, a: seq<Compiled>, b: seq<Compiled>, verb: string, parts: seq<string>,
                          decode: string -> string, x: Answer, y: Answer)
    requires WellCompiled(table) && Untied(table, verb, parts) && multiset(a) == multiset(b) == multiset(table)
    requires Right(a, verb, parts, decode, x) && Right(b, verb, parts, decode, y)
    ensures x == y
  {
    SameKindOfAnswer(a, b, verb, parts, decode, x, y);
    if x.Matched? {
      var k: nat :| Wins(a, verb, parts, k) && x.route == a[k].route
                    && x.params == Bindings(a[k].segments, parts, decode);
      var l: nat :| Wins(b, verb, parts, l) && y.route == b[l].route
                    && y.params == Bindings(b[l].segments, parts, decode);
      WinnerIsTop(a, table, verb, parts, k);
      WinnerIsTop(b, table, verb, parts, l);
      assert a[k] == Compile(a[k].route) && b[l] == Compile(b[l].route);
    }
  }

  /** The order in which routes are declared changes no answer, be it a route with its
      parameters, not found or not allowed, exactly when no two different routes tie for most
      specific. */
  lemma OrderMattersOnTies(table: seq<Compiled>, verb: string, parts: seq<string>, decode: string -> string)
    requires WellCompiled(table)
    ensures OrderIsNoMatter(table, verb, parts, decode) <==> Untied(table, verb, parts)
  {
    if Untied(table, verb, parts) {
      forall a, b, x, y | multiset(a) == multiset(b) == multiset(table)
        && Right(a, verb, parts, decode, x) && Right(b, verb, parts, decode, y)
        ensures x == y
      {
        UntiedIsOneAnswer(table, a, b, verb, parts, decode, x, y);
      }
    }
    if OrderIsNoMatter(table, verb, parts, decode) {
      forall c, d | Top(table, verb, parts, c) && Top(table, verb, parts, d) ensures c.route == d.route {
        var a := ToFront(table, verb, parts, decode, c);
        var b := ToFront(table, verb, parts, decode, d);
        assert Matched(c.route, Bindings(c.segments, parts, decode))
            == Matched(d.route, Bindings(d.segments, parts, decode));
      }
    }
  }

  /* ---- a literal beats a parameter ---- */

  lemma {:induction false} MoreLiterals(c: seq<string>, d: seq<string>, n: nat)
    requires n <= |c| == |d| && forall i :: 0 <= i < n && LiteralAt(d, i) ==> LiteralAt(c, i)
    ensures Literals(d, n) <= Literals(c, n)
    ensures (exists i :: 0 <= i < n && LiteralAt(c, i) && !LiteralAt(d, i)) ==> Literals(d, n) < Literals(c, n)
  {
    if n > 0 {
      MoreLiterals(c, d, n - 1);
      assert LiteralAt(d, n - 1) <==> !IsParam(d[n - 1]);
      assert LiteralAt(c, n - 1) <==> !IsParam(c[n - 1]);
    }
  }

  lemma WinnerHasMost(table: seq<Compiled>, verb: string, parts: seq<string>, k: nat, c: Compiled)
    requires Wins(table, verb, parts, k) && c in table && Candidate(c, verb, parts)
    ensures Specificity(c.segments) <= Specificity(table[k].segments)
  {
    var j :| 0 <= j < |table| && table[j] == c;
  }

  /** Of two routes that fit a request, the one is never answered whose literals are literals of the
      other too, when the other has a literal where this one has a parameter. */
  lemma LiteralBeatsParameter(table: seq<Compiled>, verb: string, parts: seq<string>, decode: string -> string,
                              a: Answer, c: Compiled, d: Compiled, at: nat)
    requires WellCompiled(table) && Right(table, verb, parts, decode, a) && c in table && d in table
    requires Candidate(c, verb, parts) && Candidate(d, verb, parts)
    requires forall i :: LiteralAt(d.segments, i) ==> LiteralAt(c.segments, i)
    requires LiteralAt(c.segments, at) && !LiteralAt(d.segments, at)
    ensures a.Matched? && a.route != d.route
  {
    FoundWhenFits(table, verb, parts, decode, a, c);
    var k: nat :| Wins(table, verb, parts, k) && a.route == table[k].route
                  && a.params == Bindings(table[k].segments, parts, decode);
    WinnerHasMost(table, verb, parts, k, c);
    MoreLiterals(c.segments, d.segments, |c.segments|);
    assert table[k] == Compile(table[k].route);
  }

  lemma FoundWhenFits(table: seq<Compiled>, verb: string, parts: seq<string>, decode: string -> string, a: Answer,
                      c: Compiled)
    requires Right(table, verb, parts, decode, a) && c in table && Candidate(c, verb, parts)
    ensures a.Matched?
  {
    var j :| 0 <= j < |table| && table[j] == c;
    assert FitsSome(table, parts, |table|);
  }

  lemma {:induction false} AllLiteral(segs: seq<string>, n: nat)
    requires n <= |segs|
    ensures Literals(segs, n) <= n
    ensures Literals(segs, n) == n <==> forall i :: 0 <= i < n ==> LiteralAt(segs, i)
  {
    if n > 0 {
      AllLiteral(segs, n - 1);
      assert LiteralAt(segs, n - 1) <==> !IsParam(segs[n - 1]);
    }
  }

  lemma {:induction false} NothingBound(segs: seq<string>, parts: seq<string>, decode: string -> string, n: nat)
    requires n <= |segs| == |parts| && forall i :: 0 <= i < n ==> LiteralAt(segs, i)
    ensures Bound(segs, parts, decode, n) == map[]
  {
    if n > 0 {
      NothingBound(segs, parts, decode, n - 1);
      assert LiteralAt(segs, n - 1);
    }
  }

  /** A route whose segments are the path itself is the answer, without parameters, in every table
      in which no other route of the method has the same segments. */
  lemma LiteralRouteAnswers(table: seq<Compiled>, k: nat, parts: seq<string>, decode: string -> string, a: Answer)
    requires k < |table| && table[k].segments == parts && forall i :: 0 <= i < |parts| ==> LiteralAt(parts, i)
    requires forall j :: 0 <= j < |table| && j != k ==>
      table[j].route.verb != table[k].route.verb || table[j].segments != parts
    requires Right(table, table[k].route.verb, parts, decode, a)
    ensures a == Matched(table[k].route, map[])
  {
    var verb := table[k].route.verb;
    assert Candidate(table[k], verb, parts);
    FoundWhenFits(table, verb, parts, decode, a, table[k]);
    var w: nat :| Wins(table, verb, parts, w) && a.route == table[w].route
                  && a.params == Bindings(table[w].segments, parts, decode);
    WinnerHasMost(table, verb, parts, w, table[k]);
    AllLiteral(parts, |parts|);
    AllLiteral(table[w].segments, |parts|);
    forall i | 0 <= i < |parts| ensures table[w].segments[i] == parts[i] {
      assert LiteralAt(table[w].segments, i) && FitsAt(table[w].segments[i], parts[i]);
    }
    assert table[w].segments == parts;
    NothingBound(parts, parts, decode, |parts|);
  }

  /* ---- parameters and paths ---- */

  function Fill(seg: string, params: Params): string {
    if !IsParam(seg) then seg else if seg[1..] in params then params[seg[1..]] else ""
  }

  /** The same name stands for the same text everywhere in the path. */
  ghost predicate NamesAgree(segs: seq<string>, parts: seq<string>, decode: string -> string, n: nat)
    requires n <= |segs| == |parts|
  {
    forall i, j :: 0 <= i < j < n && IsParam(segs[i]) && segs[i] == segs[j] ==> decode(parts[i]) == decode(parts[j])
  }

  lemma SameName(a: string, b: string)
    ensures IsParam(a) && IsParam(b) && a[1..] == b[1..] ==> a == b
  {
    if IsParam(a) && IsParam(b) {
      assert a == [':'] + a[1..] && b == [':'] + b[1..];
    }
  }

  /** The value kept for a name is the one of its last place. */
  lemma {:induction false} BoundLast(segs: seq<string>, parts: seq<string>, decode: string -> string, n: nat, i: nat)
    requires i < n <= |segs| == |parts| && IsParam(segs[i])
    requires forall j :: i < j < n ==> segs[j] != segs[i]
    ensures segs[i][1..] in Bound(segs, parts, decode, n)
    ensures Bound(segs, parts, decode, n)[segs[i][1..]] == decode(parts[i])
    decreases n
  {
    if i < n - 1 {
      BoundLast(segs, parts, decode, n - 1, i);
      SameName(segs[n - 1], segs[i]);
    }
  }

  lemma {:induction false} LastPlace(segs: seq<string>, i: nat, n: nat) returns (k: nat)
    requires i < n <= |segs|
    ensures i <= k < n && segs[k] == segs[i] && forall j :: k < j < n ==> segs[j] != segs[k]
    decreases n
  {
    if segs[n - 1] == segs[i] { k := n - 1; } else { k := LastPlace(segs, i, n - 1); }
  }

  /** Filling the pattern with the parameters gives the (decoded) path back, exactly when
      repeated names agree; distinct names always do. */
  lemma FillInverts(segs: seq<string>, parts: seq<string>, decode: string -> string)
    requires Fits(segs, parts)
    ensures (forall i :: 0 <= i < |segs| ==>
               Fill(segs[i], Bindings(segs, parts, decode)) == if IsParam(segs[i]) then decode(parts[i]) else parts[i])
       <==> NamesAgree(segs, parts, decode, |segs|)
  {
    var n, params := |segs|, Bindings(segs, parts, decode);
    forall i | 0 <= i < n && IsParam(segs[i])
      ensures NamesAgree(segs, parts, decode, n) ==> Fill(segs[i], params) == decode(parts[i])
    {
      var k := LastPlace(segs, i, n);
      BoundLast(segs, parts, decode, n, k);
    }
    forall i | 0 <= i < n && !IsParam(segs[i]) ensures segs[i] == parts[i] { assert FitsAt(segs[i], parts[i]); }
  }

  /** A path made by filling a pattern with encoded values fits the pattern, and its parameters
      are the values. */
  lemma FilledPathBinds(segs: seq<string>, values: Params, encode: string -> string,
                        decode: string -> string, parts: seq<string>)
    requires forall s :: decode(encode(s)) == s
    requires forall i :: 0 <= i < |segs| && IsParam(segs[i]) ==> segs[i][1..] in values
    requires |parts| == |segs| && forall i :: 0 <= i < |segs| ==>
      parts[i] == if IsParam(segs[i]) then encode(values[segs[i][1..]]) else segs[i]
    ensures Fits(segs, parts)
    ensures forall i :: 0 <= i < |segs| && IsParam(segs[i]) ==>
      segs[i][1..] in Bindings(segs, parts, decode)
      && Bindings(segs, parts, decode)[segs[i][1..]] == values[segs[i][1..]]
  {
    forall i | 0 <= i < |segs| && IsParam(segs[i])
      ensures segs[i][1..] in Bindings(segs, parts, decode)
      ensures Bindings(segs, parts, decode)[segs[i][1..]] == values[segs[i][1..]]
    {
      var k := LastPlace(segs, i, |segs|);
      BoundLast(segs, parts, decode, |segs|, k);
    }
  }

  /** The parts a pattern makes of parameter values. */
  ghost predicate FilledWith(segs: seq<string>, values: Params, encode: string -> string, parts: seq<string>) {
    && |parts| == |segs|
    && forall i :: 0 <= i < |segs| ==>
         if IsParam(segs[i]) then segs[i][1..] in values && parts[i] == encode(values[segs[i][1..]])
         else parts[i] == segs[i]
  }

  /** What `match` answers for the path a client builds from a route and its values: the most
      specific route, and when that is this one, these values. */
  lemma BuiltPathIsMatched(table: seq<Compiled>, k: nat, values: Params, encode: string -> string,
                           decode: string -> string, parts: seq<string>, query: string, a: Answer)
    requires k < |table| && FilledWith(table[k].segments, values, encode, parts) && forall s :: decode(encode(s)) == s
    requires (forall i :: 0 <= i < |parts| ==> Plain(parts[i])) && (query == [] || query[0] == '?')
    requires Right(table, table[k].route.verb, Segments(Path(parts) + query), decode, a)
    ensures a.Matched?
    ensures Wins(table, table[k].route.verb, parts, k) ==>
      && a.route == table[k].route
      && forall i :: 0 <= i < |parts| && IsParam(table[k].segments[i]) ==>
           table[k].segments[i][1..] in a.params
           && a.params[table[k].segments[i][1..]] == values[table[k].segments[i][1..]]
  {
    var c := table[k];
    SegmentsOfPath(parts, query);
    FilledPathBinds(c.segments, values, encode, decode, parts);
    assert Candidate(c, c.route.verb, parts);
    if Wins(table, c.route.verb, parts, k) {
      OneRightAnswer(table, c.route.verb, parts, decode, a, Matched(c.route, Bindings(c.segments, parts, decode)));
    }
  }
}
