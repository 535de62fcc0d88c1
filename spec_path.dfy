/**
 * Examples of spec/matchers_spec.rb:400-462.  Literal path matchers: whole segments, nested levels, several segments in one string, a regexp after a literal, and the root.
 */
module PathMatchersSpec {
  import opened Wrappers
  import opened Paths
  import opened Patterns
  import opened Matchers
  import opened Routes
  import opened SpecSupport

  /** `t` is the whole first segment (or segments) of `p`, as a literal matcher needs. */
  predicate LeadingSegment(p: string, t: string) {
    StartsAt(p, 0, "/" + t) && AtBoundary(p, 1 + |t|)
  }

  lemma OneLevelPathHit(a: string, t: string, path: string)
    requires NoPlaceholder(a) && LeadingSegment(path, a)
    ensures Respond(OnStr(a, [Text(t)]), GetReq(path)) == Response(200, [t])
  {
    var st := PathState("", path);
    var env := Env(GET, map[]);
    LiteralMatcher(a, st, env);
    var s1 := PathState("" + "/" + a, path[1 + |a|..]);
    Seq1(Str(a), st, env, [], s1);
    OneRouteHalts(OnStr(a, [Text(t)])[0], GetReq(path), [], s1);
    WritesText(t, s1, [], 0);
  }

  lemma OneLevelPathMiss(a: string, handler: seq<Piece>, path: string)
    requires NoPlaceholder(a) && !LeadingSegment(path, a)
    ensures Respond(OnStr(a, handler), GetReq(path)) == Response(404, [])
  {
    var st := PathState("", path);
    var env := Env(GET, map[]);
    LiteralMatcher(a, st, env);
    Fail1(Str(a), [], st, env);
    assert [Str(a)] + [] == [Str(a)];
    OneRouteFails(OnStr(a, handler)[0], GetReq(path));
  }

  /** `r.on "about" do "About" end` answers exactly the paths that begin with "/about" as a segment. */
  lemma OneLevelPath(a: string, t: string, path: string)
    requires NoPlaceholder(a)
    ensures Respond(OnStr(a, [Text(t)]), GetReq(path)) ==
      if LeadingSegment(path, a) then Response(200, [t]) else Response(404, [])
  {
    if LeadingSegment(path, a) {
      OneLevelPathHit(a, t, path);
    } else {
      OneLevelPathMiss(a, [Text(t)], path);
    }
  }

  lemma LiteralRouteHit(b: string, t: string, st: PathState, env: Env, scope: seq<string>)
    requires NoPlaceholder(b) && LeadingSegment(st.pathInfo, b)
    ensures EvalRoute(Route(On, [Str(b)], Handler([Text(t)])), st, env, scope) == Halt([t])
  {
    LiteralMatcher(b, st, env);
    var s1 := PathState(st.scriptName + "/" + b, st.pathInfo[1 + |b|..]);
    Seq1(Str(b), st, env, [], s1);
    RouteMatches(Route(On, [Str(b)], Handler([Text(t)])), st, env, scope, [], s1);
    WritesText(t, s1, scope + [], 0);
  }

  lemma LiteralRouteMiss(b: string, t: string, st: PathState, env: Env, scope: seq<string>)
    requires NoPlaceholder(b) && !LeadingSegment(st.pathInfo, b)
    ensures EvalRoute(Route(On, [Str(b)], Handler([Text(t)])), st, env, scope) == Continue
  {
    LiteralMatcher(b, st, env);
    assert Match(Str(b), st, env).captures.None?;
    Fail1(Str(b), [], st, env);
    assert [Str(b)] + [] == [Str(b)];
    assert MatchAll([Str(b)], st, env) == None;
    RouteFails(Route(On, [Str(b)], Handler([Text(t)])), st, env, scope);
  }

  /** A literal as the only argument: matched or not, per the leading segment. */
  lemma LiteralRoute(b: string, t: string, st: PathState, env: Env, scope: seq<string>)
    requires NoPlaceholder(b)
    ensures EvalRoute(Route(On, [Str(b)], Handler([Text(t)])), st, env, scope) ==
      if LeadingSegment(st.pathInfo, b) then Halt([t]) else Continue
  {
    if LeadingSegment(st.pathInfo, b) {
      LiteralRouteHit(b, t, st, env, scope);
    } else {
      LiteralRouteMiss(b, t, st, env, scope);
    }
  }

  /** `r.on "about" do r.on "1" do ... end; r.on "2" do ... end end` */
  function AboutOneTwo(a: string, b1: string, t1: string, b2: string, t2: string): seq<Route> {
    [Route(On, [Str(a)], Nested([Route(On, [Str(b1)], Handler([Text(t1)])), Route(On, [Str(b2)], Handler([Text(t2)]))]))]
  }

  /** "/about/1" yields "+1", "/about/2" yields "+2", "/about/3" is not found. */
  lemma TwoLevelNestedPaths(a: string, b1: string, t1: string, b2: string, t2: string, x: string)
    requires NoPlaceholder(a) && NoPlaceholder(b1) && NoPlaceholder(b2) && Boundary(x)
    ensures Respond(AboutOneTwo(a, b1, t1, b2, t2), GetReq("/" + a + x)) ==
      if LeadingSegment(x, b1) then Response(200, [t1])
      else if LeadingSegment(x, b2) then Response(200, [t2])
      else Response(404, [])
  {
    var app := AboutOneTwo(a, b1, t1, b2, t2);
    var inner := app[0].block.routes;
    var st := PathState("", "/" + a + x);
    var env := Env(GET, map[]);
    var s1 := PathState("" + "/" + a, x);
    LiteralOf(a, st, env, x);
    Seq1(Str(a), st, env, [], s1);
    SingleRoute(app[0], st, env, [], [], s1);
    LiteralRoute(b1, t1, s1, env, [] + []);
    LiteralRoute(b2, t2, s1, env, [] + []);
    Routes2(inner[0], inner[1], s1, env, [] + []);
  }

  /** `prefix + x` starts with `prefix + t` as a whole segment exactly when `x` starts with `t`. */
  lemma CommonPrefix(c: string, x: string, t: string)
    ensures (StartsAt(c + x, 0, c + t) && AtBoundary(c + x, |c| + |t|)) <==>
            (StartsAt(x, 0, t) && AtBoundary(x, |t|))
  {
    var p := c + x;
    assert p[|c|..] == x;
    ShiftAt(p, |c|, x, t);
    if |c| + |t| <= |p| {
      assert p[0..|c| + |t|] == c + p[|c|..|c| + |t|];
      assert (c + t)[..|c|] == c && (c + t)[|c|..] == t;
    }
  }

  /** "a/b" as one string matches two segments: "/a/b" yields "ab". */
  lemma TwoLevelInlinedPaths(a: string, b: string, t: string, rest: string)
    requires NoPlaceholder(a + "/" + b) && Boundary(rest)
    ensures Body(OnStr(a + "/" + b, [Text(t)]), GetReq("/" + a + "/" + b + rest)) == t
  {
    var path := "/" + a + "/" + b + rest;
    assert path == "/" + (a + "/" + b) + rest;
    OneLevelPath(a + "/" + b, t, path);
    assert path[1 + |a + "/" + b|..] == rest && path[..1 + |a + "/" + b|] == "/" + (a + "/" + b);
    Join1(t);
  }

  /** "/a/d" is not found. */
  lemma TwoLevelInlinedPathsMiss(a: string, b: string, t: string, x: string)
    requires NoPlaceholder(a + "/" + b) && !(StartsAt(x, 0, b) && AtBoundary(x, |b|))
    ensures Status(OnStr(a + "/" + b, [Text(t)]), GetReq("/" + a + "/" + x)) == 404
  {
    var c := "/" + a + "/";
    assert "/" + a + "/" + x == c + x && "/" + (a + "/" + b) == c + b;
    CommonPrefix(c, x, b);
    OneLevelPath(a + "/" + b, t, c + x);
  }

  /** `/<a>` then no run of `cls` at all: the regexp `<a>(cls+)` fails. */
  lemma PrefixRunNone(a: string, cls: CharClass, st: PathState, env: Env, y: string)
    requires cls != AnyChar && (y == [] || !InClass(cls, y[0]))
    requires st.pathInfo == "/" + a + y
    ensures Match(Regex(Lits(a) + [Run(cls, true, true)]), st, env).captures.None?
  {
    var p := st.pathInfo;
    var i := 1 + |a|;
    SliceOfConcat(p, 0, "/" + a, y);
    assert p[1..i] == p[0..i][1..] == a;
    LitsThen(a, [Run(cls, true, true)], p, 1);
    if i < |p| { assert p[i] == y[0]; }
    RunEndAt(cls, p, i, i);
    RunAlone(cls, true, p, i);
  }

  /** The string "user(\\d+)": a literal, then a captured digit run. */
  function OnUserDigits(u: string): seq<Route> {
    [Route(On, [Regex(Lits(u) + [Run(Digit, true, true)])], Handler([Arg(0)]))]
  }

  /** "/user123" yields "123". */
  lemma PathWithRegexCaptures(u: string, d: string, rest: string)
    requires d != [] && AllIn(Digit, d) && Boundary(rest)
    ensures Body(OnUserDigits(u), GetReq("/" + u + d + rest)) == d
  {
    var path := "/" + u + d + rest;
    assert path == "/" + u + (d + rest);
    var st := PathState("", path);
    var after := PathState("" + ("/" + u + d), rest);
    PrefixRunAll(u, Digit, st, Env(GET, map[]), d, rest);
    OneRouteHalts(OnUserDigits(u)[0], GetReq(path), [d], after);
    EchoOne(after, [d], 1);
    Join1(d);
  }

  /** "/useradf" is not found: no digit follows the literal. */
  lemma PathWithRegexCapturesMiss(u: string, y: string)
    requires y == [] || !InClass(Digit, y[0])
    ensures Status(OnUserDigits(u), GetReq("/" + u + y)) == 404
  {
    var m := Regex(Lits(u) + [Run(Digit, true, true)]);
    var st := PathState("", "/" + u + y);
    var env := Env(GET, map[]);
    PrefixRunNone(u, Digit, st, env, y);
    Fail1(m, [], st, env);
    assert [m] + [] == [m];
    OneRouteFails(OnUserDigits(u)[0], GetReq("/" + u + y));
  }

  /** The empty literal leads a path whose first segment is empty. */
  lemma RootSegment(p: string)
    ensures LeadingSegment(p, "") <==> |p| > 0 && p[0] == '/' && AtBoundary(p, 1)
  {
    assert "/" + "" == "/";
    if |p| > 0 { assert StartsAt(p, 0, "/") <==> p[0] == '/' by { assert |p[0..1]| == 1 && p[0..1][0] == p[0]; } }
  }

  /** `r.on ""` answers "/" (and any path whose first segment is empty), not "/foo". */
  lemma MatchingTheRoot(t: string, path: string)
    ensures Respond(OnStr("", [Text(t)]), GetReq(path)) ==
      if |path| > 0 && path[0] == '/' && AtBoundary(path, 1) then Response(200, [t]) else Response(404, [])
  {
    OneLevelPath("", t, path);
    RootSegment(path);
  }
}
