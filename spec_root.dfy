/**
 * Examples of spec/matchers_spec.rb:464-513.  The empty string as a matcher: it consumes exactly one `/` before a boundary.
 */
module EmptySegmentSpec {
  import opened Wrappers
  import opened Paths
  import opened Patterns
  import opened Matchers
  import opened Routes
  import opened SpecSupport
  import opened PathMatchersSpec

  /** The empty literal on "/<x>" with `x` at a boundary: the slash alone is consumed. */
  lemma RootOf(st: PathState, env: Env, x: string)
    requires st.pathInfo == "/" + x && Boundary(x)
    ensures Match(Str(""), st, env) == Step(Some([]), PathState(st.scriptName + "/", x))
  {
    RootMatcher(st, env);
    assert st.pathInfo[1..] == x;
  }

  /** The empty literal on "/<x>" with `x` starting a non-empty segment fails. */
  lemma RootMiss(st: PathState, env: Env, x: string)
    requires st.pathInfo == "/" + x && x != [] && x[0] != '/'
    ensures Match(Str(""), st, env).captures.None?
  {
    RootMatcher(st, env);
    assert st.pathInfo[1] == x[0];
  }

  lemma EmptySegmentHit(path: string)
    requires |path| > 0 && path[0] == '/' && AtBoundary(path, 1)
    ensures Respond(OnStr("", [FullPath]), GetReq(path)) == Response(200, [path])
  {
    var st := PathState("", path);
    var env := Env(GET, map[]);
    var s1 := PathState("" + "/", path[1..]);
    RootMatcher(st, env);
    Seq1(Str(""), st, env, [], s1);
    OneRouteHalts(OnStr("", [FullPath])[0], GetReq(path), [], s1);
    WritesFullPath(s1, [], 0);
    assert s1.scriptName + s1.pathInfo == path;
  }

  /** `r.on "" do r.path end`: "/" yields "/", "/foo" is not found. */
  lemma MatchingAnEmptySegment(path: string)
    ensures Respond(OnStr("", [FullPath]), GetReq(path)) ==
      if |path| > 0 && path[0] == '/' && AtBoundary(path, 1) then Response(200, [path]) else Response(404, [])
  {
    if |path| > 0 && path[0] == '/' && AtBoundary(path, 1) {
      EmptySegmentHit(path);
    } else {
      RootSegment(path);
      OneLevelPathMiss("", [FullPath], path);
    }
  }

  /** Three nested `on` blocks around a handler. */
  function OnNested3(args1: seq<Matcher>, args2: seq<Matcher>, args3: seq<Matcher>, handler: seq<Piece>): seq<Route> {
    [Route(On, args1, Nested([Route(On, args2, Nested([Route(On, args3, Handler(handler))]))]))]
  }

  lemma OnNested3Halts(args1: seq<Matcher>, args2: seq<Matcher>, args3: seq<Matcher>, handler: seq<Piece>, req: Request,
                       s1: PathState, s2: PathState, s3: PathState)
    requires MatchAll(args1, PathState("", req.path), Env(req.verb, req.query)) == Some(Matched([], s1))
    requires MatchAll(args2, s1, Env(req.verb, req.query)) == Some(Matched([], s2))
    requires MatchAll(args3, s2, Env(req.verb, req.query)) == Some(Matched([], s3))
    ensures Respond(OnNested3(args1, args2, args3, handler), req) == Response(200, RenderAll(handler, s3, [], 0))
  {
    var env := Env(req.verb, req.query);
    var app := OnNested3(args1, args2, args3, handler);
    var none: seq<string> := [];
    assert none + none == none;
    SingleRoute(app[0], PathState("", req.path), env, [], [], s1);
    SingleRoute(app[0].block.routes[0], s1, env, [], [], s2);
    SingleRoute(app[0].block.routes[0].block.routes[0], s2, env, [], [], s3);
    Halts(app, req, RenderAll(handler, s3, [], 0));
  }

  lemma OnNested3OuterFails(args1: seq<Matcher>, args2: seq<Matcher>, args3: seq<Matcher>, handler: seq<Piece>, req: Request)
    requires MatchAll(args1, PathState("", req.path), Env(req.verb, req.query)) == None
    ensures Respond(OnNested3(args1, args2, args3, handler), req) == Response(404, [])
  {
    var app := OnNested3(args1, args2, args3, handler);
    SingleRouteFails(app[0], PathState("", req.path), Env(req.verb, req.query), []);
    NotFound(app, req);
  }

  lemma OnNested3SecondFails(args1: seq<Matcher>, args2: seq<Matcher>, args3: seq<Matcher>, handler: seq<Piece>, req: Request,
                             s1: PathState)
    requires MatchAll(args1, PathState("", req.path), Env(req.verb, req.query)) == Some(Matched([], s1))
    requires MatchAll(args2, s1, Env(req.verb, req.query)) == None
    ensures Respond(OnNested3(args1, args2, args3, handler), req) == Response(404, [])
  {
    var env := Env(req.verb, req.query);
    var app := OnNested3(args1, args2, args3, handler);
    var none: seq<string> := [];
    assert none + none == none;
    SingleRoute(app[0], PathState("", req.path), env, [], [], s1);
    SingleRouteFails(app[0].block.routes[0], s1, env, []);
    NotFound(app, req);
  }

  /** `r.on "" do r.on "" do r.on "1" do r.path end end end` */
  function NestedEmpty(a: string): seq<Route> {
    OnNested3([Str("")], [Str("")], [Str(a)], [FullPath])
  }

  /** A handler that writes `r.path` renders SCRIPT_NAME followed by PATH_INFO. */
  lemma WritesFullPath(st: PathState, scope: seq<string>, own: nat)
    ensures RenderAll([FullPath], st, scope, own) == [st.scriptName + st.pathInfo]
  {
  }

  /** The three levels of `NestedEmpty` each match, consuming "/", "/" and "/" + a. */
  lemma NestedEmptyLevels(a: string, rest: string, path: string, t1: string, t2: string, env: Env)
    requires NoPlaceholder(a) && Boundary(rest)
    requires t2 == "/" + a + rest && t1 == "/" + t2 && path == "/" + t1
    ensures MatchAll([Str("")], PathState("", path), env) == Some(Matched([], PathState("/", t1)))
    ensures MatchAll([Str("")], PathState("/", t1), env) == Some(Matched([], PathState("//", t2)))
    ensures MatchAll([Str(a)], PathState("//", t2), env) == Some(Matched([], PathState("//" + "/" + a, rest)))
  {
    RootOf(PathState("", path), env, t1);
    assert "" + "/" == "/";
    Seq1(Str(""), PathState("", path), env, [], PathState("/", t1));
    RootOf(PathState("/", t1), env, t2);
    assert "/" + "/" == "//";
    Seq1(Str(""), PathState("/", t1), env, [], PathState("//", t2));
    LiteralOf(a, PathState("//", t2), env, rest);
    Seq1(Str(a), PathState("//", t2), env, [], PathState("//" + "/" + a, rest));
  }

  lemma NestedEmptyPath(a: string, rest: string, path: string, t1: string, t2: string)
    requires t2 == "/" + a + rest && t1 == "/" + t2 && path == "/" + t1
    ensures ("//" + "/" + a) + rest == path
  {
  }

  lemma NestedEmptyHalts(a: string, rest: string, path: string, t1: string, t2: string)
    requires NoPlaceholder(a) && Boundary(rest)
    requires t2 == "/" + a + rest && t1 == "/" + t2 && path == "/" + t1
    ensures Respond(NestedEmpty(a), GetReq(path)) == Response(200, [path])
  {
    var s3 := PathState("//" + "/" + a, rest);
    NestedEmptyLevels(a, rest, path, t1, t2, Env(GET, map[]));
    OnNested3Halts([Str("")], [Str("")], [Str(a)], [FullPath], GetReq(path), PathState("/", t1), PathState("//", t2), s3);
    WritesFullPath(s3, [], 0);
    NestedEmptyPath(a, rest, path, t1, t2);
  }

  /** "///1" yields "///1": each empty literal consumes one slash. */
  lemma NestedEmptySegments(a: string, rest: string)
    requires NoPlaceholder(a) && Boundary(rest)
    ensures Body(NestedEmpty(a), GetReq("///" + a + rest)) == "///" + a + rest
  {
    var path := "///" + a + rest;
    assert path == "/" + ("/" + ("/" + a + rest));
    NestedEmptyHalts(a, rest, path, "/" + ("/" + a + rest), "/" + a + rest);
    Join1(path);
  }

  /** "/1" is not found: its first segment is not empty. */
  lemma NestedEmptySegmentsOneSlash(a: string, x: string)
    requires x != [] && x[0] != '/'
    ensures Status(NestedEmpty(a), GetReq("/" + x)) == 404
  {
    var st := PathState("", "/" + x);
    var env := Env(GET, map[]);
    RootMiss(st, env, x);
    Fail1(Str(""), [], st, env);
    assert [Str("")] + [] == [Str("")];
    OnNested3OuterFails([Str("")], [Str("")], [Str(a)], [FullPath], GetReq("/" + x));
  }

  /** "//1" is not found: only one empty segment precedes it. */
  lemma NestedEmptySegmentsTwoSlashes(a: string, x: string)
    requires x != [] && x[0] != '/'
    ensures Status(NestedEmpty(a), GetReq("//" + x)) == 404
  {
    var path := "//" + x;
    var st := PathState("", path);
    var env := Env(GET, map[]);
    assert path == "/" + ("/" + x);
    RootOf(st, env, "/" + x);
    var s1 := PathState("" + "/", "/" + x);
    Seq1(Str(""), st, env, [], s1);
    RootMiss(s1, env, x);
    Fail1(Str(""), [], s1, env);
    assert [Str("")] + [] == [Str("")];
    OnNested3SecondFails([Str("")], [Str("")], [Str(a)], [FullPath], GetReq(path), s1);
  }

  /** `r.is do ... end`: runs only once the path is used up. */
  lemma IsRouteStep(f: string, st: PathState, env: Env, scope: seq<string>)
    ensures EvalRoute(Route(Is, [], Handler([Text(f)])), st, env, scope) ==
      if st.pathInfo == [] then Halt([f]) else Continue
  {
    var r := Route(Is, [], Handler([Text(f)]));
    assert Arguments(Is, []) == [Term];
    if st.pathInfo == [] {
      Seq1(Term, st, env, [], st);
      RouteMatches(r, st, env, scope, [], st);
      WritesText(f, st, scope + [], 0);
    } else {
      Fail1(Term, [], st, env);
      assert [Term] + [] == [Term];
      RouteFails(r, st, env, scope);
    }
  }

  /** The inner application of the /events scenario: `r.on "" do ... end; r.is do ... end`. */
  function HoorayFoo(h: string, f: string): seq<Route> {
    [Route(On, [Str("")], Handler([Text(h)])), Route(Is, [], Handler([Text(f)]))]
  }

  /** `r.on "events" do r.run a end`, the inner application mounted as a nested block. */
  function EventsApp(e: string, h: string, f: string): seq<Route> {
    [Route(On, [Str(e)], Nested(HoorayFoo(h, f)))]
  }

  lemma HoorayFooRoutes(h: string, f: string, st: PathState, env: Env, scope: seq<string>)
    ensures EvalRoutes(HoorayFoo(h, f), st, env, scope) ==
      if LeadingSegment(st.pathInfo, "") then Halt([h])
      else if st.pathInfo == [] then Halt([f])
      else Continue
  {
    var rs := HoorayFoo(h, f);
    LiteralRoute("", h, st, env, scope);
    IsRouteStep(f, st, env, scope);
    Routes2(rs[0], rs[1], st, env, scope);
  }

  /** "/events" yields "Foo", "/events/" yields "Hooray", "/events/foo" is not found. */
  lemma EventsScenario(e: string, h: string, f: string, x: string)
    requires NoPlaceholder(e) && Boundary(x)
    ensures Respond(EventsApp(e, h, f), GetReq("/" + e + x)) ==
      if x == [] then Response(200, [f])
      else if AtBoundary(x, 1) then Response(200, [h])
      else Response(404, [])
  {
    var app := EventsApp(e, h, f);
    var req := GetReq("/" + e + x);
    var st := PathState("", req.path);
    var env := Env(GET, map[]);
    var s1 := PathState("" + "/" + e, x);
    LiteralOf(e, st, env, x);
    Seq1(Str(e), st, env, [], s1);
    SingleRoute(app[0], st, env, [], [], s1);
    HoorayFooRoutes(h, f, s1, env, [] + []);
    RootSegment(x);
  }
}
