/**
 * Examples of spec/matchers_spec.rb:275-379.  `r.on`: its block runs when every argument matches; otherwise the path state is put back and the next sibling is tried.
 */
module OnSpec {
  import opened Wrappers
  import opened Paths
  import opened Patterns
  import opened Matchers
  import opened Routes
  import Context
  import opened SpecSupport

  /** A block that writes `SCRIPT_NAME + ':' + PATH_INFO`. */
  const EchoPaths: seq<Piece> := [ScriptName, Text(":"), PathInfo]

  lemma EchoPathsRender(st: PathState, scope: seq<string>, own: nat)
    ensures Join(RenderAll(EchoPaths, st, scope, own)) == st.scriptName + ":" + st.pathInfo
  {
    assert RenderAll(EchoPaths, st, scope, own) == [st.scriptName, ":", st.pathInfo];
    Join3(st.scriptName, ":", st.pathInfo);
  }

  /** `r.on do ... end` runs whatever the path. */
  lemma ExecutesOnNoArguments(t: string, path: string)
    ensures Body([Route(On, [], Handler([Text(t)]))], GetReq(path)) == t
  {
    NoArguments(PathState("", path), Env(GET, map[]));
    OneRouteHalts(Route(On, [], Handler([Text(t)])), GetReq(path), [], PathState("", path));
    WritesText(t, PathState("", path), [], 0);
    Join1(t);
  }

  /** `r.on true do ... end` runs whatever the path. */
  lemma ExecutesOnTrue(t: string, path: string)
    ensures Body([Route(On, [Bool(true)], Handler([Text(t)]))], GetReq(path)) == t
  {
    var st := PathState("", path);
    Seq1(Bool(true), st, Env(GET, map[]), [], st);
    OneRouteHalts(Route(On, [Bool(true)], Handler([Text(t)])), GetReq(path), [], st);
    WritesText(t, st, [], 0);
    Join1(t);
  }

  /** `r.on "123"` runs on "/123". */
  lemma ExecutesOnNonFalse(w: string, t: string, rest: string)
    requires NoPlaceholder(w) && Boundary(rest)
    ensures Body(OnStr(w, [Text(t)]), GetReq("/" + w + rest)) == t
  {
    var st := PathState("", "/" + w + rest);
    var env := Env(GET, map[]);
    LiteralOf(w, st, env, rest);
    Seq1(Str(w), st, env, [], PathState("" + "/" + w, rest));
    OneRouteHalts(OnStr(w, [Text(t)])[0], GetReq("/" + w + rest), [], PathState("" + "/" + w, rest));
    WritesText(t, PathState("" + "/" + w, rest), [], 0);
    Join1(t);
  }

  /** A failing condition that assigned SCRIPT_NAME, then a catch-all echoing the paths. */
  function RevertApp(x: string, u: seq<Piece>): seq<Route> {
    [Route(On, [Condition(Some(x), false)], Handler(u)), Route(On, [], Handler(EchoPaths))]
  }

  /** The assignment made by a failed condition is undone: "/hello" yields ":/hello". */
  lemma RevertsScriptNameAndPathInfo(x: string, u: seq<Piece>, path: string)
    ensures Body(RevertApp(x, u), GetReq(path)) == ":" + path
  {
    var st := PathState("", path);
    var env := Env(GET, map[]);
    Fail1(Condition(Some(x), false), [], st, env);
    assert [Condition(Some(x), false)] + [] == [Condition(Some(x), false)];
    NoArguments(st, env);
    SecondOfTwoHalts(RevertApp(x, u)[0], RevertApp(x, u)[1], GetReq(path), [], st);
    EchoPathsRender(st, [], 0);
  }

  /** Whatever `m` does, `m` followed by `false` does not match. */
  lemma ThenFalse(m: Matcher, st: PathState, env: Env)
    ensures MatchAll([m, Bool(false)], st, env) == None
  {
    var r := Match(m, st, env);
    if r.captures.Some? {
      Fail2(m, Bool(false), st, env, r.captures.value, r.after);
    } else {
      Fail1(m, [Bool(false)], st, env);
      assert [m] + [Bool(false)] == [m, Bool(false)];
    }
  }

  /** `r.on "post", false` and then a catch-all echoing the paths. */
  function HalfMetApp(a: string, u: seq<Piece>): seq<Route> {
    [Route(On, [Str(a), Bool(false)], Handler(u)), Route(On, [], Handler(EchoPaths))]
  }

  /** Whatever the first matcher consumed is given back: the catch-all sees the whole path. */
  lemma RevertsHalfMetMatcher(a: string, u: seq<Piece>, path: string)
    ensures Body(HalfMetApp(a, u), GetReq(path)) == ":" + path
  {
    var st := PathState("", path);
    var env := Env(GET, map[]);
    ThenFalse(Str(a), st, env);
    NoArguments(st, env);
    SecondOfTwoHalts(HalfMetApp(a, u)[0], HalfMetApp(a, u)[1], GetReq(path), [], st);
    EchoPathsRender(st, [], 0);
  }

  /** `r.on 'login', 'foo'` and then a catch-all echoing the paths. */
  function LoginFooApp(a: string, b: string, u: seq<Piece>): seq<Route> {
    [Route(On, [Str(a), Str(b)], Handler(u)), Route(On, [], Handler(EchoPaths))]
  }

  lemma LoginFooResponse(a: string, b: string, u: seq<Piece>)
    requires NoPlaceholder(a) && NoPlaceholder(b)
    ensures Respond(LoginFooApp(a, b, u), GetReq("/" + a)) == Response(200, ["", ":", "/" + a])
  {
    var st := PathState("", "/" + a);
    var env := Env(GET, map[]);
    var s1 := PathState("" + "/" + a, "");
    assert "/" + a == "/" + a + "";
    LiteralOf(a, st, env, "");
    LiteralMatcher(b, s1, env);
    Fail2(Str(a), Str(b), st, env, [], s1);
    NoArguments(st, env);
    SecondOfTwoHalts(LoginFooApp(a, b, u)[0], LoginFooApp(a, b, u)[1], GetReq("/" + a), [], st);
    assert RenderAll(EchoPaths, st, [], 0) == ["", ":", "/" + a];
  }

  /**
   * Calling the application on "/login" answers ":/login" and leaves the
   * caller's SCRIPT_NAME and PATH_INFO as they were.
   */
  method DoesNotMutateAfterReturn(a: string, b: string, u: seq<Piece>) returns (text: string, sn: string, pi: string)
    requires NoPlaceholder(a) && NoPlaceholder(b)
    ensures text == ":" + "/" + a && sn == "" && pi == "/" + a
  {
    var resp;
    resp, sn, pi := Context.Call(LoginFooApp(a, b, u), GetReq("/" + a));
    LoginFooResponse(a, b, u);
    Join3("", ":", "/" + a);
    text := Join(resp.body);
  }

  /** Two catch-alls: the first wins. */
  lemma SkipsConsecutiveMatches(t1: string, t2: string, path: string)
    ensures Body([Route(On, [], Handler([Text(t1)])), Route(On, [], Handler([Text(t2)]))], GetReq(path)) == t1
  {
    var st := PathState("", path);
    NoArguments(st, Env(GET, map[]));
    FirstOfTwoHalts(Route(On, [], Handler([Text(t1)])), Route(On, [], Handler([Text(t2)])), GetReq(path), [], st);
    WritesText(t1, st, [], 0);
    Join1(t1);
  }

  /** `r.on false` is skipped: the next sibling answers. */
  lemma FindsFirstMatchAvailable(t1: string, t2: string, path: string)
    ensures Body([Route(On, [Bool(false)], Handler([Text(t1)])), Route(On, [], Handler([Text(t2)]))], GetReq(path)) == t2
  {
    var st := PathState("", path);
    var env := Env(GET, map[]);
    Fail1(Bool(false), [], st, env);
    assert [Bool(false)] + [] == [Bool(false)];
    NoArguments(st, env);
    SecondOfTwoHalts(Route(On, [Bool(false)], Handler([Text(t1)])), Route(On, [], Handler([Text(t2)])), GetReq(path), [], st);
    WritesText(t2, st, [], 0);
    Join1(t2);
  }
}
