/**
 * Examples of spec/matchers_spec.rb:103-160.  `r.is`: like `r.on`, but the matchers must use up the whole path.
 */
module IsSpec {
  import opened Wrappers
  import opened Paths
  import opened Patterns
  import opened Matchers
  import opened Routes
  import opened SpecSupport

  /** `r.is "" do out end` */
  function IsRoot(out: string): seq<Route> {
    [Route(Is, [Str("")], Handler([Text(out)]))]
  }

  /** `""` then the terminator: the remaining path must be exactly "/". */
  lemma RootThenTerm(st: PathState, env: Env)
    ensures MatchAll([Str(""), Term], st, env) ==
      if st.pathInfo == "/" then Some(Matched([], PathState(st.scriptName + "/", ""))) else None
  {
    var p := st.pathInfo;
    RootMatcher(st, env);
    var first := Match(Str(""), st, env);
    if first.captures.Some? {
      var s1 := first.after;
      if p == "/" {
        assert p[1..] == "" && s1 == PathState(st.scriptName + "/", "");
        Seq2(Str(""), Term, st, env, [], s1, [], s1);
        var none: seq<string> := [];
        assert none + none == none;
      } else {
        assert s1.pathInfo != [];
        Fail2(Str(""), Term, st, env, [], s1);
      }
    } else {
      Fail1(Str(""), [Term], st, env);
    }
  }

  /** `is ""` answers exactly the path "/"; every other path ("//" among them) is not found. */
  lemma IsMatchesFully(out: string, path: string)
    ensures Respond(IsRoot(out), GetReq(path)) ==
      if path == "/" then Response(200, [out]) else Response(404, [])
  {
    var r := IsRoot(out)[0];
    RootThenTerm(PathState("", path), Env(GET, map[]));
    assert Arguments(Is, [Str("")]) == [Str(""), Term];
    if path == "/" {
      OneRouteHalts(r, GetReq(path), [], PathState("" + "/", ""));
    } else {
      OneRouteFails(r, GetReq(path));
    }
  }

  /** `r.on "" do r.is do out end end` */
  function OnRootIs(out: string): seq<Route> {
    [Route(On, [Str("")], Nested([Route(Is, [], Handler([Text(out)]))]))]
  }

  /** `is` with no arguments inside `on ""` also requires the whole path to be "/". */
  lemma IsWithoutArguments(out: string, path: string)
    ensures Respond(OnRootIs(out), GetReq(path)) ==
      if path == "/" then Response(200, [out]) else Response(404, [])
  {
    var st := PathState("", path);
    RootMatcher(st, Env(GET, map[]));
    var first := Match(Str(""), st, Env(GET, map[]));
    if first.captures.None? {
      OnRootIsOuterMiss(out, path);
    } else if path == "/" {
      OnRootIsHit(out, path, first.after);
    } else {
      OnRootIsInnerMiss(out, path, first.after);
    }
  }

  lemma OnRootIsHit(out: string, path: string, s1: PathState)
    requires path == "/" && Match(Str(""), PathState("", path), Env(GET, map[])) == Step(Some([]), s1)
    requires s1.pathInfo == []
    ensures Respond(OnRootIs(out), GetReq(path)) == Response(200, [out])
  {
    var app := OnRootIs(out);
    var st := PathState("", path);
    var env := Env(GET, map[]);
    var none: seq<string> := [];
    Seq1(Str(""), st, env, [], s1);
    SingleRoute(app[0], st, env, [], [], s1);
    assert none + none == none;
    assert Arguments(Is, []) == [Term];
    assert Match(Term, s1, env) == Step(Some([]), s1);
    Seq1(Term, s1, env, [], s1);
    SingleRoute(app[0].block.routes[0], s1, env, [], [], s1);
    Halts(app, GetReq(path), [out]);
  }

  lemma OnRootIsInnerMiss(out: string, path: string, s1: PathState)
    requires Match(Str(""), PathState("", path), Env(GET, map[])) == Step(Some([]), s1)
    requires s1.pathInfo != []
    ensures Respond(OnRootIs(out), GetReq(path)) == Response(404, [])
  {
    var app := OnRootIs(out);
    var st := PathState("", path);
    var env := Env(GET, map[]);
    var none: seq<string> := [];
    Seq1(Str(""), st, env, [], s1);
    SingleRoute(app[0], st, env, [], [], s1);
    assert none + none == none;
    assert Arguments(Is, []) == [Term] == [Term] + [];
    assert Match(Term, s1, env).captures.None?;
    Fail1(Term, [], s1, env);
    SingleRouteFails(app[0].block.routes[0], s1, env, []);
    NotFound(app, GetReq(path));
  }

  lemma OnRootIsOuterMiss(out: string, path: string)
    requires Match(Str(""), PathState("", path), Env(GET, map[])).captures.None?
    ensures Respond(OnRootIs(out), GetReq(path)) == Response(404, [])
  {
    var app := OnRootIs(out);
    var st := PathState("", path);
    var env := Env(GET, map[]);
    Fail1(Str(""), [], st, env);
    assert [Str("")] + [] == [Str("")];
    SingleRouteFails(app[0], st, env, []);
    NotFound(app, GetReq(path));
  }

  /** A matcher followed by the terminator `is` appends: it must leave no path behind. */
  lemma IsThen(m: Matcher, st: PathState, env: Env, caps: seq<string>, after: PathState)
    requires Match(m, st, env) == Step(Some(caps), after)
    ensures MatchAll([m, Term], st, env) ==
      if after.pathInfo == [] then Some(Matched(caps, after)) else None
  {
    if after.pathInfo == [] {
      IsThenHit(m, st, env, caps, after);
    } else {
      IsThenMiss(m, st, env, caps, after);
    }
  }

  lemma IsThenHit(m: Matcher, st: PathState, env: Env, caps: seq<string>, after: PathState)
    requires Match(m, st, env) == Step(Some(caps), after) && after.pathInfo == []
    ensures MatchAll([m, Term], st, env) == Some(Matched(caps, after))
  {
    var ms := [m, Term];
    assert ms[0] == m && ms[1..] == [Term];
    assert Match(Term, after, env) == Step(Some([]), after);
    Seq1(Term, after, env, [], after);
    assert MatchAll(ms, st, env) == Prefix(caps, MatchAll(ms[1..], after, env));
    assert caps + [] == caps;
  }

  lemma IsThenMiss(m: Matcher, st: PathState, env: Env, caps: seq<string>, after: PathState)
    requires Match(m, st, env) == Step(Some(caps), after) && after.pathInfo != []
    ensures MatchAll([m, Term], st, env) == None
  {
    assert Match(Term, after, env).captures.None?;
    Fail2(m, Term, st, env, caps, after);
  }

  /** `r.is t do out end` */
  function IsWord(t: string, out: string): seq<Route> {
    [Route(Is, [Str(t)], Handler([Text(out)]))]
  }

  /** `is "123"` answers "/123" but not "/123/": the string must be followed by the end of the path. */
  lemma IsMatchesStrings(t: string, out: string, rest: string)
    requires NoPlaceholder(t) && Boundary(rest)
    ensures Respond(IsWord(t, out), GetReq("/" + t + rest)) ==
      if rest == [] then Response(200, [out]) else Response(404, [])
  {
    var path := "/" + t + rest;
    var st := PathState("", path);
    var env := Env(GET, map[]);
    var after := PathState("" + "/" + t, rest);
    LiteralOf(t, st, env, rest);
    IsThen(Str(t), st, env, [], after);
    assert Arguments(Is, [Str(t)]) == [Str(t), Term];
    if rest == [] {
      OneRouteHalts(IsWord(t, out)[0], GetReq(path), [], after);
      assert RenderAll([Text(out)], after, [], 0) == [out];
    } else {
      OneRouteFails(IsWord(t, out)[0], GetReq(path));
    }
  }

  /** `r.is /(\w+)/ do |id| ... end` */
  function IsWordRun(handler: seq<Piece>): seq<Route> {
    [Route(Is, [Regex([Run(Word, true, true)])], Handler(handler))]
  }

  /** `is /(\w+)/` yields the word on "/123" and is not found on "/123/". */
  lemma IsMatchesRegexps(w: string, rest: string)
    requires w != [] && AllIn(Word, w) && Boundary(rest)
    ensures Respond(IsWordRun([Arg(0)]), GetReq("/" + w + rest)) ==
      if rest == [] then Response(200, [w]) else Response(404, [])
  {
    var path := "/" + w + rest;
    var st := PathState("", path);
    var env := Env(GET, map[]);
    var after := PathState("" + "/" + w, rest);
    var m := Regex([Run(Word, true, true)]);
    RunOf(Word, st, env, w, rest);
    IsThen(m, st, env, [w], after);
    assert Arguments(Is, [m]) == [m, Term];
    if rest == [] {
      OneRouteHalts(IsWordRun([Arg(0)])[0], GetReq(path), [w], after);
      assert RenderAll([Arg(0)], after, [w], 1) == [w];
    } else {
      OneRouteFails(IsWordRun([Arg(0)])[0], GetReq(path));
    }
  }

  /** `r.is :id do |id| ... end` */
  function IsSegment1(handler: seq<Piece>): seq<Route> {
    [Route(Is, [Segment], Handler(handler))]
  }

  /** `is :id` yields the segment on "/123" and is not found on "/123/". */
  lemma IsMatchesSegments(seg: string, rest: string)
    requires IsSegment(seg) && Boundary(rest)
    ensures Respond(IsSegment1([Arg(0)]), GetReq("/" + seg + rest)) ==
      if rest == [] then Response(200, [seg]) else Response(404, [])
  {
    var path := "/" + seg + rest;
    var st := PathState("", path);
    var env := Env(GET, map[]);
    var after := PathState("" + "/" + seg, rest);
    SegmentOf(st, env, seg, rest);
    IsThen(Segment, st, env, [seg], after);
    assert Arguments(Is, [Segment]) == [Segment, Term];
    if rest == [] {
      OneRouteHalts(IsSegment1([Arg(0)])[0], GetReq(path), [seg], after);
      assert RenderAll([Arg(0)], after, [seg], 1) == [seg];
    } else {
      OneRouteFails(IsSegment1([Arg(0)])[0], GetReq(path));
    }
  }
}
