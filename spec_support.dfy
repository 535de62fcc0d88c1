/**
 * What the restated examples of the matcher test suite share: requests and
 * their body and status, predicates on path pieces, the evaluation steps of
 * matcher sequences and routes, and the matcher facts several groups of
 * examples rely on.  Each example lemma states its request for every path of
 * the same shape (the example's own path is one instance), so a segment
 * example holds for any segment, not only for "johndoe".  Requests are GETs
 * with an empty query unless the example says otherwise; a request given
 * without a path is for "/".
 */
module SpecSupport {
  import opened Wrappers
  import opened Paths
  import opened Patterns
  import opened Matchers
  import opened Routes

  function GetReq(path: string): Request { Request(GET, path, map[]) }

  function Body(app: seq<Route>, req: Request): string { Join(Respond(app, req).body) }

  function Status(app: seq<Route>, req: Request): nat { Respond(app, req).status }

  /** The next segment boundary: `rest` is empty or starts a new segment. */
  predicate Boundary(rest: string) { rest == [] || rest[0] == '/' }

  /** A non-empty segment: no `/` in it. */
  predicate IsSegment(seg: string) { seg != [] && forall k :: 0 <= k < |seg| ==> seg[k] != '/' }

  predicate AllIn(cls: CharClass, t: string) { forall k :: 0 <= k < |t| ==> InClass(cls, t[k]) }

  lemma Seq1(a: Matcher, st: PathState, env: Env, c1: seq<string>, s1: PathState)
    requires Match(a, st, env) == Step(Some(c1), s1)
    ensures MatchAll([a], st, env) == Some(Matched(c1, s1))
  {
    var ms := [a];
    assert ms[0] == a && ms[1..] == [];
    assert MatchAll(ms[1..], s1, env) == Some(Matched([], s1));
    assert c1 + [] == c1;
  }

  lemma Seq2(a: Matcher, b: Matcher, st: PathState, env: Env,
             c1: seq<string>, s1: PathState, c2: seq<string>, s2: PathState)
    requires Match(a, st, env) == Step(Some(c1), s1)
    requires Match(b, s1, env) == Step(Some(c2), s2)
    ensures MatchAll([a, b], st, env) == Some(Matched(c1 + c2, s2))
  {
    var ms := [a, b];
    assert ms[0] == a && ms[1..] == [b];
    Seq1(b, s1, env, c2, s2);
    assert MatchAll(ms, st, env) == Prefix(c1, MatchAll(ms[1..], s1, env));
  }

  lemma Fail1(a: Matcher, more: seq<Matcher>, st: PathState, env: Env)
    requires Match(a, st, env).captures.None?
    ensures MatchAll([a] + more, st, env) == None
  {
    var ms := [a] + more;
    assert ms != [] && ms[0] == a;
    assert Match(ms[0], st, env).captures.None?;
  }

  lemma Fail2(a: Matcher, b: Matcher, st: PathState, env: Env, c1: seq<string>, s1: PathState)
    requires Match(a, st, env) == Step(Some(c1), s1)
    requires Match(b, s1, env).captures.None?
    ensures MatchAll([a, b], st, env) == None
  {
    var ms := [a, b];
    var rest := [b];
    assert ms[0] == a && ms[1..] == rest;
    assert rest[0] == b;
    assert MatchAll(rest, s1, env) == None;
    assert MatchAll(ms, st, env) == Prefix(c1, MatchAll(rest, s1, env));
  }

  /** A verb operator whose verb is the request's behaves as `on`. */
  lemma VerbMatches(v: Verb, args: seq<Matcher>, st: PathState, env: Env)
    requires env.verb == v
    ensures MatchAll(Arguments(When(v), args), st, env) == MatchAll(args, st, env)
  {
    var ms := Arguments(When(v), args);
    assert ms[0] == MethodIs(v) && ms[1..] == args;
    var r := MatchAll(args, st, env);
    if r.Some? { assert [] + r.value.captures == r.value.captures; }
  }

  lemma RouteMatches(r: Route, st: PathState, env: Env, scope: seq<string>, caps: seq<string>, after: PathState)
    requires MatchAll(Arguments(r.op, r.args), st, env) == Some(Matched(caps, after))
    ensures EvalRoute(r, st, env, scope) == EvalBlock(r.block, after, env, scope + caps, |caps|)
  {
  }

  lemma RouteFails(r: Route, st: PathState, env: Env, scope: seq<string>)
    requires MatchAll(Arguments(r.op, r.args), st, env) == None
    ensures EvalRoute(r, st, env, scope) == Continue
  {
  }

  lemma Routes1(r: Route, st: PathState, env: Env, scope: seq<string>)
    ensures EvalRoutes([r], st, env, scope) == EvalRoute(r, st, env, scope)
  {
    assert [r][1..] == [];
  }

  lemma Routes2(r1: Route, r2: Route, st: PathState, env: Env, scope: seq<string>)
    ensures EvalRoutes([r1, r2], st, env, scope) ==
      if EvalRoute(r1, st, env, scope).Halt? then EvalRoute(r1, st, env, scope)
      else EvalRoute(r2, st, env, scope)
  {
    assert [r1, r2][1..] == [r2];
    Routes1(r2, st, env, scope);
  }

  lemma Halts(app: seq<Route>, req: Request, chunks: seq<string>)
    requires EvalRoutes(app, PathState("", req.path), Env(req.verb, req.query), []) == Halt(chunks)
    ensures Respond(app, req) == Response(200, chunks)
  {
  }

  lemma NotFound(app: seq<Route>, req: Request)
    requires EvalRoutes(app, PathState("", req.path), Env(req.verb, req.query), []) == Continue
    ensures Respond(app, req) == Response(404, [])
  {
  }

  /** A lone route whose matchers succeed runs its block on the advanced state. */
  lemma SingleRoute(r: Route, st: PathState, env: Env, scope: seq<string>, caps: seq<string>, after: PathState)
    requires MatchAll(Arguments(r.op, r.args), st, env) == Some(Matched(caps, after))
    ensures EvalRoutes([r], st, env, scope) == EvalBlock(r.block, after, env, scope + caps, |caps|)
  {
    RouteMatches(r, st, env, scope, caps, after);
    Routes1(r, st, env, scope);
  }

  /** A lone route whose matchers fail declines. */
  lemma SingleRouteFails(r: Route, st: PathState, env: Env, scope: seq<string>)
    requires MatchAll(Arguments(r.op, r.args), st, env) == None
    ensures EvalRoutes([r], st, env, scope) == Continue
  {
    RouteFails(r, st, env, scope);
    Routes1(r, st, env, scope);
  }

  /** A single route whose matchers succeed halts with its handler's output. */
  lemma OneRouteHalts(r: Route, req: Request, caps: seq<string>, after: PathState)
    requires r.block.Handler?
    requires MatchAll(Arguments(r.op, r.args), PathState("", req.path), Env(req.verb, req.query)) ==
      Some(Matched(caps, after))
    ensures Respond([r], req) == Response(200, RenderAll(r.block.pieces, after, caps, |caps|))
  {
    var st := PathState("", req.path);
    var env := Env(req.verb, req.query);
    RouteMatches(r, st, env, [], caps, after);
    assert [] + caps == caps;
    Routes1(r, st, env, []);
    Halts([r], req, RenderAll(r.block.pieces, after, caps, |caps|));
  }

  /** A single route whose matchers fail leaves the request unanswered. */
  lemma OneRouteFails(r: Route, req: Request)
    requires MatchAll(Arguments(r.op, r.args), PathState("", req.path), Env(req.verb, req.query)) == None
    ensures Respond([r], req) == Response(404, [])
  {
    var st := PathState("", req.path);
    var env := Env(req.verb, req.query);
    RouteFails(r, st, env, []);
    Routes1(r, st, env, []);
    NotFound([r], req);
  }

  lemma Join1(a: string)
    ensures Join([a]) == a
  {
    assert [a][1..] == [];
    assert a + "" == a;
  }

  lemma Join2(a: string, b: string)
    ensures Join([a, b]) == a + b
  {
    assert [a, b][1..] == [b];
    Join1(b);
  }

  lemma Join3(a: string, b: string, c: string)
    ensures Join([a, b, c]) == a + b + c
  {
    assert [a, b, c][1..] == [b, c];
    Join2(b, c);
  }

  /** The longest run of a class is determined by where the class stops. */
  lemma {:induction false} RunEndAt(cls: CharClass, s: string, i: nat, e: nat)
    requires i <= e <= |s|
    requires forall k :: i <= k < e ==> InClass(cls, s[k])
    requires e == |s| || !InClass(cls, s[e])
    ensures RunEnd(cls, s, i) == e
    decreases e - i
  {
    if i < e { RunEndAt(cls, s, i + 1, e); }
  }

  /** A plain string followed by a boundary. */
  lemma LiteralOf(t: string, st: PathState, env: Env, rest: string)
    requires NoPlaceholder(t)
    requires st.pathInfo == "/" + t + rest && Boundary(rest)
    ensures Match(Str(t), st, env) == Step(Some([]), PathState(st.scriptName + "/" + t, rest))
  {
    LiteralMatcher(t, st, env);
    SplitConcat("/" + t, rest);
    assert st.pathInfo == ("/" + t) + rest;
  }

  /** A handler that writes its one argument renders exactly it. */
  lemma EchoOne(st: PathState, a: seq<string>, own: nat)
    requires |a| == 1
    ensures RenderAll([Arg(0)], st, a, own) == a
  {
  }

  /** A handler that writes its two arguments in order renders exactly them. */
  lemma EchoTwo(st: PathState, a: seq<string>, b: seq<string>, own: nat)
    requires |a| == 1 && |b| == 1
    ensures RenderAll([Arg(0), Arg(1)], st, a + b, own) == a + b
  {
  }

  /** A handler that writes its three arguments in order renders exactly them. */
  lemma EchoThree(st: PathState, a: string, b: string, c: string, own: nat)
    ensures RenderAll([Arg(0), Arg(1), Arg(2)], st, [a, b, c], own) == [a, b, c]
  {
  }

  /** A segment followed by a boundary. */
  lemma SegmentOf(st: PathState, env: Env, seg: string, rest: string)
    requires st.pathInfo == "/" + seg + rest && IsSegment(seg) && Boundary(rest)
    ensures Match(Segment, st, env) == Step(Some([seg]), PathState(st.scriptName + "/" + seg, rest))
  {
    var p := st.pathInfo;
    var e := 1 + |seg|;
    assert forall k :: 1 <= k < e ==> p[k] == seg[k - 1];
    assert p[1] == seg[0];
    RunEndAt(NonSlash, p, 1, e);
    SegmentMatcher(st, env);
    assert p[1..e] == seg && p[..e] == "/" + seg && p[e..] == rest;
  }

  /** `word` then a symbol consume two segments and capture the second. */
  lemma WordThenSegment(word: string, seg: string, rest: string, st: PathState, env: Env)
    requires NoPlaceholder(word) && IsSegment(seg) && Boundary(rest)
    requires st.pathInfo == "/" + word + "/" + seg + rest
    ensures MatchAll([Str(word), Segment], st, env) ==
      Some(Matched([seg], PathState(st.scriptName + "/" + word + "/" + seg, rest)))
  {
    var s1 := PathState(st.scriptName + "/" + word, "/" + seg + rest);
    var s2 := PathState(st.scriptName + "/" + word + "/" + seg, rest);
    assert st.pathInfo == "/" + word + ("/" + seg + rest);
    LiteralOf(word, st, env, "/" + seg + rest);
    SegmentOf(s1, env, seg, rest);
    Seq2(Str(word), Segment, st, env, [], s1, [seg], s2);
    assert [] + [seg] == [seg];
  }

  /** The whole of PATH_INFO is a file name and the extension. */
  lemma ExtensionOf(ext: string, st: PathState, env: Env, name: string)
    requires st.pathInfo == "/" + name + "." + ext && IsSegment(name)
    ensures Match(Extension(ext), st, env) ==
      Step(Some([name]), PathState(st.scriptName + st.pathInfo, ""))
  {
    ExtensionRoundTrip(name, ext, st, env);
    ExtensionMatcher(ext, st, env);
    FilePathParts(name, ext);
  }

  /** The empty string matches a leading `/` that ends a segment: "/" or "//...", not "/foo". */
  lemma RootMatcher(st: PathState, env: Env)
    ensures var p := st.pathInfo;
      Match(Str(""), st, env) ==
        if |p| > 0 && p[0] == '/' && AtBoundary(p, 1) then Step(Some([]), PathState(st.scriptName + "/", p[1..]))
        else Step(None, st)
  {
    var p := st.pathInfo;
    LiteralMatcher("", st, env);
    assert "/" + "" == "/";
    if |p| > 0 { assert StartsAt(p, 0, "/") <==> p[0] == '/' by { assert |p[0..1]| == 1 && p[0..1][0] == p[0]; } }
  }

  /** A lone repetition of a class without `/` takes the whole run up to the next boundary. */
  lemma RunFrom(cls: CharClass, p: string, w: string, rest: string)
    requires cls != AnyChar && w != [] && AllIn(cls, w) && Boundary(rest)
    requires p == "/" + w + rest
    ensures MatchFrom([Run(cls, true, true)], p, 1) == Some(Span([w], 1 + |w|))
  {
    var e := 1 + |w|;
    assert forall k :: 1 <= k < e ==> p[k] == w[k - 1];
    if e < |p| { assert p[e] == rest[0] == '/'; }
    RunEndAt(cls, p, 1, e);
    RunAlone(cls, true, p, 1);
    assert p[1..e] == w;
  }

  lemma RunOf(cls: CharClass, st: PathState, env: Env, w: string, rest: string)
    requires cls != AnyChar && w != [] && AllIn(cls, w) && Boundary(rest)
    requires st.pathInfo == "/" + w + rest
    ensures Match(Regex([Run(cls, true, true)]), st, env) ==
      Step(Some([w]), PathState(st.scriptName + "/" + w, rest))
  {
    var p := st.pathInfo;
    RunFrom(cls, p, w, rest);
    ConsumeSpan([Run(cls, true, true)], st, [w], 1 + |w|);
    SplitConcat("/" + w, rest);
    assert st.scriptName + "/" + w == st.scriptName + ("/" + w);
    assert Match(Regex([Run(cls, true, true)]), st, env) == Consume([Run(cls, true, true)], st);
  }

  /** A consuming matcher whose pattern matches up to `e` moves that span to SCRIPT_NAME. */
  lemma ConsumeSpan(ts: seq<Token>, st: PathState, caps: seq<string>, e: nat)
    requires |st.pathInfo| > 0 && st.pathInfo[0] == '/'
    requires e <= |st.pathInfo| && MatchFrom(ts, st.pathInfo, 1) == Some(Span(caps, e))
    ensures Consume(ts, st) == Step(Some(caps), PathState(st.scriptName + st.pathInfo[..e], st.pathInfo[e..]))
  {
  }

  /** A string whose tokens match up to `e` moves that span to SCRIPT_NAME. */
  lemma StrSpan(t: string, ts: seq<Token>, st: PathState, env: Env, caps: seq<string>, e: nat)
    requires Tokenize(t) == ts && |st.pathInfo| > 0 && st.pathInfo[0] == '/'
    requires e <= |st.pathInfo| && MatchFrom(ts, st.pathInfo, 1) == Some(Span(caps, e))
    ensures Match(Str(t), st, env) == Step(Some(caps), PathState(st.scriptName + st.pathInfo[..e], st.pathInfo[e..]))
  {
    ConsumeSpan(ts, st, caps, e);
  }

  /** `r.on t do |...| ... end` */
  function OnStr(t: string, handler: seq<Piece>): seq<Route> {
    [Route(On, [Str(t)], Handler(handler))]
  }

  /** Slicing a suffix that is known to be `x + y`. */
  lemma SliceOfConcat(p: string, i: nat, x: string, y: string)
    requires i <= |p| && p[i..] == x + y
    ensures p[i..i + |x|] == x && p[i + |x|..] == y
  {
    assert p[i..i + |x|] == p[i..][..|x|];
    assert p[i + |x|..] == p[i..][|x|..];
  }

  /** `r.on args1 do r.on args2 do ... end end` */
  function OnNestedOn(args1: seq<Matcher>, args2: seq<Matcher>, handler: seq<Piece>): seq<Route> {
    [Route(On, args1, Nested([Route(On, args2, Handler(handler))]))]
  }

  /** Both levels match: the handler sees the outer captures, then the inner ones. */
  lemma OnNestedOnHalts(args1: seq<Matcher>, args2: seq<Matcher>, handler: seq<Piece>, req: Request,
                        c1: seq<string>, s1: PathState, c2: seq<string>, s2: PathState)
    requires MatchAll(args1, PathState("", req.path), Env(req.verb, req.query)) == Some(Matched(c1, s1))
    requires MatchAll(args2, s1, Env(req.verb, req.query)) == Some(Matched(c2, s2))
    ensures Respond(OnNestedOn(args1, args2, handler), req) == Response(200, RenderAll(handler, s2, c1 + c2, |c2|))
  {
    var env := Env(req.verb, req.query);
    var app := OnNestedOn(args1, args2, handler);
    SingleRoute(app[0], PathState("", req.path), env, [], c1, s1);
    assert [] + c1 == c1;
    SingleRoute(app[0].block.routes[0], s1, env, c1, c2, s2);
    Halts(app, req, RenderAll(handler, s2, c1 + c2, |c2|));
  }

  /** The outer level matches and the inner does not: nothing answers. */
  lemma OnNestedOnInnerFails(args1: seq<Matcher>, args2: seq<Matcher>, handler: seq<Piece>, req: Request,
                             c1: seq<string>, s1: PathState)
    requires MatchAll(args1, PathState("", req.path), Env(req.verb, req.query)) == Some(Matched(c1, s1))
    requires MatchAll(args2, s1, Env(req.verb, req.query)) == None
    ensures Respond(OnNestedOn(args1, args2, handler), req) == Response(404, [])
  {
    var env := Env(req.verb, req.query);
    var app := OnNestedOn(args1, args2, handler);
    SingleRoute(app[0], PathState("", req.path), env, [], c1, s1);
    SingleRouteFails(app[0].block.routes[0], s1, env, [] + c1);
    NotFound(app, req);
  }

  /** A literal prefix and a class run, as in `/u\/(\w+)/`: where they sit in "/<a><w><rest>". */
  lemma PrefixRunPositions(a: string, cls: CharClass, p: string, w: string, rest: string, i: nat, e: nat)
    requires cls != AnyChar && w != [] && AllIn(cls, w) && Boundary(rest)
    requires p == "/" + a + (w + rest) && i == 1 + |a| && e == i + |w|
    ensures StartsAt(p, 1, a) && RunEnd(cls, p, i) == e && AtBoundary(p, e) && p[i..e] == w
    ensures p[..e] == "/" + a + w && p[e..] == rest
  {
    SliceOfConcat(p, 0, "/" + a, w + rest);
    assert p[1..i] == p[0..i][1..] == a;
    SliceOfConcat(p, i, w, rest);
    assert forall k :: i <= k < e ==> p[k] == p[i..e][k - i] == w[k - i];
    if e < |p| { assert p[e] == p[e..][0] == '/'; }
    RunEndAt(cls, p, i, e);
    assert p[..e] == p[0..i] + p[i..e];
  }

  lemma PrefixRunAt(a: string, cls: CharClass, p: string, i: nat, e: nat)
    requires cls != AnyChar && i == 1 + |a| && i <= |p| && StartsAt(p, 1, a)
    requires RunEnd(cls, p, i) == e && e > i && AtBoundary(p, e)
    ensures MatchFrom(Lits(a) + [Run(cls, true, true)], p, 1) == Some(Span([p[i..e]], e))
  {
    LitsThen(a, [Run(cls, true, true)], p, 1);
    RunAlone(cls, true, p, i);
  }

  /** The regexp `<a>(cls+)` on "/<a><w>" and a boundary yields the run `w`. */
  lemma PrefixRunOf(a: string, cls: CharClass, st: PathState, env: Env, w: string, rest: string)
    requires cls != AnyChar && w != [] && AllIn(cls, w) && Boundary(rest)
    requires st.pathInfo == "/" + a + (w + rest)
    ensures Match(Regex(Lits(a) + [Run(cls, true, true)]), st, env) ==
      Step(Some([w]), PathState(st.scriptName + ("/" + a + w), rest))
  {
    var p := st.pathInfo;
    var i := 1 + |a|;
    var e := i + |w|;
    PrefixRunPositions(a, cls, p, w, rest, i, e);
    PrefixRunAt(a, cls, p, i, e);
    ConsumeSpan(Lits(a) + [Run(cls, true, true)], st, [w], e);
  }

  /** The same, as the whole argument list of a route. */
  lemma PrefixRunAll(a: string, cls: CharClass, st: PathState, env: Env, w: string, rest: string)
    requires cls != AnyChar && w != [] && AllIn(cls, w) && Boundary(rest)
    requires st.pathInfo == "/" + a + (w + rest)
    ensures MatchAll([Regex(Lits(a) + [Run(cls, true, true)])], st, env) ==
      Some(Matched([w], PathState(st.scriptName + ("/" + a + w), rest)))
  {
    PrefixRunOf(a, cls, st, env, w, rest);
    Seq1(Regex(Lits(a) + [Run(cls, true, true)]), st, env, [w], PathState(st.scriptName + ("/" + a + w), rest));
  }

  /** A whole-segment prefix at `e` is one at the start of the suffix from `e`. */
  lemma ShiftAt(p: string, e: nat, y: string, t: string)
    requires e <= |p| && p[e..] == y
    ensures (StartsAt(p, e, t) && AtBoundary(p, e + |t|)) <==> (StartsAt(y, 0, t) && AtBoundary(y, |t|))
  {
    if e + |t| <= |p| { assert p[e..e + |t|] == y[..|t|]; }
    if e + |t| < |p| { assert p[e + |t|] == y[|t|]; }
  }

  /** The first of two routes matches with a handler: later siblings are not tried. */
  lemma FirstOfTwoHalts(r1: Route, r2: Route, req: Request, caps: seq<string>, after: PathState)
    requires r1.block.Handler?
    requires MatchAll(Arguments(r1.op, r1.args), PathState("", req.path), Env(req.verb, req.query)) ==
      Some(Matched(caps, after))
    ensures Respond([r1, r2], req) == Response(200, RenderAll(r1.block.pieces, after, caps, |caps|))
  {
    var st := PathState("", req.path);
    var env := Env(req.verb, req.query);
    RouteMatches(r1, st, env, [], caps, after);
    assert [] + caps == caps;
    Routes2(r1, r2, st, env, []);
  }

  /** The first of two routes fails to match: the second runs on the untouched state. */
  lemma SecondOfTwoHalts(r1: Route, r2: Route, req: Request, caps: seq<string>, after: PathState)
    requires r2.block.Handler?
    requires MatchAll(Arguments(r1.op, r1.args), PathState("", req.path), Env(req.verb, req.query)) == None
    requires MatchAll(Arguments(r2.op, r2.args), PathState("", req.path), Env(req.verb, req.query)) ==
      Some(Matched(caps, after))
    ensures Respond([r1, r2], req) == Response(200, RenderAll(r2.block.pieces, after, caps, |caps|))
  {
    var st := PathState("", req.path);
    var env := Env(req.verb, req.query);
    RouteFails(r1, st, env, []);
    RouteMatches(r2, st, env, [], caps, after);
    assert [] + caps == caps;
    Routes2(r1, r2, st, env, []);
  }

  /** A handler that writes a constant renders exactly it. */
  lemma WritesText(t: string, st: PathState, scope: seq<string>, own: nat)
    ensures RenderAll([Text(t)], st, scope, own) == [t]
  {
  }

  lemma NoArguments(st: PathState, env: Env)
    ensures MatchAll([], st, env) == Some(Matched([], st))
  {
  }
}
