/**
 * Examples of spec/matchers_spec.rb:3-101.  What a block receives as arguments: nothing for the verb or a plain literal, one value per symbol, extension or regexp group, in order across nested blocks.
 */
module CapturingSpec {
  import opened Wrappers
  import opened Paths
  import opened Patterns
  import opened Matchers
  import opened Routes
  import opened SpecSupport

  const VerbArgCount := [Route(When(GET), [], Handler([ArgCount]))]

  /** `r.get` with no arguments yields nothing: the block sees no arguments. */
  lemma DoesNotYieldTheVerb(path: string)
    ensures Body(VerbArgCount, GetReq(path)) == "0"
  {
    var st := PathState("", path);
    var env := Env(GET, map[]);
    VerbMatches(GET, [], st, env);
    OneRouteHalts(VerbArgCount[0], GetReq(path), [], st);
    assert DecimalString(0) == "0";
    assert RenderAll([ArgCount], st, [], 0) == ["0"];
    Join1("0");
  }

  /** `r.get word do |*args| args.size.to_s end` */
  function GetWordArgCount(word: string): seq<Route> {
    [Route(When(GET), [Str(word)], Handler([ArgCount]))]
  }

  /** A plain string consumes its segment but yields nothing ("home" on "/home"). */
  lemma DoesNotYieldThePath(word: string, rest: string)
    requires NoPlaceholder(word) && Boundary(rest)
    ensures Body(GetWordArgCount(word), GetReq("/" + word + rest)) == "0"
  {
    var app := GetWordArgCount(word);
    var st := PathState("", "/" + word + rest);
    var env := Env(GET, map[]);
    var after := PathState("/" + word, rest);
    LiteralOf(word, st, env, rest);
    assert "" + "/" + word == "/" + word;
    Seq1(Str(word), st, env, [], after);
    VerbMatches(GET, [Str(word)], st, env);
    OneRouteHalts(app[0], GetReq("/" + word + rest), [], after);
    assert DecimalString(0) == "0";
    assert RenderAll([ArgCount], after, [], 0) == ["0"];
    Join1("0");
  }

  /** `r.get word, :id do |id| ... end` */
  function GetWordSegment(word: string, handler: seq<Piece>): seq<Route> {
    [Route(When(GET), [Str(word), Segment], Handler(handler))]
  }

  /** A symbol yields the segment it consumes ("johndoe" and "101" on "/user/..."). */
  lemma YieldsTheSegment(word: string, seg: string, rest: string)
    requires NoPlaceholder(word) && IsSegment(seg) && Boundary(rest)
    ensures Body(GetWordSegment(word, [Arg(0)]), GetReq("/" + word + "/" + seg + rest)) == seg
  {
    var path := "/" + word + "/" + seg + rest;
    var st := PathState("", path);
    var env := Env(GET, map[]);
    var s2 := PathState("" + "/" + word + "/" + seg, rest);
    WordThenSegment(word, seg, rest, st, env);
    VerbMatches(GET, [Str(word), Segment], st, env);
    OneRouteHalts(GetWordSegment(word, [Arg(0)])[0], GetReq(path), [seg], s2);
    assert RenderAll([Arg(0)], s2, [seg], 1) == [seg];
    Join1(seg);
  }

  /** `r.get word, :extension => ext do |file| ... end` */
  function GetWordExtension(word: string, ext: string, handler: seq<Piece>): seq<Route> {
    [Route(When(GET), [Str(word), Extension(ext)], Handler(handler))]
  }

  /** `word` then an extension consume the whole path and capture the file name. */
  lemma WordThenExtension(word: string, ext: string, name: string, st: PathState, env: Env)
    requires NoPlaceholder(word) && IsSegment(name)
    requires st.pathInfo == "/" + word + "/" + name + "." + ext
    ensures MatchAll([Str(word), Extension(ext)], st, env) ==
      Some(Matched([name], PathState(st.scriptName + st.pathInfo, "")))
  {
    var tail := "/" + name + "." + ext;
    var s1 := PathState(st.scriptName + "/" + word, tail);
    WordTail(st.scriptName, word, name, ext, st.pathInfo);
    LiteralOf(word, st, env, tail);
    ExtensionOf(ext, s1, env, name);
    Seq2(Str(word), Extension(ext), st, env, [], s1, [name], PathState(st.scriptName + st.pathInfo, ""));
    assert [] + [name] == [name];
  }

  lemma WordTail(sn: string, word: string, name: string, ext: string, p: string)
    requires p == "/" + word + "/" + name + "." + ext
    ensures var tail := "/" + name + "." + ext; p == "/" + word + tail && sn + "/" + word + tail == sn + p
  {
  }

  /** The extension matcher yields the file name without the extension ("app" of "/css/app.css"). */
  lemma YieldsTheFileName(word: string, ext: string, name: string)
    requires NoPlaceholder(word) && IsSegment(name)
    ensures Body(GetWordExtension(word, ext, [Arg(0)]), GetReq("/" + word + "/" + name + "." + ext)) == name
  {
    var path := "/" + word + "/" + name + "." + ext;
    var st := PathState("", path);
    var env := Env(GET, map[]);
    var after := PathState("" + path, "");
    WordThenExtension(word, ext, name, st, env);
    VerbMatches(GET, [Str(word), Extension(ext)], st, env);
    OneRouteHalts(GetWordExtension(word, ext, [Arg(0)])[0], GetReq(path), [name], after);
    assert RenderAll([Arg(0)], after, [name], 1) == [name];
    Join1(name);
  }

  /** `r.on :seg do ... end` */
  function OnSegment(inner: Block): Route {
    Route(On, [Segment], inner)
  }

  /** One `r.on :seg` level: it consumes the segment and passes it to its block. */
  lemma OnSegmentLevel(inner: Block, st: PathState, env: Env, scope: seq<string>, seg: string, rest: string)
    requires st.pathInfo == "/" + seg + rest && IsSegment(seg) && Boundary(rest)
    ensures EvalRoutes([OnSegment(inner)], st, env, scope) ==
      EvalBlock(inner, PathState(st.scriptName + "/" + seg, rest), env, scope + [seg], 1)
  {
    var after := PathState(st.scriptName + "/" + seg, rest);
    SegmentOf(st, env, seg, rest);
    Seq1(Segment, st, env, [seg], after);
    SingleRoute(OnSegment(inner), st, env, scope, [seg], after);
  }

  /** `r.on :one do |one| r.on :two do |two| r.on :three do |three| ... end end end` */
  function NestedSegments(handler: seq<Piece>): seq<Route> {
    [OnSegment(Nested([OnSegment(Nested([OnSegment(Handler(handler))]))]))]
  }

  /** Two nested `r.on :seg` levels around a handler, at any depth. */
  lemma TwoSegmentLevels(ps: seq<Piece>, st: PathState, env: Env, scope: seq<string>, b: string, c: string, rest: string)
    requires IsSegment(b) && IsSegment(c) && Boundary(rest)
    requires st.pathInfo == "/" + b + "/" + c + rest
    ensures EvalRoutes([OnSegment(Nested([OnSegment(Handler(ps))]))], st, env, scope) ==
      Halt(RenderAll(ps, PathState(st.scriptName + "/" + b + "/" + c, rest), scope + [b, c], 1))
  {
    var s1 := PathState(st.scriptName + "/" + b, "/" + c + rest);
    assert st.pathInfo == "/" + b + ("/" + c + rest);
    OnSegmentLevel(Nested([OnSegment(Handler(ps))]), st, env, scope, b, "/" + c + rest);
    OnSegmentLevel(Handler(ps), s1, env, scope + [b], c, rest);
    assert scope + [b] + [c] == scope + [b, c];
  }

  /** Each level consumes one segment and appends it to the arguments the next level sees. */
  lemma NestedSegmentsEval(ps: seq<Piece>, env: Env, a: string, b: string, c: string, rest: string)
    requires IsSegment(a) && IsSegment(b) && IsSegment(c) && Boundary(rest)
    ensures EvalRoutes(NestedSegments(ps), PathState("", "/" + a + "/" + b + "/" + c + rest), env, []) ==
      Halt(RenderAll(ps, PathState("/" + a + "/" + b + "/" + c, rest), [a, b, c], 1))
  {
    var path := "/" + a + "/" + b + "/" + c + rest;
    var s1 := PathState("/" + a, "/" + b + "/" + c + rest);
    assert path == "/" + a + ("/" + b + "/" + c + rest);
    OnSegmentLevel(Nested([OnSegment(Nested([OnSegment(Handler(ps))]))]), PathState("", path), env, [], a, "/" + b + "/" + c + rest);
    assert "" + "/" + a == "/" + a && [] + [a] == [a];
    TwoSegmentLevels(ps, s1, env, [a], b, c, rest);
    assert [a] + [b, c] == [a, b, c];
  }

  /** Nested blocks each yield their own segment, and inner blocks see the outer ones' captures. */
  lemma YieldsASegmentPerNestedBlock(a: string, b: string, c: string, rest: string)
    requires IsSegment(a) && IsSegment(b) && IsSegment(c) && Boundary(rest)
    ensures Body(NestedSegments([Arg(0), Arg(1), Arg(2)]), GetReq("/" + a + "/" + b + "/" + c + rest)) == a + b + c
  {
    var path := "/" + a + "/" + b + "/" + c + rest;
    NestedSegmentsEval([Arg(0), Arg(1), Arg(2)], Env(GET, map[]), a, b, c, rest);
    EchoThree(PathState("/" + a + "/" + b + "/" + c, rest), a, b, c, 1);
    Halts(NestedSegments([Arg(0), Arg(1), Arg(2)]), GetReq(path), [a, b, c]);
    Join3(a, b, c);
  }

  /** The pattern `word/(\d+)-(.*)`: digits, a dash, then anything to the end. */
  function PostSlugPattern(word: string): seq<Token> {
    Lits(word + "/") + [Run(Digit, true, true), Lit('-'), Run(AnyChar, true, false)]
  }

  /** `r.get %r{word/(\d+)-(.*)} do |id, slug| response.write id; response.write slug end` */
  function GetPostSlug(word: string): seq<Route> {
    [Route(When(GET), [Regex(PostSlugPattern(word))], Handler([Arg(0), Arg(1)]))]
  }

  /** Where the digits, the dash and the rest of "<id>-<slug>" sit in `p`. */
  lemma DigitsDashPositions(p: string, i: nat, id: string, slug: string)
    requires i + |id| + 1 + |slug| == |p|
    requires p[i..] == id + "-" + slug
    requires id != [] && AllIn(Digit, id) && AllIn(AnyChar, slug)
    ensures var e := i + |id|;
      && RunEnd(Digit, p, i) == e && p[i..e] == id && p[e] == '-'
      && RunEnd(AnyChar, p, e + 1) == |p| && p[e + 1..|p|] == slug
  {
    var e := i + |id|;
    assert forall k :: i <= k < e ==> p[k] == p[i..][k - i] == id[k - i];
    assert p[e] == p[i..][|id|] == '-';
    RunEndAt(Digit, p, i, e);
    assert forall k :: e + 1 <= k < |p| ==> p[k] == p[i..][k - i] == slug[k - e - 1];
    RunEndAt(AnyChar, p, e + 1, |p|);
    assert p[i..e] == id;
    assert p[e + 1..|p|] == slug;
  }

  /** `-(.*)` after the digits: the dash, then everything up to the end. */
  lemma DashRest(p: string, e: nat, slug: string)
    requires e < |p| && p[e] == '-' && RunEnd(AnyChar, p, e + 1) == |p| && p[e + 1..|p|] == slug
    ensures MatchFrom([Lit('-'), Run(AnyChar, true, false)], p, e) == Some(Span([slug], |p|))
  {
    var any := Run(AnyChar, true, false);
    assert [Lit('-'), any][1..] == [any] && [any][1..] == [];
    assert MatchFrom([], p, |p|) == Some(Span([], |p|));
    assert Backtrack([], any, p, e + 1, |p|) == Some(Span([slug] + [], |p|));
    assert [slug] + [] == [slug];
  }

  /** `(\d+)-(.*)` on digits, a dash and a rest without newlines, up to the end. */
  lemma DigitsDashRest(p: string, i: nat, id: string, slug: string)
    requires i + |id| + 1 + |slug| == |p|
    requires p[i..] == id + "-" + slug
    requires id != [] && AllIn(Digit, id) && AllIn(AnyChar, slug)
    ensures MatchFrom([Run(Digit, true, true), Lit('-'), Run(AnyChar, true, false)], p, i) ==
      Some(Span([id, slug], |p|))
  {
    var e := i + |id|;
    var digits := Run(Digit, true, true);
    var tail := [digits, Lit('-'), Run(AnyChar, true, false)];
    DigitsDashPositions(p, i, id, slug);
    DashRest(p, e, slug);
    assert tail[0] == digits && tail[1..] == [Lit('-'), Run(AnyChar, true, false)];
    assert Backtrack(tail[1..], digits, p, i, e) == Some(Span([id] + [slug], |p|));
    assert [id] + [slug] == [id, slug];
    assert MatchFrom(tail, p, i) == Backtrack(tail[1..], digits, p, i, e);
  }

  /** A regexp that matches the whole remaining path consumes all of it. */
  lemma RegexWhole(ts: seq<Token>, st: PathState, env: Env, caps: seq<string>)
    requires |st.pathInfo| > 0 && st.pathInfo[0] == '/'
    requires MatchFrom(ts, st.pathInfo, 1) == Some(Span(caps, |st.pathInfo|))
    ensures Match(Regex(ts), st, env) ==
      Step(Some(caps), PathState(st.scriptName + st.pathInfo, ""))
  {
    var p := st.pathInfo;
    assert Match(Regex(ts), st, env) == Consume(ts, st);
    assert p[..|p|] == p && p[|p|..] == "";
  }

  lemma PostSlugMatchFrom(word: string, id: string, slug: string, p: string)
    requires p == "/" + word + "/" + id + "-" + slug
    requires id != [] && AllIn(Digit, id) && AllIn(AnyChar, slug)
    ensures MatchFrom(PostSlugPattern(word), p, 1) == Some(Span([id, slug], |p|))
  {
    var i := 1 + |word| + 1;
    assert p == "/" + (word + "/") + (id + "-" + slug);
    assert p[1..i] == word + "/" && p[i..] == id + "-" + slug;
    LitsThen(word + "/", [Run(Digit, true, true), Lit('-'), Run(AnyChar, true, false)], p, 1);
    DigitsDashRest(p, i, id, slug);
  }

  /** The `word/(\d+)-(.*)` matcher on "/word/<digits>-<slug>". */
  lemma PostSlugMatcher(word: string, id: string, slug: string, st: PathState, env: Env)
    requires st.pathInfo == "/" + word + "/" + id + "-" + slug
    requires id != [] && AllIn(Digit, id) && AllIn(AnyChar, slug)
    ensures Match(Regex(PostSlugPattern(word)), st, env) ==
      Step(Some([id, slug]), PathState(st.scriptName + st.pathInfo, ""))
  {
    PostSlugMatchFrom(word, id, slug, st.pathInfo);
    RegexWhole(PostSlugPattern(word), st, env, [id, slug]);
  }

  /** A GET route guarded by one regexp that matches the whole path runs its handler at the end of the path. */
  lemma GetRegexWhole(ts: seq<Token>, handler: seq<Piece>, path: string, caps: seq<string>)
    requires |path| > 0 && path[0] == '/'
    requires MatchFrom(ts, path, 1) == Some(Span(caps, |path|))
    ensures Respond([Route(When(GET), [Regex(ts)], Handler(handler))], GetReq(path)) ==
      Response(200, RenderAll(handler, PathState(path, ""), caps, |caps|))
  {
    var st := PathState("", path);
    var env := Env(GET, map[]);
    RegexWhole(ts, st, env, caps);
    assert "" + path == path;
    Seq1(Regex(ts), st, env, caps, PathState(path, ""));
    VerbMatches(GET, [Regex(ts)], st, env);
    OneRouteHalts(Route(When(GET), [Regex(ts)], Handler(handler)), GetReq(path), caps, PathState(path, ""));
  }

  /** A regexp with two groups yields both, in order ("123" and "postal-service"). */
  lemma RegexCaptures(word: string, id: string, slug: string)
    requires id != [] && AllIn(Digit, id) && AllIn(AnyChar, slug)
    ensures Body(GetPostSlug(word), GetReq("/" + word + "/" + id + "-" + slug)) == id + slug
  {
    var path := "/" + word + "/" + id + "-" + slug;
    PostSlugMatchFrom(word, id, slug, path);
    GetRegexWhole(PostSlugPattern(word), [Arg(0), Arg(1)], path, [id, slug]);
    assert RenderAll([Arg(0), Arg(1)], PathState(path, ""), [id, slug], 2) == [id, slug];
    Join2(id, slug);
  }
}
