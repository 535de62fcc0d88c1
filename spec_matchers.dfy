/**
 * Examples of spec/matchers_spec.rb:162-273.  Strings with embedded placeholders, regexps with literal prefixes, symbols in nested blocks, and arrays of alternatives.
 */
module MatcherCombinationsSpec {
  import opened Wrappers
  import opened Paths
  import opened Patterns
  import opened Matchers
  import opened Routes
  import opened SpecSupport

  /** The matcher string "w/:name" compiles to the literal "w/" and one segment group. */
  lemma EmbeddedParamTokens(w: string, name: string)
    requires ':' !in w && name != [] && AllIn(Word, name)
    ensures Tokenize(w + "/:" + name) == Lits(w + "/") + [Run(NonSlash, true, true)]
  {
    assert w + "/:" + name == (w + "/") + (":" + name + "");
    assert ':' !in w + "/" by { assert forall k :: 0 <= k < |w + "/"| ==> (w + "/")[k] != ':' by {
      forall k | 0 <= k < |w + "/"| ensures (w + "/")[k] != ':' { if k < |w| { assert w[k] in w; } } } }
    TokenizeText(w + "/", ":" + name + "");
    TokenizePlaceholder(name, "");
    assert Tokenize("") == [];
    assert [Run(NonSlash, true, true)] + [] == [Run(NonSlash, true, true)];
  }

  /** A literal prefix, then a segment group, on the literal and one segment. */
  lemma LitsThenSegment(x: string, p: string, seg: string, rest: string)
    requires p == "/" + x + seg + rest && IsSegment(seg) && Boundary(rest)
    ensures MatchFrom(Lits(x) + [Run(NonSlash, true, true)], p, 1) == Some(Span([seg], 1 + |x| + |seg|))
  {
    var i := 1 + |x|;
    var e := i + |seg|;
    assert p[1..i] == x;
    LitsThen(x, [Run(NonSlash, true, true)], p, 1);
    assert forall k :: i <= k < e ==> p[k] == seg[k - i];
    assert p[i] == seg[0];
    if e < |p| { assert p[e] == rest[0]; }
    RunEndAt(NonSlash, p, i, e);
    SegmentMatch(p, i);
    assert p[i..e] == seg;
  }

  /** "w/:name" matches "/w/<seg>" up to the next boundary and yields the segment. */
  lemma EmbeddedParamOf(w: string, name: string, st: PathState, env: Env, seg: string, rest: string)
    requires ':' !in w && name != [] && AllIn(Word, name)
    requires st.pathInfo == "/" + w + "/" + seg + rest && IsSegment(seg) && Boundary(rest)
    ensures Match(Str(w + "/:" + name), st, env) ==
      Step(Some([seg]), PathState(st.scriptName + "/" + w + "/" + seg, rest))
  {
    var p := st.pathInfo;
    var e := 1 + |w + "/"| + |seg|;
    EmbeddedParamTokens(w, name);
    assert p == "/" + (w + "/") + seg + rest;
    LitsThenSegment(w + "/", p, seg, rest);
    ConsumeSpan(Lits(w + "/") + [Run(NonSlash, true, true)], st, [seg], e);
    assert p[..e] == "/" + w + "/" + seg && p[e..] == rest;
  }

  /** "w/:name" does not match a path that does not start with "/w/". */
  lemma EmbeddedParamMiss(w: string, name: string, st: PathState, env: Env)
    requires ':' !in w && name != [] && AllIn(Word, name)
    requires !StartsAt(st.pathInfo, 0, "/" + w + "/")
    ensures Match(Str(w + "/:" + name), st, env).captures.None?
  {
    var p := st.pathInfo;
    EmbeddedParamTokens(w, name);
    if |p| > 0 && p[0] == '/' {
      LitsThen(w + "/", [Run(NonSlash, true, true)], p, 1);
      StartsAtCons(p, 0, "/" + w + "/");
      assert ("/" + w + "/")[0] == '/' && ("/" + w + "/")[1..] == w + "/";
    }
  }

  /** "posts/:id" yields the segment after "/posts/" ("123" of "/posts/123"). */
  lemma StringWithEmbeddedParam(w: string, name: string, seg: string, rest: string)
    requires ':' !in w && name != [] && AllIn(Word, name) && IsSegment(seg) && Boundary(rest)
    ensures Body(OnStr(w + "/:" + name, [Arg(0)]), GetReq("/" + w + "/" + seg + rest)) == seg
  {
    var path := "/" + w + "/" + seg + rest;
    var st := PathState("", path);
    var env := Env(GET, map[]);
    var after := PathState("" + "/" + w + "/" + seg, rest);
    EmbeddedParamOf(w, name, st, env, seg, rest);
    Seq1(Str(w + "/:" + name), st, env, [seg], after);
    OneRouteHalts(OnStr(w + "/:" + name, [Arg(0)])[0], GetReq(path), [seg], after);
    assert RenderAll([Arg(0)], after, [seg], 1) == [seg];
    Join1(seg);
  }

  /** "posts/:id" is not found on a path that does not start with "/posts/" (such as "/post/123"). */
  lemma StringWithEmbeddedParamMiss(w: string, name: string, handler: seq<Piece>, path: string)
    requires ':' !in w && name != [] && AllIn(Word, name)
    requires !StartsAt(path, 0, "/" + w + "/")
    ensures Status(OnStr(w + "/:" + name, handler), GetReq(path)) == 404
  {
    EmbeddedParamMiss(w, name, PathState("", path), Env(GET, map[]));
    Fail1(Str(w + "/:" + name), [], PathState("", path), Env(GET, map[]));
    assert [Str(w + "/:" + name)] + [] == [Str(w + "/:" + name)];
    OneRouteFails(OnStr(w + "/:" + name, handler)[0], GetReq(path));
  }

  /** "u/:a/q/:b": a literal, a segment group, a literal that starts with `/`, a segment group. */
  function TwoParamTokens(u: string, q: string): seq<Token> {
    Lits(u + "/") + ([Run(NonSlash, true, true)] + (Lits("/" + q + "/") + [Run(NonSlash, true, true)]))
  }

  lemma TwoParamTokenize(u: string, n1: string, q: string, n2: string)
    requires ':' !in u && ':' !in q
    requires n1 != [] && AllIn(Word, n1) && n2 != [] && AllIn(Word, n2)
    ensures Tokenize(u + "/:" + n1 + "/" + q + "/:" + n2) == TwoParamTokens(u, q)
  {
    var r := "/" + q + "/:" + n2;
    assert u + "/:" + n1 + "/" + q + "/:" + n2 == (u + "/") + (":" + n1 + r);
    assert ':' !in u + "/";
    TokenizeText(u + "/", ":" + n1 + r);
    assert r[0] == '/';
    TokenizePlaceholder(n1, r);
    assert ':' !in "/" + q;
    assert r == ("/" + q) + "/:" + n2 && "/" + q + "/" == ("/" + q) + "/";
    EmbeddedParamTokens("/" + q, n2);
  }

  /** Where the segment at `i` ends, when a segment and a boundary follow. */
  lemma SegmentEnd(p: string, i: nat, seg: string, rest: string)
    requires i <= |p| && p[i..] == seg + rest && IsSegment(seg) && Boundary(rest)
    ensures RunEnd(NonSlash, p, i) == i + |seg| && p[i..i + |seg|] == seg
  {
    var e := i + |seg|;
    assert forall k :: i <= k < e ==> p[k] == p[i..][k - i] == seg[k - i];
    if e < |p| { assert p[e] == p[i..][|seg|] == rest[0]; }
    RunEndAt(NonSlash, p, i, e);
    assert p[i..e] == p[i..][..|seg|] == seg;
  }

  /** A path "/" + x + y continues with x after its first slash, then with y. */
  lemma LiteralHead(p: string, x: string, y: string)
    requires p == "/" + x + y
    ensures StartsAt(p, 1, x) && p[1 + |x|..] == y
  {
    assert p[1..] == x + y;
    SliceOfConcat(p, 1, x, y);
  }

  /** Where the pieces of "/u/<s1>/q/<s2>" start and end, and what the slices hold. */
  lemma TwoParamPositions(u: string, t: string, p: string, s1: string, s2: string, rest: string, i: nat, e: nat, j: nat)
    requires |t| > 0 && t[0] == '/'
    requires p == "/" + (u + "/") + (s1 + (t + (s2 + rest)))
    requires IsSegment(s1) && IsSegment(s2) && Boundary(rest)
    requires i == 2 + |u| && e == i + |s1| && j == e + |t|
    ensures StartsAt(p, 1, u + "/")
    ensures RunEnd(NonSlash, p, i) == e && p[i..e] == s1 && StartsAt(p, e, t)
    ensures RunEnd(NonSlash, p, j) == j + |s2| && p[j..j + |s2|] == s2
  {
    LiteralHead(p, u + "/", s1 + (t + (s2 + rest)));
    SliceOfConcat(p, i, s1, t + (s2 + rest));
    SegmentEnd(p, i, s1, t + (s2 + rest));
    SliceOfConcat(p, e, t, s2 + rest);
    SegmentEnd(p, j, s2, rest);
  }

  /** "u/:a/q/:b" at known positions: the literal, the first segment, "/q/", the second segment. */
  lemma TwoParamAt(u: string, q: string, p: string, i: nat, e: nat, j: nat, f: nat, s1: string, s2: string)
    requires i == 2 + |u| && i <= |p| && StartsAt(p, 1, u + "/")
    requires RunEnd(NonSlash, p, i) == e && e > i && StartsAt(p, e, "/" + q + "/") && j == e + |"/" + q + "/"|
    requires RunEnd(NonSlash, p, j) == f && f > j
    requires p[i..e] == s1 && p[j..f] == s2
    ensures MatchFrom(TwoParamTokens(u, q), p, 1) == Some(Span([s1, s2], f))
  {
    var t := "/" + q + "/";
    var run := Run(NonSlash, true, true);
    LitsThen(u + "/", [run] + (Lits(t) + [run]), p, 1);
    SegmentLiteralSegment(t, p, i, e, j, f);
  }

  /** The path "/u/<s1>/q/<s2>" and a boundary: where the match stops, and what is left. */
  lemma TwoParamSplit(u: string, q: string, p: string, s1: string, s2: string, rest: string)
    requires p == "/" + (u + "/") + (s1 + (("/" + q + "/") + (s2 + rest)))
    ensures var f := |p| - |rest|;
      p[..f] == "/" + u + "/" + s1 + "/" + q + "/" + s2 && p[f..] == rest
  {
    assert p == ("/" + u + "/" + s1 + "/" + q + "/" + s2) + rest;
    SplitConcat("/" + u + "/" + s1 + "/" + q + "/" + s2, rest);
  }

  /** "u/:a/q/:b" yields both segments and consumes up to the end of the second. */
  lemma TwoParamOf(u: string, n1: string, q: string, n2: string, st: PathState, env: Env,
                   s1: string, s2: string, rest: string)
    requires ':' !in u && ':' !in q
    requires n1 != [] && AllIn(Word, n1) && n2 != [] && AllIn(Word, n2)
    requires IsSegment(s1) && IsSegment(s2) && Boundary(rest)
    requires st.pathInfo == "/" + (u + "/") + (s1 + (("/" + q + "/") + (s2 + rest)))
    ensures Match(Str(u + "/:" + n1 + "/" + q + "/:" + n2), st, env) ==
      Step(Some([s1, s2]), PathState(st.scriptName + ("/" + u + "/" + s1 + "/" + q + "/" + s2), rest))
  {
    var p := st.pathInfo;
    TwoParamTokenize(u, n1, q, n2);
    TwoParamMatchFrom(u, q, p, s1, s2, rest, |p| - |rest|);
    TwoParamSplit(u, q, p, s1, s2, rest);
    StrSpan(u + "/:" + n1 + "/" + q + "/:" + n2, TwoParamTokens(u, q), st, env, [s1, s2], |p| - |rest|);
  }

  lemma TwoParamMatchFrom(u: string, q: string, p: string, s1: string, s2: string, rest: string, f: nat)
    requires IsSegment(s1) && IsSegment(s2) && Boundary(rest)
    requires p == "/" + (u + "/") + (s1 + (("/" + q + "/") + (s2 + rest))) && f == |p| - |rest|
    ensures MatchFrom(TwoParamTokens(u, q), p, 1) == Some(Span([s1, s2], f))
  {
    var t := "/" + q + "/";
    var i := 2 + |u|;
    var e := i + |s1|;
    var j := e + |t|;
    TwoParamPositions(u, t, p, s1, s2, rest, i, e, j);
    assert j + |s2| == f;
    TwoParamAt(u, q, p, i, e, j, f, s1, s2);
  }

  /** The second literal of "u/:a/q/:b" missing after the first segment. */
  lemma TwoParamMissAt(u: string, q: string, p: string, i: nat, e: nat)
    requires i == 2 + |u| && i <= |p| && StartsAt(p, 1, u + "/")
    requires RunEnd(NonSlash, p, i) == e && !StartsAt(p, e, "/" + q + "/")
    ensures MatchFrom(TwoParamTokens(u, q), p, 1) == None
  {
    var t := "/" + q + "/";
    var run := Run(NonSlash, true, true);
    LitsThen(u + "/", [run] + (Lits(t) + [run]), p, 1);
    SegmentThenSlash(true, t, [run], p, i);
  }

  lemma TwoParamMissPositions(u: string, t: string, p: string, s1: string, x: string, i: nat, e: nat)
    requires p == "/" + (u + "/") + (s1 + x) && IsSegment(s1) && Boundary(x)
    requires !StartsAt(x, 0, t)
    requires i == 2 + |u| && e == i + |s1|
    ensures StartsAt(p, 1, u + "/") && RunEnd(NonSlash, p, i) == e && !StartsAt(p, e, t)
  {
    SliceOfConcat(p, 0, "/" + (u + "/"), s1 + x);
    assert p[1..i] == p[0..i][1..] == u + "/";
    SliceOfConcat(p, i, s1, x);
    SegmentEnd(p, i, s1, x);
  }

  /** "u/:a/q/:b" does not match when the text after the first segment is not "/q/". */
  lemma TwoParamMiss(u: string, n1: string, q: string, n2: string, st: PathState, env: Env, s1: string, x: string)
    requires ':' !in u && ':' !in q
    requires n1 != [] && AllIn(Word, n1) && n2 != [] && AllIn(Word, n2)
    requires IsSegment(s1) && Boundary(x) && !StartsAt(x, 0, "/" + q + "/")
    requires st.pathInfo == "/" + (u + "/") + (s1 + x)
    ensures Match(Str(u + "/:" + n1 + "/" + q + "/:" + n2), st, env).captures.None?
  {
    var i := 2 + |u|;
    TwoParamTokenize(u, n1, q, n2);
    TwoParamMissPositions(u, "/" + q + "/", st.pathInfo, s1, x, i, i + |s1|);
    TwoParamMissAt(u, q, st.pathInfo, i, i + |s1|);
  }

  /** "u/:uid/posts/:id" yields both segments ("jdoe" and "123" of "/u/jdoe/posts/123"). */
  lemma MultipleParamsInOneString(u: string, n1: string, q: string, n2: string, s1: string, s2: string, rest: string)
    requires ':' !in u && ':' !in q
    requires n1 != [] && AllIn(Word, n1) && n2 != [] && AllIn(Word, n2)
    requires IsSegment(s1) && IsSegment(s2) && Boundary(rest)
    ensures Body(OnStr(u + "/:" + n1 + "/" + q + "/:" + n2, [Arg(0), Arg(1)]),
                 GetReq("/" + u + "/" + s1 + "/" + q + "/" + s2 + rest)) == s1 + s2
  {
    var m := Str(u + "/:" + n1 + "/" + q + "/:" + n2);
    var path := "/" + u + "/" + s1 + "/" + q + "/" + s2 + rest;
    var st := PathState("", path);
    var env := Env(GET, map[]);
    var after := PathState("" + ("/" + u + "/" + s1 + "/" + q + "/" + s2), rest);
    assert path == "/" + (u + "/") + (s1 + (("/" + q + "/") + (s2 + rest)));
    TwoParamOf(u, n1, q, n2, st, env, s1, s2, rest);
    Seq1(m, st, env, [s1, s2], after);
    OneRouteHalts(OnStr(u + "/:" + n1 + "/" + q + "/:" + n2, [Arg(0), Arg(1)])[0], GetReq(path), [s1, s2], after);
    assert RenderAll([Arg(0), Arg(1)], after, [s1, s2], 2) == [s1, s2];
    Join2(s1, s2);
  }

  /** "u/:uid/posts/:id" is not found when the middle literal differs ("/u/jdoe/pots/123"). */
  lemma MultipleParamsInOneStringMiss(u: string, n1: string, q: string, n2: string, handler: seq<Piece>, s1: string, x: string)
    requires ':' !in u && ':' !in q
    requires n1 != [] && AllIn(Word, n1) && n2 != [] && AllIn(Word, n2)
    requires IsSegment(s1) && Boundary(x) && !StartsAt(x, 0, "/" + q + "/")
    ensures Status(OnStr(u + "/:" + n1 + "/" + q + "/:" + n2, handler), GetReq("/" + u + "/" + s1 + x)) == 404
  {
    var m := Str(u + "/:" + n1 + "/" + q + "/:" + n2);
    var path := "/" + u + "/" + s1 + x;
    var st := PathState("", path);
    var env := Env(GET, map[]);
    assert path == "/" + (u + "/") + (s1 + x);
    TwoParamMiss(u, n1, q, n2, st, env, s1, x);
    Fail1(m, [], st, env);
    assert [m] + [] == [m];
    OneRouteFails(OnStr(u + "/:" + n1 + "/" + q + "/:" + n2, handler)[0], GetReq(path));
  }

  /** The regexp `<a>(cls+)` does not match "/<x>" when `x` does not start with `a`. */
  lemma PrefixRunMiss(a: string, cls: CharClass, st: PathState, env: Env, x: string)
    requires st.pathInfo == "/" + x && !StartsAt(x, 0, a)
    ensures Match(Regex(Lits(a) + [Run(cls, true, true)]), st, env).captures.None?
  {
    var p := st.pathInfo;
    SliceOfConcat(p, 0, "/", x);
    LitsThen(a, [Run(cls, true, true)], p, 1);
  }

  /** `/<u><sep>(\w+)/` around `/<q><sep>(\d+)/`, echoing both captures. */
  function RegexNesting(u: string, q: string, sep: char): seq<Route> {
    OnNestedOn([Regex(Lits(u + [sep]) + [Run(Word, true, true)])],
               [Regex(Lits(q + [sep]) + [Run(Digit, true, true)])], [Arg(0), Arg(1)])
  }

  /** Both regexps match in turn: the response carries both runs. */
  lemma RegexNestingHalts(a: string, b: string, w: string, d: string, rest: string, path: string)
    requires w != [] && AllIn(Word, w) && d != [] && AllIn(Digit, d) && Boundary(rest)
    requires path == "/" + a + (w + ("/" + b + (d + rest)))
    ensures Respond(OnNestedOn([Regex(Lits(a) + [Run(Word, true, true)])],
                               [Regex(Lits(b) + [Run(Digit, true, true)])], [Arg(0), Arg(1)]), GetReq(path)) ==
      Response(200, [w, d])
  {
    var env := Env(GET, map[]);
    var tail := "/" + b + (d + rest);
    PrefixRunAll(a, Word, PathState("", path), env, w, tail);
    var s1 := PathState("" + ("/" + a + w), tail);
    PrefixRunAll(b, Digit, s1, env, d, rest);
    var s2 := PathState(s1.scriptName + ("/" + b + d), rest);
    OnNestedOnHalts([Regex(Lits(a) + [Run(Word, true, true)])], [Regex(Lits(b) + [Run(Digit, true, true)])],
                    [Arg(0), Arg(1)], GetReq(path), [w], s1, [d], s2);
    EchoTwo(s2, [w], [d], 1);
    assert [w] + [d] == [w, d];
  }

  /** "/u/jdoe/posts/123" yields "jdoe123"; so does "/u:jdoe/posts:123" with `:` as separator. */
  lemma RegexesAndNesting(u: string, q: string, sep: char, w: string, d: string, rest: string)
    requires w != [] && AllIn(Word, w) && d != [] && AllIn(Digit, d) && Boundary(rest)
    ensures Body(RegexNesting(u, q, sep), GetReq("/" + (u + [sep]) + w + "/" + (q + [sep]) + d + rest)) == w + d
  {
    var a, b := u + [sep], q + [sep];
    var path := "/" + a + w + "/" + b + d + rest;
    assert path == "/" + a + (w + ("/" + b + (d + rest)));
    RegexNestingHalts(a, b, w, d, rest, path);
    Join2(w, d);
  }

  /** "/u/jdoe/pots/123" is not found: the inner prefix differs. */
  lemma RegexesAndNestingMiss(u: string, q: string, sep: char, w: string, x: string)
    requires w != [] && AllIn(Word, w) && !StartsAt(x, 0, q + [sep])
    ensures Status(RegexNesting(u, q, sep), GetReq("/" + (u + [sep]) + w + "/" + x)) == 404
  {
    var a := u + [sep];
    var path := "/" + a + w + "/" + x;
    var env := Env(GET, map[]);
    var m1 := Regex(Lits(a) + [Run(Word, true, true)]);
    var m2 := Regex(Lits(q + [sep]) + [Run(Digit, true, true)]);
    var tail := "/" + x;
    assert path == "/" + a + (w + tail);
    PrefixRunOf(a, Word, PathState("", path), env, w, tail);
    var s1 := PathState("" + ("/" + a + w), tail);
    Seq1(m1, PathState("", path), env, [w], s1);
    PrefixRunMiss(q + [sep], Digit, s1, env, x);
    Fail1(m2, [], s1, env);
    OnNestedOnInnerFails([m1], [m2], [Arg(0), Arg(1)], GetReq(path), [w], s1);
  }

  /** A leading slash shifts a whole-segment prefix by one place. */
  lemma ShiftSegment(x: string, t: string)
    ensures (StartsAt("/" + x, 0, "/" + t) && AtBoundary("/" + x, 1 + |t|)) <==>
            (StartsAt(x, 0, t) && AtBoundary(x, |t|))
  {
    var p := "/" + x;
    assert p[1..] == x;
    StartsAtCons(p, 0, "/" + t);
    assert ("/" + t)[1..] == t;
    if 1 + |t| <= |p| { assert p[1..1 + |t|] == x[..|t|]; }
    if 1 + |t| < |p| { assert p[1 + |t|] == x[|t|]; }
  }

  /** A literal does not match "/<x>" when `x` does not begin with it as a whole segment. */
  lemma LiteralMiss(t: string, st: PathState, env: Env, x: string)
    requires NoPlaceholder(t)
    requires st.pathInfo == "/" + x && !(StartsAt(x, 0, t) && AtBoundary(x, |t|))
    ensures Match(Str(t), st, env).captures.None?
  {
    LiteralMatcher(t, st, env);
    ShiftSegment(x, t);
  }

  /** `r.on "user", :id do r.on "posts", :pid do ... end end`, echoing both. */
  function SymbolNesting(u: string, q: string): seq<Route> {
    OnNestedOn([Str(u), Segment], [Str(q), Segment], [Arg(0), Arg(1)])
  }

  lemma SymbolNestingHalts(u: string, q: string, s1: string, s2: string, rest: string, path: string)
    requires NoPlaceholder(u) && NoPlaceholder(q) && IsSegment(s1) && IsSegment(s2) && Boundary(rest)
    requires path == "/" + u + "/" + s1 + ("/" + q + "/" + s2 + rest)
    ensures Respond(SymbolNesting(u, q), GetReq(path)) == Response(200, [s1, s2])
  {
    var env := Env(GET, map[]);
    var tail := "/" + q + "/" + s2 + rest;
    WordThenSegment(u, s1, tail, PathState("", path), env);
    var st1 := PathState("" + "/" + u + "/" + s1, tail);
    WordThenSegment(q, s2, rest, st1, env);
    var st2 := PathState(st1.scriptName + "/" + q + "/" + s2, rest);
    OnNestedOnHalts([Str(u), Segment], [Str(q), Segment], [Arg(0), Arg(1)], GetReq(path), [s1], st1, [s2], st2);
    EchoTwo(st2, [s1], [s2], 1);
    assert [s1] + [s2] == [s1, s2];
  }

  /** "/user/jdoe/posts/123" yields "jdoe123". */
  lemma SymbolMatching(u: string, q: string, s1: string, s2: string, rest: string)
    requires NoPlaceholder(u) && NoPlaceholder(q) && IsSegment(s1) && IsSegment(s2) && Boundary(rest)
    ensures Body(SymbolNesting(u, q), GetReq("/" + u + "/" + s1 + "/" + q + "/" + s2 + rest)) == s1 + s2
  {
    var path := "/" + u + "/" + s1 + "/" + q + "/" + s2 + rest;
    assert path == "/" + u + "/" + s1 + ("/" + q + "/" + s2 + rest);
    SymbolNestingHalts(u, q, s1, s2, rest, path);
    Join2(s1, s2);
  }

  /** "/user/jdoe/pots/123" is not found: the inner literal is not the next segment. */
  lemma SymbolMatchingMiss(u: string, q: string, s1: string, x: string)
    requires NoPlaceholder(u) && NoPlaceholder(q) && IsSegment(s1)
    requires !(StartsAt(x, 0, q) && AtBoundary(x, |q|))
    ensures Status(SymbolNesting(u, q), GetReq("/" + u + "/" + s1 + "/" + x)) == 404
  {
    var path := "/" + u + "/" + s1 + "/" + x;
    var env := Env(GET, map[]);
    assert path == "/" + u + "/" + s1 + ("/" + x);
    WordThenSegment(u, s1, "/" + x, PathState("", path), env);
    var st1 := PathState("" + "/" + u + "/" + s1, "/" + x);
    LiteralMiss(q, st1, env, x);
    Fail1(Str(q), [Segment], st1, env);
    assert [Str(q)] + [Segment] == [Str(q), Segment];
    OnNestedOnInnerFails([Str(u), Segment], [Str(q), Segment], [Arg(0), Arg(1)], GetReq(path), [s1], st1);
  }

  /** `r.on "about" do r.on :one, :two do ... end end`, echoing both segments. */
  function AboutTwoSegments(a: string): seq<Route> {
    OnNestedOn([Str(a)], [Segment, Segment], [Arg(0), Arg(1)])
  }

  /** Two symbols take two whole segments in turn. */
  lemma TwoSegmentsOf(st: PathState, env: Env, s1: string, s2: string, rest: string, t2: string)
    requires IsSegment(s1) && IsSegment(s2) && Boundary(rest)
    requires t2 == "/" + s2 + rest && st.pathInfo == "/" + s1 + t2
    ensures MatchAll([Segment, Segment], st, env) ==
      Some(Matched([s1, s2], PathState(st.scriptName + "/" + s1 + "/" + s2, rest)))
  {
    SegmentOf(st, env, s1, t2);
    var st2 := PathState(st.scriptName + "/" + s1, t2);
    SegmentOf(st2, env, s2, rest);
    Seq2(Segment, Segment, st, env, [s1], st2, [s2], PathState(st2.scriptName + "/" + s2, rest));
    assert [s1] + [s2] == [s1, s2];
  }

  lemma AboutTwoSegmentsHalts(a: string, s1: string, s2: string, rest: string, path: string, t1: string, t2: string)
    requires NoPlaceholder(a) && IsSegment(s1) && IsSegment(s2) && Boundary(rest)
    requires t2 == "/" + s2 + rest && t1 == "/" + s1 + t2 && path == "/" + a + t1
    ensures Respond(AboutTwoSegments(a), GetReq(path)) == Response(200, [s1, s2])
  {
    var env := Env(GET, map[]);
    var st1 := PathState("" + "/" + a, t1);
    LiteralOf(a, PathState("", path), env, t1);
    Seq1(Str(a), PathState("", path), env, [], st1);
    TwoSegmentsOf(st1, env, s1, s2, rest, t2);
    var st3 := PathState(st1.scriptName + "/" + s1 + "/" + s2, rest);
    OnNestedOnHalts([Str(a)], [Segment, Segment], [Arg(0), Arg(1)], GetReq(path), [], st1, [s1, s2], st3);
    EchoTwo(st3, [s1], [s2], 2);
    assert [] + [s1, s2] == [s1] + [s2] == [s1, s2];
  }

  /** "/about/1/2" yields "12". */
  lemma PathsAndNumbers(a: string, s1: string, s2: string, rest: string)
    requires NoPlaceholder(a) && IsSegment(s1) && IsSegment(s2) && Boundary(rest)
    ensures Body(AboutTwoSegments(a), GetReq("/" + a + "/" + s1 + "/" + s2 + rest)) == s1 + s2
  {
    var path := "/" + a + "/" + s1 + "/" + s2 + rest;
    assert path == "/" + a + ("/" + s1 + ("/" + s2 + rest));
    AboutTwoSegmentsHalts(a, s1, s2, rest, path, "/" + s1 + ("/" + s2 + rest), "/" + s2 + rest);
    Join2(s1, s2);
  }

  /** "/about/1" is not found: the second symbol has no segment left. */
  lemma PathsAndNumbersMiss(a: string, s1: string)
    requires NoPlaceholder(a) && IsSegment(s1)
    ensures Status(AboutTwoSegments(a), GetReq("/" + a + "/" + s1)) == 404
  {
    var path := "/" + a + "/" + s1;
    var env := Env(GET, map[]);
    assert path == "/" + a + ("/" + s1);
    LiteralOf(a, PathState("", path), env, "/" + s1);
    var st1 := PathState("" + "/" + a, "/" + s1);
    Seq1(Str(a), PathState("", path), env, [], st1);
    assert "/" + s1 == "/" + s1 + "";
    SegmentOf(st1, env, s1, "");
    var st2 := PathState(st1.scriptName + "/" + s1, "");
    SegmentMatcher(st2, env);
    Fail2(Segment, Segment, st1, env, [s1], st2);
    OnNestedOnInnerFails([Str(a)], [Segment, Segment], [Arg(0), Arg(1)], GetReq(path), [], st1);
  }

  /** `r.on "about" do r.on(/(\d+)/) do ... end end`, echoing the digits. */
  function AboutDigits(a: string): seq<Route> {
    OnNestedOn([Str(a)], [Regex([Run(Digit, true, true)])], [Arg(0)])
  }

  lemma AboutDigitsHalts(a: string, d: string, rest: string, path: string)
    requires NoPlaceholder(a) && d != [] && AllIn(Digit, d) && Boundary(rest)
    requires path == "/" + a + ("/" + d + rest)
    ensures Respond(AboutDigits(a), GetReq(path)) == Response(200, [d])
  {
    var env := Env(GET, map[]);
    LiteralOf(a, PathState("", path), env, "/" + d + rest);
    var st1 := PathState("" + "/" + a, "/" + d + rest);
    Seq1(Str(a), PathState("", path), env, [], st1);
    RunOf(Digit, st1, env, d, rest);
    var st2 := PathState(st1.scriptName + "/" + d, rest);
    Seq1(Regex([Run(Digit, true, true)]), st1, env, [d], st2);
    OnNestedOnHalts([Str(a)], [Regex([Run(Digit, true, true)])], [Arg(0)], GetReq(path), [], st1, [d], st2);
    EchoOne(st2, [] + [d], 1);
    assert [] + [d] == [d];
  }

  /** "/about/1" yields "1". */
  lemma PathsAndDecimals(a: string, d: string, rest: string)
    requires NoPlaceholder(a) && d != [] && AllIn(Digit, d) && Boundary(rest)
    ensures Body(AboutDigits(a), GetReq("/" + a + "/" + d + rest)) == d
  {
    var path := "/" + a + "/" + d + rest;
    assert path == "/" + a + ("/" + d + rest);
    AboutDigitsHalts(a, d, rest, path);
    Join1(d);
  }

  /** `(\d+)` does not match a segment whose digits are followed by another character. */
  lemma DigitsThenOther(st: PathState, env: Env, d: string, x: string)
    requires AllIn(Digit, d) && x != [] && x[0] != '/' && !InClass(Digit, x[0])
    requires st.pathInfo == "/" + d + x
    ensures Match(Regex([Run(Digit, true, true)]), st, env).captures.None?
  {
    var p := st.pathInfo;
    var e := 1 + |d|;
    assert forall k :: 1 <= k < e ==> p[k] == d[k - 1];
    assert p[e] == x[0];
    RunEndAt(Digit, p, 1, e);
    RunAlone(Digit, true, p, 1);
  }

  /** "/about/1.2" is not found: the digits are not a whole segment. */
  lemma PathsAndDecimalsMiss(a: string, d: string, x: string)
    requires NoPlaceholder(a) && AllIn(Digit, d) && x != [] && x[0] != '/' && !InClass(Digit, x[0])
    ensures Status(AboutDigits(a), GetReq("/" + a + "/" + d + x)) == 404
  {
    var path := "/" + a + "/" + d + x;
    var env := Env(GET, map[]);
    var m := Regex([Run(Digit, true, true)]);
    assert path == "/" + a + ("/" + d + x);
    LiteralOf(a, PathState("", path), env, "/" + d + x);
    var st1 := PathState("" + "/" + a, "/" + d + x);
    Seq1(Str(a), PathState("", path), env, [], st1);
    DigitsThenOther(st1, env, d, x);
    Fail1(m, [], st1, env);
    assert [m] + [] == [m];
    OnNestedOnInnerFails([Str(a)], [m], [Arg(0)], GetReq(path), [], st1);
  }

  /** `/\d+(t)?/` on "/<d><y>" where `y` starts with neither a digit nor `/`. */
  lemma OptionalAfterDigits(t: string, p: string, d: string, y: string)
    requires t != [] && !InClass(Digit, t[0])
    requires d != [] && AllIn(Digit, d) && y != [] && y[0] != '/' && !InClass(Digit, y[0])
    requires p == "/" + d + y
    ensures MatchFrom([Run(Digit, false, true), Optional(t, true)], p, 1) ==
      if StartsAt(y, 0, t) && AtBoundary(y, |t|) then Some(Span([t], 1 + |d| + |t|)) else None
  {
    var e := 1 + |d|;
    assert forall k :: 1 <= k < e ==> p[k] == d[k - 1];
    assert p[e] == y[0];
    RunEndAt(Digit, p, 1, e);
    RunThenOptional(Digit, t, true, p, 1);
    OptionalAlone(t, true, p, e);
    assert p[e..] == y;
    ShiftAt(p, e, y, t);
  }

  /** The array `[/(\d+)/, /\d+(t)?/]`. */
  function DigitsOrSuffix(t: string): Matcher {
    Alternatives([Regex([Run(Digit, true, true)]), Regex([Run(Digit, false, true), Optional(t, true)])])
  }

  /** A digit segment: the first alternative matches and yields the digits. */
  lemma DigitsOrSuffixDigits(t: string, st: PathState, env: Env, d: string, rest: string)
    requires d != [] && AllIn(Digit, d) && Boundary(rest) && st.pathInfo == "/" + d + rest
    ensures Match(DigitsOrSuffix(t), st, env) == Step(Some([d]), PathState(st.scriptName + "/" + d, rest))
  {
    var ms := DigitsOrSuffix(t).choices;
    RunOf(Digit, st, env, d, rest);
    FirstAlternativeWins(ms, 0, st, env);
    assert [d] + [] == [d];
  }

  /** Digits then `t` make a segment: the first alternative fails, the second yields `t`. */
  lemma DigitsOrSuffixSuffix(t: string, st: PathState, env: Env, d: string, rest: string)
    requires t != [] && t[0] != '/' && !InClass(Digit, t[0])
    requires d != [] && AllIn(Digit, d) && Boundary(rest) && st.pathInfo == "/" + d + (t + rest)
    ensures Match(DigitsOrSuffix(t), st, env) == Step(Some([t]), PathState(st.scriptName + ("/" + d + t), rest))
  {
    var ms := DigitsOrSuffix(t).choices;
    var p := st.pathInfo;
    DigitsThenOther(st, env, d, t + rest);
    SliceOfConcat(p, 1 + |d|, t, rest);
    assert p[1 + |d|..] == t + rest;
    OptionalAfterDigits(t, p, d, t + rest);
    assert StartsAt(t + rest, 0, t) && AtBoundary(t + rest, |t|);
    var e := 1 + |d| + |t|;
    ConsumeSpan(ms[1].pattern, st, [t], e);
    assert p[..e] == "/" + d + t;
    FirstAlternativeWins(ms, 1, st, env);
    assert [t] + [] == [t];
  }

  /** Digits then anything that is neither `t` as a whole segment nor a new segment: no alternative matches. */
  lemma DigitsOrSuffixMiss(t: string, st: PathState, env: Env, d: string, y: string)
    requires t != [] && !InClass(Digit, t[0])
    requires d != [] && AllIn(Digit, d) && y != [] && y[0] != '/' && !InClass(Digit, y[0])
    requires !(StartsAt(y, 0, t) && AtBoundary(y, |t|)) && st.pathInfo == "/" + d + y
    ensures Match(DigitsOrSuffix(t), st, env).captures.None?
  {
    var ms := DigitsOrSuffix(t).choices;
    DigitsThenOther(st, env, d, y);
    OptionalAfterDigits(t, st.pathInfo, d, y);
    NoAlternativeMatches(ms, st, env);
  }

  /** `r.on [/(\d+)/, /\d+(bar)?/] do |id| id end` */
  function OnDigitsOrSuffix(t: string): seq<Route> {
    [Route(On, [DigitsOrSuffix(t)], Handler([Arg(0)]))]
  }

  /** "/123" yields "123". */
  lemma ArraysMatchAnyValue(t: string, d: string, rest: string)
    requires d != [] && AllIn(Digit, d) && Boundary(rest)
    ensures Body(OnDigitsOrSuffix(t), GetReq("/" + d + rest)) == d
  {
    var st := PathState("", "/" + d + rest);
    var env := Env(GET, map[]);
    var after := PathState("" + "/" + d, rest);
    DigitsOrSuffixDigits(t, st, env, d, rest);
    Seq1(DigitsOrSuffix(t), st, env, [d], after);
    OneRouteHalts(OnDigitsOrSuffix(t)[0], GetReq("/" + d + rest), [d], after);
    EchoOne(after, [d], 1);
    Join1(d);
  }

  /** "/123bar" yields "bar". */
  lemma ArraysMatchAnyValueSuffix(t: string, d: string, rest: string)
    requires t != [] && t[0] != '/' && !InClass(Digit, t[0])
    requires d != [] && AllIn(Digit, d) && Boundary(rest)
    ensures Body(OnDigitsOrSuffix(t), GetReq("/" + d + t + rest)) == t
  {
    var path := "/" + d + t + rest;
    assert path == "/" + d + (t + rest);
    var st := PathState("", path);
    var env := Env(GET, map[]);
    var after := PathState("" + ("/" + d + t), rest);
    DigitsOrSuffixSuffix(t, st, env, d, rest);
    Seq1(DigitsOrSuffix(t), st, env, [t], after);
    OneRouteHalts(OnDigitsOrSuffix(t)[0], GetReq(path), [t], after);
    EchoOne(after, [t], 1);
    Join1(t);
  }

  /** "/123bard" is not found. */
  lemma ArraysMatchAnyValueMiss(t: string, d: string, y: string)
    requires t != [] && !InClass(Digit, t[0])
    requires d != [] && AllIn(Digit, d) && y != [] && y[0] != '/' && !InClass(Digit, y[0])
    requires !(StartsAt(y, 0, t) && AtBoundary(y, |t|))
    ensures Status(OnDigitsOrSuffix(t), GetReq("/" + d + y)) == 404
  {
    var st := PathState("", "/" + d + y);
    var env := Env(GET, map[]);
    DigitsOrSuffixMiss(t, st, env, d, y);
    Fail1(DigitsOrSuffix(t), [], st, env);
    assert [DigitsOrSuffix(t)] + [] == [DigitsOrSuffix(t)];
    OneRouteFails(OnDigitsOrSuffix(t)[0], GetReq("/" + d + y));
  }

  /** `%w'p q'`: an array of two strings. */
  function OnEitherWord(a: string, b: string): seq<Route> {
    [Route(On, [Alternatives([Str(a), Str(b)])], Handler([Arg(0)]))]
  }

  /** A string alternative that matches yields the string itself. */
  lemma EitherWordHalts(a: string, b: string, path: string, m: Matcher, w: string, rest: string)
    requires m == Alternatives([Str(a), Str(b)]) && Boundary(rest)
    requires Match(m, PathState("", path), Env(GET, map[])) == Step(Some([w]), PathState("/" + w, rest))
    ensures Body(OnEitherWord(a, b), GetReq(path)) == w
  {
    var st := PathState("", path);
    Seq1(m, st, Env(GET, map[]), [w], PathState("/" + w, rest));
    OneRouteHalts(OnEitherWord(a, b)[0], GetReq(path), [w], PathState("/" + w, rest));
    EchoOne(PathState("/" + w, rest), [w], 1);
    Join1(w);
  }

  /** "/p" yields "p". */
  lemma ArrayCapturesFirstString(a: string, b: string, rest: string)
    requires NoPlaceholder(a) && NoPlaceholder(b) && Boundary(rest)
    ensures Body(OnEitherWord(a, b), GetReq("/" + a + rest)) == a
  {
    var st := PathState("", "/" + a + rest);
    var env := Env(GET, map[]);
    LiteralOf(a, st, env, rest);
    FirstAlternativeWins([Str(a), Str(b)], 0, st, env);
    assert [] + [a] == [a] && "" + "/" + a == "/" + a;
    EitherWordHalts(a, b, "/" + a + rest, Alternatives([Str(a), Str(b)]), a, rest);
  }

  /** "/q" yields "q" when the path does not start with the first word as a segment. */
  lemma ArrayCapturesSecondString(a: string, b: string, rest: string)
    requires NoPlaceholder(a) && NoPlaceholder(b) && Boundary(rest)
    requires !(StartsAt(b + rest, 0, a) && AtBoundary(b + rest, |a|))
    ensures Body(OnEitherWord(a, b), GetReq("/" + b + rest)) == b
  {
    var st := PathState("", "/" + b + rest);
    var env := Env(GET, map[]);
    assert "/" + b + rest == "/" + (b + rest);
    LiteralMiss(a, st, env, b + rest);
    LiteralOf(b, st, env, rest);
    FirstAlternativeWins([Str(a), Str(b)], 1, st, env);
    assert [] + [b] == [b] && "" + "/" + b == "/" + b;
    EitherWordHalts(a, b, "/" + b + rest, Alternatives([Str(a), Str(b)]), b, rest);
  }

  /** "/r" is not found. */
  lemma ArrayCapturesNoString(a: string, b: string, x: string)
    requires NoPlaceholder(a) && NoPlaceholder(b)
    requires !(StartsAt(x, 0, a) && AtBoundary(x, |a|)) && !(StartsAt(x, 0, b) && AtBoundary(x, |b|))
    ensures Status(OnEitherWord(a, b), GetReq("/" + x)) == 404
  {
    var st := PathState("", "/" + x);
    var env := Env(GET, map[]);
    var m := Alternatives([Str(a), Str(b)]);
    LiteralMiss(a, st, env, x);
    LiteralMiss(b, st, env, x);
    NoAlternativeMatches([Str(a), Str(b)], st, env);
    Fail1(m, [], st, env);
    assert [m] + [] == [m];
    OneRouteFails(OnEitherWord(a, b)[0], GetReq("/" + x));
  }
}
