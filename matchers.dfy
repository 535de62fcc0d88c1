/**
 * The matcher variants a route may be guarded by, each evaluated against the
 * request's path state (SCRIPT_NAME, PATH_INFO), its verb and its query.
 * A consuming matcher that succeeds moves the matched span from the front of
 * PATH_INFO to the end of SCRIPT_NAME; a failing one changes nothing, except a
 * condition, which may assign SCRIPT_NAME before it answers.
 */
module Matchers {
  import opened Wrappers
  import opened Paths
  import opened Patterns

  datatype Verb = GET | POST | PUT | PATCH | DELETE | HEAD | OPTIONS

  /** SCRIPT_NAME (consumed prefix) and PATH_INFO (remaining path). */
  datatype PathState = PathState(scriptName: string, pathInfo: string)

  /** What a matcher may read besides the path: the verb and the parsed query. */
  datatype Env = Env(verb: Verb, query: map<string, string>)

  datatype Matcher =
      /** A string; `:name` inside it is a segment placeholder. */
    | Str(text: string)
      /** A symbol such as `:id`: one whole segment. */
    | Segment
      /** A regular expression, given as a pattern of the supported fragment. */
    | Regex(pattern: seq<Token>)
      /** `:extension => ext` */
    | Extension(ext: string)
      /** `:param => key` */
    | Param(key: string)
      /** An array: the first alternative that matches wins. */
    | Alternatives(choices: seq<Matcher>)
      /** `true` / `false` */
    | Bool(value: bool)
      /** A lambda: optionally assigns SCRIPT_NAME, then answers `result`. */
    | Condition(assignScriptName: Option<string>, result: bool)
      /** The request-method check used by the verb operators. */
    | MethodIs(verb: Verb)
      /** The terminator `is` appends: PATH_INFO must be empty. */
    | Term

  /** The outcome of one matcher: its captures if it matched, and the path state after it. */
  datatype Step = Step(captures: Option<seq<string>>, after: PathState)

  /** The outcome of a whole sequence of matchers that matched. */
  datatype Matched = Matched(captures: seq<string>, after: PathState)

  /** `after` is `st` with its first `n` path characters moved to SCRIPT_NAME, for some n. */
  predicate Advanced(st: PathState, after: PathState) {
    && |after.pathInfo| <= |st.pathInfo|
    && var n := |st.pathInfo| - |after.pathInfo|;
       && after.pathInfo == st.pathInfo[n..]
       && after.scriptName == st.scriptName + st.pathInfo[..n]
  }

  /** The remaining path starts a new segment (or is empty). */
  predicate OnBoundary(st: PathState) {
    st.pathInfo == [] || st.pathInfo[0] == '/'
  }

  /**
   * Run an anchored pattern against PATH_INFO: PATH_INFO must start with `/`,
   * the pattern is matched after it, and the matched span (which ends at a
   * `/` or at the end) is moved to SCRIPT_NAME.
   */
  function Consume(ts: seq<Token>, st: PathState): Step
  {
    var p := st.pathInfo;
    if |p| > 0 && p[0] == '/' then
      match MatchFrom(ts, p, 1)
      case Some(sp) => Step(Some(sp.captures), PathState(st.scriptName + p[..sp.end], p[sp.end..]))
      case None => Step(None, st)
    else Step(None, st)
  }

  const SegmentPattern: seq<Token> := [Run(NonSlash, true, true)]

  /** The matcher may change SCRIPT_NAME other than by consuming path. */
  predicate Mutates(m: Matcher)
    decreases m
  {
    match m
    case Condition(a, _) => a.Some?
    case Alternatives(ms) => exists k :: 0 <= k < |ms| && Mutates(ms[k])
    case _ => false
  }

  /** How many values a matcher that is not an array yields when it matches. */
  function Arity(m: Matcher): nat
    requires !m.Alternatives?
  {
    match m
    case Str(t) => Placeholders(t)
    case Segment => 1
    case Regex(ts) => Groups(ts)
    case Extension(_) => 1
    case Param(_) => 1
    case Bool(_) => 0
    case Condition(_, _) => 0
    case MethodIs(_) => 0
    case Term => 0
  }

  function Match(m: Matcher, st: PathState, env: Env): Step
    decreases m, 1
  {
    match m
    case Str(t) => Consume(Tokenize(t), st)
    case Segment => Consume(SegmentPattern, st)
    case Regex(ts) => Consume(ts, st)
    case Extension(e) => Consume(ExtensionPattern(e), st)
    case Param(k) => if k in env.query then Step(Some([env.query[k]]), st) else Step(None, st)
    case Alternatives(ms) => MatchFirst(ms, st, env)
    case Bool(b) => Step(if b then Some([]) else None, st)
    case Condition(a, b) =>
      Step(if b then Some([]) else None, if a.Some? then PathState(a.value, st.pathInfo) else st)
    case MethodIs(v) => Step(if env.verb == v then Some([]) else None, st)
    case Term => Step(if st.pathInfo == [] then Some([]) else None, st)
  }

  /**
   * Capture arity: a matcher that is not an array yields exactly as many
   * values as it has groups: a string one per `:name`, a segment, an
   * extension and a param one each, guards and verb checks none.
   */
  lemma MatchArity(m: Matcher, st: PathState, env: Env)
    requires !m.Alternatives?
    ensures var r := Match(m, st, env); r.captures.Some? ==> |r.captures.value| == Arity(m)
  {
    match m
    case Str(t) => TokenizeGroups(t);
    case Extension(e) => ExtensionGroups(e);
    case _ =>
  }

  /**
   * An array: try each element in order, each from the state the previous one
   * left; the first that matches wins and, when it is a string, the string
   * itself is yielded after its own captures.
   */
  function MatchFirst(ms: seq<Matcher>, st: PathState, env: Env): Step
    decreases ms, 0
  {
    if ms == [] then Step(None, st)
    else
      var first := Match(ms[0], st, env);
      if first.captures.Some? then
        Step(Some(first.captures.value + (if ms[0].Str? then [ms[0].text] else [])), first.after)
      else
        MatchFirst(ms[1..], first.after, env)
  }

  /**
   * A matcher that does not assign SCRIPT_NAME only ever moves a prefix of
   * PATH_INFO to SCRIPT_NAME, and changes nothing when it fails.
   */
  lemma {:induction false} MatchAdvances(m: Matcher, st: PathState, env: Env)
    requires !Mutates(m)
    ensures var r := Match(m, st, env); Advanced(st, r.after) && (r.captures.None? ==> r.after == st)
    decreases m, 1
  {
    AdvancedReflexive(st);
    match m
    case Str(t) => ConsumeAdvances(Tokenize(t), st);
    case Segment => ConsumeAdvances(SegmentPattern, st);
    case Regex(ts) => ConsumeAdvances(ts, st);
    case Extension(e) => ConsumeAdvances(ExtensionPattern(e), st);
    case Alternatives(ms) => MatchFirstAdvances(ms, st, env);
    case _ =>
  }

  lemma ConsumeAdvances(ts: seq<Token>, st: PathState)
    ensures var r := Consume(ts, st); Advanced(st, r.after) && (r.captures.None? ==> r.after == st)
  {
    AdvancedReflexive(st);
    var p := st.pathInfo;
    if |p| > 0 && p[0] == '/' {
      var r := MatchFrom(ts, p, 1);
      if r.Some? {
        assert Consume(ts, st).after == PathState(st.scriptName + p[..r.value.end], p[r.value.end..]);
      }
    }
  }

  /** The same for an array whose alternatives do not assign SCRIPT_NAME. */
  lemma {:induction false} MatchFirstAdvances(ms: seq<Matcher>, st: PathState, env: Env)
    requires forall k :: 0 <= k < |ms| ==> !Mutates(ms[k])
    ensures var r := MatchFirst(ms, st, env); Advanced(st, r.after) && (r.captures.None? ==> r.after == st)
    decreases ms, 0
  {
    if ms == [] {
      AdvancedReflexive(st);
    } else {
      MatchAdvances(ms[0], st, env);
      if Match(ms[0], st, env).captures.None? {
        assert forall k :: 0 <= k < |ms[1..]| ==> ms[1..][k] == ms[k + 1];
        MatchFirstAdvances(ms[1..], st, env);
      }
    }
  }

  /** Prepend captures to the result of the rest of a sequence. */
  function Prefix(c: seq<string>, r: Option<Matched>): Option<Matched> {
    match r
    case None => None
    case Some(m) => Some(Matched(c + m.captures, m.after))
  }

  /**
   * Positional arguments: matched left to right, each from the state the
   * previous one left; the captures are concatenated in order, and any
   * failure makes the whole sequence fail.
   */
  function MatchAll(ms: seq<Matcher>, st: PathState, env: Env): Option<Matched>
    decreases |ms|
  {
    if ms == [] then Some(Matched([], st))
    else
      var first := Match(ms[0], st, env);
      if first.captures.None? then None
      else Prefix(first.captures.value, MatchAll(ms[1..], first.after, env))
  }

  /** One step of a sequence, taken at position `i`. */
  lemma MatchAllStep(ms: seq<Matcher>, i: nat, st: PathState, env: Env)
    requires i < |ms|
    ensures var first := Match(ms[i], st, env);
      MatchAll(ms[i..], st, env) ==
        if first.captures.None? then None else Prefix(first.captures.value, MatchAll(ms[i + 1..], first.after, env))
  {
    assert ms[i..][0] == ms[i] && ms[i..][1..] == ms[i + 1..];
  }

  /** Continue a sequence's result with more matchers. */
  function Then(r: Option<Matched>, ms: seq<Matcher>, env: Env): Option<Matched> {
    match r
    case None => None
    case Some(m) => Prefix(m.captures, MatchAll(ms, m.after, env))
  }

  lemma PrefixPrefix(a: seq<string>, b: seq<string>, r: Option<Matched>)
    ensures Prefix(a, Prefix(b, r)) == Prefix(a + b, r)
  {
    if r.Some? { assert a + (b + r.value.captures) == (a + b) + r.value.captures; }
  }

  /** Matching `a + b` is matching `a`, then `b` from where `a` stopped. */
  lemma {:induction false} MatchAllAppend(a: seq<Matcher>, b: seq<Matcher>, st: PathState, env: Env)
    ensures MatchAll(a + b, st, env) == Then(MatchAll(a, st, env), b, env)
    decreases |a|
  {
    if a == [] {
      assert a + b == b;
      var r := MatchAll(b, st, env);
      if r.Some? { assert [] + r.value.captures == r.value.captures; }
    } else {
      assert (a + b)[0] == a[0] && (a + b)[1..] == a[1..] + b;
      var first := Match(a[0], st, env);
      if first.captures.Some? {
        MatchAllAppend(a[1..], b, first.after, env);
        var ra := MatchAll(a[1..], first.after, env);
        if ra.Some? {
          PrefixPrefix(first.captures.value, ra.value.captures, MatchAll(b, ra.value.after, env));
        }
      }
    }
  }

  /** Proof helper: consuming nothing is consuming. */
  lemma AdvancedReflexive(a: PathState)
    ensures Advanced(a, a)
  {
    assert a.pathInfo[..0] == [] && a.pathInfo[0..] == a.pathInfo;
    assert a.scriptName + [] == a.scriptName;
  }

  lemma AdvancedTransitive(a: PathState, b: PathState, c: PathState)
    requires Advanced(a, b) && Advanced(b, c)
    ensures Advanced(a, c)
  {
    var p := a.pathInfo;
    var n1 := |p| - |b.pathInfo|;
    var n2 := |b.pathInfo| - |c.pathInfo|;
    SliceOfSlice(p, n1, n2);
    assert c.scriptName == a.scriptName + (p[..n1] + p[n1..][..n2]);
  }

  /** Consuming path keeps SCRIPT_NAME + PATH_INFO, the original path, as it was. */
  lemma AdvancedKeepsPath(a: PathState, b: PathState)
    requires Advanced(a, b)
    ensures b.scriptName + b.pathInfo == a.scriptName + a.pathInfo
  {
    var n := |a.pathInfo| - |b.pathInfo|;
    assert a.pathInfo == a.pathInfo[..n] + a.pathInfo[n..];
  }

  /**
   * A sequence of non-mutating matchers only ever moves a prefix of PATH_INFO
   * to SCRIPT_NAME, so SCRIPT_NAME + PATH_INFO is unchanged by it.
   */
  lemma {:induction false} MatchAllAdvances(ms: seq<Matcher>, st: PathState, env: Env)
    requires forall k :: 0 <= k < |ms| ==> !Mutates(ms[k])
    ensures var r := MatchAll(ms, st, env);
      r.Some? ==> (Advanced(st, r.value.after) &&
        r.value.after.scriptName + r.value.after.pathInfo == st.scriptName + st.pathInfo)
    decreases |ms|
  {
    var r := MatchAll(ms, st, env);
    if ms != [] {
      var first := Match(ms[0], st, env);
      if first.captures.Some? {
        MatchAdvances(ms[0], st, env);
        assert forall k :: 0 <= k < |ms[1..]| ==> ms[1..][k] == ms[k + 1];
        MatchAllAdvances(ms[1..], first.after, env);
        if r.Some? {
          AdvancedTransitive(st, first.after, r.value.after);
        }
      }
    }
    if r.Some? {
      AdvancedKeepsPath(st, r.value.after);
    }
  }

  /**
   * A plain string (no `:name`) matches exactly when PATH_INFO is "/" + the
   * string followed by `/` or the end; it yields nothing and consumes "/" +
   * the string.
   */
  lemma LiteralMatcher(t: string, st: PathState, env: Env)
    requires NoPlaceholder(t)
    ensures var p := st.pathInfo;
      var ok := StartsAt(p, 0, "/" + t) && AtBoundary(p, 1 + |t|);
      Match(Str(t), st, env) ==
        if ok then Step(Some([]), PathState(st.scriptName + "/" + t, p[1 + |t|..]))
        else Step(None, st)
  {
    TokenizeLiteral(t);
    assert Match(Str(t), st, env) == Consume(Lits(t), st);
    ConsumeLiteral(t, st);
  }

  lemma ConsumeLiteral(t: string, st: PathState)
    ensures var p := st.pathInfo;
      var ok := StartsAt(p, 0, "/" + t) && AtBoundary(p, 1 + |t|);
      Consume(Lits(t), st) ==
        if ok then Step(Some([]), PathState(st.scriptName + "/" + t, p[1 + |t|..]))
        else Step(None, st)
  {
    var p := st.pathInfo;
    if |p| > 0 && p[0] == '/' {
      LiteralAfterSlash(t, p);
      if StartsAt(p, 0, "/" + t) && AtBoundary(p, 1 + |t|) {
        assert Consume(Lits(t), st) == Step(Some([]), PathState(st.scriptName + p[..1 + |t|], p[1 + |t|..]));
        StartsAtZero(p, "/" + t);
        AppendAssoc(st.scriptName, "/", t);
      } else {
        assert Consume(Lits(t), st) == Step(None, st);
      }
    } else {
      assert Consume(Lits(t), st) == Step(None, st);
      SlashFirst(p, t);
    }
  }

  /** Proof helper: a path that starts with "/" + t starts with a slash. */
  lemma SlashFirst(p: string, t: string)
    ensures StartsAt(p, 0, "/" + t) ==> |p| > 0 && p[0] == '/'
  {
    if StartsAt(p, 0, "/" + t) {
      assert p[0] == p[0..1 + |t|][0];
    }
  }

  lemma LiteralAfterSlash(t: string, p: string)
    requires |p| > 0 && p[0] == '/'
    ensures MatchFrom(Lits(t), p, 1) ==
      if StartsAt(p, 0, "/" + t) && AtBoundary(p, 1 + |t|) then Some(Span([], 1 + |t|)) else None
  {
    SlashCons(t);
    StartsAtCons(p, 0, "/" + t);
    LiteralMatch(t, p, 1);
  }

  /**
   * A segment placeholder matches when PATH_INFO starts with "/" and a
   * non-empty segment; it yields that whole segment (up to the next "/" or the
   * end, never part of one) and consumes "/" + segment.
   */
  lemma SegmentMatcher(st: PathState, env: Env)
    ensures var p := st.pathInfo;
      var r := Match(Segment, st, env);
      && (r.captures.Some? <==> |p| >= 2 && p[0] == '/' && p[1] != '/')
      && (r.captures.Some? ==>
            var e := RunEnd(NonSlash, p, 1);
            && r.captures.value == [p[1..e]]
            && '/' !in p[1..e]
            && r.after == PathState(st.scriptName + p[..e], p[e..])
            && (e == |p| || p[e] == '/'))
  {
    var p := st.pathInfo;
    var r := Match(Segment, st, env);
    assert r == Consume(SegmentPattern, st);
    if |p| > 0 && p[0] == '/' {
      SegmentMatch(p, 1);
      var e := RunEnd(NonSlash, p, 1);
      if e > 1 {
        assert r == Step(Some([p[1..e]]), PathState(st.scriptName + p[..e], p[e..]));
      } else {
        assert r.captures.None?;
      }
    } else {
      assert r.captures.None?;
    }
  }

  /**
   * The extension matcher matches when PATH_INFO is "/" + name + "." + ext
   * with a non-empty name that holds no "/"; it yields the name and consumes
   * the whole path.
   */
  lemma ExtensionMatcher(ext: string, st: PathState, env: Env)
    ensures var p := st.pathInfo;
      var n := |p| - |ext| - 1;
      var ok := |p| > 0 && p[0] == '/' && 1 < n && p[n..] == "." + ext &&
                (forall k :: 1 <= k < n ==> p[k] != '/');
      Match(Extension(ext), st, env) ==
        if ok then Step(Some([p[1..n]]), PathState(st.scriptName + p, "")) else Step(None, st)
  {
    var p := st.pathInfo;
    if |p| > 0 && p[0] == '/' {
      ExtensionMatch(ext, p, 1);
      assert p[..|p|] == p;
    }
  }

  /** Round trip: the extension matcher recovers the name a file path was built from. */
  lemma ExtensionRoundTrip(name: string, ext: string, st: PathState, env: Env)
    requires name != [] && '/' !in name
    requires st.pathInfo == "/" + name + "." + ext
    ensures Match(Extension(ext), st, env).captures == Some([name])
  {
    ExtensionMatcher(ext, st, env);
    FilePathParts(name, ext);
    var p := st.pathInfo;
    var n := |p| - |ext| - 1;
    forall k | 1 <= k < n ensures p[k] != '/' { assert p[k] == name[k - 1]; }
  }

  lemma FilePathParts(name: string, ext: string)
    ensures var p := "/" + name + "." + ext; var n := 1 + |name|;
      && |p| - |ext| - 1 == n && p[0] == '/' && p[1..n] == name && p[n..] == "." + ext
      && forall k :: 1 <= k < n ==> p[k] == name[k - 1]
  {
  }

  /** The param matcher yields the query value when the key is present (even ""), consuming nothing. */
  lemma ParamMatcher(key: string, st: PathState, env: Env)
    ensures Match(Param(key), st, env) ==
      if key in env.query then Step(Some([env.query[key]]), st) else Step(None, st)
  {
  }

  /**
   * Array alternation is ordered: when the non-mutating alternatives before
   * `j` all fail and alternative `j` matches, the array's result is that of
   * alternative `j` (plus the string itself, for a string alternative).
   */
  lemma {:induction false} FirstAlternativeWins(ms: seq<Matcher>, j: nat, st: PathState, env: Env)
    requires j < |ms|
    requires forall k :: 0 <= k < j ==> !Mutates(ms[k]) && Match(ms[k], st, env).captures.None?
    requires Match(ms[j], st, env).captures.Some?
    ensures var w := Match(ms[j], st, env);
      Match(Alternatives(ms), st, env) ==
        Step(Some(w.captures.value + (if ms[j].Str? then [ms[j].text] else [])), w.after)
  {
    FirstWins(ms, j, st, env);
  }

  lemma {:induction false} FirstWins(ms: seq<Matcher>, j: nat, st: PathState, env: Env)
    requires j < |ms|
    requires forall k :: 0 <= k < j ==> !Mutates(ms[k]) && Match(ms[k], st, env).captures.None?
    requires Match(ms[j], st, env).captures.Some?
    ensures var w := Match(ms[j], st, env);
      MatchFirst(ms, st, env) == Step(Some(w.captures.value + (if ms[j].Str? then [ms[j].text] else [])), w.after)
    decreases j
  {
    if j > 0 {
      MatchAdvances(ms[0], st, env);
      assert MatchFirst(ms, st, env) == MatchFirst(ms[1..], st, env);
      forall k | 0 <= k < j - 1
        ensures !Mutates(ms[1..][k]) && Match(ms[1..][k], st, env).captures.None?
      {
        assert ms[1..][k] == ms[k + 1];
      }
      FirstWins(ms[1..], j - 1, st, env);
      assert ms[1..][j - 1] == ms[j];
    }
  }

  /** An array of non-mutating alternatives fails, and changes nothing, when every alternative fails. */
  lemma NoAlternativeMatches(ms: seq<Matcher>, st: PathState, env: Env)
    requires forall k :: 0 <= k < |ms| ==> !Mutates(ms[k]) && Match(ms[k], st, env).captures.None?
    ensures Match(Alternatives(ms), st, env) == Step(None, st)
  {
    NoneWins(ms, st, env);
  }

  lemma {:induction false} NoneWins(ms: seq<Matcher>, st: PathState, env: Env)
    requires forall k :: 0 <= k < |ms| ==> !Mutates(ms[k]) && Match(ms[k], st, env).captures.None?
    ensures MatchFirst(ms, st, env) == Step(None, st)
    decreases |ms|
  {
    if ms != [] {
      MatchAdvances(ms[0], st, env);
      assert MatchFirst(ms, st, env) == MatchFirst(ms[1..], st, env);
      forall k | 0 <= k < |ms[1..]|
        ensures !Mutates(ms[1..][k]) && Match(ms[1..][k], st, env).captures.None?
      {
        assert ms[1..][k] == ms[k + 1];
      }
      NoneWins(ms[1..], st, env);
    }
  }
}
