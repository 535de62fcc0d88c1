/**
 * The route tree and its meaning.  A route is a dispatch operator (`on`,
 * `is`, or a verb operator such as `get`), its positional matcher arguments,
 * and a block: either a handler that writes the response, or nested routes.
 * Evaluation is a depth-first walk: the first route whose arguments match and
 * whose block produces a response halts the walk; a route that does not match,
 * or whose nested routes all decline, lets the next sibling be tried.
 */
module Routes {
  import opened Wrappers
  import opened Paths
  import opened Matchers

  datatype Op = On | Is | When(verb: Verb)

  /** One chunk written by a handler. */
  datatype Piece =
    | Text(s: string)
      /** A block argument: index into the captures of this and every enclosing block. */
    | Arg(index: nat)
      /** `args.size.to_s`: how many arguments this block received. */
    | ArgCount
    | ScriptName
    | PathInfo
      /** `r.path`: SCRIPT_NAME + PATH_INFO. */
    | FullPath

  datatype Block = Handler(pieces: seq<Piece>) | Nested(routes: seq<Route>)

  datatype Route = Route(op: Op, args: seq<Matcher>, block: Block)

  /** Halt carries the chunks the winning handler wrote. */
  datatype Outcome = Continue | Halt(chunks: seq<string>)

  datatype Request = Request(verb: Verb, path: string, query: map<string, string>)

  datatype Response = Response(status: nat, body: seq<string>)

  /**
   * The matchers an operator tries: `is` appends the terminator, a verb
   * operator checks the verb before anything else.
   */
  function Arguments(op: Op, args: seq<Matcher>): seq<Matcher>
  {
    match op
    case On => args
    case Is => args + [Term]
    case When(v) => [MethodIs(v)] + args
  }

  function Render(p: Piece, st: PathState, scope: seq<string>, own: nat): string {
    match p
    case Text(s) => s
    case Arg(k) => if k < |scope| then scope[k] else ""
    case ArgCount => DecimalString(own)
    case ScriptName => st.scriptName
    case PathInfo => st.pathInfo
    case FullPath => st.scriptName + st.pathInfo
  }

  function RenderAll(ps: seq<Piece>, st: PathState, scope: seq<string>, own: nat): seq<string>
  {
    seq(|ps|, k requires 0 <= k < |ps| => Render(ps[k], st, scope, own))
  }

  function Chunks(o: Outcome): seq<string> {
    if o.Halt? then o.chunks else []
  }

  /**
   * One route: match its arguments from `st`; on success run its block with
   * the captures appended to the enclosing ones, from the advanced state.
   */
  function EvalRoute(r: Route, st: PathState, env: Env, scope: seq<string>): Outcome
    decreases r, 2
  {
    match MatchAll(Arguments(r.op, r.args), st, env)
    case None => Continue
    case Some(m) => EvalBlock(r.block, m.after, env, scope + m.captures, |m.captures|)
  }

  function EvalBlock(b: Block, st: PathState, env: Env, scope: seq<string>, own: nat): Outcome
    decreases b, 1
  {
    match b
    case Handler(ps) => Halt(RenderAll(ps, st, scope, own))
    case Nested(rs) => EvalRoutes(rs, st, env, scope)
  }

  /** Siblings in order: the first that halts wins, later ones are not evaluated. */
  function EvalRoutes(rs: seq<Route>, st: PathState, env: Env, scope: seq<string>): Outcome
    decreases rs, 0
  {
    if rs == [] then Continue
    else
      match EvalRoute(rs[0], st, env, scope)
      case Halt(c) => Halt(c)
      case Continue => EvalRoutes(rs[1..], st, env, scope)
  }

  /** 200 with the winning handler's chunks, or 404 with an empty body when nothing matched. */
  function RespondAt(app: seq<Route>, st: PathState, env: Env): Response {
    match EvalRoutes(app, st, env, [])
    case Halt(c) => Response(200, c)
    case Continue => Response(404, [])
  }

  /** A request enters with an empty SCRIPT_NAME and the whole path in PATH_INFO. */
  function Respond(app: seq<Route>, req: Request): Response {
    RespondAt(app, PathState("", req.path), Env(req.verb, req.query))
  }

  /** The first sibling that halts decides the outcome; the ones after it do not matter. */
  lemma {:induction false} FirstHaltWins(rs: seq<Route>, j: nat, st: PathState, env: Env, scope: seq<string>)
    requires j < |rs|
    requires forall k :: 0 <= k < j ==> EvalRoute(rs[k], st, env, scope) == Continue
    requires EvalRoute(rs[j], st, env, scope).Halt?
    ensures EvalRoutes(rs, st, env, scope) == EvalRoute(rs[j], st, env, scope)
    decreases j
  {
    if j > 0 {
      var tail := rs[1..];
      assert EvalRoute(rs[0], st, env, scope) == Continue;
      assert EvalRoutes(rs, st, env, scope) == EvalRoutes(tail, st, env, scope);
      assert tail[j - 1] == rs[j];
      forall k | 0 <= k < j - 1 ensures EvalRoute(tail[k], st, env, scope) == Continue {
        assert tail[k] == rs[k + 1];
      }
      FirstHaltWins(tail, j - 1, st, env, scope);
    }
  }

  /** Siblings decline together exactly when each of them declines. */
  lemma {:induction false} AllContinue(rs: seq<Route>, st: PathState, env: Env, scope: seq<string>)
    ensures EvalRoutes(rs, st, env, scope) == Continue <==>
      forall k :: 0 <= k < |rs| ==> EvalRoute(rs[k], st, env, scope) == Continue
    decreases |rs|
  {
    if rs != [] {
      assert forall k :: 0 <= k < |rs[1..]| ==> rs[1..][k] == rs[k + 1];
      AllContinue(rs[1..], st, env, scope);
      if EvalRoute(rs[0], st, env, scope) == Continue {
        assert forall k :: 1 <= k < |rs| ==> rs[k] == rs[1..][k - 1];
      }
    }
  }

  /** Appending siblings after one that halts never changes the outcome. */
  lemma {:induction false} LaterSiblingsIgnored(rs: seq<Route>, more: seq<Route>, st: PathState, env: Env, scope: seq<string>)
    requires EvalRoutes(rs, st, env, scope).Halt?
    ensures EvalRoutes(rs + more, st, env, scope) == EvalRoutes(rs, st, env, scope)
    decreases |rs|
  {
    assert rs != [];
    assert (rs + more)[0] == rs[0] && (rs + more)[1..] == rs[1..] + more;
    if EvalRoute(rs[0], st, env, scope).Continue? {
      LaterSiblingsIgnored(rs[1..], more, st, env, scope);
    }
  }

  /** A verb operator for another verb declines without trying its arguments. */
  lemma VerbMismatch(v: Verb, args: seq<Matcher>, b: Block, st: PathState, env: Env, scope: seq<string>)
    requires env.verb != v
    ensures EvalRoute(Route(When(v), args, b), st, env, scope) == Continue
  {
    var ms := Arguments(When(v), args);
    assert ms[0] == MethodIs(v);
  }

  /**
   * `is` is `on` plus the requirement that nothing remains: it runs its block
   * exactly when the arguments match and leave PATH_INFO empty.
   */
  lemma IsRequiresEmptyRest(args: seq<Matcher>, b: Block, st: PathState, env: Env, scope: seq<string>)
    ensures EvalRoute(Route(Is, args, b), st, env, scope) ==
      match MatchAll(args, st, env)
      case Some(m) =>
        if m.after.pathInfo == [] then EvalBlock(b, m.after, env, scope + m.captures, |m.captures|)
        else Continue
      case None => Continue
  {
    MatchAllAppend(args, [Term], st, env);
    var r := MatchAll(args, st, env);
    if r.Some? {
      var m := r.value;
      assert [Term][1..] == [];
      assert MatchAll([], m.after, env) == Some(Matched([], m.after));
      if m.after.pathInfo == [] {
        assert m.captures + [] == m.captures;
      }
    }
  }

  /**
   * `on` with arguments that match runs its block with their captures, from
   * the state they left; when no argument assigns SCRIPT_NAME, that state only
   * moved path from PATH_INFO to SCRIPT_NAME, so `r.path` inside the block is
   * the path the route was tried on.
   */
  lemma OnRunsBlock(args: seq<Matcher>, b: Block, st: PathState, env: Env, scope: seq<string>)
    requires MatchAll(args, st, env).Some?
    ensures var m := MatchAll(args, st, env).value;
      EvalRoute(Route(On, args, b), st, env, scope) ==
        EvalBlock(b, m.after, env, scope + m.captures, |m.captures|)
    ensures var m := MatchAll(args, st, env).value;
      (forall k :: 0 <= k < |args| ==> !Mutates(args[k])) ==>
        Advanced(st, m.after) && m.after.scriptName + m.after.pathInfo == st.scriptName + st.pathInfo
  {
    if forall k :: 0 <= k < |args| ==> !Mutates(args[k]) {
      MatchAllAdvances(args, st, env);
    }
  }
}
