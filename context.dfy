/**
 * The routing context of one request, updated in place as the route tree is
 * walked: SCRIPT_NAME and PATH_INFO move forward as matchers consume path and
 * are put back from a snapshot when a match fails or a block is left; handlers
 * append to the response body.
 */
module Context {
  import opened Wrappers
  import opened Paths
  import opened Matchers
  import opened Routes

  class RoutingContext {
    const verb: Verb
    const query: map<string, string>
    var scriptName: string
    var pathInfo: string
    var body: seq<string>
    var status: nat
    /** The path the request arrived with. */
    ghost const originalPath: string

    /** The consumed prefix and the remaining path together are the original path. */
    ghost predicate Valid()
      reads this
    {
      scriptName + pathInfo == originalPath
    }

    function State(): PathState
      reads this
    {
      PathState(scriptName, pathInfo)
    }

    function Env(): Env {
      Matchers.Env(verb, query)
    }

    constructor (verb: Verb, path: string, query: map<string, string>)
      ensures this.verb == verb && this.query == query && originalPath == path
      ensures scriptName == "" && pathInfo == path && body == [] && status == 200
      ensures Valid()
    {
      this.verb := verb;
      this.query := query;
      scriptName := "";
      pathInfo := path;
      body := [];
      status := 200;
      originalPath := path;
    }

    method Snapshot() returns (s: PathState)
      ensures s == State()
    {
      s := PathState(scriptName, pathInfo);
    }

    /** Put SCRIPT_NAME and PATH_INFO back to a snapshot, however deep the walk went since. */
    method Restore(s: PathState)
      modifies this
      ensures State() == s
      ensures body == old(body) && status == old(status)
    {
      scriptName, pathInfo := s.scriptName, s.pathInfo;
    }

    /**
     * Match the positional arguments left to right.  If one fails, the state
     * taken before the first one is restored, undoing what the earlier ones
     * consumed and what a condition assigned.
     */
    method TryMatch(args: seq<Matcher>) returns (caps: Option<seq<string>>)
      modifies this
      ensures body == old(body) && status == old(status)
      ensures caps.None? ==> State() == old(State())
      ensures MatchAll(args, old(State()), Env()) ==
        if caps.None? then None else Some(Matched(caps.value, State()))
      ensures old(Valid()) && (forall k :: 0 <= k < |args| ==> !Mutates(args[k])) ==> Valid()
    {
      var snap := Snapshot();
      var acc: seq<string> := [];
      var i := 0;
      assert args[0..] == args;
      var whole := MatchAll(args, snap, Env());
      if whole.Some? { assert [] + whole.value.captures == whole.value.captures; }
      while i < |args|
        invariant 0 <= i <= |args|
        invariant body == old(body) && status == old(status)
        invariant MatchAll(args, snap, Env()) == Prefix(acc, MatchAll(args[i..], State(), Env()))
      {
        var step := Match(args[i], State(), Env());
        MatchAllStep(args, i, State(), Env());
        scriptName, pathInfo := step.after.scriptName, step.after.pathInfo;
        if step.captures.None? {
          Restore(snap);
          return None;
        }
        PrefixPrefix(acc, step.captures.value, MatchAll(args[i + 1..], State(), Env()));
        acc := acc + step.captures.value;
        i := i + 1;
      }
      assert acc + [] == acc;
      caps := Some(acc);
      if forall k :: 0 <= k < |args| ==> !Mutates(args[k]) {
        MatchAllAdvances(args, snap, Env());
      }
    }

    /**
     * A handler writes its pieces to the response, one `response.write` at a
     * time; under the context invariant every `r.path` it writes is the path
     * the request arrived with.
     */
    method Write(ps: seq<Piece>, scope: seq<string>, own: nat)
      modifies this`body
      ensures body == old(body) + RenderAll(ps, State(), scope, own)
      ensures old(Valid()) ==> Valid()
      ensures Valid() ==>
        forall k :: 0 <= k < |ps| && ps[k] == FullPath ==> body[|old(body)| + k] == originalPath
    {
      var k := 0;
      while k < |ps|
        invariant 0 <= k <= |ps|
        invariant body == old(body) + RenderAll(ps[..k], State(), scope, own)
      {
        assert RenderAll(ps[..k + 1], State(), scope, own) ==
          RenderAll(ps[..k], State(), scope, own) + [Render(ps[k], State(), scope, own)];
        body := body + [Render(ps[k], State(), scope, own)];
        k := k + 1;
      }
      assert ps[..k] == ps;
    }

    /**
     * Dispatch one operator: match its arguments; if they match, run the block
     * with the captures and then restore the state taken before the match.
     * Whatever the outcome, SCRIPT_NAME and PATH_INFO are as they were.
     */
    method RunRoute(r: Route, scope: seq<string>) returns (o: Outcome)
      modifies this
      ensures o == EvalRoute(r, old(State()), Env(), scope)
      ensures State() == old(State()) && status == old(status)
      ensures body == old(body) + Chunks(o)
      ensures old(Valid()) ==> Valid()
      decreases r, 2
    {
      var snap := Snapshot();
      var caps := TryMatch(Arguments(r.op, r.args));
      if caps.None? {
        return Continue;
      }
      o := RunBlock(r.block, scope + caps.value, |caps.value|);
      Restore(snap);
    }

    method RunBlock(b: Block, scope: seq<string>, own: nat) returns (o: Outcome)
      modifies this
      ensures o == EvalBlock(b, old(State()), Env(), scope, own)
      ensures State() == old(State()) && status == old(status)
      ensures body == old(body) + Chunks(o)
      ensures old(Valid()) ==> Valid()
      decreases b, 1
    {
      match b
      case Handler(ps) =>
        Write(ps, scope, own);
        o := Halt(RenderAll(ps, State(), scope, own));
      case Nested(rs) =>
        o := RunRoutes(rs, scope);
    }

    /** Try the sibling routes in order and stop at the first that halts. */
    method RunRoutes(rs: seq<Route>, scope: seq<string>) returns (o: Outcome)
      modifies this
      ensures o == EvalRoutes(rs, old(State()), Env(), scope)
      ensures State() == old(State()) && status == old(status)
      ensures body == old(body) + Chunks(o)
      ensures old(Valid()) ==> Valid()
      decreases rs, 0
    {
      var i := 0;
      while i < |rs|
        invariant 0 <= i <= |rs|
        invariant State() == old(State()) && status == old(status) && body == old(body)
        invariant EvalRoutes(rs, State(), Env(), scope) == EvalRoutes(rs[i..], State(), Env(), scope)
      {
        assert rs[i..][0] == rs[i] && rs[i..][1..] == rs[i + 1..];
        o := RunRoute(rs[i], scope);
        if o.Halt? {
          return;
        }
        i := i + 1;
      }
      o := Continue;
    }

    /**
     * Route the request through `app`: the body gets the winning handler's
     * chunks and the status is 200, or 404 when nothing matched.  SCRIPT_NAME
     * and PATH_INFO are left as they were.
     */
    method Serve(app: seq<Route>)
      modifies this
      ensures Response(status, body) ==
        var resp := RespondAt(app, old(State()), Env()); Response(resp.status, old(body) + resp.body)
      ensures State() == old(State())
      ensures old(Valid()) ==> Valid()
    {
      var o := RunRoutes(app, []);
      status := if o.Halt? then 200 else 404;
    }
  }

  /**
   * Serve one request on a fresh context: the response is the one the route
   * tree defines, and SCRIPT_NAME and PATH_INFO end as they started.
   */
  method Call(app: seq<Route>, req: Request) returns (resp: Response, scriptName: string, pathInfo: string)
    ensures resp == Respond(app, req)
    ensures scriptName == "" && pathInfo == req.path
  {
    var ctx := new RoutingContext(req.verb, req.path, req.query);
    ctx.Serve(app);
    resp := Response(ctx.status, ctx.body);
    scriptName, pathInfo := ctx.scriptName, ctx.pathInfo;
  }
}
