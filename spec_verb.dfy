/**
 * Examples of spec/matchers_spec.rb:543-557.  The verb operators without arguments: each runs only for its own request method.
 */
module VerbSpec {
  import opened Wrappers
  import opened Paths
  import opened Patterns
  import opened Matchers
  import opened Routes
  import opened SpecSupport

  /** `r.get do "g" end; r.post do "p" end` */
  function VerbApp(g: string, p: string): seq<Route> {
    [Route(When(GET), [], Handler([Text(g)])), Route(When(POST), [], Handler([Text(p)]))]
  }

  /** A verb operator without arguments runs exactly when the request has that verb. */
  lemma VerbRouteStep(v: Verb, t: string, st: PathState, env: Env, scope: seq<string>)
    ensures EvalRoute(Route(When(v), [], Handler([Text(t)])), st, env, scope) ==
      if env.verb == v then Halt([t]) else Continue
  {
    var r := Route(When(v), [], Handler([Text(t)]));
    assert Arguments(When(v), []) == [MethodIs(v)] + [] == [MethodIs(v)];
    if env.verb == v {
      Seq1(MethodIs(v), st, env, [], st);
      RouteMatches(r, st, env, scope, [], st);
      WritesText(t, st, scope + [], 0);
    } else {
      Fail1(MethodIs(v), [], st, env);
      RouteFails(r, st, env, scope);
    }
  }

  /** A GET request gets "g", a POST request gets "p", any other verb is not found. */
  lemma RequestVerbMethods(g: string, p: string, v: Verb, path: string, q: map<string, string>)
    ensures Respond(VerbApp(g, p), Request(v, path, q)) ==
      if v == GET then Response(200, [g])
      else if v == POST then Response(200, [p])
      else Response(404, [])
  {
    var app := VerbApp(g, p);
    var st := PathState("", path);
    var env := Env(v, q);
    VerbRouteStep(GET, g, st, env, []);
    VerbRouteStep(POST, p, st, env, []);
    Routes2(app[0], app[1], st, env, []);
  }
}
