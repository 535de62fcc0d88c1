/**
 * Examples of spec/matchers_spec.rb:381-398.  The param matcher: it yields a query value exactly when the key is present.
 */
module ParamSpec {
  import opened Wrappers
  import opened Paths
  import opened Patterns
  import opened Matchers
  import opened Routes
  import opened SpecSupport

  /** `r.get "signup", :param=>"email" do |email| email end` and then a fallback text. */
  function SignupApp(w: string, k: string, n: string): seq<Route> {
    [Route(When(GET), [Str(w), Param(k)], Handler([Arg(0)])), Route(On, [], Handler([Text(n)]))]
  }

  /**
   * The param is yielded exactly when the query has the key, even when its
   * value is empty ("email=" yields ""); otherwise the fallback answers.
   */
  lemma YieldsParamOnlyIfGiven(w: string, k: string, n: string, q: map<string, string>, rest: string)
    requires NoPlaceholder(w) && Boundary(rest)
    ensures Body(SignupApp(w, k, n), Request(GET, "/" + w + rest, q)) == if k in q then q[k] else n
  {
    var req := Request(GET, "/" + w + rest, q);
    var st := PathState("", req.path);
    var env := Env(GET, q);
    var s1 := PathState("" + "/" + w, rest);
    var app := SignupApp(w, k, n);
    LiteralOf(w, st, env, rest);
    ParamMatcher(k, s1, env);
    VerbMatches(GET, [Str(w), Param(k)], st, env);
    if k in q {
      Seq2(Str(w), Param(k), st, env, [], s1, [q[k]], s1);
      FirstOfTwoHalts(app[0], app[1], req, [] + [q[k]], s1);
      assert [] + [q[k]] == [q[k]];
      EchoOne(s1, [q[k]], 1);
      Join1(q[k]);
    } else {
      Fail2(Str(w), Param(k), st, env, [], s1);
      NoArguments(st, env);
      SecondOfTwoHalts(app[0], app[1], req, [], st);
      WritesText(n, st, [], 0);
      Join1(n);
    }
  }
}
