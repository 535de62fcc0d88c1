/**
 * Examples of spec/matchers_spec.rb:559-572.  The extension matcher inside a literal: it yields the file name for the given extension only.
 */
module ExtensionSpec {
  import opened Wrappers
  import opened Paths
  import opened Patterns
  import opened Matchers
  import opened Routes
  import opened SpecSupport

  /** `r.on "styles" do r.on :extension=>"css" do |file| file end end` */
  function StylesExtension(a: string, ext: string): seq<Route> {
    OnNestedOn([Str(a)], [Extension(ext)], [Arg(0)])
  }

  lemma StylesExtensionHalts(a: string, ext: string, name: string, path: string, t1: string)
    requires NoPlaceholder(a) && IsSegment(name)
    requires t1 == "/" + name + "." + ext && path == "/" + a + t1
    ensures Respond(StylesExtension(a, ext), GetReq(path)) == Response(200, [name])
  {
    var env := Env(GET, map[]);
    var st := PathState("", path);
    var s1 := PathState("" + "/" + a, t1);
    LiteralOf(a, st, env, t1);
    Seq1(Str(a), st, env, [], s1);
    ExtensionOf(ext, s1, env, name);
    var s2 := PathState(s1.scriptName + s1.pathInfo, "");
    Seq1(Extension(ext), s1, env, [name], s2);
    OnNestedOnHalts([Str(a)], [Extension(ext)], [Arg(0)], GetReq(path), [], s1, [name], s2);
    EchoOne(s2, [] + [name], 1);
    assert [] + [name] == [name];
  }

  /** "/styles/reset.css" yields "reset". */
  lemma MatchesGivenFileExtensions(a: string, ext: string, name: string)
    requires NoPlaceholder(a) && IsSegment(name)
    ensures Body(StylesExtension(a, ext), GetReq("/" + a + "/" + name + "." + ext)) == name
  {
    var path := "/" + a + "/" + name + "." + ext;
    assert path == "/" + a + ("/" + name + "." + ext);
    StylesExtensionHalts(a, ext, name, path, "/" + name + "." + ext);
    Join1(name);
  }

  /** A different extension of the same length does not match. */
  lemma OtherExtension(ext: string, other: string, st: PathState, env: Env, name: string)
    requires |other| == |ext| && other != ext && IsSegment(name)
    requires st.pathInfo == "/" + name + "." + other
    ensures Match(Extension(ext), st, env).captures.None?
  {
    ExtensionMatcher(ext, st, env);
    var p := st.pathInfo;
    var n := |p| - |ext| - 1;
    assert n == 1 + |name|;
    assert p[n..] == "." + other;
    assert ("." + other)[1..] == other && ("." + ext)[1..] == ext;
  }

  /** "/styles/reset.bar" is not found. */
  lemma OtherFileExtensionsNotFound(a: string, ext: string, name: string, other: string)
    requires NoPlaceholder(a) && IsSegment(name) && |other| == |ext| && other != ext
    ensures Status(StylesExtension(a, ext), GetReq("/" + a + "/" + name + "." + other)) == 404
  {
    var t1 := "/" + name + "." + other;
    var path := "/" + a + "/" + name + "." + other;
    assert path == "/" + a + t1;
    var env := Env(GET, map[]);
    var st := PathState("", path);
    var s1 := PathState("" + "/" + a, t1);
    LiteralOf(a, st, env, t1);
    Seq1(Str(a), st, env, [], s1);
    OtherExtension(ext, other, s1, env, name);
    Fail1(Extension(ext), [], s1, env);
    assert [Extension(ext)] + [] == [Extension(ext)];
    OnNestedOnInnerFails([Str(a)], [Extension(ext)], [Arg(0)], GetReq(path), [], s1);
  }
}
