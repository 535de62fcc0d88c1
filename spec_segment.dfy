/**
 * Examples of spec/matchers_spec.rb:515-541.  A symbol yields exactly the next segment, whatever characters it holds.
 */
module SegmentHandlingSpec {
  import opened Wrappers
  import opened Paths
  import opened Patterns
  import opened Matchers
  import opened Routes
  import opened SpecSupport

  /** `r.on "post" do r.on :id do |id| id end end` */
  function PostId(a: string): seq<Route> {
    OnNestedOn([Str(a)], [Segment], [Arg(0)])
  }

  lemma PostIdHalts(a: string, seg: string, rest: string, path: string)
    requires NoPlaceholder(a) && IsSegment(seg) && Boundary(rest)
    requires path == "/" + a + ("/" + seg + rest)
    ensures Respond(PostId(a), GetReq(path)) == Response(200, [seg])
  {
    var env := Env(GET, map[]);
    var st := PathState("", path);
    var s1 := PathState("" + "/" + a, "/" + seg + rest);
    LiteralOf(a, st, env, "/" + seg + rest);
    Seq1(Str(a), st, env, [], s1);
    SegmentOf(s1, env, seg, rest);
    var s2 := PathState(s1.scriptName + "/" + seg, rest);
    Seq1(Segment, s1, env, [seg], s2);
    OnNestedOnHalts([Str(a)], [Segment], [Arg(0)], GetReq(path), [], s1, [seg], s2);
    EchoOne(s2, [] + [seg], 1);
    assert [] + [seg] == [seg];
  }

  /**
   * A symbol yields the next whole segment, whatever its characters: numeric
   * ids ("1"), decimals ("1.1"), slugs, and only the first of several
   * segments ("/post/one/two/three" yields "one").
   */
  lemma SegmentHandling(a: string, seg: string, rest: string)
    requires NoPlaceholder(a) && IsSegment(seg) && Boundary(rest)
    ensures Body(PostId(a), GetReq("/" + a + "/" + seg + rest)) == seg
  {
    var path := "/" + a + "/" + seg + rest;
    assert path == "/" + a + ("/" + seg + rest);
    PostIdHalts(a, seg, rest, path);
    Join1(seg);
  }
}
