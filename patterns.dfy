/**
 * The path patterns a matcher compiles to, and the anchored backtracking
 * match every consuming matcher performs.  A matcher source P is tried as the
 * Ruby pattern `\A(\/(?:P))(\/|\z)` against PATH_INFO: the pattern must start
 * right after a leading `/` and the matched text must end at a `/` or at the
 * end of the path.  Only the fragment of Ruby's regular expressions that the
 * matcher grammar needs is represented: literal characters, greedy character
 * class repetitions (`[^\/]+`, `\d+`, `\w+`, `.*`), an optional literal group
 * (`(bar)?`) and the end anchor `\z`.
 */
module Patterns {
  import opened Wrappers
  import opened Paths

  datatype Token =
    | Lit(c: char)
      /** `cls+` (or `cls*`), greedy, optionally a capturing group. */
    | Run(cls: CharClass, capture: bool, atLeastOne: bool)
      /** `(text)?` (or `(?:text)?`), greedy. */
    | Optional(text: string, capture: bool)
      /** `\z` */
    | EndOfPath

  /** A successful match: the group values in order and where the match ended. */
  datatype Span = Span(captures: seq<string>, end: nat)

  /** The number of capturing groups in a pattern. */
  function Groups(ts: seq<Token>): nat {
    if ts == [] then 0
    else
      (match ts[0]
       case Run(_, cap, _) => if cap then 1 else 0
       case Optional(_, cap) => if cap then 1 else 0
       case _ => 0) + Groups(ts[1..])
  }

  /**
   * Match `ts` against `s` from position `i`, then require the boundary
   * `(\/|\z)`.  Repetitions try their longest extent first and give back one
   * character at a time, and an optional group is tried present before
   * absent, as Ruby's engine does; the first success is the result.
   */
  function MatchFrom(ts: seq<Token>, s: string, i: nat): (r: Option<Span>)
    requires i <= |s|
    ensures r.Some? ==> i <= r.value.end <= |s| && AtBoundary(s, r.value.end)
    ensures r.Some? ==> |r.value.captures| == Groups(ts)
    decreases |ts|, |s| + 1
  {
    if ts == [] then
      if AtBoundary(s, i) then Some(Span([], i)) else None
    else
      match ts[0]
      case Lit(c) =>
        if i < |s| && s[i] == c then MatchFrom(ts[1..], s, i + 1) else None
      case Run(cls, _, _) =>
        Backtrack(ts[1..], ts[0], s, i, RunEnd(cls, s, i))
      case Optional(t, cap) =>
        var present := if StartsAt(s, i, t) then MatchFrom(ts[1..], s, i + |t|) else None;
        if present.Some? then
          Some(Span((if cap then [t] else []) + present.value.captures, present.value.end))
        else
          var absent := MatchFrom(ts[1..], s, i);
          if absent.Some? then
            Some(Span((if cap then [""] else []) + absent.value.captures, absent.value.end))
          else None
      case EndOfPath =>
        if i == |s| then MatchFrom(ts[1..], s, i) else None
  }

  /** Try the repetition `run` ending at `j`, then at `j - 1`, ... down to its minimum. */
  function Backtrack(rest: seq<Token>, run: Token, s: string, i: nat, j: nat): (r: Option<Span>)
    requires run.Run? && i <= j <= |s|
    ensures r.Some? ==> i <= r.value.end <= |s| && AtBoundary(s, r.value.end)
    ensures r.Some? ==> |r.value.captures| == Groups(rest) + (if run.capture then 1 else 0)
    decreases |rest| + 1, j
  {
    if j < i + (if run.atLeastOne then 1 else 0) then None
    else
      var tail := MatchFrom(rest, s, j);
      if tail.Some? then
        Some(Span((if run.capture then [s[i..j]] else []) + tail.value.captures, tail.value.end))
      else if j == i then None
      else Backtrack(rest, run, s, i, j - 1)
  }

  /** The pattern of a plain literal: one `Lit` per character. */
  function Lits(t: string): (ts: seq<Token>)
    ensures |ts| == |t|
  {
    if t == [] then [] else [Lit(t[0])] + Lits(t[1..])
  }

  /**
   * A matcher string: each `:name` (a colon followed by word characters)
   * becomes a segment group `([^\/]+)`; every other character stands for itself.
   */
  function Tokenize(t: string): seq<Token>
    decreases |t|
  {
    if t == [] then []
    else if t[0] == ':' && |t| > 1 && IsWordChar(t[1]) then
      [Run(NonSlash, true, true)] + Tokenize(t[RunEnd(Word, t, 1)..])
    else [Lit(t[0])] + Tokenize(t[1..])
  }

  /** `t` holds no `:name` placeholder. */
  predicate NoPlaceholder(t: string) {
    forall k :: 0 <= k < |t| - 1 && t[k] == ':' ==> !IsWordChar(t[k + 1])
  }

  /** The number of `:name` placeholders in `t`, counted directly on the text. */
  function Placeholders(t: string): nat
    decreases |t|
  {
    if t == [] then 0
    else if t[0] == ':' && |t| > 1 && IsWordChar(t[1]) then 1 + Placeholders(t[RunEnd(Word, t, 1)..])
    else Placeholders(t[1..])
  }

  lemma {:induction false} GroupsAppend(a: seq<Token>, b: seq<Token>)
    ensures Groups(a + b) == Groups(a) + Groups(b)
    decreases |a|
  {
    if a == [] {
      assert a + b == b;
    } else {
      assert (a + b)[0] == a[0];
      assert (a + b)[1..] == a[1..] + b;
      GroupsAppend(a[1..], b);
    }
  }

  /** A matcher string yields one capture per placeholder and no other. */
  lemma {:induction false} TokenizeGroups(t: string)
    ensures Groups(Tokenize(t)) == Placeholders(t)
    decreases |t|
  {
    if t == [] {
    } else if t[0] == ':' && |t| > 1 && IsWordChar(t[1]) {
      var rest := t[RunEnd(Word, t, 1)..];
      TokenizeGroups(rest);
      GroupsAppend([Run(NonSlash, true, true)], Tokenize(rest));
    } else {
      TokenizeGroups(t[1..]);
      GroupsAppend([Lit(t[0])], Tokenize(t[1..]));
    }
  }

  /** Text without a colon compiles to literals, whatever follows it. */
  lemma {:induction false} TokenizeText(a: string, rest: string)
    requires ':' !in a
    ensures Tokenize(a + rest) == Lits(a) + Tokenize(rest)
    decreases |a|
  {
    if a == [] {
      assert a + rest == rest;
    } else {
      assert (a + rest)[0] == a[0] && (a + rest)[1..] == a[1..] + rest;
      assert a[0] in a;
      TokenizeText(a[1..], rest);
    }
  }

  /** A `:name` placeholder compiles to one segment group. */
  lemma TokenizePlaceholder(name: string, rest: string)
    requires |name| > 0 && forall k :: 0 <= k < |name| ==> IsWordChar(name[k])
    requires rest == [] || !IsWordChar(rest[0])
    ensures Tokenize(":" + name + rest) == [Run(NonSlash, true, true)] + Tokenize(rest)
  {
    var t := ":" + name + rest;
    var n := 1 + |name|;
    assert t[0] == ':' && t[1] == name[0];
    assert forall k :: 1 <= k < n ==> t[k] == name[k - 1];
    assert t[n..] == rest;
  }

  /** A string without placeholders is compiled to a plain literal. */
  lemma {:induction false} TokenizeLiteral(t: string)
    requires NoPlaceholder(t)
    ensures Tokenize(t) == Lits(t)
    decreases |t|
  {
    if t != [] {
      assert !(t[0] == ':' && |t| > 1 && IsWordChar(t[1]));
      assert NoPlaceholder(t[1..]) by {
        forall k | 0 <= k < |t[1..]| - 1 && t[1..][k] == ':'
          ensures !IsWordChar(t[1..][k + 1])
        {
          assert t[k + 1] == ':';
        }
      }
      TokenizeLiteral(t[1..]);
    }
  }

  lemma StartsAtCons(s: string, i: nat, t: string)
    requires i <= |s| && t != []
    ensures StartsAt(s, i, t) <==> i < |s| && s[i] == t[0] && StartsAt(s, i + 1, t[1..])
  {
    if StartsAt(s, i, t) {
      assert s[i..i + |t|][0] == s[i];
      assert s[i + 1..i + 1 + |t[1..]|] == s[i..i + |t|][1..];
    }
    if i < |s| && s[i] == t[0] && StartsAt(s, i + 1, t[1..]) {
      assert s[i..i + |t|] == [s[i]] + s[i + 1..i + 1 + |t[1..]|];
      assert t == [t[0]] + t[1..];
    }
  }

  lemma LitStep(c: char, rest: seq<Token>, s: string, i: nat)
    requires i <= |s|
    ensures MatchFrom([Lit(c)] + rest, s, i) ==
      if i < |s| && s[i] == c then MatchFrom(rest, s, i + 1) else None
  {
    var ts := [Lit(c)] + rest;
    assert ts[0] == Lit(c) && ts[1..] == rest;
  }

  /** Matching a literal prefix: the characters must follow, then the rest of the pattern. */
  lemma {:induction false} LitsThen(t: string, tail: seq<Token>, s: string, i: nat)
    requires i <= |s|
    ensures MatchFrom(Lits(t) + tail, s, i) ==
      if StartsAt(s, i, t) then MatchFrom(tail, s, i + |t|) else None
    decreases |t|
  {
    if t == [] {
      assert s[i..i] == t;
      assert Lits(t) + tail == tail;
    } else {
      assert Lits(t) + tail == [Lit(t[0])] + (Lits(t[1..]) + tail);
      LitStep(t[0], Lits(t[1..]) + tail, s, i);
      StartsAtCons(s, i, t);
      if i < |s| && s[i] == t[0] {
        LitsThen(t[1..], tail, s, i + 1);
        assert i + 1 + |t[1..]| == i + |t|;
      }
    }
  }

  /**
   * A literal matches exactly when the path continues with it and the next
   * character is a `/` or the end: "about" does not match "/abot" nor
   * "/aboutx", and "a/b" matches "/a/b/..." but not "/a/d".
   */
  lemma LiteralMatch(t: string, s: string, i: nat)
    requires i <= |s|
    ensures MatchFrom(Lits(t), s, i) ==
      if StartsAt(s, i, t) && AtBoundary(s, i + |t|) then Some(Span([], i + |t|)) else None
  {
    LitsThen(t, [], s, i);
    assert Lits(t) + [] == Lits(t);
  }

  /**
   * A lone repetition `cls+` of a class without `/` (a segment, `\d+`, `\w+`)
   * matches exactly when its longest run is non-empty and ends at a `/` or at
   * the end: giving characters back cannot help, since a shorter run ends
   * before a character of the class, which is not `/`.
   */
  lemma RunAlone(cls: CharClass, cap: bool, s: string, i: nat)
    requires i <= |s| && cls != AnyChar
    ensures var e := RunEnd(cls, s, i);
      MatchFrom([Run(cls, cap, true)], s, i) ==
        if e > i && AtBoundary(s, e) then Some(Span(if cap then [s[i..e]] else [], e)) else None
  {
    var e := RunEnd(cls, s, i);
    var run := Run(cls, cap, true);
    assert [run][1..] == [];
    BacktrackAlone(run, s, i, e);
  }

  lemma {:induction false} BacktrackAlone(run: Token, s: string, i: nat, j: nat)
    requires run.Run? && run.atLeastOne && run.cls != AnyChar
    requires i <= |s| && i <= j <= RunEnd(run.cls, s, i)
    ensures Backtrack([], run, s, i, j) ==
      if j > i && AtBoundary(s, j) && (j == RunEnd(run.cls, s, i) || !AtBoundary(s, RunEnd(run.cls, s, i)))
      then Some(Span(if run.capture then [s[i..j]] else [], j)) else None
    ensures j < RunEnd(run.cls, s, i) ==> Backtrack([], run, s, i, j) == None
    decreases j
  {
    var e := RunEnd(run.cls, s, i);
    if j >= i + 1 {
      if j < e {
        assert InClass(run.cls, s[j]);
        assert !AtBoundary(s, j);
      }
      if AtBoundary(s, j) {
        assert MatchFrom([], s, j) == Some(Span([], j));
        var c: seq<string> := if run.capture then [s[i..j]] else [];
        assert c + [] == c;
      } else {
        assert MatchFrom([], s, j) == None;
        if j > i { BacktrackAlone(run, s, i, j - 1); }
      }
    }
  }

  lemma {:induction false} BacktrackBeforeSlash(run: Token, t: string, tail: seq<Token>, s: string, i: nat, j: nat)
    requires run.Run? && run.cls == NonSlash && run.atLeastOne && |t| > 0 && t[0] == '/'
    requires i <= |s| && i <= j < RunEnd(NonSlash, s, i)
    ensures Backtrack(Lits(t) + tail, run, s, i, j) == None
    decreases j
  {
    LitsThen(t, tail, s, j);
    StartsAtCons(s, j, t);
    if j > i { BacktrackBeforeSlash(run, t, tail, s, i, j - 1); }
  }

  /**
   * A segment group followed by a literal that starts with `/` (as in
   * "u/:uid/posts/:id") captures the whole segment: the only place it can stop
   * is the `/` that ends the segment.
   */
  lemma SegmentThenSlash(cap: bool, t: string, tail: seq<Token>, s: string, i: nat)
    requires i <= |s| && |t| > 0 && t[0] == '/'
    ensures var e := RunEnd(NonSlash, s, i);
      MatchFrom([Run(NonSlash, cap, true)] + (Lits(t) + tail), s, i) ==
        if e > i && StartsAt(s, e, t) then
          match MatchFrom(tail, s, e + |t|)
          case Some(sp) => Some(Span((if cap then [s[i..e]] else []) + sp.captures, sp.end))
          case None => None
        else None
  {
    var e := RunEnd(NonSlash, s, i);
    var run := Run(NonSlash, cap, true);
    var ts := [run] + (Lits(t) + tail);
    assert ts[0] == run && ts[1..] == Lits(t) + tail;
    if e > i {
      LitsThen(t, tail, s, e);
      if e - 1 >= i { BacktrackBeforeSlash(run, t, tail, s, i, e - 1); }
    }
  }

  /** Two segment groups around a literal that starts with `/`, as in "u/:uid/posts/:id". */
  lemma SegmentLiteralSegment(t: string, s: string, i: nat, e: nat, j: nat, f: nat)
    requires |t| > 0 && t[0] == '/' && i <= |s|
    requires RunEnd(NonSlash, s, i) == e && e > i && StartsAt(s, e, t) && j == e + |t|
    requires RunEnd(NonSlash, s, j) == f && f > j
    ensures MatchFrom([Run(NonSlash, true, true)] + (Lits(t) + [Run(NonSlash, true, true)]), s, i) ==
      Some(Span([s[i..e], s[j..f]], f))
  {
    var run := Run(NonSlash, true, true);
    SegmentMatch(s, j);
    SegmentThenSlash(true, t, [run], s, i);
    assert [s[i..e]] + [s[j..f]] == [s[i..e], s[j..f]];
  }

  /** A lone optional literal group `(t)?` (then the boundary). */
  lemma OptionalAlone(t: string, cap: bool, s: string, j: nat)
    requires j <= |s|
    ensures MatchFrom([Optional(t, cap)], s, j) ==
      if StartsAt(s, j, t) && AtBoundary(s, j + |t|) then Some(Span(if cap then [t] else [], j + |t|))
      else if AtBoundary(s, j) then Some(Span(if cap then [""] else [], j))
      else None
  {
    var ts := [Optional(t, cap)];
    assert ts[0] == Optional(t, cap) && ts[1..] == [];
    var c1: seq<string> := if cap then [t] else [];
    var c2: seq<string> := if cap then [""] else [];
    assert c1 + [] == c1 && c2 + [] == c2;
    assert MatchFrom(ts[1..], s, j) == if AtBoundary(s, j) then Some(Span([], j)) else None;
    if StartsAt(s, j, t) {
      assert MatchFrom(ts[1..], s, j + |t|) ==
        if AtBoundary(s, j + |t|) then Some(Span([], j + |t|)) else None;
    }
  }

  /**
   * Giving back characters of a run never helps an optional group that
   * cannot start inside the run: every shorter end is followed by a run
   * character, which is neither `/` nor the group's first character.
   */
  lemma {:induction false} BacktrackBeforeOptional(run: Token, t: string, cap: bool, s: string, i: nat, j: nat)
    requires run.Run? && run.cls != AnyChar && t != [] && !InClass(run.cls, t[0])
    requires i <= |s| && i <= j < RunEnd(run.cls, s, i)
    ensures Backtrack([Optional(t, cap)], run, s, i, j) == None
    decreases j
  {
    OptionalAlone(t, cap, s, j);
    StartsAtCons(s, j, t);
    assert InClass(run.cls, s[j]);
    if j > i { BacktrackBeforeOptional(run, t, cap, s, i, j - 1); }
  }

  /** `cls+(t)?` (the run not captured) is the optional group tried at the end of the whole run. */
  lemma RunThenOptional(cls: CharClass, t: string, cap: bool, s: string, i: nat)
    requires i <= |s| && cls != AnyChar && t != [] && !InClass(cls, t[0])
    ensures var e := RunEnd(cls, s, i);
      MatchFrom([Run(cls, false, true), Optional(t, cap)], s, i) ==
        if e > i then MatchFrom([Optional(t, cap)], s, e) else None
  {
    var run := Run(cls, false, true);
    var e := RunEnd(cls, s, i);
    assert [run, Optional(t, cap)][1..] == [Optional(t, cap)];
    if e > i {
      var tail := MatchFrom([Optional(t, cap)], s, e);
      if tail.Some? {
        assert [] + tail.value.captures == tail.value.captures;
      } else {
        BacktrackBeforeOptional(run, t, cap, s, i, e - 1);
      }
    }
  }

  /**
   * A segment group `([^\/]+)` on its own captures the whole run of non-slash
   * characters at `i` and nothing more; it fails when that run is empty.
   */
  lemma SegmentMatch(s: string, i: nat)
    requires i <= |s|
    ensures var e := RunEnd(NonSlash, s, i);
      MatchFrom([Run(NonSlash, true, true)], s, i) ==
        if e > i then Some(Span([s[i..e]], e)) else None
    ensures var r := MatchFrom([Run(NonSlash, true, true)], s, i);
      && (r.Some? <==> i < |s| && s[i] != '/')
      && (r.Some? ==> '/' !in r.value.captures[0] && |r.value.captures[0]| > 0)
  {
    var e := RunEnd(NonSlash, s, i);
    var run := Run(NonSlash, true, true);
    assert [run][1..] == [];
    if e > i {
      assert MatchFrom([], s, e) == Some(Span([], e));
      assert [s[i..e]] + [] == [s[i..e]];
      assert Backtrack([], run, s, i, e) == Some(Span([s[i..e]], e));
      assert forall k :: 0 <= k < |s[i..e]| ==> s[i..e][k] == s[i + k];
    } else {
      assert Backtrack([], run, s, i, e) == None;
    }
  }

  lemma {:induction false} GroupsLits(t: string)
    ensures Groups(Lits(t)) == 0
    decreases |t|
  {
    if t != [] {
      GroupsLits(t[1..]);
      assert Lits(t)[0] == Lit(t[0]) && Lits(t)[1..] == Lits(t[1..]);
    }
  }

  /**
   * The extension pattern `([^\/]+?)\.ext\z`.  Because the end anchor fixes
   * where the name stops, the lazy repetition of the source and a greedy one
   * find the same single split; `ExtensionMatch` states it.
   */
  function ExtensionPattern(ext: string): seq<Token> {
    [Run(NonSlash, true, true)] + Lits("." + ext) + [EndOfPath]
  }

  /** The extension pattern has exactly one group, the file name. */
  lemma ExtensionGroups(ext: string)
    ensures Groups(ExtensionPattern(ext)) == 1
  {
    GroupsLits("." + ext);
    GroupsAppend([Run(NonSlash, true, true)], Lits("." + ext));
    GroupsAppend([Run(NonSlash, true, true)] + Lits("." + ext), [EndOfPath]);
    assert Groups([EndOfPath]) == 0 by { assert [EndOfPath][1..] == []; }
  }

  lemma ExtensionTail(ext: string, s: string, j: nat)
    requires j <= |s|
    ensures MatchFrom(Lits("." + ext) + [EndOfPath], s, j) ==
      if StartsAt(s, j, "." + ext) && j + 1 + |ext| == |s| then Some(Span([], |s|)) else None
  {
    LitsThen("." + ext, [EndOfPath], s, j);
    if StartsAt(s, j, "." + ext) {
      var k := j + |"." + ext|;
      assert [EndOfPath][1..] == [];
      if k == |s| { assert MatchFrom([], s, k) == Some(Span([], k)); }
    }
  }

  lemma {:induction false} BacktrackExtension(ext: string, s: string, i: nat, j: nat)
    requires i <= j <= |s|
    ensures var n := |s| - |ext| - 1;
      Backtrack(Lits("." + ext) + [EndOfPath], Run(NonSlash, true, true), s, i, j) ==
        if i < n <= j && StartsAt(s, n, "." + ext) then Some(Span([s[i..n]], |s|)) else None
    decreases j
  {
    var rest := Lits("." + ext) + [EndOfPath];
    if j >= i + 1 {
      ExtensionTail(ext, s, j);
      if StartsAt(s, j, "." + ext) && j + 1 + |ext| == |s| {
        assert [s[i..j]] + [] == [s[i..j]];
      } else if j > i {
        BacktrackExtension(ext, s, i, j - 1);
      }
    }
  }

  /**
   * The extension pattern matches from `i` exactly when the rest of the path
   * is a non-empty name without `/` followed by "." and the extension; it
   * captures the name and consumes everything.
   */
  lemma ExtensionMatch(ext: string, s: string, i: nat)
    requires i <= |s|
    ensures var n := |s| - |ext| - 1;
      MatchFrom(ExtensionPattern(ext), s, i) ==
        if i < n && s[n..] == "." + ext && (forall k :: i <= k < n ==> s[k] != '/')
        then Some(Span([s[i..n]], |s|)) else None
  {
    var n := |s| - |ext| - 1;
    var e := RunEnd(NonSlash, s, i);
    var ts := ExtensionPattern(ext);
    assert ts[0] == Run(NonSlash, true, true);
    assert ts[1..] == Lits("." + ext) + [EndOfPath];
    BacktrackExtension(ext, s, i, e);
    if i < n {
      assert StartsAt(s, n, "." + ext) <==> s[n..] == "." + ext;
      if e < n {
        assert s[e] == '/';
      }
    }
  }
}
