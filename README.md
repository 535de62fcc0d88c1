# Roda path matching, modelled in Dafny

This project models how a Roda routing tree matches a request: the matcher
arguments that `r.on`, `r.is` and the verb operators (`r.get`, `r.post`, ...)
accept, how they consume `PATH_INFO` and yield block arguments, and how a
request is dispatched through nested blocks. The model is checked against the
examples of the matcher test suite `spec/matchers_spec.rb`.

- `wrappers.dfy` (`Wrappers`): the `Option` type.
- `paths.dfy` (`Paths`):
  - Ruby's ASCII character classes (`[^\/]`, `\d`, `\w`, `.`);
  - the longest run of a class (`RunEnd`);
  - boundaries;
  - `Integer#to_s`.
- `patterns.dfy` (`Patterns`):
  - the anchored pattern every consuming matcher runs, `\A(\/(?:P))(\/|\z)`, over a fragment of Ruby regular expressions:
    - literal characters;
    - greedy class repetitions;
    - an optional literal group;
    - `\z`;
  - its backtracking match (`MatchFrom`, `Backtrack`);
  - the compilation of a matcher string, where `:name` becomes `([^\/]+)` (`Tokenize`);
  - the extension pattern `([^\/]+?)\.ext\z`.
- `matchers.dfy` (`Matchers`):
  - the matcher variants: string, symbol, regexp, `:extension`, `:param`, array, `true`/`false`, lambda, request-method check, and the terminator `is` adds;
  - one matcher (`Match`);
  - an array, where the first alternative that matches wins and a string alternative also yields itself (`MatchFirst`);
  - positional arguments, matched left to right and failing as a whole (`MatchAll`).
- `routes.dfy` (`Routes`):
  - the route tree: the operator, its arguments, and a handler or nested routes;
  - its meaning as functions: the first sibling that halts wins, the response is 200 with the handler's chunks, and 404 when nothing answers.
- `context.dfy` (`Context`): the routing context as a class.
  - Its fields are the verb, the query, `SCRIPT_NAME`, `PATH_INFO`, the body and the status, updated in place.
  - `TryMatch` matches the arguments in a loop and restores a snapshot when one fails.
  - `RunRoute` restores the snapshot after a block.
  - `RunRoutes` tries siblings in a loop.
  - `Write` appends the handler's chunks.
  - Each method is proved equal to the functions of `Routes`. `Call` serves one request on a fresh context.
- `spec_*.dfy`: one module per `describe` block of the test suite. Each test becomes a lemma about `Respond`, with the body, the status, or both.
  - Each test is stated for every path of the same shape, for example "a literal, then any segment", and not only for the literal path of the test.
  - `spec_support.dfy` holds the evaluation steps and matcher facts that several tests share.

Design decisions:

- A block whose nested routes all decline puts the path state back and lets the next sibling run, as an unmatched route does. The tests do not tell this apart from halting with an empty response.
- A verb operator is `on` with a leading request-method check (`Arguments`).
- A regexp or a matcher string that uses regexp syntax is given to the model as its token sequence (`Regex`). The tests only need literal characters, `(\d+)`, `(\w+)`, `([^\/]+)`, `(.*)`, `\d+`, `(bar)?` and `\z`.

## Model

| member | source | states |
|---|---|---|
| Paths.DecimalRoundTrip | spec/matchers_spec.rb:4-22 | `args.size.to_s` writes the decimal digits of the count: reading them back gives the number |
| Patterns.TokenizeGroups | spec/matchers_spec.rb:163-183 | a matcher string yields exactly one capture per `:name` placeholder in it |
| Patterns.TokenizePlaceholder | spec/matchers_spec.rb:163-172 | `:name` compiles to one segment group `([^\/]+)`, and the text after the name is compiled on its own |
| Patterns.TokenizeLiteral | spec/matchers_spec.rb:401-439 | a string without placeholders compiles to its characters as literals |
| Patterns.LitsThen | spec/matchers_spec.rb:401-439 | a literal prefix matches exactly when the path continues with it; then the rest of the pattern is matched after it |
| Patterns.LiteralMatch | spec/matchers_spec.rb:401-410 | a literal matches exactly when the path continues with it and then has `/` or the end ("about" matches neither "/abot" nor "/aboutx") |
| Patterns.RunAlone | spec/matchers_spec.rb:139-148 | a lone `cls+` of a class without `/` matches exactly when its longest run is non-empty and ends at a boundary; giving back characters never helps |
| Patterns.SegmentThenSlash | spec/matchers_spec.rb:174-183 | a segment group followed by a literal that starts with `/` captures exactly the whole segment |
| Patterns.SegmentLiteralSegment | spec/matchers_spec.rb:174-183 | "u/:uid/posts/:id"'s groups, a literal between them, capture both whole segments |
| Patterns.OptionalAlone | spec/matchers_spec.rb:250-260 | `(t)?` is taken when `t` follows up to a boundary; otherwise it is skipped and yields "" when the position is itself a boundary; otherwise it fails |
| Patterns.RunThenOptional | spec/matchers_spec.rb:250-260 | `\d+(t)?` is the optional group tried at the end of the whole digit run; backtracking into the run never succeeds |
| Patterns.SegmentMatch | spec/matchers_spec.rb:24-42 | a segment group captures the whole non-empty run of non-`/` characters, and fails exactly when that run is empty |
| Patterns.ExtensionGroups | spec/matchers_spec.rb:44-52 | the extension pattern has exactly one group, the file name |
| Patterns.ExtensionMatch | spec/matchers_spec.rb:44-52 | the extension pattern matches exactly when the rest is a non-empty name without `/`, then "." and the extension, up to the end; it captures the name |
| Matchers.MatchArity | spec/matchers_spec.rb:3-101 | a non-array matcher that matches yields exactly its arity: one per `:name`/group, one for a symbol, extension or param, none for a guard or verb |
| Matchers.MatchAdvances | spec/matchers_spec.rb:306-318 | a matcher that does not assign SCRIPT_NAME only moves a prefix of PATH_INFO to SCRIPT_NAME, and changes nothing when it fails |
| Matchers.ConsumeAdvances | spec/matchers_spec.rb:400-462 | the anchored match moves exactly the matched prefix of PATH_INFO to SCRIPT_NAME, and changes nothing when it fails |
| Matchers.MatchFirstAdvances | spec/matchers_spec.rb:250-272 | the same for an array of such matchers |
| Matchers.PrefixPrefix | spec/matchers_spec.rb:174-196 | captures accumulate in order |
| Matchers.MatchAllAppend | spec/matchers_spec.rb:103-160 | matching `a + b` is matching `a`, then `b` from where `a` stopped, with the captures concatenated |
| Matchers.AdvancedTransitive | spec/matchers_spec.rb:54-68 | consuming twice is consuming: the two prefixes join up |
| Matchers.AdvancedKeepsPath | spec/matchers_spec.rb:465-490 | consuming keeps SCRIPT_NAME + PATH_INFO (`r.path`) equal to the original path |
| Matchers.MatchAllAdvances | spec/matchers_spec.rb:465-490 | a sequence of non-assigning matchers only consumes, and leaves SCRIPT_NAME + PATH_INFO unchanged |
| Matchers.LiteralMatcher | spec/matchers_spec.rb:401-439 | a plain string matches exactly when PATH_INFO is "/" + it, then `/` or the end; it yields nothing and moves "/" + it to SCRIPT_NAME; otherwise the state is unchanged |
| Matchers.SegmentMatcher | spec/matchers_spec.rb:515-541 | a symbol matches exactly when PATH_INFO starts with "/" and a non-`/` character, and yields the whole next segment, never part of one, consuming "/" + segment |
| Matchers.ExtensionMatcher | spec/matchers_spec.rb:559-572 | `:extension => ext` matches exactly "/" + name + "." + ext, name non-empty and without "/", yields the name and consumes the whole path |
| Matchers.ExtensionRoundTrip | spec/matchers_spec.rb:559-572 | round trip: on the path built from a name and an extension, the extension matcher yields that name |
| Matchers.FirstAlternativeWins | spec/matchers_spec.rb:250-272 | when the alternatives before `j` fail and `j` matches, the array's result is `j`'s, plus the string itself for a string alternative |
| Matchers.NoAlternativeMatches | spec/matchers_spec.rb:250-272 | an array whose alternatives all fail fails and leaves the state unchanged |
| Routes.FirstHaltWins | spec/matchers_spec.rb:338-364 | when the siblings before `j` decline and `j` halts, the outcome is `j`'s |
| Routes.AllContinue | spec/matchers_spec.rb:338-364 | siblings decline together exactly when each of them declines |
| Routes.LaterSiblingsIgnored | spec/matchers_spec.rb:338-350 | siblings after one that halts never change the outcome |
| Routes.VerbMismatch | spec/matchers_spec.rb:543-557 | a verb operator for another verb declines without trying its arguments |
| Routes.IsRequiresEmptyRest | spec/matchers_spec.rb:103-160 | `is` runs its block exactly when its arguments match and leave PATH_INFO empty |
| Routes.OnRunsBlock | spec/matchers_spec.rb:275-304 | `on` whose arguments match runs its block with their captures; when no argument assigns SCRIPT_NAME, the block's state only moved path to SCRIPT_NAME and SCRIPT_NAME + PATH_INFO is unchanged |
| Context.RoutingContext.constructor | spec/matchers_spec.rb:320-336 | a request starts with an empty SCRIPT_NAME, the whole path in PATH_INFO, an empty body and status 200 |
| Context.RoutingContext.Snapshot | spec/matchers_spec.rb:306-318 | returns the current SCRIPT_NAME and PATH_INFO |
| Context.RoutingContext.Restore | spec/matchers_spec.rb:306-318 | sets SCRIPT_NAME and PATH_INFO back to a snapshot and touches nothing else |
| Context.RoutingContext.TryMatch | spec/matchers_spec.rb:306-378 | matching the arguments in place computes `MatchAll` from the old state; on failure the old state is restored, including what a lambda assigned; without assigning matchers SCRIPT_NAME + PATH_INFO stays the original path |
| Context.RoutingContext.Write | spec/matchers_spec.rb:465-490 | the body grows by exactly the handler's rendered chunks, in order; the context invariant is kept, and under it every `r.path` written is the request's original path |
| Context.RoutingContext.RunRoute | spec/matchers_spec.rb:306-378 | the outcome is `EvalRoute`; SCRIPT_NAME and PATH_INFO end as they began; the body grows by the winner's chunks only; the context invariant is kept |
| Context.RoutingContext.RunBlock | spec/matchers_spec.rb:54-68 | the outcome is `EvalBlock`, with the same frame guarantees and the context invariant kept |
| Context.RoutingContext.RunRoutes | spec/matchers_spec.rb:338-364 | the outcome is `EvalRoutes`: the loop stops at the first sibling that halts; the path state is unchanged and the context invariant kept |
| Context.RoutingContext.Serve | spec/matchers_spec.rb:320-336 | status and body are `RespondAt`'s response; SCRIPT_NAME and PATH_INFO are left as they were |
| Context.Call | spec/matchers_spec.rb:320-336 | the response is `Respond(app, req)`, and the request's SCRIPT_NAME and PATH_INFO are handed back unchanged |
| SpecSupport.LiteralOf | spec/matchers_spec.rb:296-304 | a plain string on "/" + it + a boundary yields nothing and consumes "/" + it |
| SpecSupport.SegmentOf | spec/matchers_spec.rb:24-42 | a symbol on "/" + segment + a boundary yields the segment and consumes "/" + segment |
| SpecSupport.ExtensionOf | spec/matchers_spec.rb:44-52 | the extension matcher on "/" + name + "." + ext yields the name and consumes the whole path |
| SpecSupport.RootMatcher | spec/matchers_spec.rb:452-474 | `""` matches exactly a leading `/` followed by `/` or the end, and consumes only that slash |
| SpecSupport.RunOf | spec/matchers_spec.rb:139-148 | `/(cls+)/` on "/" + a run + a boundary yields the run |
| SpecSupport.PrefixRunOf | spec/matchers_spec.rb:185-209 | the regexp `<a>(cls+)` on "/" + a + run + a boundary yields the run and consumes up to it |
| SpecSupport.VerbMatches | spec/matchers_spec.rb:543-557 | a verb operator for the request's verb behaves as `on` |
| SpecSupport.OnNestedOnHalts | spec/matchers_spec.rb:185-209 | nested `on` blocks that both match: the handler sees the outer captures, then the inner ones, on the state both left |
| SpecSupport.OnNestedOnInnerFails | spec/matchers_spec.rb:185-209 | the outer level matches and the inner one does not: 404 |
| SpecSupport.FirstOfTwoHalts | spec/matchers_spec.rb:338-350 | the first of two routes matches: its handler answers |
| SpecSupport.SecondOfTwoHalts | spec/matchers_spec.rb:352-378 | the first of two routes fails: the second runs on the untouched request state |
| CapturingSpec.DoesNotYieldTheVerb | spec/matchers_spec.rb:4-12 | `r.get` with no arguments gives its block no arguments ("0") |
| CapturingSpec.DoesNotYieldThePath | spec/matchers_spec.rb:14-22 | a plain string gives its block no arguments ("0") |
| CapturingSpec.YieldsTheSegment | spec/matchers_spec.rb:24-42 | a literal then a symbol yield the segment ("johndoe", "101") |
| CapturingSpec.WordThenExtension | spec/matchers_spec.rb:44-52 | a literal then an extension consume the whole path and yield the file name |
| CapturingSpec.YieldsTheFileName | spec/matchers_spec.rb:44-52 | the extension matcher yields the name without the extension ("app") |
| CapturingSpec.OnSegmentLevel | spec/matchers_spec.rb:54-68 | one `r.on :seg` level consumes a segment and appends it to the arguments its block sees |
| CapturingSpec.NestedSegmentsEval | spec/matchers_spec.rb:54-68 | three nested symbols consume three segments, and the innermost block sees all three in order |
| CapturingSpec.YieldsASegmentPerNestedBlock | spec/matchers_spec.rb:54-68 | "/one/two/three" yields "onetwothree" |
| CapturingSpec.DigitsDashRest | spec/matchers_spec.rb:80-100 | `(\d+)-(.*)` on digits, a dash and a rest captures the digits and the rest, up to the end |
| CapturingSpec.PostSlugMatcher | spec/matchers_spec.rb:80-100 | `posts/(\d+)-(.*)` yields the id and the slug and consumes the whole path |
| CapturingSpec.GetRegexWhole | spec/matchers_spec.rb:80-100 | a GET route guarded by one regexp that matches the whole path answers 200 with its handler's output |
| CapturingSpec.RegexCaptures | spec/matchers_spec.rb:80-100 | "/posts/123-postal-service" yields "123postal-service", in string and regexp form |
| IsSpec.RootThenTerm | spec/matchers_spec.rb:104-113 | `""` followed by the terminator matches exactly the remaining path "/" |
| IsSpec.IsMatchesFully | spec/matchers_spec.rb:104-113 | `is ""` answers exactly "/"; every other path, "//" among them, is 404 |
| IsSpec.IsWithoutArguments | spec/matchers_spec.rb:115-126 | `on ""` around a bare `is` answers exactly "/" |
| IsSpec.IsThen | spec/matchers_spec.rb:128-159 | a matcher followed by the terminator matches exactly when it leaves no path behind |
| IsSpec.IsMatchesStrings | spec/matchers_spec.rb:128-137 | `is "123"` answers "/123" and is 404 on "/123/" |
| IsSpec.IsMatchesRegexps | spec/matchers_spec.rb:139-148 | `is /(\w+)/` yields the word on "/123" and is 404 on "/123/" |
| IsSpec.IsMatchesSegments | spec/matchers_spec.rb:150-159 | `is :id` yields the segment on "/123" and is 404 on "/123/" |
| MatcherCombinationsSpec.EmbeddedParamTokens | spec/matchers_spec.rb:163-172 | "posts/:id" compiles to the literal "posts/" and one segment group |
| MatcherCombinationsSpec.EmbeddedParamOf | spec/matchers_spec.rb:163-172 | "posts/:id" on "/posts/" + segment yields the segment and consumes up to it |
| MatcherCombinationsSpec.EmbeddedParamMiss | spec/matchers_spec.rb:163-172 | "posts/:id" fails on a path that does not start with "/posts/" |
| MatcherCombinationsSpec.StringWithEmbeddedParam | spec/matchers_spec.rb:163-172 | "/posts/123" yields "123" |
| MatcherCombinationsSpec.StringWithEmbeddedParamMiss | spec/matchers_spec.rb:163-172 | "/post/123" is 404 |
| MatcherCombinationsSpec.TwoParamTokenize | spec/matchers_spec.rb:174-183 | "u/:uid/posts/:id" compiles to a literal, a group, the literal "/posts/" and a group |
| MatcherCombinationsSpec.TwoParamOf | spec/matchers_spec.rb:174-183 | "u/:uid/posts/:id" yields both segments and consumes up to the end of the second |
| MatcherCombinationsSpec.TwoParamMiss | spec/matchers_spec.rb:174-183 | it fails when the first segment is not followed by "/posts/" |
| MatcherCombinationsSpec.MultipleParamsInOneString | spec/matchers_spec.rb:174-183 | "/u/jdoe/posts/123" yields "jdoe123" |
| MatcherCombinationsSpec.MultipleParamsInOneStringMiss | spec/matchers_spec.rb:174-183 | "/u/jdoe/pots/123" is 404 |
| MatcherCombinationsSpec.PrefixRunMiss | spec/matchers_spec.rb:185-209 | `<a>(cls+)` fails when the path does not continue with `a` |
| MatcherCombinationsSpec.RegexNestingHalts | spec/matchers_spec.rb:185-209 | both nested regexps match in turn, and the response carries both runs |
| MatcherCombinationsSpec.RegexesAndNesting | spec/matchers_spec.rb:185-209 | "/u/jdoe/posts/123" and "/u:jdoe/posts:123" yield "jdoe123" |
| MatcherCombinationsSpec.RegexesAndNestingMiss | spec/matchers_spec.rb:185-209 | "/u/jdoe/pots/123" and "/u:jdoe/poss:123" are 404 |
| MatcherCombinationsSpec.ShiftSegment | spec/matchers_spec.rb:211-222 | under a leading slash, a whole-segment prefix is one without it |
| MatcherCombinationsSpec.LiteralMiss | spec/matchers_spec.rb:211-222 | a literal fails unless the path continues with it as whole segments |
| MatcherCombinationsSpec.SymbolNestingHalts | spec/matchers_spec.rb:211-222 | `on "user", :id` around `on "posts", :pid` answers both segments |
| MatcherCombinationsSpec.SymbolMatching | spec/matchers_spec.rb:211-222 | "/user/jdoe/posts/123" yields "jdoe123" |
| MatcherCombinationsSpec.SymbolMatchingMiss | spec/matchers_spec.rb:211-222 | "/user/jdoe/pots/123" is 404 |
| MatcherCombinationsSpec.TwoSegmentsOf | spec/matchers_spec.rb:224-235 | two symbols take two whole segments in turn |
| MatcherCombinationsSpec.PathsAndNumbers | spec/matchers_spec.rb:224-235 | "/about/1/2" yields "12" |
| MatcherCombinationsSpec.PathsAndNumbersMiss | spec/matchers_spec.rb:224-235 | "/about/1" is 404: the second symbol has no segment left |
| MatcherCombinationsSpec.PathsAndDecimals | spec/matchers_spec.rb:237-248 | "/about/1" yields "1" for `/(\d+)/` |
| MatcherCombinationsSpec.DigitsThenOther | spec/matchers_spec.rb:237-248 | `(\d+)` fails when the digits are followed by a non-digit that is not `/` |
| MatcherCombinationsSpec.PathsAndDecimalsMiss | spec/matchers_spec.rb:237-248 | "/about/1.2" is 404 |
| MatcherCombinationsSpec.OptionalAfterDigits | spec/matchers_spec.rb:250-260 | `\d+(bar)?` after digits followed by another character matches exactly when "bar" ends the segment, and yields "bar" |
| MatcherCombinationsSpec.DigitsOrSuffixDigits | spec/matchers_spec.rb:250-260 | on a digit segment the first alternative wins and yields the digits |
| MatcherCombinationsSpec.DigitsOrSuffixSuffix | spec/matchers_spec.rb:250-260 | on digits + "bar" the first alternative fails and the second yields "bar" |
| MatcherCombinationsSpec.DigitsOrSuffixMiss | spec/matchers_spec.rb:250-260 | on digits + anything else, no alternative matches |
| MatcherCombinationsSpec.ArraysMatchAnyValue | spec/matchers_spec.rb:250-260 | "/123" yields "123" |
| MatcherCombinationsSpec.ArraysMatchAnyValueSuffix | spec/matchers_spec.rb:250-260 | "/123bar" yields "bar" |
| MatcherCombinationsSpec.ArraysMatchAnyValueMiss | spec/matchers_spec.rb:250-260 | "/123bard" is 404 |
| MatcherCombinationsSpec.ArrayCapturesFirstString | spec/matchers_spec.rb:262-272 | "/p" yields "p": a string alternative yields itself |
| MatcherCombinationsSpec.ArrayCapturesSecondString | spec/matchers_spec.rb:262-272 | "/q" yields "q" when "p" is not its first segment |
| MatcherCombinationsSpec.ArrayCapturesNoString | spec/matchers_spec.rb:262-272 | "/r" is 404 |
| OnSpec.ExecutesOnNoArguments | spec/matchers_spec.rb:276-284 | `on` without arguments runs whatever the path |
| OnSpec.ExecutesOnTrue | spec/matchers_spec.rb:286-294 | `on true` runs whatever the path |
| OnSpec.ExecutesOnNonFalse | spec/matchers_spec.rb:296-304 | `on "123"` runs on "/123" |
| OnSpec.RevertsScriptNameAndPathInfo | spec/matchers_spec.rb:306-318 | a failing lambda's SCRIPT_NAME assignment is undone: "/hello" yields ":/hello" |
| OnSpec.ThenFalse | spec/matchers_spec.rb:366-378 | whatever a matcher does, following it by `false` fails the sequence |
| OnSpec.RevertsHalfMetMatcher | spec/matchers_spec.rb:366-378 | `on "post", false` gives back what "post" consumed: the catch-all sees the whole path |
| OnSpec.LoginFooResponse | spec/matchers_spec.rb:320-336 | on "/login", `on 'login', 'foo'` declines and the catch-all answers ":/login" |
| OnSpec.DoesNotMutateAfterReturn | spec/matchers_spec.rb:320-336 | calling the application on "/login" answers ":/login" and hands back SCRIPT_NAME "" and PATH_INFO "/login" |
| OnSpec.SkipsConsecutiveMatches | spec/matchers_spec.rb:338-350 | of two catch-alls, the first answers |
| OnSpec.FindsFirstMatchAvailable | spec/matchers_spec.rb:352-364 | `on false` is skipped and the next sibling answers |
| ParamSpec.YieldsParamOnlyIfGiven | spec/matchers_spec.rb:382-397 | the param is yielded exactly when the query has the key, "" for "email="; otherwise the fallback answers |
| PathMatchersSpec.OneLevelPath | spec/matchers_spec.rb:401-410 | `on "about"` answers exactly the paths that begin with "/about" as whole segments ("/abot" is 404) |
| PathMatchersSpec.LiteralRoute | spec/matchers_spec.rb:401-428 | a literal route halts exactly when the literal is the leading segment(s), and otherwise declines |
| PathMatchersSpec.TwoLevelNestedPaths | spec/matchers_spec.rb:412-428 | "/about/1" yields "+1", "/about/2" yields "+2", anything else under "/about" is 404 |
| PathMatchersSpec.CommonPrefix | spec/matchers_spec.rb:412-428 | a shared prefix does not change whether a literal leads |
| PathMatchersSpec.TwoLevelInlinedPaths | spec/matchers_spec.rb:430-439 | "a/b" matches two segments: "/a/b" yields "ab" |
| PathMatchersSpec.TwoLevelInlinedPathsMiss | spec/matchers_spec.rb:430-439 | "/a/d" is 404 |
| PathMatchersSpec.PrefixRunNone | spec/matchers_spec.rb:441-450 | `user(\d+)` fails when no digit follows "user" |
| PathMatchersSpec.PathWithRegexCaptures | spec/matchers_spec.rb:441-450 | "/user123" yields "123" |
| PathMatchersSpec.PathWithRegexCapturesMiss | spec/matchers_spec.rb:441-450 | "/useradf" is 404 |
| PathMatchersSpec.RootSegment | spec/matchers_spec.rb:452-461 | `""` leads exactly the paths whose first segment is empty |
| PathMatchersSpec.MatchingTheRoot | spec/matchers_spec.rb:452-461 | `on ""` answers "/" and any path whose first segment is empty; "/foo" is 404 |
| EmptySegmentSpec.RootOf | spec/matchers_spec.rb:465-490 | `""` on "/" + a boundary consumes the slash alone |
| EmptySegmentSpec.RootMiss | spec/matchers_spec.rb:465-490 | `""` fails on "/" followed by a non-empty segment |
| EmptySegmentSpec.MatchingAnEmptySegment | spec/matchers_spec.rb:465-474 | `on "" do r.path end` answers the whole path on "/" and is 404 on "/foo" |
| EmptySegmentSpec.OnNested3Halts | spec/matchers_spec.rb:476-490 | three nested levels that match in turn answer with the handler run on the state the third left |
| EmptySegmentSpec.OnNested3OuterFails | spec/matchers_spec.rb:476-490 | the outer level fails: 404 |
| EmptySegmentSpec.OnNested3SecondFails | spec/matchers_spec.rb:476-490 | the second level fails: 404 |
| EmptySegmentSpec.NestedEmptyLevels | spec/matchers_spec.rb:476-490 | `""`, `""` and "1" consume "/", "/" and "/1" in turn |
| EmptySegmentSpec.NestedEmptySegments | spec/matchers_spec.rb:476-490 | "///1" yields "///1" |
| EmptySegmentSpec.NestedEmptySegmentsOneSlash | spec/matchers_spec.rb:476-490 | "/1" is 404 |
| EmptySegmentSpec.NestedEmptySegmentsTwoSlashes | spec/matchers_spec.rb:476-490 | "//1" is 404 |
| EmptySegmentSpec.IsRouteStep | spec/matchers_spec.rb:492-512 | a bare `is` runs exactly when the path is used up |
| EmptySegmentSpec.HoorayFooRoutes | spec/matchers_spec.rb:492-512 | the inner application answers "Hooray" under an empty segment, "Foo" on the empty path, and otherwise declines |
| EmptySegmentSpec.EventsScenario | spec/matchers_spec.rb:492-512 | "/events" yields "Foo", "/events/" yields "Hooray", "/events/foo" is 404 |
| SegmentHandlingSpec.PostIdHalts | spec/matchers_spec.rb:516-524 | `on "post"` around `on :id` answers with the segment |
| SegmentHandlingSpec.SegmentHandling | spec/matchers_spec.rb:526-540 | a symbol yields the next whole segment, whatever its characters ("1", "1.1", slugs), and only the first of several |
| VerbSpec.VerbRouteStep | spec/matchers_spec.rb:543-557 | a verb operator without arguments runs exactly for its own verb |
| VerbSpec.RequestVerbMethods | spec/matchers_spec.rb:544-556 | a GET gets "g", a POST gets "p", any other verb is 404 |
| ExtensionSpec.StylesExtensionHalts | spec/matchers_spec.rb:560-571 | `on "styles"` around `on :extension => "css"` answers with the file name |
| ExtensionSpec.MatchesGivenFileExtensions | spec/matchers_spec.rb:560-571 | "/styles/reset.css" yields "reset" |
| ExtensionSpec.OtherExtension | spec/matchers_spec.rb:560-571 | a different extension of the same length does not match |
| ExtensionSpec.OtherFileExtensionsNotFound | spec/matchers_spec.rb:560-571 | "/styles/reset.bar" is 404 |

## Left out

- The test "consumes a slash if needed" (spec/matchers_spec.rb:70-78) is left out. A run of any character followed by literals, as in `.+\.css`, is in the token fragment and backtracks, but a capturing group holds a single run. The test needs one group that spans the run and the literal `.css`, so that "foo/bar.css" is yielded whole, and the model cannot express that.
- Regular expression features beyond the token fragment are not modelled: alternation, nested groups, other classes, lazy repetitions and anchors other than `\z`. A regexp is given to the model as tokens, not as Ruby source text.
- A matcher string that holds regexp syntax, such as "user(\\d+)" or "posts/(\\d+)-(.*)", is modelled by the `Regex` matcher with the same tokens. `Tokenize` only treats `:name` specially.
- A Ruby `nil` from an optional group that was not taken is modelled as "" (`Patterns.MatchFrom`).
- The query string, `rack.input` and `StringIO` are not parsed. The parsed query is given to the request as a map.
- `r.run` of a separate application (spec/matchers_spec.rb:492-512) is modelled as the inner application's routes, nested as a block.
- A handler's return value and its `response.write` calls are both modelled as the chunks it writes (`Piece`). Ruby string operations in handlers are limited to text, block arguments, their count, SCRIPT_NAME, PATH_INFO and `r.path`.
- The env hash the caller keeps (spec/matchers_spec.rb:320-336) is modelled by the SCRIPT_NAME and PATH_INFO that `Context.Call` returns. Ruby object identity (`equal`) is not modelled.
- The tests are stated for every path of the same shape. Their concrete literals ("about", "johndoe", "css") are instances of the parameters, not constants in the lemmas.
- Rack, the response headers, concurrency and I/O are not modelled. Roda's own implementation is not part of this model: the matcher semantics are built to match what the tests require.
