/**
 * Character classes and path-boundary helpers shared by every path matcher.
 * Classes follow Ruby's ASCII definitions: `\d` is [0-9], `\w` is
 * [a-zA-Z0-9_], `[^\/]` is anything but a slash and `.` anything but a newline.
 */
module Paths {

  datatype CharClass = NonSlash | Digit | Word | AnyChar

  predicate IsDigit(c: char) { '0' <= c <= '9' }

  predicate IsWordChar(c: char) {
    ('a' <= c <= 'z') || ('A' <= c <= 'Z') || IsDigit(c) || c == '_'
  }

  predicate InClass(cls: CharClass, c: char) {
    match cls
    case NonSlash => c != '/'
    case Digit => IsDigit(c)
    case Word => IsWordChar(c)
    case AnyChar => c != '\n'
  }

  /** The end of the longest run of `cls` characters of `s` starting at `i`. */
  function RunEnd(cls: CharClass, s: string, i: nat): (r: nat)
    requires i <= |s|
    ensures i <= r <= |s|
    ensures forall k :: i <= k < r ==> InClass(cls, s[k])
    ensures r == |s| || !InClass(cls, s[r])
    decreases |s| - i
  {
    if i == |s| || !InClass(cls, s[i]) then i else RunEnd(cls, s, i + 1)
  }

  /** A matched prefix may only end at a `/` or at the end of the path. */
  predicate AtBoundary(s: string, i: nat) {
    i == |s| || (i < |s| && s[i] == '/')
  }

  predicate StartsAt(s: string, i: nat, t: string) {
    i + |t| <= |s| && s[i..i + |t|] == t
  }

  // Sequence facts used by the matcher proofs.  They model nothing of their
  // own; each is a separate lemma so that it is proved once, on its own,
  // rather than again inside every matcher proof that needs it.

  /** Dropping `i` and then `j` characters drops `i + j`; the two prefixes join up. */
  lemma SliceOfSlice(p: string, i: nat, j: nat)
    requires i + j <= |p|
    ensures p[i..][j..] == p[i + j..]
    ensures p[..i] + p[i..][..j] == p[..i + j]
  {
    assert forall k :: 0 <= k < |p| - i - j ==> p[i..][j..][k] == p[i + j + k];
    assert forall k :: 0 <= k < i + j ==> (p[..i] + p[i..][..j])[k] == p[k];
  }

  lemma SplitConcat(x: string, y: string)
    ensures (x + y)[..|x|] == x && (x + y)[|x|..] == y
  {
  }

  lemma SlashCons(t: string)
    ensures ("/" + t)[0] == '/' && ("/" + t)[1..] == t
  {
  }

  lemma StartsAtZero(p: string, x: string)
    requires StartsAt(p, 0, x)
    ensures p[..|x|] == x
  {
    assert p[..|x|] == p[0..|x|];
  }

  lemma AppendAssoc(a: string, b: string, c: string)
    ensures a + b + c == a + (b + c)
  {
  }

  function Join(chunks: seq<string>): string {
    if chunks == [] then "" else chunks[0] + Join(chunks[1..])
  }

  function DigitChar(d: nat): char
    requires d < 10
  {
    ('0' as int + d) as char
  }

  /** Ruby's Integer#to_s for a non-negative integer: its decimal digits, most significant first. */
  function DecimalString(n: nat): (r: string)
    ensures |r| >= 1
    ensures forall k :: 0 <= k < |r| ==> IsDigit(r[k])
    decreases n
  {
    if n < 10 then [DigitChar(n)] else DecimalString(n / 10) + [DigitChar(n % 10)]
  }

  /** The number a string of decimal digits spells (Ruby's String#to_i on digits). */
  function DecimalValue(s: string): nat
    requires forall k :: 0 <= k < |s| ==> IsDigit(s[k])
  {
    if s == [] then 0
    else
      assert IsDigit(s[|s| - 1]);
      DecimalValue(s[..|s| - 1]) * 10 + (s[|s| - 1] as int - '0' as int)
  }

  /** Round trip: reading back the digits `DecimalString` writes gives the number. */
  lemma {:induction false} DecimalRoundTrip(n: nat)
    ensures DecimalValue(DecimalString(n)) == n
    decreases n
  {
    var r := DecimalString(n);
    if n < 10 {
      assert r[..0] == [];
    } else {
      DecimalRoundTrip(n / 10);
      assert r[..|r| - 1] == DecimalString(n / 10);
    }
  }
}
