/**
 * The JavaScript string operations the dashboard relies on: `trim`, the `\s`
 * class of regular expressions, `startsWith`/`endsWith`, `includes`,
 * `toLowerCase` (restricted to ASCII letters) and `Array.prototype.join`.
 */
module JsStrings {

  /** ECMAScript WhiteSpace and LineTerminator code points: what `trim` removes and `\s` matches. */
  predicate IsWhitespace(c: char)
  {
    || c == '\t' || c == '\n' || c == '\U{B}' || c == '\U{C}' || c == '\r' || c == ' '
    || c == '\U{A0}' || c == '\U{1680}' || ('\U{2000}' <= c <= '\U{200A}')
    || c == '\U{2028}' || c == '\U{2029}' || c == '\U{202F}' || c == '\U{205F}'
    || c == '\U{3000}' || c == '\U{FEFF}'
  }

  predicate AllWhitespace(s: string)
  {
    forall i :: 0 <= i < |s| ==> IsWhitespace(s[i])
  }

  /** Neither end of `s` is whitespace: what `trim` returns. */
  predicate IsTrimmed(s: string)
  {
    s == [] || (!IsWhitespace(s[0]) && !IsWhitespace(s[|s| - 1]))
  }

  /** The first index at or after `k` that does not hold whitespace, or `|s|`. */
  function SkipWhitespace(s: string, k: nat): (j: nat)
    requires k <= |s|
    ensures k <= j <= |s|
    ensures forall i :: k <= i < j ==> IsWhitespace(s[i])
    ensures j == |s| || !IsWhitespace(s[j])
    decreases |s| - k
  {
    if k < |s| && IsWhitespace(s[k]) then SkipWhitespace(s, k + 1) else k
  }

  /** The last index at or before `k` that does not follow whitespace, or 0. */
  function SkipWhitespaceBack(s: string, k: nat): (j: nat)
    requires k <= |s|
    ensures j <= k
    ensures forall i :: j <= i < k ==> IsWhitespace(s[i])
    ensures j == 0 || !IsWhitespace(s[j - 1])
    decreases k
  {
    if k > 0 && IsWhitespace(s[k - 1]) then SkipWhitespaceBack(s, k - 1) else k
  }

  /** The scan stops exactly at the first non-whitespace index. */
  lemma SkipWhitespaceAt(s: string, k: nat, m: nat)
    requires k <= m <= |s|
    requires forall i :: k <= i < m ==> IsWhitespace(s[i])
    requires m == |s| || !IsWhitespace(s[m])
    ensures SkipWhitespace(s, k) == m
  {
  }

  /** The backward scan stops exactly after the last non-whitespace index. */
  lemma SkipWhitespaceBackAt(s: string, k: nat, m: nat)
    requires m <= k <= |s|
    requires forall i :: m <= i < k ==> IsWhitespace(s[i])
    requires m == 0 || !IsWhitespace(s[m - 1])
    ensures SkipWhitespaceBack(s, k) == m
  {
  }

  /** `s.trimStart()`: the suffix left after dropping leading whitespace. */
  function TrimStart(s: string): (r: string)
    ensures |r| <= |s| && r == s[|s| - |r|..]
    ensures AllWhitespace(s[..|s| - |r|])
    ensures r == [] || !IsWhitespace(r[0])
  {
    var j := SkipWhitespace(s, 0);
    assert forall i :: 0 <= i < j ==> s[..j][i] == s[i];
    s[j..]
  }

  /** `s.trimEnd()`: the prefix left after dropping trailing whitespace. */
  function TrimEnd(s: string): (r: string)
    ensures |r| <= |s| && r == s[..|r|]
    ensures AllWhitespace(s[|r|..])
    ensures r == [] || !IsWhitespace(r[|r| - 1])
  {
    var j := SkipWhitespaceBack(s, |s|);
    assert forall i :: 0 <= i < |s| - j ==> s[j..][i] == s[j + i];
    s[..j]
  }

  /** `s.trim()`. */
  function Trim(s: string): (r: string)
    ensures IsTrimmed(r)
    ensures |r| <= |s|
    ensures r == [] <==> AllWhitespace(s)
  {
    var t := TrimStart(s);
    var r := TrimEnd(t);
    AllWhitespaceSplit(s, |s| - |t|);
    assert t == s[|s| - |t|..];
    assert r == [] ==> t[|r|..] == t;
    assert r != [] ==> r[0] == t[0];
    r
  }

  /** A split string is all whitespace exactly when both parts are. */
  lemma AllWhitespaceSplit(s: string, k: nat)
    requires k <= |s|
    ensures AllWhitespace(s) <==> AllWhitespace(s[..k]) && AllWhitespace(s[k..])
  {
    if AllWhitespace(s[..k]) && AllWhitespace(s[k..]) {
      forall i | 0 <= i < |s| ensures IsWhitespace(s[i]) {
        if i < k { assert s[i] == s[..k][i]; } else { assert s[i] == s[k..][i - k]; }
      }
    }
  }

  lemma TrimStartPadded(lead: string, rest: string)
    requires AllWhitespace(lead)
    requires rest == [] || !IsWhitespace(rest[0])
    ensures TrimStart(lead + rest) == rest
  {
    var s := lead + rest;
    assert forall i :: 0 <= i < |lead| ==> s[i] == lead[i];
    assert |lead| < |s| ==> s[|lead|] == rest[0];
    SkipWhitespaceAt(s, 0, |lead|);
    assert s[|lead|..] == rest;
  }

  lemma TrimEndPadded(rest: string, trail: string)
    requires AllWhitespace(trail)
    requires rest == [] || !IsWhitespace(rest[|rest| - 1])
    ensures TrimEnd(rest + trail) == rest
  {
    var s := rest + trail;
    assert forall i :: |rest| <= i < |s| ==> s[i] == trail[i - |rest|];
    assert |rest| > 0 ==> s[|rest| - 1] == rest[|rest| - 1];
    SkipWhitespaceBackAt(s, |s|, |rest|);
    assert s[..|rest|] == rest;
  }

  /** `trim` removes exactly the whitespace padding around a trimmed core. */
  lemma TrimPadded(lead: string, core: string, trail: string)
    requires AllWhitespace(lead) && AllWhitespace(trail) && IsTrimmed(core)
    ensures Trim(lead + core + trail) == core
  {
    if core == [] {
      assert lead + core + trail == (lead + trail) + [];
      TrimStartPadded(lead + trail, []);
    } else {
      assert lead + core + trail == lead + (core + trail);
      TrimStartPadded(lead, core + trail);
      TrimEndPadded(core, trail);
    }
  }

  /** Text without whitespace at either end is left alone by `trim`. */
  lemma TrimOfTrimmed(t: string)
    requires IsTrimmed(t)
    ensures Trim(t) == t
  {
    if t != [] {
      assert TrimStart(t) == t;
      assert TrimEnd(t) == t;
    }
  }

  /** Trimming twice is trimming once. */
  lemma TrimIdempotent(s: string)
    ensures Trim(Trim(s)) == Trim(s)
  {
    TrimOfTrimmed(Trim(s));
  }

  predicate StartsWith(s: string, prefix: string)
  {
    |prefix| <= |s| && s[..|prefix|] == prefix
  }

  predicate EndsWith(s: string, suffix: string)
  {
    |suffix| <= |s| && s[|s| - |suffix|..] == suffix
  }

  /** `hay.includes(needle)`: `needle` occurs at some position of `hay`. */
  predicate Contains(hay: string, needle: string)
  {
    exists i :: 0 <= i <= |hay| && StartsWith(hay[i..], needle)
  }

  /** `toLowerCase` on one character, for the ASCII letters. */
  function LowerChar(c: char): char
  {
    if 'A' <= c <= 'Z' then (c as int + 32) as char else c
  }

  /** `s.toLowerCase()`, ASCII letters only. */
  function Lower(s: string): (r: string)
    ensures |r| == |s|
    ensures forall i :: 0 <= i < |s| ==> r[i] == LowerChar(s[i])
  {
    seq(|s|, i requires 0 <= i < |s| => LowerChar(s[i]))
  }

  /** An exact occurrence is also an occurrence once both sides are lowered. */
  lemma ContainsLowered(hay: string, needle: string)
    requires Contains(hay, needle)
    ensures Contains(Lower(hay), Lower(needle))
  {
    var i :| 0 <= i <= |hay| && StartsWith(hay[i..], needle);
    assert Lower(hay)[i..][..|needle|] == Lower(needle);
  }

  /** `xs.join(sep)`. */
  function Join(xs: seq<string>, sep: string): (r: string)
    ensures xs == [] ==> r == []
    ensures |xs| == 1 ==> r == xs[0]
    ensures forall i :: 0 <= i < |xs| ==> |xs[i]| <= |r|
  {
    if xs == [] then []
    else if |xs| == 1 then xs[0]
    else xs[0] + sep + Join(xs[1..], sep)
  }
}
