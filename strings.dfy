/**
 * The JavaScript string operations the agent applies to a model reply:
 * `String.prototype.trim` and `String.prototype.replace` with a global
 * pattern that is a literal run of characters.  Strings are sequences of
 * characters; no encoding is involved.
 */
module Strings {
  import opened Wrappers

  /** The characters `trim` strips and `\s` matches: ECMAScript's WhiteSpace
      and LineTerminator productions. */
  predicate IsWhitespace(c: char) {
    || c == '\t' || c == '\n' || c == '\U{000B}' || c == '\U{000C}' || c == '\r'
    || c == ' ' || c == '\U{00A0}' || c == '\U{1680}'
    || ('\U{2000}' <= c <= '\U{200A}')
    || c == '\U{2028}' || c == '\U{2029}' || c == '\U{202F}' || c == '\U{205F}'
    || c == '\U{3000}' || c == '\U{FEFF}'
  }

  predicate AllWhitespace(s: string) {
    forall k :: 0 <= k < |s| ==> IsWhitespace(s[k])
  }

  /** Neither end of `s` is whitespace. */
  predicate IsTrimmed(s: string) {
    s == [] || (!IsWhitespace(s[0]) && !IsWhitespace(s[|s| - 1]))
  }

  /** The number of whitespace characters at the front of `s`. */
  function LeadingWhitespace(s: string): (n: nat)
    ensures n <= |s| && AllWhitespace(s[..n])
    ensures n < |s| ==> !IsWhitespace(s[n])
  {
    if s != [] && IsWhitespace(s[0]) then 1 + LeadingWhitespace(s[1..]) else 0
  }

  /** `String.prototype.trim`: drops the whitespace at both ends of `s`.
      What is left is `s` from its first non-whitespace character on, with
      only whitespace after it. */
  function Trim(s: string): (r: string)
    ensures IsTrimmed(r)
    ensures WhitespaceAround(s, LeadingWhitespace(s), r)
    decreases |s|
  {
    if s != [] && IsWhitespace(s[0]) then
      var r := Trim(s[1..]);
      AroundFront(s, LeadingWhitespace(s[1..]), r);
      r
    else if s != [] && IsWhitespace(s[|s| - 1]) then
      var r := Trim(s[..|s| - 1]);
      assert s[..|s| - 1][0] == s[0];
      AroundBack(s, LeadingWhitespace(s[..|s| - 1]), r);
      r
    else
      s
  }

  /** Whitespace before the front of `s[1..]` stays whitespace around `r`. */
  lemma AroundFront(s: string, k: int, r: string)
    requires s != [] && IsWhitespace(s[0]) && WhitespaceAround(s[1..], k, r)
    ensures WhitespaceAround(s, k + 1, r)
  {
    assert s[1..][k..k + |r|] == s[k + 1..k + 1 + |r|];
    assert s[1..][k + |r|..] == s[k + 1 + |r|..];
    assert s[..k + 1] == [s[0]] + s[1..][..k];
  }

  /** Whitespace after the end of `s[..|s| - 1]` stays whitespace around `r`. */
  lemma AroundBack(s: string, k: int, r: string)
    requires s != [] && IsWhitespace(s[|s| - 1]) && WhitespaceAround(s[..|s| - 1], k, r)
    ensures WhitespaceAround(s, k, r)
  {
    var t := s[..|s| - 1];
    assert t[k..k + |r|] == s[k..k + |r|];
    assert t[..k] == s[..k];
    assert s[k + |r|..] == t[k + |r|..] + [s[|s| - 1]];
  }

  /** `s` is `r` with only whitespace added before (`i` characters) and after it. */
  predicate WhitespaceAround(s: string, i: int, r: string) {
    0 <= i <= |s| - |r| && r == s[i..i + |r|] && AllWhitespace(s[..i]) && AllWhitespace(s[i + |r|..])
  }

  lemma TrimOfTrimmed(s: string)
    requires IsTrimmed(s)
    ensures Trim(s) == s
  {
  }

  /** `p` is a prefix of `s`. */
  predicate StartsWith(s: string, p: string) {
    |p| <= |s| && s[..|p|] == p
  }

  /** The `|p|` characters of `s` from index `i` on spell `p`. */
  predicate OccursAt(s: string, p: string, i: int) {
    0 <= i && i + |p| <= |s| && s[i..i + |p|] == p
  }

  /** `p` occurs in `s` as a run of consecutive characters. */
  predicate Contains(s: string, p: string) {
    StartsWith(s, p) || (s != [] && Contains(s[1..], p))
  }

  /** The first index at or after `from` where `p` occurs. */
  function IndexOf(s: string, p: string, from: nat): (r: Option<nat>)
    ensures r.Some? ==> from <= r.value && OccursAt(s, p, r.value)
                        && forall j :: from <= j < r.value ==> !OccursAt(s, p, j)
    ensures r.None? ==> forall j :: from <= j ==> !OccursAt(s, p, j)
    decreases |s| - from
  {
    if from + |p| > |s| then None
    else if OccursAt(s, p, from) then Some(from)
    else IndexOf(s, p, from + 1)
  }

  /** Contains agrees with the reading "at some index `i` the next `|p|`
      characters of `s` spell `p`". */
  lemma {:induction false} ContainsAt(s: string, p: string)
    ensures Contains(s, p) <==> exists i :: OccursAt(s, p, i)
  {
    if StartsWith(s, p) {
      assert OccursAt(s, p, 0);
    }
    if s != [] {
      ContainsAt(s[1..], p);
      if Contains(s[1..], p) {
        var i :| OccursAt(s[1..], p, i);
        assert s[i + 1..i + 1 + |p|] == p;
        assert OccursAt(s, p, i + 1);
      }
      if i :| OccursAt(s, p, i) {
        if i > 0 {
          assert s[1..][i - 1..i - 1 + |p|] == p;
          assert OccursAt(s[1..], p, i - 1);
        } else {
          assert StartsWith(s, p);
        }
      }
    } else {
      if i :| OccursAt(s, p, i) {
        assert s[..|p|] == p;
      }
    }
  }

  /** A run taken from a slice is the run of the whole at the shifted index. */
  lemma SliceOfSlice(s: string, i: nat, j: nat, k: nat, n: nat)
    requires i <= j <= |s| && k + n <= j - i
    ensures s[i..j][k..k + n] == s[i + k..i + k + n]
  {
    var a, b := s[i..j][k..k + n], s[i + k..i + k + n];
    assert |a| == |b| == n;
    forall m | 0 <= m < n
      ensures a[m] == b[m]
    {
      assert a[m] == s[i..j][k + m];
    }
  }

  /** An occurrence in a slice is an occurrence in the whole, shifted. */
  lemma OccursInSlice(s: string, i: nat, j: nat, p: string, k: int)
    requires i <= j <= |s|
    ensures OccursAt(s[i..j], p, k) <==> 0 <= k && k + |p| <= j - i && OccursAt(s, p, i + k)
  {
    if 0 <= k && k + |p| <= j - i {
      SliceOfSlice(s, i, j, k, |p|);
    }
  }

  /** An occurrence inside a slice of `s` is an occurrence in `s`. */
  lemma ContainsInSlice(s: string, i: nat, j: nat, p: string)
    requires i <= j <= |s|
    requires Contains(s[i..j], p)
    ensures Contains(s, p)
  {
    ContainsAt(s[i..j], p);
    var k :| OccursAt(s[i..j], p, k);
    assert k + |p| <= j - i;
    var inSlice, inWhole := s[i..j][k..k + |p|], s[i + k..i + k + |p|];
    assert forall m :: 0 <= m < |p| ==> inSlice[m] == inWhole[m];
    assert OccursAt(s, p, i + k);
    ContainsAt(s, p);
  }

  /** Whatever trim leaves contains only runs the input already had. */
  lemma TrimAddsNoRun(s: string, p: string)
    requires !Contains(s, p)
    ensures !Contains(Trim(s), p)
  {
    var r := Trim(s);
    var i := LeadingWhitespace(s);
    if Contains(r, p) {
      ContainsInSlice(s, i, i + |r|, p);
    }
  }

  /** `replace` with a global literal pattern `p` and an empty replacement:
      scanning left to right, every occurrence of `p` that does not overlap
      an earlier removed one is deleted. */
  function RemoveAll(s: string, p: string): (r: string)
    requires p != []
    ensures IsSubsequence(r, s)
    ensures !Contains(s, p) ==> r == s
    decreases |s|
  {
    if StartsWith(s, p) then
      var r := RemoveAll(s[|p|..], p);
      SubsequenceOfSuffix(r, s, |p|);
      r
    else if s == [] then
      []
    else
      [s[0]] + RemoveAll(s[1..], p)
  }

  /** `a` is obtained from `b` by deleting characters. */
  predicate IsSubsequence(a: string, b: string) {
    a == [] || (b != [] && (IsSubsequence(a, b[1..]) || (a[0] == b[0] && IsSubsequence(a[1..], b[1..]))))
  }

  lemma {:induction false} SubsequenceOfSuffix(a: string, b: string, k: nat)
    requires k <= |b| && IsSubsequence(a, b[k..])
    ensures IsSubsequence(a, b)
  {
    if k > 0 {
      assert b[1..][k - 1..] == b[k..];
      SubsequenceOfSuffix(a, b[1..], k - 1);
    }
  }

  lemma {:induction false} SubsequenceOfPrefix(b: string, k: nat)
    requires k <= |b|
    ensures IsSubsequence(b[..k], b)
  {
    if k > 0 {
      assert b[..k][1..] == b[1..][..k - 1];
      SubsequenceOfPrefix(b[1..], k - 1);
    }
  }

  /** Deleting characters twice is deleting characters. */
  lemma {:induction false} SubsequenceTrans(a: string, b: string, c: string)
    requires IsSubsequence(a, b) && IsSubsequence(b, c)
    ensures IsSubsequence(a, c)
    decreases |c|
  {
    if a != [] {
      if IsSubsequence(b, c[1..]) {
        SubsequenceTrans(a, b, c[1..]);
      } else if IsSubsequence(a, b[1..]) {
        SubsequenceTrans(a, b[1..], c[1..]);
      } else {
        SubsequenceTrans(a[1..], b[1..], c[1..]);
      }
    }
  }

  /** Trim only deletes characters. */
  lemma TrimIsSubsequence(s: string)
    ensures IsSubsequence(Trim(s), s)
  {
    var r := Trim(s);
    var i := LeadingWhitespace(s);
    assert r == s[i..][..|r|];
    SubsequenceOfPrefix(s[i..], |r|);
    SubsequenceOfSuffix(r, s, i);
  }

  /** A run of three backticks, the Markdown code fence. */
  const Fence: string := "```"

  /** Removing every fence leaves none behind: a run of k backticks shrinks
      to k mod 3 of them, and the characters kept between runs still
      separate them. */
  lemma {:induction false} NoFenceAfterRemoval(s: string)
    ensures !Contains(RemoveAll(s, Fence), Fence)
    decreases |s|
  {
    if StartsWith(s, Fence) {
      NoFenceAfterRemoval(s[|Fence|..]);
    } else if s != [] {
      var rest := RemoveAll(s[1..], Fence);
      NoFenceAfterRemoval(s[1..]);
      var r := [s[0]] + rest;
      assert r[1..] == rest;
    }
  }

  /** Every occurrence of a longer pattern starts with an occurrence of its prefix. */
  lemma {:induction false} ContainsPrefixOfPattern(s: string, p: string, q: string)
    requires Contains(s, p + q)
    ensures Contains(s, p)
  {
    if StartsWith(s, p + q) {
      assert (p + q)[..|p|] == p;
    } else {
      ContainsPrefixOfPattern(s[1..], p, q);
    }
  }
}
