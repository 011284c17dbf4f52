/**
 * String predicates and functions with the meaning Python's `str` gives them:
 * `sub in s`, `s.startswith(p)` and `s.strip()`.
 */
module Text {

  /** `s.startswith(p)`. */
  predicate StartsWith(s: string, p: string) {
    |p| <= |s| && s[..|p|] == p
  }

  /** `sub in s` for two strings: `sub` occurs in `s` at some offset (the empty string occurs everywhere). */
  predicate Contains(s: string, sub: string) {
    exists i | 0 <= i <= |s| :: StartsWith(s[i..], sub)
  }

  /** Whatever contains `p + q` contains `p`: the occurrence of the longer pattern begins with one of the shorter. */
  lemma ContainsPrefixOfPattern(s: string, p: string, q: string)
    requires Contains(s, p + q)
    ensures Contains(s, p)
  {
  }

  /** The characters for which Python's `str.isspace()` is true. */
  predicate IsSpace(c: char) {
    ('\t' <= c <= '\r') || c == ' ' || ('\U{1c}' <= c <= '\U{1f}') || c == '\U{85}' || c == '\U{a0}'
    || c == '\U{1680}' || ('\U{2000}' <= c <= '\U{200a}') || c == '\U{2028}' || c == '\U{2029}'
    || c == '\U{202f}' || c == '\U{205f}' || c == '\U{3000}'
  }

  /** `s.lstrip()`: `s` without its leading whitespace. */
  function TrimStart(s: string): (r: string)
    ensures |r| <= |s| && r == s[|s| - |r|..]
    ensures r == [] || !IsSpace(r[0])
    ensures forall i | 0 <= i < |s| - |r| :: IsSpace(s[i])
  {
    if s != [] && IsSpace(s[0]) then TrimStart(s[1..]) else s
  }

  /** `s.rstrip()`: `s` without its trailing whitespace. */
  function TrimEnd(s: string): (r: string)
    ensures |r| <= |s| && r == s[..|r|]
    ensures r == [] || !IsSpace(r[|r| - 1])
    ensures forall i | |r| <= i < |s| :: IsSpace(s[i])
  {
    if s != [] && IsSpace(s[|s| - 1]) then TrimEnd(s[..|s| - 1]) else s
  }

  /** `s.strip()`. */
  function Strip(s: string): (r: string)
  {
    TrimEnd(TrimStart(s))
  }

  /**
   * `r` is what is left of `s` after removing `k` leading and some trailing
   * characters, all of them whitespace.
   */
  predicate RemovesOnlySpaceAround(s: string, r: string, k: int) {
    0 <= k && k + |r| <= |s| && s[k..k + |r|] == r &&
    (forall i | 0 <= i < k :: IsSpace(s[i])) &&
    (forall i | k + |r| <= i < |s| :: IsSpace(s[i]))
  }

  /** Everything `strip()` removes from either end is whitespace. */
  lemma StripRemovesOnlySpace(s: string)
    ensures RemovesOnlySpaceAround(s, Strip(s), |s| - |TrimStart(s)|)
  {
    var t := TrimStart(s);
    var k := |s| - |t|;
    assert t == s[k..];
    var r := TrimEnd(t);
    assert r == t[..|r|];
    assert s[k..k + |r|] == r;
    forall i | k + |r| <= i < |s| ensures IsSpace(s[i]) {
      assert s[i] == t[i - k];
    }
  }

  /**
   * What `strip()` keeps is a contiguous piece of the input with no whitespace at either end,
   * everything it removes is whitespace, and it keeps nothing exactly when the input is all whitespace.
   */
  lemma StripSpec(s: string)
    ensures exists k | 0 <= k <= |s| :: RemovesOnlySpaceAround(s, Strip(s), k)
    ensures Strip(s) == [] || (!IsSpace(Strip(s)[0]) && !IsSpace(Strip(s)[|Strip(s)| - 1]))
    ensures Strip(s) == [] <==> forall i | 0 <= i < |s| :: IsSpace(s[i])
  {
    var t := TrimStart(s);
    var r := TrimEnd(t);
    var k := |s| - |t|;
    StripRemovesOnlySpace(s);
    assert Strip(s) == r;
    if r != [] {
      assert r[0] == t[0];
    }
    if t != [] {
      assert !IsSpace(s[k]);
    }
  }
}
