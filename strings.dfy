/**
 * The few JavaScript string operations the egress filter relies on, restricted to ASCII.
 * Hostnames produced by the WHATWG URL parser for `http:` and `https:` URLs are ASCII
 * (international names are converted to punycode), so ASCII case mapping is exact there.
 */
module Strings {

  predicate IsUpper(c: char) { 'A' <= c <= 'Z' }

  predicate IsLower(c: char) { 'a' <= c <= 'z' }

  /** `String.prototype.toLowerCase` on one ASCII character. */
  function LowerChar(c: char): (r: char)
    ensures !IsUpper(r)
    ensures IsUpper(c) || r == c
  {
    if IsUpper(c) then (c as int + 32) as char else c
  }

  /** `String.prototype.toUpperCase` on one ASCII character. */
  function UpperChar(c: char): (r: char)
    ensures !IsLower(r)
    ensures IsLower(c) || r == c
  {
    if IsLower(c) then (c as int - 32) as char else c
  }

  /** `s.toLowerCase()`, character by character. */
  function ToLower(s: string): (r: string)
    ensures |r| == |s|
  {
    if s == [] then [] else [LowerChar(s[0])] + ToLower(s[1..])
  }

  /** `s.toUpperCase()`, character by character. */
  function ToUpper(s: string): (r: string)
    ensures |r| == |s|
  {
    if s == [] then [] else [UpperChar(s[0])] + ToUpper(s[1..])
  }

  /** No upper-case letter anywhere in `s`. */
  predicate IsLowerCase(s: string) {
    forall i | 0 <= i < |s| :: !IsUpper(s[i])
  }

  /** The `i`-th character of `ToLower(s)` is the lowered `i`-th character of `s`. */
  lemma {:induction false} ToLowerAt(s: string, i: nat)
    requires i < |s|
    ensures ToLower(s)[i] == LowerChar(s[i])
  {
    if i > 0 {
      ToLowerAt(s[1..], i - 1);
    }
  }

  /** Lowering leaves no upper-case letter behind. */
  lemma ToLowerIsLowerCase(s: string)
    ensures IsLowerCase(ToLower(s))
  {
    forall i | 0 <= i < |s| ensures !IsUpper(ToLower(s)[i]) {
      ToLowerAt(s, i);
    }
  }

  /** Lowering a string that has no upper-case letter gives it back. */
  lemma {:induction false} ToLowerOfLowerCase(s: string)
    requires IsLowerCase(s)
    ensures ToLower(s) == s
  {
    if s != [] {
      assert !IsUpper(s[0]);
      ToLowerOfLowerCase(s[1..]);
    }
  }

  /** Upper-casing first makes no difference to the lower-cased result. */
  lemma {:induction false} ToLowerOfToUpper(s: string)
    ensures ToLower(ToUpper(s)) == ToLower(s)
  {
    if s != [] {
      ToLowerOfToUpper(s[1..]);
    }
  }
}
