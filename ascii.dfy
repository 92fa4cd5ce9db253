/**
 * Lower-casing restricted to the ASCII letters. The only non-ASCII characters
 * that Go's `strings.ToLower` or JavaScript's `toLowerCase` turn into ASCII
 * letters become `i` or `k` (U+0130, the Kelvin sign U+212A). None of the
 * names the core compares against (`lpush`, `rpush`, `lpop`, `rpop`,
 * `lrange`, `clear`) holds either letter, so ASCII lowering decides every
 * such comparison exactly as the source does.
 */
module Ascii {

  /** Lower-casing of one character; only A–Z change. */
  function LowerChar(c: char): char {
    if 'A' <= c <= 'Z' then (c as int + 32) as char else c
  }

  /** Lower-case every ASCII letter of `s`; all other characters are kept. */
  function ToLower(s: string): (r: string)
    ensures |r| == |s|
    ensures forall i :: 0 <= i < |s| ==> r[i] == LowerChar(s[i])
    ensures forall i :: 0 <= i < |r| ==> !('A' <= r[i] <= 'Z')
    ensures forall i :: 0 <= i < |s| ==> r[i] == s[i] || ('A' <= s[i] <= 'Z' && r[i] as int == s[i] as int + 32)
  {
    seq(|s|, i requires 0 <= i < |s| => LowerChar(s[i]))
  }

  /** A name made of lower-case ASCII letters only. */
  predicate IsLowerName(n: string) {
    forall i :: 0 <= i < |n| ==> 'a' <= n[i] <= 'z'
  }

  /**
   * Comparing the lowered text with such a name accepts exactly the spellings
   * that differ from it in the case of some letters.
   */
  lemma ToLowerMatchesName(s: string, n: string)
    requires IsLowerName(n)
    ensures ToLower(s) == n <==>
      |s| == |n| && forall i :: 0 <= i < |s| ==> s[i] == n[i] || s[i] as int == n[i] as int - 32
  {
    if |s| == |n| && forall i :: 0 <= i < |s| ==> s[i] == n[i] || s[i] as int == n[i] as int - 32 {
      assert forall i :: 0 <= i < |s| ==> ToLower(s)[i] == n[i];
    }
  }
}
