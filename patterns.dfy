/**
 * The pieces of JavaScript regular-expression semantics the password rules use
 * (no flags): ASCII character classes, `\d` as `[0-9]`, and the lookahead
 * `(?=.*C)`, whose `.` matches any character except a line terminator.
 */
module Patterns {

  predicate IsAsciiLetter(c: char) { 'A' <= c <= 'Z' || 'a' <= c <= 'z' }

  predicate IsDigit(c: char) { '0' <= c <= '9' }

  /** The characters `.` does not match without the `s` flag. */
  predicate IsLineTerminator(c: char)
  {
    c == '\n' || c == '\r' || c == '\U{2028}' || c == '\U{2029}'
  }

  /** No line terminator among s[i..j]. */
  predicate NoLineTerminator(s: string, i: nat, j: nat)
    requires i <= j <= |s|
  {
    forall k :: i <= k < j ==> !IsLineTerminator(s[k])
  }

  /** `(?=.*C)` tried at position i: some later character of class C is reachable by `.*`. */
  predicate LookaheadFinds(s: string, i: nat, cls: char -> bool)
  {
    exists j :: i <= j < |s| && cls(s[j]) && NoLineTerminator(s, i, j)
  }

  /** Some character of s is in class C. */
  predicate Contains(s: string, cls: char -> bool)
  {
    exists k :: 0 <= k < |s| && cls(s[k])
  }

  /** Without line terminators in s, a lookahead at i finds C exactly when C occurs at or after i. */
  lemma LookaheadWithoutTerminators(s: string, i: nat, cls: char -> bool)
    requires NoLineTerminator(s, 0, |s|)
    ensures LookaheadFinds(s, i, cls) <==> exists j :: i <= j < |s| && cls(s[j])
  {
    if j :| i <= j < |s| && cls(s[j]) {
      assert NoLineTerminator(s, i, j);
    }
  }

  /** A lookahead from the start succeeds exactly when C occurs before the first line terminator. */
  lemma LookaheadFromStart(s: string, cls: char -> bool)
    requires NoLineTerminator(s, 0, |s|)
    ensures LookaheadFinds(s, 0, cls) <==> Contains(s, cls)
  {
    LookaheadWithoutTerminators(s, 0, cls);
  }
}
