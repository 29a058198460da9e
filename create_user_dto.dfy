/**
 * The validation decorators of the user-creation body: name, username and
 * password strings, the email accepted by the (abstract) email-syntax check,
 * and the password at least 8 characters long and matched ANYWHERE by the
 * unanchored pattern `(?=.*[A-Za-z])(?=.*\d)(?=.*[@$!%*?&])[A-Za-z\d@$!%*?&]`.
 */
module CreateUserValidation {
  import opened Js
  import opened Patterns
  import SignupValidation

  const MinPasswordLength := 8

  /** The creation body as received. */
  datatype CreateUserBody = CreateUserBody(name: JsValue, email: JsValue, username: JsValue, password: JsValue)

  /** The special characters of this rule: the signup set without `#`. */
  predicate IsSpecial(c: char) { c in "@$!%*?&" }

  predicate IsAllowed(c: char) { IsAsciiLetter(c) || IsDigit(c) || IsSpecial(c) }

  /** The pattern matches at position i: three lookaheads there, then one allowed character. */
  predicate MatchesAt(s: string, i: nat)
    requires i < |s|
  {
    && LookaheadFinds(s, i, IsAsciiLetter)
    && LookaheadFinds(s, i, IsDigit)
    && LookaheadFinds(s, i, IsSpecial)
    && IsAllowed(s[i])
  }

  /** An unanchored pattern is tried at every position. */
  predicate MatchesPasswordPattern(s: string)
  {
    exists i :: 0 <= i < |s| && MatchesAt(s, i)
  }

  /** `@MinLength(8)` together with `@Matches(...)`. */
  predicate ValidPassword(s: string)
    ensures ValidPassword(s) ==> |s| >= MinPasswordLength
    ensures ValidPassword(s) ==> Contains(s, IsAsciiLetter) && Contains(s, IsDigit) && Contains(s, IsSpecial)
  {
    |s| >= MinPasswordLength && MatchesPasswordPattern(s)
  }

  /** All decorators of the body pass; `isEmail` stands for the library's email-syntax check. */
  predicate Valid(body: CreateUserBody, isEmail: string -> bool)
    ensures Valid(body, isEmail) ==> body.name.Str? && body.username.Str? && body.password.Str?
    ensures Valid(body, isEmail) ==> |body.password.s| >= MinPasswordLength
  {
    && body.name.Str?
    && body.email.Str? && isEmail(body.email.s)
    && body.username.Str?
    && body.password.Str? && ValidPassword(body.password.s)
  }

  /** Whenever the pattern matches, the string holds a letter, a digit and one of `@$!%*?&`. */
  lemma MatchImpliesContains(s: string)
    requires MatchesPasswordPattern(s)
    ensures Contains(s, IsAsciiLetter) && Contains(s, IsDigit) && Contains(s, IsSpecial)
  {
    var i :| 0 <= i < |s| && MatchesAt(s, i);
    var a :| i <= a < |s| && IsAsciiLetter(s[a]) && NoLineTerminator(s, i, a);
    var b :| i <= b < |s| && IsDigit(s[b]) && NoLineTerminator(s, i, b);
    var c :| i <= c < |s| && IsSpecial(s[c]) && NoLineTerminator(s, i, c);
  }

  /**
   * On a single-line string the pattern matches exactly when the string holds a
   * letter, a digit and one of `@$!%*?&`, wherever they are: it matches at the
   * earliest of the three.
   */
  lemma PatternIffContains(s: string)
    requires NoLineTerminator(s, 0, |s|)
    ensures MatchesPasswordPattern(s) <==>
      Contains(s, IsAsciiLetter) && Contains(s, IsDigit) && Contains(s, IsSpecial)
  {
    if Contains(s, IsAsciiLetter) && Contains(s, IsDigit) && Contains(s, IsSpecial) {
      var a :| 0 <= a < |s| && IsAsciiLetter(s[a]);
      var b :| 0 <= b < |s| && IsDigit(s[b]);
      var c :| 0 <= c < |s| && IsSpecial(s[c]);
      var i := if a <= b && a <= c then a else if b <= c then b else c;
      LookaheadWithoutTerminators(s, i, IsAsciiLetter);
      LookaheadWithoutTerminators(s, i, IsDigit);
      LookaheadWithoutTerminators(s, i, IsSpecial);
      assert MatchesAt(s, i);
    } else if MatchesPasswordPattern(s) {
      MatchImpliesContains(s);
    }
  }

  /**
   * `.` stops at a line terminator, so a multi-line password holding all three
   * classes, none of whose lines reaches all three, is rejected.
   */
  lemma MultiLineRejected()
    ensures var s := "aaaa\n1\n@";
      |s| >= MinPasswordLength &&
      Contains(s, IsAsciiLetter) && Contains(s, IsDigit) && Contains(s, IsSpecial) &&
      !ValidPassword(s)
  {
    var s := "aaaa\n1\n@";
    assert IsAsciiLetter(s[0]) && IsDigit(s[5]) && IsSpecial(s[7]);
    forall i | 0 <= i < |s|
      ensures !MatchesAt(s, i)
    {
      if i < 5 {
        // the only digit is at 5, past the line terminator at 4
        forall j | i <= j < |s| && IsDigit(s[j])
          ensures !NoLineTerminator(s, i, j)
        {
          assert j == 5 && IsLineTerminator(s[4]);
        }
      } else {
        // no letter at or after 5
        assert forall j :: i <= j < |s| ==> !IsAsciiLetter(s[j]);
      }
    }
  }

  /** Characters outside the allowed class may appear: "ab c1@xyz" is accepted. */
  lemma OutsideCharactersAccepted()
    ensures ValidPassword("ab c1@xyz") && !SignupValidation.ValidPassword("ab c1@xyz")
  {
    var s := "ab c1@xyz";
    assert LookaheadFinds(s, 4, IsAsciiLetter) by { assert IsAsciiLetter(s[6]) && NoLineTerminator(s, 4, 6); }
    assert LookaheadFinds(s, 4, IsDigit) by { assert IsDigit(s[4]) && NoLineTerminator(s, 4, 4); }
    assert LookaheadFinds(s, 4, IsSpecial) by { assert IsSpecial(s[5]) && NoLineTerminator(s, 4, 5); }
    assert MatchesAt(s, 4);
    assert !SignupValidation.IsAllowed(s[2]);
  }

  /** `#` is not special here: "Passw0rd#" is rejected although the signup rule accepts it. */
  lemma HashIsNotSpecial()
    ensures !ValidPassword("Passw0rd#") && SignupValidation.ValidPassword("Passw0rd#")
  {
    var s := "Passw0rd#";
    assert forall k :: 0 <= k < |s| ==> !IsSpecial(s[k]);
    assert !Contains(s, IsSpecial);
    if MatchesPasswordPattern(s) {
      MatchImpliesContains(s);
    }
    assert SignupValidation.IsSpecial(s[8]) && NoLineTerminator(s, 0, 8);
    assert IsAsciiLetter(s[0]) && NoLineTerminator(s, 0, 0);
    assert IsDigit(s[5]) && NoLineTerminator(s, 0, 5);
  }

  /** The documented example value is accepted. */
  lemma ExampleAccepted()
    ensures ValidPassword("P@ssw0rd")
  {
    var s := "P@ssw0rd";
    assert IsAsciiLetter(s[0]) && NoLineTerminator(s, 0, 0);
    assert IsSpecial(s[1]) && NoLineTerminator(s, 0, 1);
    assert IsDigit(s[5]) && NoLineTerminator(s, 0, 5);
    assert MatchesAt(s, 0);
  }
}
