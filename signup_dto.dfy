/**
 * The validation decorators of the signup request body: every field a string,
 * the email accepted by the (abstract) email-syntax check, and the password at
 * least 8 characters long and matched by the anchored pattern
 * `^(?=.*[A-Za-z])(?=.*\d)(?=.*[@$!%*#?&])[A-Za-z\d@$!%*#?&]{8,}$`.
 */
module SignupValidation {
  import opened Js
  import opened Patterns

  const MinPasswordLength := 8

  /** The signup body after validation. */
  datatype SignupDto = SignupDto(name: string, email: string, password: string)

  /** The signup body as received: any JSON value in each field. */
  datatype SignupBody = SignupBody(name: JsValue, email: JsValue, password: JsValue)

  predicate IsSpecial(c: char) { c in "@$!%*#?&" }

  predicate IsAllowed(c: char) { IsAsciiLetter(c) || IsDigit(c) || IsSpecial(c) }

  /** The anchored pattern: three lookaheads at position 0, then 8 or more allowed characters up to the end. */
  predicate MatchesPasswordPattern(s: string)
  {
    && LookaheadFinds(s, 0, IsAsciiLetter)
    && LookaheadFinds(s, 0, IsDigit)
    && LookaheadFinds(s, 0, IsSpecial)
    && |s| >= 8
    && forall k :: 0 <= k < |s| ==> IsAllowed(s[k])
  }

  /** `@MinLength(8)` together with `@Matches(...)`. */
  predicate ValidPassword(s: string)
    ensures ValidPassword(s) ==> |s| >= MinPasswordLength && forall k :: 0 <= k < |s| ==> IsAllowed(s[k])
  {
    |s| >= MinPasswordLength && MatchesPasswordPattern(s)
  }

  /** All decorators of the body pass; `isEmail` stands for the library's email-syntax check. */
  predicate Valid(body: SignupBody, isEmail: string -> bool)
    ensures Valid(body, isEmail) ==> body.name.Str? && body.email.Str? && isEmail(body.email.s)
    ensures Valid(body, isEmail) ==> body.password.Str? && |body.password.s| >= MinPasswordLength
  {
    && body.name.Str?
    && body.email.Str? && isEmail(body.email.s)
    && body.password.Str? && ValidPassword(body.password.s)
  }

  lemma AllowedHasNoLineTerminator(s: string)
    requires forall k :: 0 <= k < |s| ==> IsAllowed(s[k])
    ensures NoLineTerminator(s, 0, |s|)
  {
  }

  /**
   * The password rule is exactly: at least 8 characters, a letter, a digit and
   * one of `@$!%*#?&` somewhere, and nothing outside `A-Za-z0-9@$!%*#?&`.
   */
  lemma PasswordRules(s: string)
    ensures ValidPassword(s) <==>
      && |s| >= 8
      && Contains(s, IsAsciiLetter)
      && Contains(s, IsDigit)
      && Contains(s, IsSpecial)
      && forall k :: 0 <= k < |s| ==> IsAllowed(s[k])
  {
    if forall k :: 0 <= k < |s| ==> IsAllowed(s[k]) {
      AllowedHasNoLineTerminator(s);
      LookaheadFromStart(s, IsAsciiLetter);
      LookaheadFromStart(s, IsDigit);
      LookaheadFromStart(s, IsSpecial);
    }
  }

  /** A space or an underscore anywhere rejects the password, whatever else it holds. */
  lemma SpaceOrUnderscoreRejected(s: string, k: nat)
    requires k < |s| && (s[k] == ' ' || s[k] == '_')
    ensures !ValidPassword(s)
  {
    assert !IsAllowed(s[k]);
  }

  /** The anchored `{8,}` already implies the separate `@MinLength(8)`. */
  lemma PatternImpliesMinLength(s: string)
    requires MatchesPasswordPattern(s)
    ensures |s| >= MinPasswordLength
  {
  }

  /** The documented example value is accepted. */
  lemma ExampleAccepted()
    ensures ValidPassword("P@ssw0rd!")
  {
    var s := "P@ssw0rd!";
    assert IsAsciiLetter(s[0]) && NoLineTerminator(s, 0, 0);
    assert IsSpecial(s[1]) && NoLineTerminator(s, 0, 1);
    assert IsDigit(s[5]) && NoLineTerminator(s, 0, 5);
  }
}
