/**
 * The validation decorators of the login request body: the email accepted by
 * the (abstract) email-syntax check and the password a string of at least 8
 * characters, with no character-class rule.
 */
module LoginValidation {
  import opened Js
  import opened Patterns
  import SignupValidation

  const MinPasswordLength := 8

  /** The login body after validation. */
  datatype LoginDto = LoginDto(email: string, password: string)

  /** The login body as received. */
  datatype LoginBody = LoginBody(email: JsValue, password: JsValue)

  /** `@IsString()` `@MinLength(8)`. */
  predicate ValidPassword(s: string)
    ensures ValidPassword(s) <==> |s| >= 8
  {
    |s| >= MinPasswordLength
  }

  /** All decorators of the body pass; `isEmail` stands for the library's email-syntax check. */
  predicate Valid(body: LoginBody, isEmail: string -> bool)
    ensures Valid(body, isEmail) ==> body.email.Str? && isEmail(body.email.s)
    ensures Valid(body, isEmail) ==> body.password.Str? && |body.password.s| >= MinPasswordLength
  {
    && body.email.Str? && isEmail(body.email.s)
    && body.password.Str? && ValidPassword(body.password.s)
  }

  /** Every password the signup rule accepts is accepted at login. */
  lemma SignupPasswordAccepted(s: string)
    requires SignupValidation.ValidPassword(s)
    ensures ValidPassword(s)
  {
  }

  /** The converse fails: "password" passes the login rule but not the signup rule (it has no digit). */
  lemma LoginRuleIsWeaker()
    ensures ValidPassword("password") && !SignupValidation.ValidPassword("password")
  {
    var s := "password";
    assert forall k :: 0 <= k < |s| ==> !IsDigit(s[k]);
  }
}
