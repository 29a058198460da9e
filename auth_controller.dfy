/**
 * The login and signup routes: a service result is wrapped in the envelope
 * `{statusCode, message, data}`; a login error is rethrown as it is, a signup
 * error is rethrown if it is a Conflict and replaced by one otherwise.
 */
module AuthController {
  import opened Wrappers
  import opened Errors
  import opened Users
  import opened Crypto
  import opened Auth
  import LoginValidation
  import SignupValidation

  const LoginSuccessful := "Login successful!"
  const AccountCreated := "Account created successfully!"

  /** The success body of both routes. */
  datatype Envelope = Envelope(statusCode: int, message: string, data: AuthResult)

  datatype Route = LoginRoute | SignupRoute

  /** The HTTP code each route declares for success. */
  function DeclaredCode(route: Route): int
  {
    match route
    case LoginRoute => OK
    case SignupRoute => CREATED
  }

  /** `POST auth/login`, given what the service's `login` returned or threw. */
  function Login(outcome: Result<AuthResult, Error>): (r: Result<Envelope, Error>)
    ensures r.Success? <==> outcome.Success?
    ensures r.Success? ==> r.value.data == outcome.value && r.value.message == LoginSuccessful
    ensures r.Success? ==> r.value.statusCode == DeclaredCode(LoginRoute)
    ensures r.Failure? ==> r.error == outcome.error
  {
    match outcome
    case Success(result) => Success(Envelope(OK, LoginSuccessful, result))
    case Failure(e) => Failure(e)
  }

  /** `POST auth/signup`, given what the service's `signup` returned or threw. */
  function Signup(outcome: Result<AuthResult, Error>): (r: Result<Envelope, Error>)
    ensures r.Success? <==> outcome.Success?
    ensures r.Success? ==> r.value.data == outcome.value && r.value.message == AccountCreated
    ensures r.Success? ==> r.value.statusCode == DeclaredCode(SignupRoute)
    ensures r.Failure? ==> r.error.kind == ConflictError
    ensures outcome.Failure? && outcome.error.kind == ConflictError ==> r.error == outcome.error
    ensures outcome.Failure? && outcome.error.kind != ConflictError ==>
      r.error == ConflictException(UserAlreadyExists)
  {
    match outcome
    case Success(result) => Success(Envelope(CREATED, AccountCreated, result))
    case Failure(e) =>
      if e.kind == ConflictError then Failure(e) else Failure(ConflictException(UserAlreadyExists))
  }

  /**
   * Signing up twice with the same email: the first call answers 201 with the
   * email in its data, the second fails with Conflict 409 "User already exists",
   * and the second leaves the table as the first left it.
   */
  lemma RepeatedSignupConflicts(users: seq<User>, nextId: Id, b: Bcrypt, sign: Signer,
                                dto: SignupValidation.SignupDto, salt1: Salt, salt2: Salt)
    requires forall i :: 0 <= i < |users| ==> users[i].email != dto.email
    ensures var (first, after) := SignupOutcome(users, nextId, b, sign, dto, salt1);
      var (second, afterSecond) := SignupOutcome(after, nextId + 1, b, sign, dto, salt2);
      && Signup(first).Success?
      && Signup(first).value.statusCode == CREATED
      && Signup(first).value.data.email == dto.email
      && Signup(second) == Failure(ConflictException(UserAlreadyExists))
      && Signup(second).error.status == Some(CONFLICT)
      && afterSecond == after
  {
    SignupStoresHashedRecord(users, nextId, b, sign, dto, salt1);
    var after := SignupOutcome(users, nextId, b, sign, dto, salt1).1;
    SignupRefusesKnownEmail(after, nextId + 1, b, sign, dto, salt2, |users|);
  }

  /**
   * After signing up, logging in with a password the stored hash does not verify
   * fails with 401 "Invalid credentials".
   */
  lemma WrongPasswordAfterSignupIsUnauthorized(users: seq<User>, nextId: Id, b: Bcrypt, sign: Signer,
                                               dto: SignupValidation.SignupDto, salt: Salt, wrong: string)
    requires forall i :: 0 <= i < |users| ==> users[i].email != dto.email
    requires !b.compare(wrong, b.hash(dto.password, SaltRounds, salt))
    ensures var after := SignupOutcome(users, nextId, b, sign, dto, salt).1;
      var r := Login(LoginOutcome(after, b, sign, LoginValidation.LoginDto(dto.email, wrong)));
      && r == Failure(UnauthorizedException(InvalidCredentials))
      && r.error.status == Some(UNAUTHORIZED)
  {
    SignupStoresHashedRecord(users, nextId, b, sign, dto, salt);
    var (_, after) := SignupOutcome(users, nextId, b, sign, dto, salt);
    FindAfterAppend(users, after[|users|], dto.email);
  }
}
