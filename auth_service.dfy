/**
 * The authentication service: credential validation, login and signup over the
 * user table, the password hasher and the token signer.
 *
 * Each operation is specified by a function of the table's value (`Validated`,
 * `LoginOutcome`, `SignupOutcome`); the methods of `AuthService` are proved
 * against them, and the lemmas below state what the operations promise.
 */
module Auth {
  import opened Wrappers
  import opened Errors
  import opened Users
  import opened Crypto
  import LoginValidation
  import SignupValidation

  const InvalidCredentials := "Invalid credentials"
  const UserAlreadyExists := "User already exists"

  /** The identity `validateUser` hands back: `{id, name, email}`, with no password field. */
  datatype Principal = Principal(id: Id, name: string, email: string)

  /** The body `login` and `signup` return: `{email, name, id, access_token}`; `id` may be undefined. */
  datatype AuthResult = AuthResult(email: string, name: string, id: Option<Id>, access_token: string)

  function PrincipalOf(u: User): Principal
  {
    Principal(u.id, u.name, u.email)
  }

  /** At most one record per email: the invariant signup's existence check is meant to keep. */
  ghost predicate UniqueEmails(users: seq<User>)
  {
    forall i, j :: 0 <= i < j < |users| ==> users[i].email != users[j].email
  }

  /**
   * `validateUser(email, pass)`: a principal built from a stored record with that
   * email whose hash the password verifies against, or nothing. An unknown email
   * gives nothing whatever the hasher does, so `compare` plays no part there.
   */
  function Validated(users: seq<User>, b: Bcrypt, email: string, pass: string): (r: Option<Principal>)
    ensures r.Some? ==> exists i :: (0 <= i < |users| && users[i].email == email &&
      b.compare(pass, users[i].password) && r.value == PrincipalOf(users[i]))
    ensures (forall i :: 0 <= i < |users| ==> users[i].email != email) ==> r.None?
    ensures FindByEmail(users, email).Some? && !b.compare(pass, FindByEmail(users, email).value.password) ==> r.None?
    ensures FindByEmail(users, email).Some? && b.compare(pass, FindByEmail(users, email).value.password) ==>
      r == Some(PrincipalOf(FindByEmail(users, email).value))
    ensures r.Some? ==> r.value == PrincipalOf(FindByEmail(users, email).value)
  {
    match FindByEmail(users, email)
    case None => None
    case Some(u) => if b.compare(pass, u.password) then Some(PrincipalOf(u)) else None
  }

  /**
   * `login(dto)` as written. The principal from `Validated` has a field `id` but
   * no `_id`, and `login` reads `_id` both for the token's `sub` and for the
   * returned `id`: both are undefined.
   */
  function LoginOutcome(users: seq<User>, b: Bcrypt, sign: Signer, dto: LoginValidation.LoginDto): (r: Result<AuthResult, Error>)
    ensures r.Failure? <==> Validated(users, b, dto.email, dto.password).None?
    ensures r.Failure? ==> r.error == UnauthorizedException(InvalidCredentials)
    ensures r.Success? ==> r.value.email == dto.email && r.value.name == Validated(users, b, dto.email, dto.password).value.name
    ensures r.Success? ==> r.value.id == None && r.value.access_token == sign(Claims(dto.email, None))
  {
    match Validated(users, b, dto.email, dto.password)
    case None => Failure(UnauthorizedException(InvalidCredentials))
    case Some(p) =>
      // `p._id` is undefined: the principal only carries `id`
      var underscoreId: Option<Id> := None;
      Success(AuthResult(p.email, p.name, underscoreId, sign(Claims(p.email, underscoreId))))
  }

  /**
   * `login(dto)` as evidently intended: the token's `sub` and the returned `id`
   * are the principal's id.
   */
  function IntendedLoginOutcome(users: seq<User>, b: Bcrypt, sign: Signer, dto: LoginValidation.LoginDto): (r: Result<AuthResult, Error>)
    ensures r.Failure? <==> LoginOutcome(users, b, sign, dto).Failure?
    ensures r.Failure? ==> r.error == UnauthorizedException(InvalidCredentials)
  {
    match Validated(users, b, dto.email, dto.password)
    case None => Failure(UnauthorizedException(InvalidCredentials))
    case Some(p) => Success(AuthResult(p.email, p.name, Some(p.id), sign(Claims(p.email, Some(p.id)))))
  }

  /**
   * `signup(dto)` on a table whose store would assign `nextId` next, with the
   * hasher's salt `salt`: the result and the table afterwards.
   */
  function SignupOutcome(users: seq<User>, nextId: Id, b: Bcrypt, sign: Signer,
                         dto: SignupValidation.SignupDto, salt: Salt): (r: (Result<AuthResult, Error>, seq<User>))
    ensures r.0.Failure? <==> exists i :: 0 <= i < |users| && users[i].email == dto.email
    ensures r.0.Failure? ==> r.0.error == ConflictException(UserAlreadyExists) && r.1 == users
    ensures r.0.Success? ==> |r.1| == |users| + 1 && r.1[..|users|] == users && r.1[|users|].email == dto.email
  {
    if FindByEmail(users, dto.email).Some? then
      (Failure(ConflictException(UserAlreadyExists)), users)
    else
      var u := Stored(nextId, NewUser(dto.name, dto.email, None, b.hash(dto.password, SaltRounds, salt)));
      (Success(AuthResult(u.email, u.name, Some(u.id), sign(Claims(u.email, Some(u.id))))), users + [u])
  }

  /** Login fails with one and the same error whether the email is unknown or the password wrong. */
  lemma LoginDoesNotRevealWhichCheckFailed(users: seq<User>, b: Bcrypt, sign: Signer,
                                           unknown: LoginValidation.LoginDto, wrong: LoginValidation.LoginDto)
    requires forall i :: 0 <= i < |users| ==> users[i].email != unknown.email
    requires FindByEmail(users, wrong.email).Some?
    requires !b.compare(wrong.password, FindByEmail(users, wrong.email).value.password)
    ensures LoginOutcome(users, b, sign, unknown) == LoginOutcome(users, b, sign, wrong)
    ensures LoginOutcome(users, b, sign, unknown) == Failure(UnauthorizedException(InvalidCredentials))
  {
  }

  /** An email already on record is refused with Conflict, and the table is left as it was. */
  lemma SignupRefusesKnownEmail(users: seq<User>, nextId: Id, b: Bcrypt, sign: Signer,
                                dto: SignupValidation.SignupDto, salt: Salt, i: nat)
    requires i < |users| && users[i].email == dto.email
    ensures SignupOutcome(users, nextId, b, sign, dto, salt) == (Failure(ConflictException(UserAlreadyExists)), users)
  {
  }

  /**
   * On a new email, signup appends exactly one record: the DTO's name and email
   * with the hash of the password in place of the password, under the fresh id.
   * The result describes that record and carries the token signed for it.
   */
  lemma SignupStoresHashedRecord(users: seq<User>, nextId: Id, b: Bcrypt, sign: Signer,
                                 dto: SignupValidation.SignupDto, salt: Salt)
    requires forall i :: 0 <= i < |users| ==> users[i].email != dto.email
    ensures var (r, after) := SignupOutcome(users, nextId, b, sign, dto, salt);
      && |after| == |users| + 1
      && after[..|users|] == users
      && after[|users|] == User(nextId, dto.name, dto.email, None, b.hash(dto.password, SaltRounds, salt))
      && r == Success(AuthResult(dto.email, dto.name, Some(nextId), sign(Claims(dto.email, Some(nextId)))))
  {
    var (r, after) := SignupOutcome(users, nextId, b, sign, dto, salt);
    assert after[..|users|] == users;
  }

  /** Signup keeps at most one record per email. */
  lemma SignupKeepsEmailsUnique(users: seq<User>, nextId: Id, b: Bcrypt, sign: Signer,
                                dto: SignupValidation.SignupDto, salt: Salt)
    requires UniqueEmails(users)
    ensures UniqueEmails(SignupOutcome(users, nextId, b, sign, dto, salt).1)
  {
    var after := SignupOutcome(users, nextId, b, sign, dto, salt).1;
    if after != users {
      assert forall i :: 0 <= i < |users| ==> users[i].email != dto.email;
      assert forall i :: 0 <= i < |users| ==> after[i] == users[i];
    }
  }

  /**
   * Given that a password verifies against its own hash, the credentials just
   * signed up with validate, and yield the new record's principal.
   */
  lemma SignupThenValidates(users: seq<User>, nextId: Id, b: Bcrypt, sign: Signer,
                            dto: SignupValidation.SignupDto, salt: Salt)
    requires HashRoundTrip(b)
    requires SignupOutcome(users, nextId, b, sign, dto, salt).0.Success?
    ensures Validated(SignupOutcome(users, nextId, b, sign, dto, salt).1, b, dto.email, dto.password)
      == Some(Principal(nextId, dto.name, dto.email))
  {
    var u := Stored(nextId, NewUser(dto.name, dto.email, None, b.hash(dto.password, SaltRounds, salt)));
    FindAfterAppend(users, u, dto.email);
  }

  /**
   * As written, a login right after signup succeeds but loses the id: signup
   * answers with the new id, login with none, and login's token is signed without
   * a subject.
   */
  lemma SignupThenLoginLosesId(users: seq<User>, nextId: Id, b: Bcrypt, sign: Signer,
                               dto: SignupValidation.SignupDto, salt: Salt)
    requires HashRoundTrip(b)
    requires SignupOutcome(users, nextId, b, sign, dto, salt).0.Success?
    ensures var (signedUp, after) := SignupOutcome(users, nextId, b, sign, dto, salt);
      var loggedIn := LoginOutcome(after, b, sign, LoginValidation.LoginDto(dto.email, dto.password));
      && signedUp.value.id == Some(nextId)
      && loggedIn.Success?
      && loggedIn.value.id == None
      && loggedIn.value.access_token == sign(Claims(dto.email, None))
  {
    SignupThenValidates(users, nextId, b, sign, dto, salt);
  }

  /** With the intended login, logging in right after signup returns exactly what signup returned. */
  lemma IntendedLoginAfterSignup(users: seq<User>, nextId: Id, b: Bcrypt, sign: Signer,
                                 dto: SignupValidation.SignupDto, salt: Salt)
    requires HashRoundTrip(b)
    requires SignupOutcome(users, nextId, b, sign, dto, salt).0.Success?
    ensures var (signedUp, after) := SignupOutcome(users, nextId, b, sign, dto, salt);
      IntendedLoginOutcome(after, b, sign, LoginValidation.LoginDto(dto.email, dto.password)) == signedUp
  {
    SignupThenValidates(users, nextId, b, sign, dto, salt);
  }

  /** The authentication service over a user service, a hasher and a token signer. */
  class AuthService {
    const userService: UserService
    const bcrypt: Bcrypt
    const sign: Signer

    constructor (userService: UserService, bcrypt: Bcrypt, sign: Signer)
      ensures this.userService == userService && this.bcrypt == bcrypt && this.sign == sign
    {
      this.userService := userService;
      this.bcrypt := bcrypt;
      this.sign := sign;
    }

    /** Looks the email up, then verifies the password against the stored hash. Reads the table only. */
    method ValidateUser(email: string, pass: string) returns (r: Option<Principal>)
      ensures r == Validated(userService.users, bcrypt, email, pass)
    {
      var user := userService.FindOneByEmail(email);
      if user.Some? && bcrypt.compare(pass, user.value.password) {
        r := Some(PrincipalOf(user.value));
      } else {
        r := None;
      }
    }

    /** Validates, then signs a token from the principal's email and (missing) `_id`. Reads the table only. */
    method Login(dto: LoginValidation.LoginDto) returns (r: Result<AuthResult, Error>)
      ensures r == LoginOutcome(userService.users, bcrypt, sign, dto)
    {
      var user := ValidateUser(dto.email, dto.password);
      if user.None? {
        return Failure(UnauthorizedException(InvalidCredentials));
      }
      var underscoreId: Option<Id> := None;
      var token := sign(Claims(user.value.email, underscoreId));
      r := Success(AuthResult(user.value.email, user.value.name, underscoreId, token));
    }

    /**
     * Refuses a known email; otherwise hashes the password, stores the record
     * through the user service and signs a token for it.
     */
    method Signup(dto: SignupValidation.SignupDto, salt: Salt) returns (r: Result<AuthResult, Error>)
      requires userService.Valid()
      modifies userService
      ensures userService.Valid()
      ensures (r, userService.users) ==
        SignupOutcome(old(userService.users), old(userService.nextId), bcrypt, sign, dto, salt)
    {
      var existing := userService.FindOneByEmail(dto.email);
      if existing.Some? {
        return Failure(ConflictException(UserAlreadyExists));
      }
      var hashed := bcrypt.hash(dto.password, SaltRounds, salt);
      var user := userService.Create(NewUser(dto.name, dto.email, None, hashed));
      var token := sign(Claims(user.email, Some(user.id)));
      r := Success(AuthResult(user.email, user.name, Some(user.id), token));
    }
  }
}
