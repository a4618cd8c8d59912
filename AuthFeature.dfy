/** Signing in (src/Million.Application/Auth): the user found for the e-mail, the password check
    and the token generator are inputs, the handler only decides. The password hasher is an
    uninterpreted `verify(password, hash)` and the token generator an uninterpreted function of
    the user. */
module AuthFeature {
  import opened Common
  import opened Results
  import opened UserEntity

  const InvalidCredentials: string := "Invalid email or password"

  datatype LoginCommand = LoginCommand(email: string, password: string)

  datatype AuthResponse = AuthResponse(
    userId: Guid, email: string, firstName: string, lastName: string, role: string, ownerId: Option<Guid>, token: string)

  /** `LoginHandler.Handle`, given what `GetByEmailAsync` answered for the command's e-mail.
      Sign-in succeeds exactly for an active user whose hash the password verifies against, and
      then answers with the user's own fields and the token generated for that user. Every
      refusal is the same 401 "Invalid email or password", so an unknown e-mail, an inactive
      account and a wrong password cannot be told apart. */
  function Login(user: Option<UserData>, c: LoginCommand, verify: (string, string) -> bool,
                 generateToken: UserData -> string): (r: Result<AuthResponse>)
    ensures r.Ok? <==> user.Some? && user.value.isActive && verify(c.password, user.value.passwordHash)
    ensures r.Ok? ==>
      var u := user.value;
      r.value == AuthResponse(u.id, u.email, u.firstName, u.lastName, u.role, u.ownerId, generateToken(u))
    ensures !r.Ok? ==>
      r == Unauthorized(InvalidCredentials) && GetStatusCode(r) == 401 && GetFirstErrorMessage(r) == InvalidCredentials
  {
    if user.None? || !user.value.isActive then Unauthorized(InvalidCredentials)
    else if !verify(c.password, user.value.passwordHash) then Unauthorized(InvalidCredentials)
    else
      var u := user.value;
      Ok(AuthResponse(u.id, u.email, u.firstName, u.lastName, u.role, u.ownerId, generateToken(u)))
  }

  /** A refused sign-in does not depend on the token generator: no token is made unless both
      checks pass. */
  lemma TokenOnlyAfterChecks(user: Option<UserData>, c: LoginCommand, verify: (string, string) -> bool,
                             generateToken: UserData -> string, otherGenerator: UserData -> string)
    requires !(user.Some? && user.value.isActive && verify(c.password, user.value.passwordHash))
    ensures Login(user, c, verify, generateToken) == Login(user, c, verify, otherGenerator)
    ensures Login(user, c, verify, generateToken) == Login(None, c, verify, generateToken)
  {
  }

  /** A deactivated account is refused whatever password is given, and reactivating it restores
      the answer an active account gets. */
  lemma DeactivatedCannotSignIn(u: UserData, c: LoginCommand, verify: (string, string) -> bool, generateToken: UserData -> string)
    ensures Login(Some(Deactivated(u)), c, verify, generateToken) == Unauthorized(InvalidCredentials)
    ensures verify(c.password, u.passwordHash) ==>
      Login(Some(Activated(Deactivated(u))), c, verify, generateToken).Ok?
  {
  }
}
