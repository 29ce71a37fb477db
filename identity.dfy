/**
  The parts of ASP.NET Core Identity and of the JWT token service that the
  account service calls. Their code is not part of this model, so every
  operation of the user manager is an uninterpreted function supplied by the
  caller, and a token is an opaque value built from the user and the lifetime
  it was issued for.
 */
module Identity {
  import opened Wrappers

  /** The identity record: the fields the account service reads or sets. */
  datatype ApplicationUser = ApplicationUser(id: string, userName: string, email: string)

  /** One failure reason reported by the identity subsystem. */
  datatype IdentityError = IdentityError(code: string, description: string)

  /** The outcome of creating a user; `errors` is only read when `succeeded` is false. */
  datatype IdentityResult = IdentityResult(succeeded: bool, errors: seq<IdentityError>)

  /** The authenticated caller's context; only the user manager interprets it. */
  datatype ClaimsPrincipal = ClaimsPrincipal(claims: seq<(string, string)>)

  /**
    The four `UserManager<ApplicationUser>` calls the service makes:
    `CreateAsync(user, password)`, `FindByNameAsync(name)`,
    `CheckPasswordAsync(user, password)` and `GetUserAsync(principal)`.
   */
  datatype UserManager = UserManager(
    createAsync: (ApplicationUser, string) -> IdentityResult,
    findByNameAsync: string -> Option<ApplicationUser>,
    checkPasswordAsync: (ApplicationUser, string) -> bool,
    getUserAsync: ClaimsPrincipal -> Option<ApplicationUser>)

  /**
    A signed access token, kept opaque: all that is known is whom and for how
    long it was issued. `Token(user, minutes)` stands for the result of
    `JwtTokenService.GenerateToken(user, TimeSpan.FromMinutes(minutes))`.
   */
  datatype Token = Token(subject: ApplicationUser, lifetimeMinutes: nat)
}
