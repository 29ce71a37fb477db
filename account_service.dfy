/**
  `IdentityAccountService`: registration, authentication and profile retrieval
  on top of an abstract user manager and token issuer.
 */
module AccountService {
  import opened Wrappers
  import opened Identity
  import opened ModelState
  import opened ErrorBuckets

  /** Every token the service issues lives for `TimeSpan.FromMinutes(7)`. */
  const TokenLifetimeMinutes: nat := 7

  /** What a registration request carries in. */
  datatype RegisterRequest = RegisterRequest(userName: string, email: string, password: string)

  /** What a successful registration hands back: the new identity's id and user name. */
  datatype RegisterResult = RegisterResult(id: string, userName: string)

  /** What a successful login or profile fetch hands back. */
  datatype LoginDto = LoginDto(id: string, username: string, token: Token)

  /** The token issued for `dto` names the identity `dto` reports and lives seven minutes. */
  predicate TokenBindsIdentity(dto: LoginDto)
  {
    dto.token.subject.id == dto.id && dto.token.subject.userName == dto.username
    && dto.token.lifetimeMinutes == TokenLifetimeMinutes
  }

  // ---------------------------------------------------------------------------
  // Register

  /** The descriptions of the errors classified under `key`, in error order. */
  function DescriptionsFor(errors: seq<IdentityError>, key: string): seq<string>
    decreases |errors|
  {
    if errors == [] then []
    else
      var last := errors[|errors| - 1];
      DescriptionsFor(errors[..|errors| - 1], key)
      + (if Classify(last.code) == key then [last.description] else [])
  }

  /** The model state after Register's loop has recorded every error in `errors`. */
  function Accumulate(m: map<string, seq<string>>, errors: seq<IdentityError>): (r: map<string, seq<string>>)
    ensures m.Keys <= r.Keys
    ensures forall k :: k in r && k !in m ==> IsBucketKey(k)
    decreases |errors|
  {
    if errors == [] then m
    else
      var last := errors[|errors| - 1];
      WithError(Accumulate(m, errors[..|errors| - 1]), Classify(last.code), last.description)
  }

  /**
    Creates the user; on success returns its id and user name and leaves the
    model state alone, on failure records each error's description under its
    bucket and returns nothing.
   */
  method Register(userManager: UserManager, newUserId: string, registeredUser: RegisterRequest,
                  modelState: ModelStateDictionary)
    returns (r: Option<RegisterResult>)
    modifies modelState
    ensures var result := userManager.createAsync(
        ApplicationUser(newUserId, registeredUser.userName, registeredUser.email), registeredUser.password);
      if result.succeeded then
        r == Some(RegisterResult(newUserId, registeredUser.userName))
        && modelState.entries == old(modelState.entries)
      else
        r == None && modelState.entries == Accumulate(old(modelState.entries), result.errors)
  {
    var user := ApplicationUser(newUserId, registeredUser.userName, registeredUser.email);
    var result := userManager.createAsync(user, registeredUser.password);
    if result.succeeded {
      return Some(RegisterResult(user.id, user.userName));
    }
    var errors := result.errors;
    for i := 0 to |errors|
      invariant modelState.entries == Accumulate(old(modelState.entries), errors[..i])
    {
      var error := errors[i];
      var errorCode := Classify(error.code);
      modelState.AddModelError(errorCode, error.description);
      assert errors[..i + 1][..i] == errors[..i];
    }
    assert errors[..|errors|] == errors;
    return None;
  }

  /** Under every key, the loop appends exactly the descriptions classified there, in order. */
  lemma {:induction false} AccumulateLookup(m: map<string, seq<string>>, errors: seq<IdentityError>, key: string)
    ensures Lookup(Accumulate(m, errors), key) == Lookup(m, key) + DescriptionsFor(errors, key)
    ensures key in Accumulate(m, errors) <==> key in m || DescriptionsFor(errors, key) != []
    decreases |errors|
  {
    if errors != [] {
      var init := errors[..|errors| - 1];
      AccumulateLookup(m, init, key);
    }
  }

  /** No error is recorded under a key that is not one of the four bucket names. */
  lemma {:induction false} DescriptionsForNonBucket(errors: seq<IdentityError>, key: string)
    requires !IsBucketKey(key)
    ensures DescriptionsFor(errors, key) == []
    decreases |errors|
  {
    if errors != [] {
      DescriptionsForNonBucket(errors[..|errors| - 1], key);
    }
  }

  /** The four buckets together hold one description per error: none is lost or doubled. */
  lemma {:induction false} BucketsPartitionErrors(errors: seq<IdentityError>)
    ensures |DescriptionsFor(errors, PasswordKey)| + |DescriptionsFor(errors, EmailKey)|
          + |DescriptionsFor(errors, UsernameKey)| + |DescriptionsFor(errors, GeneralKey)| == |errors|
    decreases |errors|
  {
    if errors != [] {
      BucketsPartitionErrors(errors[..|errors| - 1]);
    }
  }

  /** Every error's description is recorded under the bucket of its code. */
  lemma {:induction false} EveryErrorReported(errors: seq<IdentityError>, i: nat)
    requires i < |errors|
    ensures errors[i].description in DescriptionsFor(errors, Classify(errors[i].code))
    decreases |errors|
  {
    if i < |errors| - 1 {
      var init := errors[..|errors| - 1];
      EveryErrorReported(init, i);
      assert init[i] == errors[i];
    }
  }

  /** A failed registration changes nothing under keys other than the four bucket names. */
  lemma FailedRegisterKeepsOtherKeys(m: map<string, seq<string>>, errors: seq<IdentityError>, key: string)
    requires !IsBucketKey(key)
    ensures key in Accumulate(m, errors) <==> key in m
    ensures Lookup(Accumulate(m, errors), key) == Lookup(m, key)
  {
    AccumulateLookup(m, errors, key);
    DescriptionsForNonBucket(errors, key);
  }

  /** A failure that reports a password error leaves the "Password" key holding that description. */
  lemma PasswordErrorIsReported(m: map<string, seq<string>>, errors: seq<IdentityError>, i: nat)
    requires i < |errors| && Contains(errors[i].code, PasswordKey)
    ensures PasswordKey in Accumulate(m, errors)
    ensures errors[i].description in Lookup(Accumulate(m, errors), PasswordKey)
  {
    EveryErrorReported(errors, i);
    AccumulateLookup(m, errors, PasswordKey);
  }

  // ---------------------------------------------------------------------------
  // UserAuthentication

  /**
    Logs a user in: a result, carrying a seven-minute token for that user,
    exactly when the name is known and the password checks out.
   */
  function UserAuthentication(userManager: UserManager, username: string, password: string): (r: Option<LoginDto>)
    ensures r.Some? <==>
      userManager.findByNameAsync(username).Some?
      && userManager.checkPasswordAsync(userManager.findByNameAsync(username).value, password)
    ensures r.Some? ==>
      var user := userManager.findByNameAsync(username).value;
      r.value.id == user.id && r.value.username == user.userName
      && r.value.token == Token(user, TokenLifetimeMinutes)
    ensures r.Some? ==>
      TokenBindsIdentity(r.value)
      && userManager.findByNameAsync(username) == Some(r.value.token.subject)
      && userManager.checkPasswordAsync(r.value.token.subject, password)
  {
    var user := userManager.findByNameAsync(username);
    if user.None? then None
    else if userManager.checkPasswordAsync(user.value, password) then
      Some(LoginDto(user.value.id, user.value.userName, Token(user.value, TokenLifetimeMinutes)))
    else None
  }

  /** An unknown user name and a wrong password look the same to the caller. */
  lemma AuthenticationFailuresIndistinguishable(userManager: UserManager,
      unknownName: string, anyPassword: string, knownName: string, wrongPassword: string)
    requires userManager.findByNameAsync(unknownName).None?
    requires userManager.findByNameAsync(knownName).Some?
    requires !userManager.checkPasswordAsync(userManager.findByNameAsync(knownName).value, wrongPassword)
    ensures UserAuthentication(userManager, unknownName, anyPassword) == None
    ensures UserAuthentication(userManager, unknownName, anyPassword)
         == UserAuthentication(userManager, knownName, wrongPassword)
  {
  }

  // ---------------------------------------------------------------------------
  // userProfile

  /**
    The current caller's profile: nothing when the principal resolves to no
    user, otherwise that user's id and name with a fresh seven-minute token.
   */
  function UserProfile(userManager: UserManager, claimsPrincipal: ClaimsPrincipal): (r: Option<LoginDto>)
    ensures r.None? <==> userManager.getUserAsync(claimsPrincipal).None?
    ensures r.Some? ==>
      var user := userManager.getUserAsync(claimsPrincipal).value;
      r.value.id == user.id && r.value.username == user.userName
      && r.value.token == Token(user, TokenLifetimeMinutes)
    ensures r.Some? ==> TokenBindsIdentity(r.value)
  {
    var user := userManager.getUserAsync(claimsPrincipal);
    if user.None? then None
    else Some(LoginDto(user.value.id, user.value.userName, Token(user.value, TokenLifetimeMinutes)))
  }

  /**
    When the principal resolves to the same user a login by name would find,
    the profile fetch reports the same id and name as that successful login,
    with a token for the same subject and lifetime. The two tokens are issued
    by separate calls, so in the running program they differ in issue time.
   */
  lemma ProfileMatchesLogin(userManager: UserManager, claimsPrincipal: ClaimsPrincipal, password: string)
    requires userManager.getUserAsync(claimsPrincipal).Some?
    requires var user := userManager.getUserAsync(claimsPrincipal).value;
      userManager.findByNameAsync(user.userName) == Some(user) && userManager.checkPasswordAsync(user, password)
    ensures var profile := UserProfile(userManager, claimsPrincipal);
      var login := UserAuthentication(userManager, userManager.getUserAsync(claimsPrincipal).value.userName, password);
      profile.Some? && login.Some?
      && profile.value.id == login.value.id && profile.value.username == login.value.username
      && profile.value.token.subject == login.value.token.subject
      && profile.value.token.lifetimeMinutes == login.value.token.lifetimeMinutes
  {
  }
}
