# Tunify Platform account service, modelled in Dafny

The Tunify Platform is an ASP.NET Core music API. Its one piece of original
account logic is `IdentityAccountService`, which sits between the HTTP
controllers and ASP.NET Core Identity:

- **Register** builds an `ApplicationUser` from the request and asks the
  `UserManager` to create it. On success it returns the new user's id and
  user name. On failure it walks the identity errors in order and records
  each error's description in the caller's `ModelStateDictionary`. The key
  is a bucket chosen from the error code: "Password" if the code contains
  "Password", else "Email" if it contains "Email", else "Username" if it
  contains "Username", else "General". Then it returns null.
- **UserAuthentication** looks the user up by name and checks the password.
  Only when both succeed does it return the user's id and name with a token
  issued for that user for 7 minutes. Otherwise it returns null.
- **userProfile** resolves the caller's claims principal to a user. If there
  is none it returns null; otherwise it returns the user's id and name with a
  fresh 7-minute token.

The model has five modules:

- `Wrappers` has `Option`, which stands for a result that may be null.
- `Identity` holds the identity records, errors and results. The four
  `UserManager` calls are function fields of a `UserManager` value, because
  their code belongs to the framework. A token is an opaque value that
  records only its subject and its lifetime.
- `ModelState` is the `ModelStateDictionary`: a class whose `entries` map
  takes a key to its list of messages, extended in place by `AddModelError`.
- `ErrorBuckets` holds ordinal `Contains` and the bucket classification.
- `AccountService` holds the three operations. `Register` is a method whose
  loop mutates the dictionary. Its result is tied to the specification
  function `Accumulate`, whose properties are lemmas. `UserAuthentication`
  and `UserProfile` are functions.

Matching is case-sensitive. ASP.NET Core Identity reports a taken or invalid
user name with the codes "DuplicateUserName" and "InvalidUserName". Both spell
"UserName", so such errors are recorded under "General", not "Username"
(`DuplicateUserNameIsGeneral`).

The interface `IAccount` declares the profile operation as `UserProfile`
(Tunify_Platform/Repositories/Interfaces/IAccount.cs:16), but the class
defines `userProfile`. The model uses the interface's spelling.

## Model

| member | source | states |
|---|---|---|
| `ModelState.WithError` | Tunify_Platform/Repositories/Services/IdentityAccountService.cs:46 | recording a message adds its key, appends the message to that key's list and leaves every other key's list unchanged |
| `ModelState.ModelStateDictionary.AddModelError` | Tunify_Platform/Repositories/Services/IdentityAccountService.cs:46 | the dictionary gains the key and the key's list grows by the message at its end; no other key changes (keys compared exactly) |
| `ErrorBuckets.Classify` | Tunify_Platform/Repositories/Services/IdentityAccountService.cs:42-44 | every error code is classified, and always into one of "Password", "Email", "Username", "General" |
| `ErrorBuckets.ClassifyCharacterization` | Tunify_Platform/Repositories/Services/IdentityAccountService.cs:42-44 | each bucket, as an if-and-only-if: "Password" iff the code contains "Password"; "Email" iff it contains "Email" but not "Password"; "Username" iff it contains "Username" but neither earlier word; "General" iff it contains none of the three |
| `ErrorBuckets.Contains` | Tunify_Platform/Repositories/Services/IdentityAccountService.cs:42-44 | ordinal, case-sensitive `String.Contains`: the word occurs at some offset of the code, character for character |
| `ErrorBuckets.ContainsSplit` | Tunify_Platform/Repositories/Services/IdentityAccountService.cs:42-44 | a code that contains the word splits as some prefix, the word and some suffix |
| `ErrorBuckets.ContainsInfix` | Tunify_Platform/Repositories/Services/IdentityAccountService.cs:42-44 | the substring test finds a copy of the word wherever it stands in the code |
| `ErrorBuckets.PasswordWins` | Tunify_Platform/Repositories/Services/IdentityAccountService.cs:42 | any code containing "Password" is a "Password" error, whatever else it mentions |
| `ErrorBuckets.EmailWinsOverUsername` | Tunify_Platform/Repositories/Services/IdentityAccountService.cs:43 | a code containing "Email" and not "Password" is an "Email" error, even if it also mentions "Username" |
| `ErrorBuckets.PasswordTooShortIsPassword` | Tunify_Platform/Repositories/Services/IdentityAccountService.cs:42 | the code "PasswordTooShort" is a "Password" error |
| `ErrorBuckets.DuplicateEmailIsEmail` | Tunify_Platform/Repositories/Services/IdentityAccountService.cs:43 | the code "DuplicateEmail" is an "Email" error |
| `ErrorBuckets.DuplicateUserNameIsGeneral` | Tunify_Platform/Repositories/Services/IdentityAccountService.cs:44 | matching is case-sensitive: "DuplicateUserName" does not contain "Username" and is a "General" error |
| `AccountService.DescriptionsFor` | Tunify_Platform/Repositories/Services/IdentityAccountService.cs:40-47 | the per-key filter of the errors: the descriptions of the errors classified under a key, in error order, which `AccumulateLookup` compares the loop's effect against |
| `AccountService.Accumulate` | Tunify_Platform/Repositories/Services/IdentityAccountService.cs:40-47 | recording the errors keeps every existing key and adds only bucket names as new keys |
| `AccountService.Register` | Tunify_Platform/Repositories/Services/IdentityAccountService.cs:21-50 | creation is asked for the request's user and password; on success the result is the new user's id and the request's user name and the model state is untouched; on failure the result is null and the model state is exactly the old one with every error recorded in order |
| `AccountService.AccumulateLookup` | Tunify_Platform/Repositories/Services/IdentityAccountService.cs:40-47 | after a failure, each key's list is its old list followed by the descriptions of the errors classified under that key, in error order; a key is present iff it was before or some error was classified under it |
| `AccountService.DescriptionsForNonBucket` | Tunify_Platform/Repositories/Services/IdentityAccountService.cs:42-46 | no error is ever filed under a key that is not one of the four bucket names |
| `AccountService.BucketsPartitionErrors` | Tunify_Platform/Repositories/Services/IdentityAccountService.cs:40-47 | the four buckets together receive exactly one entry per error |
| `AccountService.EveryErrorReported` | Tunify_Platform/Repositories/Services/IdentityAccountService.cs:40-47 | every error's description is filed under the bucket of its own code |
| `AccountService.FailedRegisterKeepsOtherKeys` | Tunify_Platform/Repositories/Services/IdentityAccountService.cs:40-49 | a failed registration leaves every key other than the four bucket names as it was, present or absent |
| `AccountService.PasswordErrorIsReported` | Tunify_Platform/Repositories/Services/IdentityAccountService.cs:40-47 | when some error code contains "Password", the "Password" key is present and holds that error's description |
| `AccountService.UserAuthentication` | Tunify_Platform/Repositories/Services/IdentityAccountService.cs:52-73 | a result exists iff the name is found and the password check passes for that user; it then carries that user's id and name and a token for that user with a 7-minute lifetime, so no token is issued for an unknown user or a failed check |
| `AccountService.AuthenticationFailuresIndistinguishable` | Tunify_Platform/Repositories/Services/IdentityAccountService.cs:54-72 | an unknown user name and a wrong password both give null, the same result |
| `AccountService.UserProfile` | Tunify_Platform/Repositories/Services/IdentityAccountService.cs:75-89 | the result is null iff the principal resolves to no user; otherwise it carries that user's id and name and a 7-minute token for that user |
| `AccountService.ProfileMatchesLogin` | Tunify_Platform/Repositories/Services/IdentityAccountService.cs:52-89 | for a principal resolving to the user a login by name finds, with a passing password, the profile fetch reports the same id and user name as the login and a token for the same subject with the same 7-minute lifetime (the two tokens still differ in issue time, which the model does not record) |

## Left out

- The `UserManager` calls (`CreateAsync`, `FindByNameAsync`, `CheckPasswordAsync`, `GetUserAsync`) are framework code. They are uninterpreted function parameters. Password hashing, name normalisation, persistence and validation are not modelled.
- The password policy configured in Tunify_Platform/Program.cs:29-33 is enforced inside ASP.NET Core Identity. It is not part of this model. So no lemma says that a weak password yields a "Password" error; `PasswordErrorIsReported` states what Register does once such an error is reported.
- `CreateAsync` may update the user object it is given (stamps, normalised names). The model assumes it does not change `Id` or `UserName`, which Register reads afterwards.
- The user's `Id` is generated by the `ApplicationUser` constructor from a random GUID. It is the parameter `newUserId`.
- `JwtTokenService` is not part of this model. Signing, claims encoding, issue time and expiry are reduced to the opaque `Token(subject, lifetimeMinutes)`.
- `ModelStateDictionary` entry validation state and attempted values are not modelled.
- ModelState.ModelStateDictionary.AddModelError: compares keys exactly, where the framework's dictionary ignores case. So the "Username" bucket and a "UserName" entry from model binding are one entry in the program and two here.
- ModelState.ModelStateDictionary.AddModelError: does not model the dictionary's `MaxAllowedErrors` cap. Past the cap the framework stops filing messages and records one "too many errors" exception instead.
- AccountService.FailedRegisterKeepsOtherKeys: holds for keys compared exactly. Under the framework's case-insensitive keys, an entry such as "UserName" or "password" is the same entry as a bucket and does change.
- AccountService.BucketsPartitionErrors: "one entry per error" holds only below the `MaxAllowedErrors` cap, which is not modelled.
- The user-manager calls and `JwtTokenService.GenerateToken` are total in the model. In the program any of them may throw, for example when the store is unreachable. The service catches nothing, so Register, UserAuthentication and userProfile would then end with that exception instead of a result or null.
- AccountService.ProfileMatchesLogin: the two tokens agree on subject and lifetime only. Each call to the token service stamps its own issue time and expiry, which the opaque token does not record.
- `async`/`await` and `Task` are left out; the calls run in sequence.
- Null strings and null arguments are not modelled. A user name the store returns is taken as a string.
- Program.cs wiring (dependency injection, EF Core, JWT middleware, Swagger) and the unit test over a mocked playlist repository are framework plumbing with no account logic.
