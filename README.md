# Hoaxify: user signup rules, the public user view and the paginated user list

Hoaxify is a small social application: a Spring backend that stores users
and a React frontend that lists them page by page. This project models
three pieces of it whose behaviour can be stated exactly:

- **Signup validation** of a `User` (`User.java` and `UniqueUsernameValidator.java`):
  the `@NotNull`, `@Size`, `@Pattern` and `@UniqueUsername` annotations,
  evaluated on a user whose fields may be null (`Option<string>`), against a
  user repository given as a sequence of stored rows. Validation yields the
  set of violated constraints, `Violation(field, constraint)`; the fields
  that receive an error are the fields of that set. The constant
  `UserDetails` answers of `User` (one authority `Role_USER`, all four
  account flags true) are modelled too.
- **The public user view** `UserVM` and `LoginController.handleLogin`: a
  projection that copies id, username, display name and image and has no
  password; a null id fails, as unboxing it into the `long` field throws.
- **The user-list component** `UserList.js`: a class whose `page` and
  `loadError` fields change in place. `LoadData` issues a `listUsers`
  request (recorded in `requests`), and `OnLoadSuccess` / `OnLoadFailure`
  apply an outcome later; `inFlight` counts the issued calls not yet
  settled. `Render` gives what the component shows.

Modules: `Wrappers` (Option, Result), `Users`, `UniqueUsernames`,
`UserValidation`, `UserValidationLemmas`, `SignupExamples`,
`UserViewModel`, `LoginController`, `UserListComponent`, `UserListScenarios`.

The list component offers "previous" and "next" from the `first` and
`last` flags of the page last received, not from the page number, and it
never refuses a page index. So in the initial page, which has
no flags, both controls are offered, and "previous" asks for page -1
(`UserListScenarios.MountAndClickPreviousEarly`).

The password pattern `^(?=.*[a-z])(?=.*\d).*$` asks for one ASCII
lower-case letter and one digit. It does not ask for an upper-case letter,
although its error message says so.

## Model

| member | source | states |
|---|---|---|
| `Users.Authorities` | hoaxify-backend/src/main/java/com/hoaxify/user/User.java:52-57 | every user has exactly one authority, named `Role_USER` |
| `Users.UserDetailsAreConstant` | hoaxify-backend/src/main/java/com/hoaxify/user/User.java:52-81 | every user's account is non-expired, non-locked, has non-expired credentials and is enabled; all users hold the same single authority |
| `UniqueUsernames.FindByUsername` | hoaxify-backend/src/main/java/com/hoaxify/user/UniqueUsernameValidator.java:16 | the repository lookup returns a stored row with that username, and returns none exactly when no stored row has it |
| `UniqueUsernames.IsValid` | hoaxify-backend/src/main/java/com/hoaxify/user/UniqueUsernameValidator.java:14-21 | a username is valid iff the repository holds no user with that username; the repository is only read |
| `UniqueUsernames.IsValidIgnoresContext` | hoaxify-backend/src/main/java/com/hoaxify/user/UniqueUsernameValidator.java:14 | the verdict is the same whatever validator context is passed |
| `UniqueUsernames.StoredNameIsRejected` | hoaxify-backend/src/main/java/com/hoaxify/user/UniqueUsernameValidator.java:16-20 | once a user is stored, its username is no longer valid |
| `UniqueUsernames.AddingUsersOnlyInvalidates` | hoaxify-backend/src/main/java/com/hoaxify/user/UniqueUsernameValidator.java:16-20 | adding rows to the repository can turn a valid name invalid, never an invalid one valid |
| `UserValidation.ContainsCharIn` | hoaxify-backend/src/main/java/com/hoaxify/user/User.java:47 | the scan for a character of a range is true iff some position of the string holds such a character |
| `UserValidation.Validate` | hoaxify-backend/src/main/java/com/hoaxify/user/User.java:36-50 | `username` fails not-null iff null, size iff non-null and not 4..255 characters, uniqueness iff a stored user has it; `displayName` fails not-null iff null, size iff non-null and not 4..255 characters; `password` fails not-null iff null, size iff non-null and not 8..255 characters, the pattern iff non-null and lacking a lower-case letter or a digit; `image` never fails; no other violation occurs |
| `UserValidation.FailingFields` | hoaxify-backend/src/main/java/com/hoaxify/user/User.java:36-50 | `username` gets an error iff it is null, not 4..255 characters, or taken; `displayName` iff null or not 4..255 characters; `password` iff null, not 8..255 characters, or lacking a lower-case letter or a digit; `image` never |
| `UserValidationLemmas.ImageIsUnconstrained` | hoaxify-backend/src/main/java/com/hoaxify/user/User.java:50 | `image` never receives an error and changing it never changes the verdict |
| `UserValidationLemmas.NullFailsOnlyNotNull` | hoaxify-backend/src/main/java/com/hoaxify/user/User.java:36-48 | a null constrained field fails its not-null rule and no size, pattern or uniqueness rule (for `username`, given no stored row with a null name) |
| `UserValidationLemmas.AllNullUserFailsThreeFields` | hoaxify-backend/src/test/java/com/hoaxify/UserControllerTest.java:201-229 | a user with every field null fails exactly not-null on username, displayName and password, with the messages "Username cannot be null" and "Cannot be null" |
| `UserValidationLemmas.DuplicateUsernameRejected` | hoaxify-backend/src/test/java/com/hoaxify/UserControllerTest.java:253-271 | signing up with the name of a stored user fails on `username` with the uniqueness rule alone, whose message is "This name is in use" |
| `UserValidationLemmas.MoreUsersMoreViolations` | hoaxify-backend/src/main/java/com/hoaxify/user/UniqueUsernameValidator.java:16-20 | a larger repository can only add violations and failing fields |
| `SignupExamples.ValidUserAccepted` | hoaxify-backend/src/main/java/com/hoaxify/user/User.java:36-48 | a user named `test-user`, displayed as `test-display`, with password `P4ssword`, passes every rule against an empty repository |
| `SignupExamples.NamesOfWrongLengthRejected` | hoaxify-backend/src/test/java/com/hoaxify/UserControllerTest.java:109-154 | usernames and display names of 3 or 256 characters fail their size rule |
| `SignupExamples.PasswordsOfWrongLengthRejected` | hoaxify-backend/src/test/java/com/hoaxify/UserControllerTest.java:127-164 | "P4ssd" and a 260-character password fail the password size rule |
| `SignupExamples.PatternMissRejected` | hoaxify-backend/src/main/java/com/hoaxify/user/User.java:47 | a password lacking a lower-case letter or a digit fails the pattern rule |
| `SignupExamples.AllLowercasePasswordRejected` | hoaxify-backend/src/test/java/com/hoaxify/UserControllerTest.java:166-173 | "alllowercase" has no digit and fails the pattern |
| `SignupExamples.AllUppercasePasswordRejected` | hoaxify-backend/src/test/java/com/hoaxify/UserControllerTest.java:175-182 | "ALLUPPERCASE" has no lower-case letter and fails the pattern, whose message names an upper-case letter the pattern does not require |
| `SignupExamples.AllDigitPasswordRejected` | hoaxify-backend/src/test/java/com/hoaxify/UserControllerTest.java:184-191 | "1234455631" has no lower-case letter and fails the pattern |
| `SignupExamples.UsernameSizeMessage` | hoaxify-backend/src/test/java/com/hoaxify/UserControllerTest.java:231-240 | the username size message is "It must have minimum 4 and maximum 255 characters" |
| `UserViewModel.FromUser` | hoaxify-backend/src/main/java/com/hoaxify/user/vm/UserVM.java:17-22 | the view carries the user's id, username, display name and image; a null id fails |
| `UserViewModel.ProjectionIgnoresPassword` | hoaxify-backend/src/main/java/com/hoaxify/user/vm/UserVM.java:9-15 | the view does not depend on the password, so no password reaches it |
| `UserViewModel.ProjectionKeepsExactlyPublicFields` | hoaxify-backend/src/main/java/com/hoaxify/user/vm/UserVM.java:9-22 | two users with ids have the same view iff they agree on id, username, display name and image |
| `LoginController.HandleLogin` | hoaxify-backend/src/main/java/com/hoaxify/user/LoginController.java:17-20 | login answers with exactly the public view of the authenticated user |
| `LoginController.LoginReturnsPublicView` | hoaxify-backend/src/test/java/com/hoaxify/LoginControllerTest.java:90-148 | a stored user logging in receives its own id, username, display name and image, and the same answer whatever its password |
| `UserListComponent.RenderFollowsState` | hoaxify-frontend/src/components/UserList.js:44-80 | the items are the page content in order; previous is offered iff `first` is not true and next iff `last` is not true (both with flags absent); the error is shown iff set |
| `UserListComponent.UserList.View` | hoaxify-frontend/src/components/UserList.js:50-77 | in any state the component can reach, the listed items are the held page content in order and the error text is shown exactly when a load error is set |
| `UserListComponent.UserList.constructor` | hoaxify-frontend/src/components/UserList.js:7-13 | the initial state is an empty page 0 of size 3 without flags, no load error and no request issued |
| `UserListComponent.UserList.LoadData` | hoaxify-frontend/src/components/UserList.js:15-20 | issues one request for the given page index with the size of the held page, and changes neither page nor error |
| `UserListComponent.UserList.OnLoadSuccess` | hoaxify-frontend/src/components/UserList.js:21-26 | the page becomes the response as a whole and the error is cleared |
| `UserListComponent.UserList.OnLoadFailure` | hoaxify-frontend/src/components/UserList.js:27-29 | the error becomes "User load failed" and the page is kept |
| `UserListComponent.UserList.ComponentDidMount` | hoaxify-frontend/src/components/UserList.js:32-34 | mounting issues one request for page 0 with the held size |
| `UserListComponent.UserList.OnClickNext` | hoaxify-frontend/src/components/UserList.js:36-38 | next requests the held page number plus one, changing nothing else |
| `UserListComponent.UserList.OnClickPrevious` | hoaxify-frontend/src/components/UserList.js:40-42 | previous requests the held page number minus one, changing nothing else, even when that is -1 |
| `UserListScenarios.MountAndClickPreviousEarly` | hoaxify-frontend/src/components/UserList.spec.js:186-198 | mounting issues exactly one request, `{page: 0, size: 3}`; before it settles both controls show and previous asks for page -1 |
| `UserListScenarios.NextLoadsSecondPage` | hoaxify-frontend/src/components/UserList.spec.js:138-216 | on the first of two pages previous is hidden and next shown; next asks for page 1 and then shows the fourth user with next hidden |
| `UserListScenarios.FailureKeepsPageThenSuccessClearsError` | hoaxify-frontend/src/components/UserList.spec.js:233-265 | a failed load keeps the listed users and shows "User load failed"; the next successful load removes the message |

## Left out

- Concurrency of list requests: completions are applied one at a time, in any order the caller picks; the stale-response overwrite race is not modelled beyond that.
- Rendering details: markup, CSS, routing, the `UserListItem` link and `ButtonWithProgress` are not part of this model.
- The signup form controller, the session store, local storage and the `Authorization` header: their implementation is not part of this model.
- Backend paging (default and maximum size, clamping a negative page index) and excluding the logged-in user from the list: their implementation is not part of this model; the list component sends whatever index it computes.
- Password hashing on save, `UserService` and the repository's storage: not part of this model; the repository is a sequence of rows given as a value.
- `CustomAuthorityDeserializer`: JSON plumbing, not modelled.
- `LoginController`'s access-denied handler and Spring Security authentication: framework glue, not modelled.
- The seeding of user1..user15 at startup: not modelled.
- The error map of the signup response (field to one message): the handler that builds it is not part of this model, so which message a field with two violations reports is not modelled; messages are given per violation.
- `UserValidation.ContainsCharIn`: the regular expression's treatment of line terminators (`.` does not match them) and the engine itself are not modelled; the pattern is "contains a character in a..z and one in 0..9".
- `UserValidation.Validate`: lengths count characters, not Java's UTF-16 code units.
- `UniqueUsernames.FindByUsername`: the repository's exception when several rows share a username is not modelled; the first matching row is returned.
- `UserViewModel.FromUser`: ids are unbounded integers, not Java's 32-bit `Integer`.
- `UserListComponent.Page`: `size` is always present; a response without `size` (sending `undefined` as the next size) is not modelled.
