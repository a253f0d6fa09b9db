/**
 * `UserVM` (hoaxify-backend/.../user/vm/UserVM.java): the public view of a
 * user sent to clients. It has no password field.
 */
module UserViewModel {
  import opened Wrappers
  import opened Users

  /** The view's `id` is a primitive `long`, so it is never null. */
  datatype UserVM = UserVM(id: int, username: Option<string>, displayName: Option<string>, image: Option<string>)

  /** Unboxing a null `Integer` id into the `long` field throws. */
  datatype ProjectionError = NullIdUnboxed

  /** `new UserVM(user)`: copies id, username, displayName and image. */
  function FromUser(u: User): (r: Result<UserVM, ProjectionError>)
    ensures r.Failure? <==> u.id.None?
    ensures r.Success? ==>
      && r.value.id == u.id.value
      && r.value.username == u.username
      && r.value.displayName == u.displayName
      && r.value.image == u.image
  {
    if u.id.None? then Failure(NullIdUnboxed)
    else Success(UserVM(u.id.value, u.username, u.displayName, u.image))
  }

  /** The projection never depends on the password. */
  lemma ProjectionIgnoresPassword(u: User, password: Option<string>)
    ensures FromUser(u.(password := password)) == FromUser(u)
  {
  }

  /**
   * Two users with ids project to the same view exactly when they agree on
   * the four public fields: the view keeps all of them and nothing else.
   */
  lemma ProjectionKeepsExactlyPublicFields(u1: User, u2: User)
    requires u1.id.Some? && u2.id.Some?
    ensures FromUser(u1) == FromUser(u2) <==>
      u1.id == u2.id && u1.username == u2.username && u1.displayName == u2.displayName && u1.image == u2.image
  {
  }
}

/**
 * `LoginController.handleLogin` (hoaxify-backend/.../user/LoginController.java):
 * answers a successful login with the public view of the authenticated user.
 */
module LoginController {
  import opened Wrappers
  import opened Users
  import opened UserViewModel

  function HandleLogin(loggedInUser: User): (r: Result<UserVM, ProjectionError>)
    ensures r == FromUser(loggedInUser)
  {
    FromUser(loggedInUser)
  }

  /**
   * A stored user (one with an id) logging in receives its own id,
   * username, display name and image; what it receives is the same
   * whatever its password.
   */
  lemma LoginReturnsPublicView(u: User, otherPassword: Option<string>)
    requires u.id.Some?
    ensures HandleLogin(u) == Success(UserVM(u.id.value, u.username, u.displayName, u.image))
    ensures HandleLogin(u.(password := otherPassword)) == HandleLogin(u)
  {
  }
}
