/**
 * `UniqueUsernameValidator` (hoaxify-backend/.../user/UniqueUsernameValidator.java):
 * the `@UniqueUsername` constraint, answered by one lookup in the user
 * repository.
 */
module UniqueUsernames {
  import opened Wrappers
  import opened Users

  /** The rows of the user repository, in storage order. */
  type UserStore = seq<User>

  /**
   * The `ConstraintValidatorContext` handed to `isValid`. The validator
   * never consults it; its one observable part is kept so that the model
   * can say that.
   */
  datatype ValidatorContext = ValidatorContext(defaultMessage: string)

  /** The message the constraint reports (asserted by the signup tests). */
  const UsernameInUseMessage: string := "This name is in use"

  /**
   * `UserRepository.findByUsername`: a stored row whose username equals
   * `name`, or `None`. A null `name` is compared like any other value, as
   * the repository's derived query turns a null argument into `IS NULL`.
   */
  function FindByUsername(store: UserStore, name: Option<string>): (r: Option<User>)
    ensures r.Some? ==> r.value in store && r.value.username == name
    ensures r.None? <==> forall i :: 0 <= i < |store| ==> store[i].username != name
  {
    if store == [] then None
    else if store[0].username == name then Some(store[0])
    else FindByUsername(store[1..], name)
  }

  /** Whether some stored row carries the username `name`. */
  ghost predicate Taken(store: UserStore, name: Option<string>)
  {
    exists i :: 0 <= i < |store| && store[i].username == name
  }

  /**
   * `isValid(value, context)`: the name is acceptable exactly when the
   * repository holds no user by that name. The store is a value, so the
   * lookup cannot change it.
   */
  function IsValid(value: Option<string>, context: ValidatorContext, store: UserStore): (ok: bool)
    ensures ok <==> !Taken(store, value)
  {
    FindByUsername(store, value).None?
  }

  /** The verdict does not depend on the validator context. */
  lemma IsValidIgnoresContext(value: Option<string>, c1: ValidatorContext, c2: ValidatorContext, store: UserStore)
    ensures IsValid(value, c1, store) == IsValid(value, c2, store)
  {
  }

  /** Once a row named `name` is stored, `name` is no longer valid. */
  lemma StoredNameIsRejected(store: UserStore, saved: User, c: ValidatorContext)
    ensures !IsValid(saved.username, c, store + [saved])
    ensures !IsValid(saved.username, c, [saved] + store)
  {
    assert (store + [saved])[|store|] == saved;
    assert ([saved] + store)[0] == saved;
  }

  /**
   * Adding rows to the repository can turn a valid name invalid, never an
   * invalid one valid: a name valid against the larger store was valid
   * against every part of it.
   */
  lemma {:induction false} AddingUsersOnlyInvalidates(value: Option<string>, c: ValidatorContext, store: UserStore, added: UserStore)
    ensures IsValid(value, c, store + added) ==> IsValid(value, c, store)
    ensures IsValid(value, c, added + store) ==> IsValid(value, c, store)
    ensures !IsValid(value, c, store) ==> !IsValid(value, c, store + added) && !IsValid(value, c, added + store)
  {
    if !IsValid(value, c, store) {
      var i :| 0 <= i < |store| && store[i].username == value;
      assert (store + added)[i] == store[i];
      assert (added + store)[|added| + i] == store[i];
    }
  }
}
