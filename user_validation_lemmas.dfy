/**
 * Properties of signup validation: how null and `image` are treated, the
 * uniqueness rule, and the examples the backend's signup tests
 * exercise.
 */
module UserValidationLemmas {
  import opened Wrappers
  import opened Users
  import opened UniqueUsernames
  import opened UserValidation

  /** `image` carries no constraint: it never fails and never matters. */
  lemma ImageIsUnconstrained(u: User, store: UserStore, image: Option<string>)
    ensures Image !in FailingFields(u, store)
    ensures Validate(u.(image := image), store) == Validate(u, store)
  {
  }

  /**
   * A null field fails its `NotNull` rule and nothing else; for the
   * username this needs a store with no null-named row, which the
   * validated rows of the repository never have.
   */
  lemma NullFailsOnlyNotNull(u: User, store: UserStore, f: Field)
    requires f != Image && FieldValue(u, f).None?
    requires f == Username ==> !Taken(store, None)
    ensures Violation(f, NotNull) in Validate(u, store)
    ensures forall c :: Violation(f, c) in Validate(u, store) ==> c == NotNull
  {
  }

  /** A user whose every field is null (`new User()` in the tests). */
  const AllNull: User := User(None, None, None, None, None)

  /** An all-null user has errors on exactly the three non-null fields. */
  lemma AllNullUserFailsThreeFields(store: UserStore)
    requires !Taken(store, None)
    ensures Validate(AllNull, store) ==
      {Violation(Username, NotNull), Violation(DisplayName, NotNull), Violation(Password, NotNull)}
    ensures FailingFields(AllNull, store) == {Username, DisplayName, Password}
    ensures Message(Violation(Username, NotNull)) == "Username cannot be null"
    ensures Message(Violation(Password, NotNull)) == "Cannot be null"
  {
  }

  /**
   * Once a user named `n` is stored, signing up again as `n` with a name of
   * valid length fails on `username` with the uniqueness rule alone, whose
   * message is "This name is in use".
   */
  lemma DuplicateUsernameRejected(saved: User, store: UserStore, u: User)
    requires u.username == saved.username && u.username.Some?
    requires 4 <= |u.username.value| <= 255
    ensures Violation(Username, UniqueUsername) in Validate(u, store + [saved])
    ensures forall c :: Violation(Username, c) in Validate(u, store + [saved]) ==> c == UniqueUsername
    ensures Message(Violation(Username, UniqueUsername)) == "This name is in use"
  {
    StoredNameIsRejected(store, saved, ValidatorContext(""));
  }

  /** Adding users to the repository can only add violations. */
  lemma MoreUsersMoreViolations(u: User, store: UserStore, added: UserStore)
    ensures Validate(u, store) <= Validate(u, store + added)
    ensures FailingFields(u, store) <= FailingFields(u, store + added)
  {
    AddingUsersOnlyInvalidates(u.username, ValidatorContext(""), store, added);
    forall v | v in Validate(u, store) ensures v in Validate(u, store + added) {
      if v.constraint == UniqueUsername {
        AddingUsersOnlyInvalidates(FieldValue(u, v.field), ValidatorContext(""), store, added);
      }
    }
  }
}
