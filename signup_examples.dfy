/**
 * The signup examples of the backend's controller tests, stated against
 * the validation model.
 */
module SignupExamples {
  import opened Wrappers
  import opened Users
  import opened UniqueUsernames
  import opened UserValidation
  import opened UserValidationLemmas

  /** `n` copies of `c`. */
  function Repeat(c: char, n: nat): (s: string)
    ensures |s| == n && forall i :: 0 <= i < n ==> s[i] == c
  {
    if n == 0 then [] else Repeat(c, n - 1) + [c]
  }

  /** A valid signup user. */
  const ValidUser: User := User(None, Some("test-user"), Some("test-display"), Some("P4ssword"), None)

  /** The valid user passes every rule against an empty repository. */
  lemma ValidUserAccepted()
    ensures Validate(ValidUser, []) == {}
  {
  }

  /** Usernames and display names of 3 or 256 characters fail their size rule. */
  lemma NamesOfWrongLengthRejected(store: UserStore)
    ensures Violation(Username, Size(4, 255)) in Validate(ValidUser.(username := Some("abc")), store)
    ensures Violation(Username, Size(4, 255)) in Validate(ValidUser.(username := Some(Repeat('a', 256))), store)
    ensures Violation(DisplayName, Size(4, 255)) in Validate(ValidUser.(displayName := Some("abc")), store)
    ensures Violation(DisplayName, Size(4, 255)) in Validate(ValidUser.(displayName := Some(Repeat('a', 256))), store)
  {
  }

  /** "P4ssd" (5 characters) and "P4ss" followed by 256 letters fail the size rule. */
  lemma PasswordsOfWrongLengthRejected(store: UserStore)
    ensures Violation(Password, Size(8, 255)) in Validate(ValidUser.(password := Some("P4ssd")), store)
    ensures Violation(Password, Size(8, 255)) in Validate(ValidUser.(password := Some("P4ss" + Repeat('a', 256))), store)
  {
  }

  /** A password without both a lower-case letter and a digit fails the pattern rule. */
  lemma PatternMissRejected(p: string, store: UserStore)
    requires !(HasLowercase(p) && HasDigit(p))
    ensures Violation(Password, Pattern) in Validate(ValidUser.(password := Some(p)), store)
  {
  }

  /** An all-lower-case password has no digit, so it fails the pattern. */
  lemma AllLowercasePasswordRejected(store: UserStore)
    ensures Violation(Password, Pattern) in Validate(ValidUser.(password := Some("alllowercase")), store)
  {
    assert !HasDigit("alllowercase") by { assert !ContainsCharIn("alllowercase", '0', '9'); }
    PatternMissRejected("alllowercase", store);
  }

  /**
   * An all-upper-case password has no lower-case letter, so it fails the
   * pattern, whose message names an upper-case letter that the pattern
   * never asks for.
   */
  lemma AllUppercasePasswordRejected(store: UserStore)
    ensures Violation(Password, Pattern) in Validate(ValidUser.(password := Some("ALLUPPERCASE")), store)
    ensures Message(Violation(Password, Pattern)) ==
      "Password must have at least one uppercase, one lowercase letter and one number"
  {
    assert !HasLowercase("ALLUPPERCASE") by { assert !ContainsCharIn("ALLUPPERCASE", 'a', 'z'); }
    PatternMissRejected("ALLUPPERCASE", store);
  }

  /** An all-digit password has no lower-case letter, so it fails the pattern. */
  lemma AllDigitPasswordRejected(store: UserStore)
    ensures Violation(Password, Pattern) in Validate(ValidUser.(password := Some("1234455631")), store)
  {
    assert !HasLowercase("1234455631") by { assert !ContainsCharIn("1234455631", 'a', 'z'); }
    PatternMissRejected("1234455631", store);
  }

  /** The size message names the username's bounds. */
  lemma UsernameSizeMessage()
    ensures Message(Violation(Username, Size(4, 255))) == "It must have minimum 4 and maximum 255 characters"
  {
  }
}
