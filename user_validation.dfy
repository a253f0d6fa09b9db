/**
 * Bean Validation of a signup `User` against the constraint annotations on
 * its fields (hoaxify-backend/.../user/User.java): `@NotNull`, `@Size`,
 * `@Pattern` and `@UniqueUsername`. Validation yields the set of violated
 * constraints; the fields carrying an error are the fields of that set.
 */
module UserValidation {
  import opened Wrappers
  import opened Users
  import opened UniqueUsernames

  datatype Field = Username | DisplayName | Password | Image

  /** One constraint annotation; `Size` bounds are inclusive. */
  datatype Constraint = NotNull | Size(min: nat, max: nat) | Pattern | UniqueUsername

  datatype Violation = Violation(field: Field, constraint: Constraint)

  /** The annotations User.java puts on each field; `image` has none. */
  function Constraints(f: Field): seq<Constraint>
  {
    match f
    case Username => [NotNull, Size(4, 255), UniqueUsername]
    case DisplayName => [NotNull, Size(4, 255)]
    case Password => [NotNull, Size(8, 255), Pattern]
    case Image => []
  }

  function FieldValue(u: User, f: Field): Option<string>
  {
    match f
    case Username => u.username
    case DisplayName => u.displayName
    case Password => u.password
    case Image => u.image
  }

  /**
   * Whether `s` holds a character in the range `lo..hi`, scanning from the
   * front as the regular expression's `.*[lo-hi]` lookahead does.
   */
  function ContainsCharIn(s: string, lo: char, hi: char): (r: bool)
    ensures r <==> exists i :: 0 <= i < |s| && lo <= s[i] <= hi
  {
    if s == [] then false
    else if lo <= s[0] <= hi then true
    else
      var r := ContainsCharIn(s[1..], lo, hi);
      assert forall i :: 1 <= i < |s| ==> s[i] == s[1..][i - 1];
      r
  }

  /**
   * The password pattern `^(?=.*[a-z])(?=.*\d).*$`: at least one ASCII
   * lower-case letter and at least one decimal digit. Nothing requires an
   * upper-case letter.
   */
  predicate MatchesPasswordPattern(s: string)
  {
    ContainsCharIn(s, 'a', 'z') && ContainsCharIn(s, '0', '9')
  }

  /**
   * Whether a value satisfies one constraint. Null satisfies every
   * constraint except `NotNull`; the uniqueness check is the validator's
   * repository lookup.
   */
  predicate Satisfies(c: Constraint, v: Option<string>, store: UserStore)
  {
    match c
    case NotNull => v.Some?
    case Size(min, max) => v.None? || min <= |v.value| <= max
    case Pattern => v.None? || MatchesPasswordPattern(v.value)
    case UniqueUsername => IsValid(v, ValidatorContext(""), store)
  }

  /** `s` holds an ASCII lower-case letter. */
  predicate HasLowercase(s: string) { exists i :: 0 <= i < |s| && 'a' <= s[i] <= 'z' }

  /** `s` holds a decimal digit. */
  predicate HasDigit(s: string) { exists i :: 0 <= i < |s| && '0' <= s[i] <= '9' }

  /**
   * Validating a signup user: each declared constraint is checked on its
   * own field, and the result holds exactly the ones that fail. Stated
   * field by field: `username` must be non-null, 4 to 255 characters and
   * not already stored; `displayName` non-null and 4 to 255 characters;
   * `password` non-null, 8 to 255 characters, with a lower-case letter and
   * a digit; `image` is unconstrained. A null value fails only not-null.
   */
  function Validate(u: User, store: UserStore): (errs: set<Violation>)
    ensures Violation(Username, NotNull) in errs <==> u.username.None?
    ensures Violation(Username, Size(4, 255)) in errs <==>
      u.username.Some? && !(4 <= |u.username.value| <= 255)
    ensures Violation(Username, UniqueUsername) in errs <==> Taken(store, u.username)
    ensures Violation(DisplayName, NotNull) in errs <==> u.displayName.None?
    ensures Violation(DisplayName, Size(4, 255)) in errs <==>
      u.displayName.Some? && !(4 <= |u.displayName.value| <= 255)
    ensures Violation(Password, NotNull) in errs <==> u.password.None?
    ensures Violation(Password, Size(8, 255)) in errs <==>
      u.password.Some? && !(8 <= |u.password.value| <= 255)
    ensures Violation(Password, Pattern) in errs <==>
      u.password.Some? && !(HasLowercase(u.password.value) && HasDigit(u.password.value))
    ensures forall c :: Violation(Image, c) !in errs
    ensures errs <= {
      Violation(Username, NotNull), Violation(Username, Size(4, 255)), Violation(Username, UniqueUsername),
      Violation(DisplayName, NotNull), Violation(DisplayName, Size(4, 255)),
      Violation(Password, NotNull), Violation(Password, Size(8, 255)), Violation(Password, Pattern)}
  {
    var names := FieldViolations(Username, u.username, store);
    var displayNames := FieldViolations(DisplayName, u.displayName, store);
    var passwords := FieldViolations(Password, u.password, store);
    var images := FieldViolations(Image, u.image, store);
    assert images == {};
    assert names <= {Violation(Username, NotNull), Violation(Username, Size(4, 255)), Violation(Username, UniqueUsername)};
    assert displayNames <= {Violation(DisplayName, NotNull), Violation(DisplayName, Size(4, 255))};
    assert passwords <= {Violation(Password, NotNull), Violation(Password, Size(8, 255)), Violation(Password, Pattern)};
    names + displayNames + passwords + images
  }

  /** The constraints of field `f` that its value `v` fails. */
  function FieldViolations(f: Field, v: Option<string>, store: UserStore): (errs: set<Violation>)
    ensures forall x :: x in errs <==> x.field == f && x.constraint in Constraints(f) && !Satisfies(x.constraint, v, store)
  {
    set c | c in Constraints(f) && !Satisfies(c, v, store) :: Violation(f, c)
  }

  /**
   * The fields that receive a validation error: a field is listed exactly
   * when its value breaks one of its rules.
   */
  function FailingFields(u: User, store: UserStore): (fs: set<Field>)
    ensures Username in fs <==>
      u.username.None? || !(4 <= |u.username.value| <= 255) || Taken(store, u.username)
    ensures DisplayName in fs <==>
      u.displayName.None? || !(4 <= |u.displayName.value| <= 255)
    ensures Password in fs <==>
      u.password.None? || !(8 <= |u.password.value| <= 255)
      || !(HasLowercase(u.password.value) && HasDigit(u.password.value))
    ensures Image !in fs
  {
    var errs := Validate(u, store);
    var fs := set v | v in errs :: v.field;
    assert Username in fs ==> exists c :: Violation(Username, c) in errs;
    assert DisplayName in fs ==> exists c :: Violation(DisplayName, c) in errs;
    assert Password in fs ==> exists c :: Violation(Password, c) in errs;
    fs
  }

  /** The message reported for a violation (the message bundle's texts). */
  function Message(v: Violation): string
  {
    match v.constraint
    case NotNull => if v.field == Username then "Username cannot be null" else "Cannot be null"
    case Size(min, max) =>
      "It must have minimum " + NatToDecimal(min) + " and maximum " + NatToDecimal(max) + " characters"
    case Pattern => "Password must have at least one uppercase, one lowercase letter and one number"
    case UniqueUsername => UsernameInUseMessage
  }

  function NatToDecimal(n: nat): string
  {
    if n < 10 then [(n + '0' as int) as char]
    else NatToDecimal(n / 10) + [(n % 10 + '0' as int) as char]
  }
}
