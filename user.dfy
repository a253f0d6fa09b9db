/**
 * The `User` entity (hoaxify-backend/.../user/User.java): its persisted
 * fields and the constant answers it gives as a Spring Security
 * `UserDetails`.
 */
module Users {
  import opened Wrappers

  /**
   * A user as the backend holds it. Every field is a boxed Java reference
   * and may be null, which is `None` here.
   */
  datatype User = User(
    id: Option<int>,
    username: Option<string>,
    displayName: Option<string>,
    password: Option<string>,
    image: Option<string>)

  /** A `GrantedAuthority`: the only thing it answers is its name. */
  datatype GrantedAuthority = GrantedAuthority(authority: string)

  /** The role every user is granted. */
  const RoleUser: string := "Role_USER"

  /** `getAuthorities`: a one-element list naming the user role, whoever the user is. */
  function Authorities(u: User): (r: seq<GrantedAuthority>)
    ensures |r| == 1 && r[0].authority == RoleUser
  {
    [GrantedAuthority(RoleUser)]
  }

  /** `isAccountNonExpired` */
  predicate IsAccountNonExpired(u: User) { true }

  /** `isAccountNonLocked` */
  predicate IsAccountNonLocked(u: User) { true }

  /** `isCredentialsNonExpired` */
  predicate IsCredentialsNonExpired(u: User) { true }

  /** `isEnabled` */
  predicate IsEnabled(u: User) { true }

  /**
   * Every user, whatever its fields hold, is an enabled account that is
   * neither expired nor locked, with unexpired credentials, and holds the
   * same authorities as every other user.
   */
  lemma UserDetailsAreConstant(u: User, other: User)
    ensures IsAccountNonExpired(u) && IsAccountNonLocked(u)
    ensures IsCredentialsNonExpired(u) && IsEnabled(u)
    ensures Authorities(u) == Authorities(other) == [GrantedAuthority("Role_USER")]
  {
  }
}
