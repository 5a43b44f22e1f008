/** Identities: the accounts of the user table, the identity a request
    carries, and the admin predicate that gates experience editing. */
module Auth {

  /** An account of the user table. */
  datatype User = User(
    username: string,
    email: string,
    isStaff: bool,
    isSuperuser: bool,
    hasUsablePassword: bool)

  /** `request.user`: anonymous, or signed in as an account. */
  datatype Principal = Anonymous | Authenticated(user: User)

  /** The reserved name of the shared read-only visitor account. */
  const GuestName: string := "guest"

  /** `is_admin(user)` (views.py): signed in, not the guest account, and
      flagged staff or superuser. */
  predicate IsAdmin(p: Principal) {
    p.Authenticated? && p.user.username != GuestName && (p.user.isStaff || p.user.isSuperuser)
  }

  /** An account named "guest" is never an admin, even when flagged staff
      or superuser, and neither is an anonymous visitor. */
  lemma GuestNeverAdmin(u: User)
    requires u.username == GuestName
    ensures !IsAdmin(Authenticated(u))
    ensures !IsAdmin(Anonymous)
  {
  }

  /** The user table is keyed by username. */
  predicate UsersWellFormed(users: map<string, User>) {
    forall n :: n in users ==> users[n].username == n
  }
}
