/** `AutoGuestLoginMiddleware.process_request`: signs anonymous visitors in
    as the shared guest account, creating it on first use. The hook always
    returns `None`, so its effect is only on the user table and the
    request's identity, which is all the result below carries. */
module Middleware {
  import opened Text
  import opened Auth

  /** The account `get_or_create(username='guest', defaults=...)` creates,
      after `set_unusable_password()`. */
  const NewGuest: User := User(GuestName, "guest@example.com", false, false, false)

  /** Paths the hook leaves alone to avoid a redirect loop. */
  predicate SkipsPath(path: string) {
    StartsWith(path, "/login/") || StartsWith(path, "/logout/")
  }

  /** (user table, identity) after the hook has run. */
  function ProcessRequest(users: map<string, User>, principal: Principal, path: string): (r: (map<string, User>, Principal))
    ensures principal.Authenticated? || SkipsPath(path) ==> r == (users, principal)
    ensures principal.Anonymous? && !SkipsPath(path) ==>
      && r.0.Keys == users.Keys + {GuestName}
      && (forall n :: n in users ==> r.0[n] == users[n])
      && r.1 == Authenticated(r.0[GuestName])
  {
    if principal.Authenticated? then (users, principal)
    else if SkipsPath(path) then (users, principal)
    else
      var guest := if GuestName in users then users[GuestName] else NewGuest;
      (users[GuestName := guest], Authenticated(guest))
  }

  /** A first visit creates the guest account unprivileged and without a
      usable password. */
  lemma CreatedGuestIsUnprivileged(users: map<string, User>, path: string)
    requires GuestName !in users && !SkipsPath(path)
    ensures var (users', p) := ProcessRequest(users, Anonymous, path);
      && users'[GuestName] == NewGuest
      && !users'[GuestName].isStaff && !users'[GuestName].isSuperuser
      && !users'[GuestName].hasUsablePassword
      && p == Authenticated(NewGuest) && !IsAdmin(p)
  {
  }

  /** Every anonymous request off the login/logout paths ends up signed in
      as "guest"; the hook never signs anyone in as an admin, and never
      changes whether the request is admin. */
  lemma NeverGrantsAdmin(users: map<string, User>, principal: Principal, path: string)
    requires UsersWellFormed(users)
    ensures var (users', p) := ProcessRequest(users, principal, path);
      && UsersWellFormed(users')
      && IsAdmin(p) == IsAdmin(principal)
      && (principal.Anonymous? && !SkipsPath(path) ==> p.Authenticated? && p.user.username == GuestName)
  {
    var (users', p) := ProcessRequest(users, principal, path);
    if principal.Anonymous? && !SkipsPath(path) {
      assert p.user == users'[GuestName];
    }
  }

  /** Once a guest account exists the hook never changes the user table
      again, whoever asks for whatever path; so there is never more than
      one guest, and a run adds at most one account. */
  lemma GuestIsReused(users: map<string, User>, principal: Principal, path: string)
    ensures GuestName in users ==> ProcessRequest(users, principal, path).0 == users
    ensures |ProcessRequest(users, principal, path).0| <= |users| + 1
  {
    var users1 := ProcessRequest(users, principal, path).0;
    if principal.Anonymous? && !SkipsPath(path) {
      assert users1.Keys == users.Keys + {GuestName};
      if GuestName in users {
        assert users1.Keys == users.Keys;
      }
    }
  }
}
