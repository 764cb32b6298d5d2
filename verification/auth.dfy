/** The single resident (signed-in) user and the three ways to change it:
    sign in against the seed accounts, register locally, sign out. */
module Auth {
  import opened Wrappers
  import opened Text
  import opened UserTypes

  datatype AuthError = NoAccount | EmailTaken

  /** The resident user after an action, and the error it raised, if any. */
  datatype AuthStep = AuthStep(user: Option<AuthUser>, error: Option<AuthError>)

  /** Emails are compared after lower-casing both sides. */
  predicate SameEmail(a: string, b: string) {
    ToLower(a) == ToLower(b)
  }

  /** The first account whose email matches, ignoring case. */
  function FindUserByEmail(users: seq<User>, email: string): (r: Option<User>)
    ensures r.None? <==> forall i :: 0 <= i < |users| ==> !SameEmail(users[i].email, email)
    ensures r.Some? ==>
              exists k :: 0 <= k < |users| && users[k] == r.value && SameEmail(r.value.email, email)
                          && forall j :: 0 <= j < k ==> !SameEmail(users[j].email, email)
    decreases |users|
  {
    if users == [] then None
    else if SameEmail(users[0].email, email) then Some(users[0])
    else
      var r := FindUserByEmail(users[1..], email);
      assert forall i :: 1 <= i < |users| ==> users[i] == users[1..][i - 1];
      if r.Some? then
        var k :| 0 <= k < |users[1..]| && users[1..][k] == r.value && SameEmail(r.value.email, email)
                 && forall j :: 0 <= j < k ==> !SameEmail(users[1..][j].email, email);
        assert users[k + 1] == r.value;
        r
      else r
  }

  /** The account fields plus a session token. */
  function SignedIn(u: User, token: string): (r: AuthUser)
    ensures r.id == u.id && r.name == u.name && r.email == u.email
    ensures r.role == u.role && r.createdAt == u.createdAt && r.token == token
  {
    AuthUser(u.id, u.name, u.email, u.role, u.createdAt, token)
  }

  /** `login`: looks the email up among the seed accounts; the password is
      never checked. An unknown email raises an error and keeps the resident
      user. */
  function Login(users: seq<User>, resident: Option<AuthUser>, email: string,
                 password: string, token: string): (r: AuthStep)
    ensures r.error == Some(NoAccount) <==> forall i :: 0 <= i < |users| ==> !SameEmail(users[i].email, email)
    ensures r.error.Some? ==> r.error == Some(NoAccount) && r.user == resident
    ensures r.error.None? ==>
              exists k :: 0 <= k < |users| && r.user == Some(SignedIn(users[k], token))
                          && SameEmail(users[k].email, email)
                          && forall j :: 0 <= j < k ==> !SameEmail(users[j].email, email)
  {
    match FindUserByEmail(users, email)
    case None => AuthStep(resident, Some(NoAccount))
    case Some(found) => AuthStep(Some(SignedIn(found, token)), None)
  }

  /** The outcome of signing in depends on the email only up to case, and
      not on the password or the previous resident user when it succeeds. */
  lemma LoginIgnoresCaseAndPassword(users: seq<User>, resident1: Option<AuthUser>, resident2: Option<AuthUser>,
                                     email1: string, email2: string, password1: string, password2: string,
                                     token: string)
    requires SameEmail(email1, email2)
    ensures Login(users, resident1, email1, password1, token).error
            == Login(users, resident2, email2, password2, token).error
    ensures Login(users, resident1, email1, password1, token).error.None? ==>
              Login(users, resident1, email1, password1, token).user
              == Login(users, resident2, email2, password2, token).user
  {
    SameFind(users, email1, email2);
  }

  lemma {:induction false} SameFind(users: seq<User>, email1: string, email2: string)
    requires SameEmail(email1, email2)
    ensures FindUserByEmail(users, email1) == FindUserByEmail(users, email2)
    decreases |users|
  {
    if users != [] {
      SameFind(users[1..], email1, email2);
    }
  }

  /** `register`: refused exactly when a resident user already has the email
      (ignoring case); the seed accounts are not consulted. On success the
      resident user becomes the new account, with the email as typed. */
  function Register(resident: Option<AuthUser>, name: string, email: string, role: UserRole,
                    password: string, id: string, createdAt: string, token: string): (r: AuthStep)
    ensures r.error.Some? <==> resident.Some? && SameEmail(resident.value.email, email)
    ensures r.error.Some? ==> r.error == Some(EmailTaken) && r.user == resident
    ensures r.error.None? ==> r.user == Some(AuthUser(id, name, email, role, createdAt, token))
  {
    if resident.Some? && SameEmail(resident.value.email, email) then AuthStep(resident, Some(EmailTaken))
    else AuthStep(Some(AuthUser(id, name, email, role, createdAt, token)), None)
  }

  /** Registering the same address twice in a row (in any case) fails the
      second time and keeps the first account. */
  lemma RegisterTwiceFails(resident: Option<AuthUser>, name1: string, email1: string, role1: UserRole,
                           password1: string, id1: string, at1: string, token1: string,
                           name2: string, email2: string, role2: UserRole,
                           password2: string, id2: string, at2: string, token2: string)
    requires Register(resident, name1, email1, role1, password1, id1, at1, token1).error.None?
    requires SameEmail(email1, email2)
    ensures var first := Register(resident, name1, email1, role1, password1, id1, at1, token1).user;
            Register(first, name2, email2, role2, password2, id2, at2, token2)
            == AuthStep(first, Some(EmailTaken))
  {
  }

  /** `logout`: no resident user afterwards. */
  function Logout(resident: Option<AuthUser>): (r: AuthStep)
    ensures r.user.None? && r.error.None?
  {
    AuthStep(None, None)
  }

  /** After signing out, registration never conflicts. */
  lemma RegisterAfterLogoutSucceeds(resident: Option<AuthUser>, name: string, email: string, role: UserRole,
                                    password: string, id: string, createdAt: string, token: string)
    ensures Register(Logout(resident).user, name, email, role, password, id, createdAt, token).error.None?
  {
  }
}
