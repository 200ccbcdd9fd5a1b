/**
 * backend/app/routes/api/auth_routes.py: the older login route, which accepts an email or
 * a username, and its who-am-I endpoint. It works on the same users table and session as
 * the main auth API (module AuthApi).
 */
module AuthRoutes {
  import opened Common
  import opened AuthApi

  /**
   * The row the legacy route logs in as: by the stripped email when one is given, and by
   * the stripped username only when the email lookup found nothing.
   */
  function LegacyLookup(users: seq<Account>, email: string, username: string): (r: Option<nat>)
    ensures r.Some? ==> r.value < |users|
    ensures email != "" && FindByEmail(users, email).Some? ==> r == FindByEmail(users, email)
    ensures !(email != "" && FindByEmail(users, email).Some?) && username != "" ==>
              r == FindByUsername(users, username)
    ensures (email == "" || FindByEmail(users, email).None?) && username == "" ==> r.None?
  {
    var byEmail := if email != "" then FindByEmail(users, email) else None;
    if byEmail.None? && username != "" then FindByUsername(users, username) else byEmail
  }

  /**
   * The legacy login's decision on the stripped email and username and the password: an
   * empty password is refused (400) before any lookup; no matching row gives 401 'User not
   * found'; a wrong password 401 'Invalid credentials'; suspension is looked at only after
   * the password and gives 403.
   */
  function LegacyDecide(users: seq<Account>, email: string, username: string, password: string,
                        check: PasswordCheck): (r: Decision)
    ensures r == Reject(PasswordRequired) <==> password == ""
    ensures password != "" ==> (r == Reject(UserNotFound) <==> LegacyLookup(users, email, username).None?)
    ensures password != "" && LegacyLookup(users, email, username).Some? ==>
              r == CheckFound(users, LegacyLookup(users, email, username).value, password, check)
    ensures r.Admit? ==> r.index < |users| && check(users[r.index].passwordHash, password)
                         && !users[r.index].isSuspended
  {
    if password == "" then Reject(PasswordRequired)
    else
      var k := LegacyLookup(users, email, username);
      if k.None? then Reject(UserNotFound)
      else CheckFound(users, k.value, password, check)
  }

  /** The request's fields as the route reads them: `data.get(key, '').strip()`, the password unstripped (None is an absent key). */
  function LegacyLoginDecision(users: seq<Account>, email: Option<string>, username: Option<string>,
                               password: Option<string>, check: PasswordCheck): (r: Decision)
    ensures r.Admit? ==> r.index < |users| && !users[r.index].isSuspended
  {
    LegacyDecide(users, Trim(OrEmpty(email)), Trim(OrEmpty(username)), OrEmpty(password), check)
  }

  /**
   * Unlike the main route, a request with a password but no usable email or username is
   * not a 400: the lookup finds nobody and the answer is 401 'User not found'.
   */
  lemma BlankIdentifiersNotFound(users: seq<Account>, email: string, username: string, password: string,
                                 check: PasswordCheck)
    requires password != ""
    requires forall i :: 0 <= i < |email| ==> IsSpace(email[i])
    requires forall i :: 0 <= i < |username| ==> IsSpace(username[i])
    ensures LegacyLoginDecision(users, Some(email), Some(username), Some(password), check) == Reject(UserNotFound)
    ensures ApiLoginDecision(users, Some(username), Some(password), check) == Reject(CredentialsRequired)
  {
    TrimEmptyIff(email);
    TrimEmptyIff(username);
  }

  /**
   * Without an email both routes log in the same row by username; where the main route
   * says 'Invalid credentials' for an unknown name, the legacy one says 'User not found'.
   */
  lemma AgreesWithApiByUsername(users: seq<Account>, username: string, password: string, check: PasswordCheck)
    requires Trim(username) != "" && password != ""
    ensures var legacy := LegacyLoginDecision(users, None, Some(username), Some(password), check);
            var api := ApiLoginDecision(users, Some(username), Some(password), check);
            && (legacy.Admit? <==> api.Admit?)
            && (legacy.Admit? ==> legacy == api)
            && (legacy == Reject(UserNotFound) ==> api == Reject(InvalidCredentials))
            && (legacy != Reject(UserNotFound) ==> legacy == api)
  {
    assert Trim(OrEmpty(None)) == "";
  }

  /**
   * POST /api/auth/login, on the fields as the route reads them (LegacyLoginDecision
   * composes the reading with the decision): only an admitted login changes the session
   * or the table.
   */
  method LegacyLogin(store: SessionStore, email: string, username: string, password: string,
                     check: PasswordCheck, now: string)
    returns (r: LoginResponse)
    requires store.Valid()
    modifies store
    ensures store.Valid()
    ensures var d := LegacyDecide(old(store.users), email, username, password, check);
            && (d.Reject? ==> r == d.response && store.users == old(store.users) && store.current == old(store.current))
            && (d.Admit? ==>
                  && store.users == old(store.users)[d.index := old(store.users)[d.index].(lastLogin := Some(now))]
                  && store.current == Some(old(store.users)[d.index].id)
                  && r == Success(Public(old(store.users)[d.index])))
  {
    var d := LegacyDecide(store.users, email, username, password, check);
    if d.Reject? {
      return d.response;
    }
    store.SignIn(d.index, now);
    r := Success(Public(store.users[d.index]));
  }

  /** GET /api/auth/me: the same answer as the main route's /me (None stands for the 401). */
  function LegacyMe(store: SessionStore): (r: Option<PublicUser>)
    reads store
    ensures r.Some? <==> store.current.Some? && FindById(store.users, store.current.value).Some?
    ensures r.Some? ==> r.value == Public(store.users[FindById(store.users, store.current.value).value])
  {
    store.ApiMe()
  }
}
