/**
 * backend/app/routes/auth_api.py: the JSON login, logout and who-am-I endpoints. The
 * `users` table is a sequence of rows in primary-key order, the Flask-Login session is the
 * id of the logged-in user, the password check (`check_password_hash`) is an abstract
 * function passed in and the clock is an input.
 */
module AuthApi {
  import opened Common

  /** A `users` row as the login endpoints read and write it. */
  datatype Account = Account(
    id: int, username: string, email: Option<string>, passwordHash: string,
    isAdmin: bool, isSuspended: bool, lastLogin: Option<string>,
    facilityName: Option<string>, address: Option<string>,
    latitude: Option<real>, longitude: Option<real>)

  /** `User.to_public_dict()`: everything except the hash and the last login. */
  datatype PublicUser = PublicUser(
    id: int, username: string, email: Option<string>, isAdmin: bool, isSuspended: bool,
    facilityName: Option<string>, address: Option<string>,
    latitude: Option<real>, longitude: Option<real>)

  /** `check_password_hash(hash, password)`. */
  type PasswordCheck = (string, string) -> bool

  function Public(a: Account): (p: PublicUser)
    ensures p.id == a.id && p.username == a.username && p.email == a.email
    ensures p.isAdmin == a.isAdmin && p.isSuspended == a.isSuspended
  {
    PublicUser(a.id, a.username, a.email, a.isAdmin, a.isSuspended,
               a.facilityName, a.address, a.latitude, a.longitude)
  }

  datatype LoginResponse =
    | CredentialsRequired    // 400 "Username and password required"
    | PasswordRequired       // 400 "Password required" (legacy route)
    | UserNotFound           // 401 "User not found" (legacy route)
    | InvalidCredentials     // 401
    | AccountSuspended       // 403
    | Success(user: PublicUser)

  /** What a login request decides before any state changes: a refusal or the row to log in. */
  datatype Decision = Reject(response: LoginResponse) | Admit(index: nat)

  /** `data.get(key) or ""`: an absent or empty value reads as the empty string. */
  function OrEmpty(s: Option<string>): string
  {
    if s.Some? then s.value else ""
  }

  /** The unique constraints of the table: ids, usernames and non-NULL emails are distinct. */
  ghost predicate UniqueAccounts(users: seq<Account>)
  {
    forall i, j :: 0 <= i < j < |users| ==>
      && users[i].id != users[j].id
      && users[i].username != users[j].username
      && (users[i].email.Some? ==> users[i].email != users[j].email)
  }

  /** `User.query.filter_by(username=name).first()`. */
  function FindByUsername(users: seq<Account>, name: string): (r: Option<nat>)
    ensures r.Some? ==> r.value < |users| && users[r.value].username == name
    ensures r.None? ==> forall i :: 0 <= i < |users| ==> users[i].username != name
  {
    if users == [] then None
    else if users[0].username == name then Some(0)
    else
      var r := FindByUsername(users[1..], name);
      if r.None? then None else Some(r.value + 1)
  }

  /** `User.query.filter_by(email=e).first()`. */
  function FindByEmail(users: seq<Account>, email: string): (r: Option<nat>)
    ensures r.Some? ==> r.value < |users| && users[r.value].email == Some(email)
    ensures r.None? ==> forall i :: 0 <= i < |users| ==> users[i].email != Some(email)
  {
    if users == [] then None
    else if users[0].email == Some(email) then Some(0)
    else
      var r := FindByEmail(users[1..], email);
      if r.None? then None else Some(r.value + 1)
  }

  /** The row with that primary key (what Flask-Login's user loader returns). */
  function FindById(users: seq<Account>, id: int): (r: Option<nat>)
    ensures r.Some? ==> r.value < |users| && users[r.value].id == id
    ensures r.None? ==> forall i :: 0 <= i < |users| ==> users[i].id != id
  {
    if users == [] then None
    else if users[0].id == id then Some(0)
    else
      var r := FindById(users[1..], id);
      if r.None? then None else Some(r.value + 1)
  }

  /** The tail of a login after the lookup: wrong password, then suspension, then admit. */
  function CheckFound(users: seq<Account>, k: nat, password: string, check: PasswordCheck): (r: Decision)
    requires k < |users|
    ensures r == Reject(InvalidCredentials) <==> !check(users[k].passwordHash, password)
    ensures r == Reject(AccountSuspended) <==> check(users[k].passwordHash, password) && users[k].isSuspended
    ensures r.Admit? <==> check(users[k].passwordHash, password) && !users[k].isSuspended
    ensures r.Admit? ==> r.index == k
  {
    if !check(users[k].passwordHash, password) then Reject(InvalidCredentials)
    else if users[k].isSuspended then Reject(AccountSuspended)
    else Admit(k)
  }

  /**
   * api_login's decision: the stripped username and the password must be non-empty
   * (400); an unknown username and a wrong password give the same 401; a suspended
   * account with the right password gets 403; otherwise that row is logged in.
   */
  function ApiLoginDecision(users: seq<Account>, username: Option<string>, password: Option<string>,
                            check: PasswordCheck): (r: Decision)
    ensures r == Reject(CredentialsRequired) <==> Trim(OrEmpty(username)) == "" || OrEmpty(password) == ""
    ensures r == Reject(InvalidCredentials) <==>
              && Trim(OrEmpty(username)) != "" && OrEmpty(password) != ""
              && (|| FindByUsername(users, Trim(OrEmpty(username))).None?
                  || !check(users[FindByUsername(users, Trim(OrEmpty(username))).value].passwordHash,
                            OrEmpty(password)))
    ensures r.Admit? ==>
              && r.index < |users| && users[r.index].username == Trim(OrEmpty(username))
              && check(users[r.index].passwordHash, OrEmpty(password))
              && !users[r.index].isSuspended
    ensures r == Reject(AccountSuspended) ==> exists i :: 0 <= i < |users| && users[i].isSuspended
                                                          && users[i].username == Trim(OrEmpty(username))
    ensures r.Reject? ==> r.response in {CredentialsRequired, InvalidCredentials, AccountSuspended}
  {
    var name, pw := Trim(OrEmpty(username)), OrEmpty(password);
    if name == "" || pw == "" then Reject(CredentialsRequired)
    else
      var k := FindByUsername(users, name);
      if k.None? then Reject(InvalidCredentials)
      else CheckFound(users, k.value, pw, check)
  }

  /**
   * Whether the account exists or not, a wrong password gets exactly the answer an
   * unknown username gets: the response does not reveal which usernames exist.
   */
  lemma UnknownUserLooksLikeWrongPassword(users: seq<Account>, others: seq<Account>, username: string,
                                          password: string, check: PasswordCheck)
    requires Trim(username) != "" && password != ""
    requires FindByUsername(users, Trim(username)).None?
    requires var k := FindByUsername(others, Trim(username));
             k.Some? && !check(others[k.value].passwordHash, password)
    ensures ApiLoginDecision(users, Some(username), Some(password), check)
         == ApiLoginDecision(others, Some(username), Some(password), check)
         == Reject(InvalidCredentials)
  {
  }

  /** With distinct primary keys, the lookup by id finds the row carrying it. */
  lemma {:induction false} FindByIdUnique(users: seq<Account>, k: nat)
    requires UniqueAccounts(users) && k < |users|
    ensures FindById(users, users[k].id) == Some(k)
  {
    if k > 0 {
      assert users[0].id != users[k].id;
      assert UniqueAccounts(users[1..]) by {
        forall i, j | 0 <= i < j < |users| - 1 ensures users[1..][i].id != users[1..][j].id {
          assert users[1..][i] == users[i + 1] && users[1..][j] == users[j + 1];
        }
      }
      FindByIdUnique(users[1..], k - 1);
    }
  }

  class SessionStore {
    var users: seq<Account>
    /** The id Flask-Login keeps in the session cookie; None when anonymous. */
    var current: Option<int>

    ghost predicate Valid()
      reads this
    {
      UniqueAccounts(users)
    }

    constructor(users: seq<Account>)
      requires UniqueAccounts(users)
      ensures Valid() && this.users == users && current.None?
    {
      this.users := users;
      current := None;
    }

    /** `login_user(user)` then `user.last_login = now` and the commit. */
    method SignIn(k: nat, now: string)
      requires Valid() && k < |users|
      modifies this
      ensures Valid()
      ensures users == old(users)[k := old(users)[k].(lastLogin := Some(now))]
      ensures current == Some(users[k].id)
    {
      users := users[k := users[k].(lastLogin := Some(now))];
      current := Some(users[k].id);
    }

    /** POST /auth/api/login: only an admitted login changes the session or the table. */
    method ApiLogin(username: Option<string>, password: Option<string>, check: PasswordCheck, now: string)
      returns (r: LoginResponse)
      requires Valid()
      modifies this
      ensures Valid()
      ensures var d := ApiLoginDecision(old(users), username, password, check);
              && (d.Reject? ==> r == d.response && users == old(users) && current == old(current))
              && (d.Admit? ==>
                    && users == old(users)[d.index := old(users)[d.index].(lastLogin := Some(now))]
                    && current == Some(old(users)[d.index].id)
                    && r == Success(Public(old(users)[d.index])))
      ensures r.Success? ==> ApiMe() == Some(r.user)
    {
      var d := ApiLoginDecision(users, username, password, check);
      if d.Reject? {
        return d.response;
      }
      SignIn(d.index, now);
      r := Success(Public(users[d.index]));
      FindByIdUnique(users, d.index);
    }

    /** POST /auth/api/logout: always ok, and afterwards nobody is logged in. */
    method ApiLogout()
      modifies this
      ensures current.None? && users == old(users)
    {
      current := None;
    }

    /**
     * GET /auth/api/me: 401 unless the session names an existing row, else its public
     * dict (None stands for the 401).
     */
    function ApiMe(): (r: Option<PublicUser>)
      reads this
      ensures r.Some? <==> current.Some? && FindById(users, current.value).Some?
      ensures r.Some? ==> exists i :: 0 <= i < |users| && users[i].id == current.value && r.value == Public(users[i])
    {
      if current.None? then None
      else
        var k := FindById(users, current.value);
        if k.None? then None else Some(Public(users[k.value]))
    }
  }
}
