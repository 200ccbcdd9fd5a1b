/**
 * backend/app/routes/admin_api.py: the admin guard and the user-management endpoints
 * over the `users` table. The table is a sequence of rows in primary-key order; the
 * database's unique constraints (id, username, non-NULL email) are the store's invariant,
 * and a commit that would break one fails with an integrity error and changes nothing.
 * Password hashing is an abstract function passed in.
 */
module AdminApi {
  import opened Common
  import AuthApi

  /** A `users` row: the same table, and the same row type, as the login endpoints. */
  type AdminUser = AuthApi.Account

  /** The caller as Flask-Login sees it. */
  datatype Caller = Anonymous | LoggedIn(userId: int, isAdmin: bool)

  /** One entry of the GET /users listing. */
  datatype UserView = UserView(id: int, name: Option<string>, email: Option<string>,
                               isAdmin: bool, isActive: bool, lastLogin: Option<string>)

  /** The JSON body of PUT /users/<id>: a field is Some when its key is present. */
  datatype UserUpdate = UserUpdate(name: Option<string>, email: Option<string>,
                                   password: Option<string>, isAdmin: Option<bool>)

  datatype AdminResponse =
    | Unauthorized          // 401 from the guard
    | Forbidden             // 403 from the guard
    | NotFound              // 404 from get_or_404
    | FieldsRequired        // 400 name, email and password required
    | EmailExists           // 400
    | OwnAccount            // 400 cannot suspend / delete your own account
    | IntegrityError        // 500: the commit breaks the unique username constraint
    | Created(user: AdminUser)
    | Updated(user: AdminUser)
    | StatusToggled(isActive: bool)
    | Deleted

  /** admin_required: 401 for an anonymous caller, 403 for a non-admin, else None (pass). */
  function Guard(caller: Caller): (r: Option<AdminResponse>)
    ensures r == Some(Unauthorized) <==> caller.Anonymous?
    ensures r == Some(Forbidden) <==> caller.LoggedIn? && !caller.isAdmin
    ensures r.None? <==> caller.LoggedIn? && caller.isAdmin
  {
    if caller.Anonymous? then Some(Unauthorized)
    else if !caller.isAdmin then Some(Forbidden)
    else None
  }

  /** Whether some row other than position k holds that username. */
  predicate UsernameTakenBy(users: seq<AdminUser>, name: string, k: int)
  {
    exists i :: 0 <= i < |users| && i != k && users[i].username == name
  }

  /** The autoincrement key the next insert receives. */
  function NextUserId(users: seq<AdminUser>): (id: int)
    ensures forall i :: 0 <= i < |users| ==> users[i].id < id
  {
    if users == [] then 1 else MaxI(NextUserId(users[..|users| - 1]), users[|users| - 1].id + 1)
  }

  /** The listing's projection of one row. */
  function View(u: AdminUser): (v: UserView)
    ensures v.id == u.id && v.email == u.email && v.isAdmin == u.isAdmin && v.lastLogin == u.lastLogin
    ensures v.isActive <==> !u.isSuspended
    ensures u.username != "" ==> v.name == Some(u.username)
    ensures u.username == "" ==> v.name == u.email
  {
    UserView(u.id, if u.username != "" then Some(u.username) else u.email,
             u.email, u.isAdmin, !u.isSuspended, u.lastLogin)
  }

  /** get_users: every row, in table order, through View. */
  function ListUsers(users: seq<AdminUser>): (r: seq<UserView>)
    ensures |r| == |users|
    ensures forall i :: 0 <= i < |users| ==> r[i] == View(users[i])
  {
    if users == [] then [] else [View(users[0])] + ListUsers(users[1..])
  }

  /** The row PUT /users/<id> writes when no check fails; absent keys keep the old value. */
  function ApplyUpdate(u: AdminUser, d: UserUpdate, hash: string -> string): (v: AdminUser)
    ensures v.id == u.id && v.isSuspended == u.isSuspended && v.lastLogin == u.lastLogin
    ensures v.facilityName == u.facilityName && v.address == u.address
    ensures v.latitude == u.latitude && v.longitude == u.longitude
    ensures v.username == if d.name.Some? then d.name.value else u.username
    ensures v.email == if d.email.Some? then d.email else u.email
    ensures v.passwordHash == if Truthy(d.password) then hash(d.password.value) else u.passwordHash
    ensures v.isAdmin == if d.isAdmin.Some? then d.isAdmin.value else u.isAdmin
  {
    var v := if d.name.Some? then u.(username := d.name.value) else u;
    var v := if d.email.Some? then v.(email := d.email) else v;
    var v := if Truthy(d.password) then v.(passwordHash := hash(d.password.value)) else v;
    if d.isAdmin.Some? then v.(isAdmin := d.isAdmin.value) else v
  }

  /**
   * An update that passed the username and email checks keeps the table's unique
   * constraints: no other row holds the new username, and the email's holder, if any,
   * is the updated row itself.
   */
  lemma UpdateKeepsUnique(users: seq<AdminUser>, k: nat, d: UserUpdate, hash: string -> string)
    requires AuthApi.UniqueAccounts(users) && k < |users|
    requires d.name.Some? ==> !UsernameTakenBy(users, d.name.value, k)
    requires d.email.Some? ==>
               (AuthApi.FindByEmail(users, d.email.value).None?
                || users[AuthApi.FindByEmail(users, d.email.value).value].id == users[k].id)
    ensures AuthApi.UniqueAccounts(users[k := ApplyUpdate(users[k], d, hash)])
  {
    var v := ApplyUpdate(users[k], d, hash);
    var after := users[k := v];
    forall i, j | 0 <= i < j < |after|
      ensures after[i].id != after[j].id && after[i].username != after[j].username
      ensures after[i].email.Some? ==> after[i].email != after[j].email
    {
      if i == k || j == k {
        var o := if i == k then j else i;
        assert after[o] == users[o];
        if d.name.Some? {
          assert users[o].username != d.name.value;
        }
        if d.email.Some? {
          var h := AuthApi.FindByEmail(users, d.email.value);
          if h.Some? {
            assert h.value == k;
          }
        }
      }
    }
  }

  /** Deleting one row keeps the unique constraints of the others. */
  lemma RemoveKeepsUnique(users: seq<AdminUser>, k: nat)
    requires AuthApi.UniqueAccounts(users) && k < |users|
    ensures AuthApi.UniqueAccounts(users[..k] + users[k + 1..])
  {
    var after := users[..k] + users[k + 1..];
    forall i, j | 0 <= i < j < |after|
      ensures after[i].id != after[j].id && after[i].username != after[j].username
      ensures after[i].email.Some? ==> after[i].email != after[j].email
    {
      var i' := if i < k then i else i + 1;
      var j' := if j < k then j else j + 1;
      assert after[i] == users[i'] && after[j] == users[j'];
    }
  }

  /** Cutting out the row at k leaves exactly the rows with another id. */
  lemma RemoveLeavesOthers(users: seq<AdminUser>, k: nat)
    requires AuthApi.UniqueAccounts(users) && k < |users|
    ensures forall x :: x in users[..k] + users[k + 1..] <==> x in users && x.id != users[k].id
  {
    var after := users[..k] + users[k + 1..];
    forall x | x in after ensures x in users && x.id != users[k].id {
      var j :| 0 <= j < |after| && after[j] == x;
      if j < k { assert users[j] == x; } else { assert users[j + 1] == x; }
    }
    forall x | x in users && x.id != users[k].id ensures x in after {
      var j :| 0 <= j < |users| && users[j] == x;
      if j < k { assert after[j] == x; } else { assert after[j - 1] == x; }
    }
  }

  /** Toggling a row's status flips exactly that row's is_active in the listing. */
  lemma ToggleFlipsListing(users: seq<AdminUser>, k: nat)
    requires k < |users|
    ensures var after := ListUsers(users[k := users[k].(isSuspended := !users[k].isSuspended)]);
            && after[k].isActive == !ListUsers(users)[k].isActive
            && after[k].(isActive := ListUsers(users)[k].isActive) == ListUsers(users)[k]
            && forall i :: 0 <= i < |users| && i != k ==> after[i] == ListUsers(users)[i]
  {
  }

  class AdminUserStore {
    var users: seq<AdminUser>

    ghost predicate Valid()
      reads this
    {
      AuthApi.UniqueAccounts(users)
    }

    constructor(users: seq<AdminUser>)
      requires AuthApi.UniqueAccounts(users)
      ensures Valid() && this.users == users
    {
      this.users := users;
    }

    /** GET /users behind the guard. */
    method GetUsers(caller: Caller) returns (r: Option<AdminResponse>, listing: seq<UserView>)
      ensures Guard(caller).Some? ==> r == Guard(caller) && listing == []
      ensures Guard(caller).None? ==> r.None? && listing == ListUsers(users)
    {
      r := Guard(caller);
      if r.Some? {
        return r, [];
      }
      listing := ListUsers(users);
    }

    /** create_user: guard, the three required fields, the email check, then the insert. */
    method CreateUser(caller: Caller, name: Option<string>, email: Option<string>, password: Option<string>,
                      isAdmin: bool, hash: string -> string) returns (r: AdminResponse)
      requires Valid()
      modifies this
      ensures Valid()
      ensures Guard(caller).Some? ==> r == Guard(caller).value
      ensures Guard(caller).None? && !(Truthy(name) && Truthy(email) && Truthy(password)) ==> r == FieldsRequired
      ensures Guard(caller).None? && Truthy(name) && Truthy(email) && Truthy(password) ==>
                (r == EmailExists <==> AuthApi.FindByEmail(old(users), email.value).Some?)
      ensures Guard(caller).None? && Truthy(name) && Truthy(email) && Truthy(password)
              && AuthApi.FindByEmail(old(users), email.value).None? ==>
                (r == IntegrityError <==> UsernameTakenBy(old(users), name.value, -1))
      ensures !r.Created? ==> users == old(users)
      ensures r.Created? ==>
                && r.user == AuthApi.Account(NextUserId(old(users)), name.value, email, hash(password.value),
                                             isAdmin, false, None, None, None, None, None)
                && users == old(users) + [r.user]
    {
      var g := Guard(caller);
      if g.Some? {
        return g.value;
      }
      if !Truthy(name) || !Truthy(email) || !Truthy(password) {
        return FieldsRequired;
      }
      if AuthApi.FindByEmail(users, email.value).Some? {
        return EmailExists;
      }
      if UsernameTakenBy(users, name.value, -1) {
        return IntegrityError;
      }
      var u := AuthApi.Account(NextUserId(users), name.value, email, hash(password.value), isAdmin, false,
                                None, None, None, None, None);
      users := users + [u];
      r := Created(u);
    }

    /**
     * update_user: 404, then a username held by another row fails the flush (it happens
     * before the email query), then an email held by another row is refused, else the
     * present keys are written.
     */
    method UpdateUser(caller: Caller, id: int, d: UserUpdate, hash: string -> string) returns (r: AdminResponse)
      requires Valid()
      modifies this
      ensures Valid()
      ensures Guard(caller).Some? ==> r == Guard(caller).value
      ensures Guard(caller).None? ==> (r == NotFound <==> AuthApi.FindById(old(users), id).None?)
      ensures Guard(caller).None? && AuthApi.FindById(old(users), id).Some? ==>
                var k := AuthApi.FindById(old(users), id).value;
                && (r == IntegrityError <==> d.name.Some? && UsernameTakenBy(old(users), d.name.value, k))
                && (r == EmailExists <==>
                      && !(d.name.Some? && UsernameTakenBy(old(users), d.name.value, k))
                      && d.email.Some? && AuthApi.FindByEmail(old(users), d.email.value).Some?
                      && old(users)[AuthApi.FindByEmail(old(users), d.email.value).value].id != id)
      ensures !r.Updated? ==> users == old(users)
      ensures r.Updated? ==>
                var k := AuthApi.FindById(old(users), id).value;
                && r.user == ApplyUpdate(old(users)[k], d, hash)
                && users == old(users)[k := r.user]
    {
      var g := Guard(caller);
      if g.Some? {
        return g.value;
      }
      var k := AuthApi.FindById(users, id);
      if k.None? {
        return NotFound;
      }
      if d.name.Some? && UsernameTakenBy(users, d.name.value, k.value) {
        return IntegrityError;
      }
      if d.email.Some? {
        var h := AuthApi.FindByEmail(users, d.email.value);
        if h.Some? && users[h.value].id != id {
          return EmailExists;
        }
      }
      UpdateKeepsUnique(users, k.value, d, hash);
      var u := ApplyUpdate(users[k.value], d, hash);
      users := users[k.value := u];
      r := Updated(u);
    }

    /** toggle_user_status: 404, the caller's own row is refused, else is_suspended flips. */
    method ToggleUserStatus(caller: Caller, id: int) returns (r: AdminResponse)
      requires Valid()
      modifies this
      ensures Valid()
      ensures Guard(caller).Some? ==> r == Guard(caller).value
      ensures Guard(caller).None? ==> (r == NotFound <==> AuthApi.FindById(old(users), id).None?)
      ensures Guard(caller).None? && AuthApi.FindById(old(users), id).Some? ==>
                (r == OwnAccount <==> caller.userId == id)
      ensures !r.StatusToggled? ==> users == old(users)
      ensures r.StatusToggled? ==>
                var k := AuthApi.FindById(old(users), id).value;
                && caller.LoggedIn? && caller.userId != id
                && users == old(users)[k := old(users)[k].(isSuspended := !old(users)[k].isSuspended)]
                && r.isActive == old(users)[k].isSuspended
    {
      var g := Guard(caller);
      if g.Some? {
        return g.value;
      }
      var k := AuthApi.FindById(users, id);
      if k.None? {
        return NotFound;
      }
      if caller.userId == id {
        return OwnAccount;
      }
      var u := users[k.value];
      users := users[k.value := u.(isSuspended := !u.isSuspended)];
      r := StatusToggled(!users[k.value].isSuspended);
    }

    /** delete_user: 404, the caller's own row is refused, else exactly that row goes. */
    method DeleteUser(caller: Caller, id: int) returns (r: AdminResponse)
      requires Valid()
      modifies this
      ensures Valid()
      ensures Guard(caller).Some? ==> r == Guard(caller).value
      ensures Guard(caller).None? ==> (r == NotFound <==> AuthApi.FindById(old(users), id).None?)
      ensures Guard(caller).None? && AuthApi.FindById(old(users), id).Some? ==>
                (r == OwnAccount <==> caller.userId == id)
      ensures r != Deleted ==> users == old(users)
      ensures r == Deleted ==>
                var k := AuthApi.FindById(old(users), id).value;
                && caller.LoggedIn? && caller.userId != id
                && users == old(users)[..k] + old(users)[k + 1..]
      ensures r == Deleted ==> forall x :: x in users <==> x in old(users) && x.id != id
    {
      var g := Guard(caller);
      if g.Some? {
        return g.value;
      }
      var k := AuthApi.FindById(users, id);
      if k.None? {
        return NotFound;
      }
      if caller.userId == id {
        return OwnAccount;
      }
      var i := k.value;
      RemoveKeepsUnique(users, i);
      RemoveLeavesOthers(users, i);
      users := users[..i] + users[i + 1..];
      r := Deleted;
    }
  }
}
