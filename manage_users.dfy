/**
 * frontend/src/pages/ManageUsers.jsx: the admin's user table over the admin API (module
 * AdminApi). The search, the counters, the initials avatar, the form checks and the
 * request bodies, the row actions a user may not apply to their own row, and how the
 * page routes or reports on the answers of `/auth/api/me` and `/admin/api/users`.
 */
module ManageUsers {
  import opened Common
  import AdminApi

  type UserView = AdminApi.UserView

  // ---------------------------------------------------------------- search and counters

  /** `u.field?.toLowerCase().includes(term)`: a null field never matches. */
  predicate FieldHas(field: Option<string>, term: string)
  {
    field.Some? && Contains(Lower(field.value), term)
  }

  predicate Shown(u: UserView, searchTerm: string)
  {
    FieldHas(u.name, Lower(searchTerm)) || FieldHas(u.email, Lower(searchTerm))
  }

  /** `filteredUsers`: the users whose name or email contains the lowercased term. */
  function FilteredUsers(users: seq<UserView>, searchTerm: string): (r: seq<UserView>)
    ensures |r| <= |users|
    ensures forall u :: u in r <==> u in users && Shown(u, searchTerm)
  {
    if users == [] then []
    else
      var init, last := users[..|users| - 1], users[|users| - 1];
      assert forall u :: u in users <==> u in init || u == last;
      FilteredUsers(init, searchTerm) + (if Shown(last, searchTerm) then [last] else [])
  }

  /**
   * Filtering distributes over concatenation; with the membership and length clauses on a
   * single element, this fixes the shown users as the input's matches in input order.
   */
  lemma {:induction false} FilteredUsersAppend(a: seq<UserView>, b: seq<UserView>, searchTerm: string)
    ensures FilteredUsers(a + b, searchTerm) == FilteredUsers(a, searchTerm) + FilteredUsers(b, searchTerm)
  {
    if b == [] {
      assert a + b == a;
    } else {
      var init, last := b[..|b| - 1], b[|b| - 1];
      var tail := if Shown(last, searchTerm) then [last] else [];
      assert (a + b)[..|a + b| - 1] == a + init;
      assert (a + b)[|a + b| - 1] == last;
      assert FilteredUsers(b, searchTerm) == FilteredUsers(init, searchTerm) + tail;
      FilteredUsersAppend(a, init, searchTerm);
      calc {
        FilteredUsers(a + b, searchTerm);
        FilteredUsers(a + init, searchTerm) + tail;
        (FilteredUsers(a, searchTerm) + FilteredUsers(init, searchTerm)) + tail;
        FilteredUsers(a, searchTerm) + (FilteredUsers(init, searchTerm) + tail);
      }
    }
  }

  /** With an empty search every user with a name or an email is listed. */
  lemma EmptySearchShowsNamed(users: seq<UserView>, u: UserView)
    requires u in users && (u.name.Some? || u.email.Some?)
    ensures u in FilteredUsers(users, "")
  {
    assert Lower("") == "";
    if u.name.Some? {
      ContainsEmpty(Lower(u.name.value));
    } else {
      ContainsEmpty(Lower(u.email.value));
    }
  }

  /** A user with neither a name nor an email is never listed, whatever the search. */
  lemma NamelessNeverShown(users: seq<UserView>, u: UserView, searchTerm: string)
    requires u.name.None? && u.email.None?
    ensures u !in FilteredUsers(users, searchTerm)
  {
  }

  /** How many users satisfy a test, counted in the order of the list. */
  function CountActive(users: seq<UserView>, active: bool): (n: nat)
    ensures n <= |users|
  {
    if users == [] then 0
    else CountActive(users[..|users| - 1], active) + (if users[|users| - 1].isActive == active then 1 else 0)
  }

  function CountAdmins(users: seq<UserView>): (n: nat)
    ensures n <= |users|
  {
    if users == [] then 0
    else CountAdmins(users[..|users| - 1]) + (if users[|users| - 1].isAdmin then 1 else 0)
  }

  datatype Stats = Stats(total: nat, active: nat, suspended: nat, admins: nat)

  /** `stats`. */
  function StatsOf(users: seq<UserView>): (s: Stats)
    ensures s.total == |users| && s.active + s.suspended == s.total
    ensures s.admins <= s.total
  {
    ActiveSuspendedPartition(users);
    Stats(|users|, CountActive(users, true), CountActive(users, false), CountAdmins(users))
  }

  /** The active and the suspended filters split the list: their counts add up to the total. */
  lemma {:induction false} ActiveSuspendedPartition(users: seq<UserView>)
    ensures CountActive(users, true) + CountActive(users, false) == |users|
  {
    if users != [] {
      ActiveSuspendedPartition(users[..|users| - 1]);
    }
  }

  /** The admin count is the number of listed admins, whatever the order of the list. */
  lemma {:induction false} AdminsCountAppend(a: seq<UserView>, b: seq<UserView>)
    ensures CountAdmins(a + b) == CountAdmins(a) + CountAdmins(b)
    decreases |b|
  {
    if b == [] {
      assert a + b == a;
    } else {
      AdminsCountAppend(a, b[..|b| - 1]);
      assert (a + b)[..|a + b| - 1] == a + b[..|b| - 1];
    }
  }

  // ---------------------------------------------------------------- initials

  /** JavaScript `s.split(' ')`: the pieces between the spaces, empty ones included. */
  function SplitSpaces(s: string): (r: seq<string>)
    ensures |r| >= 1
  {
    if s == [] then [""]
    else if s[0] == ' ' then [""] + SplitSpaces(s[1..])
    else
      var rest := SplitSpaces(s[1..]);
      [[s[0]] + rest[0]] + rest[1..]
  }

  /** `.map(n => n[0]).join('')`: an empty piece contributes nothing. */
  function FirstLetters(words: seq<string>): (r: string)
  {
    if words == [] then ""
    else (if words[0] == "" then "" else [words[0][0]]) + FirstLetters(words[1..])
  }

  /**
   * The same letters read off the text directly: each non-space character that opens a
   * word (it starts the text, with `atStart`, or follows a space).
   */
  function WordStarts(s: string, atStart: bool): (r: string)
    ensures forall i :: 0 <= i < |r| ==> r[i] != ' '
  {
    if s == [] then ""
    else (if atStart && s[0] != ' ' then [s[0]] else "") + WordStarts(s[1..], s[0] == ' ')
  }

  /** The split-and-join of the page gives exactly the word-opening characters. */
  lemma {:induction false} FirstLettersAreWordStarts(s: string)
    ensures FirstLetters(SplitSpaces(s)) == WordStarts(s, true)
    ensures FirstLetters(SplitSpaces(s)[1..]) == WordStarts(s, false)
  {
    if s != [] {
      FirstLettersAreWordStarts(s[1..]);
      if s[0] == ' ' {
        assert SplitSpaces(s)[1..] == SplitSpaces(s[1..]);
      } else {
        var rest := SplitSpaces(s[1..]);
        assert SplitSpaces(s) == [[s[0]] + rest[0]] + rest[1..];
        assert SplitSpaces(s)[1..] == rest[1..];
      }
    }
  }

  /** The avatar text: the initials, or '?' when there are none or no name. */
  function Initials(name: Option<string>): (r: string)
    ensures r != ""
    ensures name.None? || WordStarts(name.value, true) == "" ==> r == "?"
    ensures name.Some? && WordStarts(name.value, true) != "" ==> r == WordStarts(name.value, true)
  {
    if name.None? then "?"
    else
      FirstLettersAreWordStarts(name.value);
      var letters := FirstLetters(SplitSpaces(name.value));
      if letters == "" then "?" else letters
  }

  /** A name that does not open with a space has its first character as first initial. */
  lemma InitialsStartWithName(name: string)
    requires name != [] && name[0] != ' '
    ensures Initials(Some(name))[0] == name[0]
  {
    assert WordStarts(name, true)[0] == name[0];
  }

  // ---------------------------------------------------------------- forms and requests

  /** The modal form; the edit modal copies a listed user's name and email, which may be null. */
  datatype Form = Form(name: Option<string>, email: Option<string>, password: string, isAdmin: bool)

  const EmptyForm: Form := Form(Some(""), Some(""), "", false)

  /** The body of POST /admin/api/users once the form passes: name, email and password all given. */
  datatype CreateBody = CreateBody(name: string, email: string, password: string, isAdmin: bool)

  function CreateRequest(f: Form): (r: Option<CreateBody>)
    ensures r.Some? <==> Truthy(f.name) && Truthy(f.email) && f.password != ""
    ensures r.Some? ==> r.value == CreateBody(f.name.value, f.email.value, f.password, f.isAdmin)
  {
    if Truthy(f.name) && Truthy(f.email) && f.password != "" then
      Some(CreateBody(f.name.value, f.email.value, f.password, f.isAdmin))
    else None
  }

  /**
   * The body of PUT /admin/api/users/<id> once name and email are given: both, the admin
   * flag, and the password only when one was typed.
   */
  function UpdateRequest(f: Form): (r: Option<AdminApi.UserUpdate>)
    ensures r.Some? <==> Truthy(f.name) && Truthy(f.email)
    ensures r.Some? ==> r.value.name == f.name && r.value.email == f.email && r.value.isAdmin == Some(f.isAdmin)
    ensures r.Some? ==> (r.value.password.Some? <==> f.password != "")
    ensures r.Some? && r.value.password.Some? ==> r.value.password.value == f.password
  {
    if Truthy(f.name) && Truthy(f.email) then
      Some(AdminApi.UserUpdate(f.name, f.email, if f.password != "" then Some(f.password) else None,
                               Some(f.isAdmin)))
    else None
  }

  /**
   * Sent to the server, an edit with the password left blank keeps the stored hash and
   * sets the name, email and admin flag from the form.
   */
  lemma BlankPasswordKeepsHash(u: AdminApi.AdminUser, f: Form, hash: string -> string)
    requires Truthy(f.name) && Truthy(f.email) && f.password == ""
    ensures var v := AdminApi.ApplyUpdate(u, UpdateRequest(f).value, hash);
            && v.passwordHash == u.passwordHash
            && v.username == f.name.value && v.email == f.email && v.isAdmin == f.isAdmin
  {
  }

  /** The toggle and delete buttons: disabled while an action runs and on the signed-in user's row. */
  function RowActionsEnabled(actionLoading: bool, me: Option<int>, u: UserView): (r: bool)
    ensures r ==> !actionLoading && me != Some(u.id)
    ensures !actionLoading && me != Some(u.id) ==> r
  {
    !actionLoading && !(me.Some? && me.value == u.id)
  }

  /** No one can toggle or delete their own account from the page. */
  lemma OwnRowLocked(actionLoading: bool, meId: int, u: UserView)
    requires u.id == meId
    ensures !RowActionsEnabled(actionLoading, Some(meId), u)
  {
  }

  // ---------------------------------------------------------------- refresh

  /** The signed-in user as `/auth/api/me` returns it. */
  datatype Me = Me(id: int, isAdmin: bool)

  /** The answer of `/auth/api/me`: 401, another failure status, a thrown fetch, or the user. */
  datatype MeAnswer = MeUnauthorized | MeNotOk | MeUnreachable(message: string) | MeOk(me: Me)

  /** The answer of `/admin/api/users`. */
  datatype UsersAnswer =
    | UsersUnauthorized
    | UsersForbidden
    | UsersNotOk(error: Option<string>)
    | UsersUnreachable(message: string)
    | UsersOk(users: Option<seq<UserView>>)

  /** Where `refresh` leaves the page. */
  datatype RefreshOutcome = ToLogin | ToDashboard | Loaded(me: Me, users: seq<UserView>) | Failed(message: string)

  const ForbiddenMessage: string := "Forbidden – admin only"

  /** The catch block: the two marker messages route or explain; anything else is shown as is. */
  function CaughtOutcome(message: string): (r: RefreshOutcome)
    ensures message == "UNAUTHORIZED" ==> r == ToLogin
    ensures message == "FORBIDDEN" ==> r == Failed(ForbiddenMessage)
    ensures message != "UNAUTHORIZED" && message != "FORBIDDEN" ==> r == Failed(message)
  {
    if message == "UNAUTHORIZED" then ToLogin
    else if message == "FORBIDDEN" then Failed(ForbiddenMessage)
    else Failed(message)
  }

  /**
   * refresh: no session goes to the login page and a non-admin to the dashboard before the
   * users are asked for; then a 401 goes to the login page, a 403 explains, another
   * failure shows its error, and success lists `data.users || []`.
   */
  function Refresh(me: MeAnswer, users: UsersAnswer): (r: RefreshOutcome)
    ensures me.MeUnauthorized? ==> r == ToLogin
    ensures me.MeOk? && !me.me.isAdmin ==> r == ToDashboard
    ensures r.Loaded? <==> me.MeOk? && me.me.isAdmin && users.UsersOk?
    ensures r.Loaded? ==> r.me == me.me && r.users == (if users.users.Some? then users.users.value else [])
    ensures r == ToDashboard <==> me.MeOk? && !me.me.isAdmin
    ensures me.MeOk? && me.me.isAdmin && users.UsersUnauthorized? ==> r == ToLogin
    ensures me.MeOk? && me.me.isAdmin && users.UsersForbidden? ==> r == Failed(ForbiddenMessage)
  {
    match me
    case MeUnauthorized => ToLogin
    case MeNotOk => CaughtOutcome("Failed to load session")
    case MeUnreachable(m) => CaughtOutcome(m)
    case MeOk(session) =>
      if !session.isAdmin then ToDashboard
      else
        match users
        case UsersUnauthorized => CaughtOutcome("UNAUTHORIZED")
        case UsersForbidden => CaughtOutcome("FORBIDDEN")
        case UsersNotOk(e) => CaughtOutcome(if Truthy(e) then e.value else "Failed to load users")
        case UsersUnreachable(m) => CaughtOutcome(m)
        case UsersOk(list) => Loaded(session, if list.Some? then list.value else [])
  }

  /** Only an admin session ever sees the table. */
  lemma OnlyAdminsLoad(me: MeAnswer, users: UsersAnswer)
    requires Refresh(me, users).Loaded?
    ensures me.MeOk? && me.me.isAdmin
  {
  }

  // ---------------------------------------------------------------- the page

  class UsersPage {
    var me: Option<Me>
    var users: seq<UserView>
    var error: string
    var route: Option<string>
    var form: Form
    var editing: Option<UserView>
    var showAdd: bool
    var showEdit: bool

    constructor()
      ensures me.None? && users == [] && error == "" && route.None?
      ensures form == EmptyForm && editing.None? && !showAdd && !showEdit
    {
      me := None;
      users := [];
      error := "";
      route := None;
      form := EmptyForm;
      editing := None;
      showAdd := false;
      showEdit := false;
    }

    /**
     * Applies a refresh: the error is cleared first; an admin session is stored before the
     * users are asked for, so it stays even when that request fails; then the page
     * navigates, fills the table, or shows the error.
     */
    method ApplyRefresh(meAnswer: MeAnswer, usersAnswer: UsersAnswer)
      modifies this
      ensures var o := Refresh(meAnswer, usersAnswer);
              && me == (if meAnswer.MeOk? && meAnswer.me.isAdmin then Some(meAnswer.me) else old(me))
              && route == (if o == ToLogin then Some("/login")
                           else if o == ToDashboard then Some("/dashboard")
                           else old(route))
              && error == (if o.Failed? then o.message else "")
              && users == (if o.Loaded? then o.users else old(users))
      ensures form == old(form) && editing == old(editing) && showAdd == old(showAdd) && showEdit == old(showEdit)
    {
      error := "";
      if meAnswer.MeOk? && meAnswer.me.isAdmin {
        me := Some(meAnswer.me);
      }
      var o := Refresh(meAnswer, usersAnswer);
      match o
      case ToLogin => route := Some("/login");
      case ToDashboard => route := Some("/dashboard");
      case Loaded(_, list) => users := list;
      case Failed(message) => error := message;
    }

    method OpenAddModal()
      modifies this
      ensures form == EmptyForm && showAdd
      ensures me == old(me) && users == old(users) && error == old(error) && route == old(route)
      ensures editing == old(editing) && showEdit == old(showEdit)
    {
      form := EmptyForm;
      showAdd := true;
    }

    /** The edit modal starts from the user's listed name, email and role, with no password. */
    method OpenEditModal(u: UserView)
      modifies this
      ensures editing == Some(u) && showEdit
      ensures form == Form(u.name, u.email, "", u.isAdmin)
      ensures me == old(me) && users == old(users) && error == old(error) && route == old(route)
      ensures showAdd == old(showAdd)
    {
      editing := Some(u);
      form := Form(u.name, u.email, "", u.isAdmin);
      showEdit := true;
    }

    method CloseModals()
      modifies this
      ensures !showAdd && !showEdit && editing.None? && form == EmptyForm
      ensures me == old(me) && users == old(users) && error == old(error) && route == old(route)
    {
      showAdd := false;
      showEdit := false;
      editing := None;
      form := EmptyForm;
    }

    /**
     * onCreateUser: an incomplete form sends nothing and changes nothing (the alert is not
     * modelled); a refused request shows the server's error or the fallback; an accepted
     * one closes the modal (the refresh that follows is the next ApplyRefresh).
     */
    method SubmitCreate(ok: bool, serverError: Option<string>) returns (sent: Option<CreateBody>)
      modifies this
      ensures sent == CreateRequest(old(form))
      ensures sent.None? ==> form == old(form) && error == old(error) && showAdd == old(showAdd)
                             && editing == old(editing) && showEdit == old(showEdit)
      ensures sent.Some? && !ok ==>
                error == (if Truthy(serverError) then serverError.value else "Failed to create user")
                && form == old(form) && showAdd == old(showAdd)
                && editing == old(editing) && showEdit == old(showEdit)
      ensures sent.Some? && ok ==> error == "" && !showAdd && !showEdit && editing.None? && form == EmptyForm
      ensures me == old(me) && users == old(users) && route == old(route)
    {
      sent := CreateRequest(form);
      if sent.None? {
        return;
      }
      error := "";
      if !ok {
        error := if Truthy(serverError) then serverError.value else "Failed to create user";
        return;
      }
      CloseModals();
    }

    /**
     * onUpdateUser: as create, with the update body, PUT to the id of the user being edited
     * (`target`). With no user being edited, reading `editingUser.id` throws inside the try,
     * so no request goes out and the error shows the engine's message `nullError`.
     */
    method SubmitUpdate(ok: bool, serverError: Option<string>, nullError: string)
      returns (sent: Option<AdminApi.UserUpdate>, target: Option<int>)
      modifies this
      ensures sent == UpdateRequest(old(form))
      ensures target.Some? <==> sent.Some? && old(editing).Some?
      ensures target.Some? ==> target.value == old(editing).value.id
      ensures sent.None? ==> form == old(form) && error == old(error) && showEdit == old(showEdit)
                             && editing == old(editing) && showAdd == old(showAdd)
      ensures sent.Some? && target.None? ==>
                error == nullError
                && form == old(form) && showEdit == old(showEdit) && editing == old(editing) && showAdd == old(showAdd)
      ensures target.Some? && !ok ==>
                error == (if Truthy(serverError) then serverError.value else "Failed to update user")
                && form == old(form) && showEdit == old(showEdit) && editing == old(editing) && showAdd == old(showAdd)
      ensures target.Some? && ok ==> error == "" && !showAdd && !showEdit && editing.None? && form == EmptyForm
      ensures me == old(me) && users == old(users) && route == old(route)
    {
      sent := UpdateRequest(form);
      target := None;
      if sent.None? {
        return;
      }
      error := "";
      if editing.None? {
        error := nullError;
        return;
      }
      target := Some(editing.value.id);
      if !ok {
        error := if Truthy(serverError) then serverError.value else "Failed to update user";
        return;
      }
      CloseModals();
    }
  }
}
