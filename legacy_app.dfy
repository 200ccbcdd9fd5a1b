/**
 * The legacy single-file Flask application (app.py): nearest-neighbour recognition
 * with a fixed threshold, and the user-table handlers of the old admin pages.
 * The embedding model and scipy's cosine distance are parameters.
 */
module LegacyApp {
  import opened Common
  import opened FirstMinimum

  type Embedding = seq<real>
  type CosineDistance = (Embedding, Embedding) -> real

  /** Cosine distances strictly below this count as a match. */
  const MatchThreshold: real := 0.5

  /** A row of the `inmates` table as the recognisers select it. */
  datatype InmateRow = InmateRow(id: int, name: string, encoding: Embedding, status: Option<string>)

  /** The `best_match` dictionary. */
  datatype Match = Match(id: int, name: string, status: Option<string>, distance: real)

  /** The uploaded `file` part of a multipart request. */
  datatype FilePart = FilePart(filename: string)

  datatype PredictResponse =
    | NoFileProvided        // 400 'No file provided'
    | NoSelectedFile        // 400 'No selected file'
    | ProcessingError       // 500, the image could not be turned into an embedding
    | MatchFound(inmate: Match)
    | NoMatchFound

  function RowDistances(query: Embedding, rows: seq<InmateRow>, cos: CosineDistance): (ds: seq<real>)
    ensures |ds| == |rows|
    ensures forall i :: 0 <= i < |rows| ==> ds[i] == cos(query, rows[i].encoding)
  {
    seq(|rows|, i requires 0 <= i < |rows| => cos(query, rows[i].encoding))
  }

  function MatchOf(row: InmateRow, distance: real): Match
  {
    Match(row.id, row.name, row.status, distance)
  }

  /**
   * The loop shared by `predict` and `video_feed`: the row reported is the first
   * one whose distance is the smallest.
   */
  method ClosestInmate(query: Embedding, rows: seq<InmateRow>, cos: CosineDistance)
    returns (bestMatch: Option<Match>, minDistance: Distance)
    ensures rows == [] ==> bestMatch == None && minDistance == Inf
    ensures rows != [] ==>
              exists k :: IsFirstMinimum(RowDistances(query, rows, cos), k)
                       && bestMatch == Some(MatchOf(rows[k], cos(query, rows[k].encoding)))
                       && minDistance == Fin(cos(query, rows[k].encoding))
  {
    ghost var ds := RowDistances(query, rows, cos);
    minDistance, bestMatch := Inf, None;
    var i := 0;
    while i < |rows|
      invariant 0 <= i <= |rows|
      invariant ArgMin(ds[..i]).None? ==> bestMatch == None && minDistance == Inf
      invariant ArgMin(ds[..i]).Some? ==>
                  var k := ArgMin(ds[..i]).value;
                  bestMatch == Some(MatchOf(rows[k], ds[k])) && minDistance == Fin(ds[k])
    {
      var distance := cos(query, rows[i].encoding);
      ArgMinSnoc(ds[..i], ds[i]);
      assert ds[..i + 1] == ds[..i] + [ds[i]];
      if Improves(distance, minDistance) {
        minDistance := Fin(distance);
        bestMatch := Some(MatchOf(rows[i], distance));
      }
      i := i + 1;
    }
    assert ds[..i] == ds;
    if rows != [] {
      ArgMinIsFirstMinimum(ds);
    }
  }

  /** `if best_match and min_distance < threshold`. */
  predicate IsMatch(bestMatch: Option<Match>, minDistance: Distance)
  {
    bestMatch.Some? && minDistance.Fin? && minDistance.d < MatchThreshold
  }

  /**
   * POST /predict. `embed` stands for loading the saved upload and running the
   * model; None means that raised.
   */
  method Predict(file: Option<FilePart>, embed: Option<Embedding>, rows: seq<InmateRow>, cos: CosineDistance)
    returns (r: PredictResponse)
    ensures file.None? ==> r == NoFileProvided
    ensures file.Some? && file.value.filename == "" ==> r == NoSelectedFile
    ensures file.Some? && file.value.filename != "" && embed.None? ==> r == ProcessingError
    ensures r.MatchFound? <==>
              && file.Some? && file.value.filename != "" && embed.Some?
              && exists k :: IsFirstMinimum(RowDistances(embed.value, rows, cos), k)
                          && cos(embed.value, rows[k].encoding) < MatchThreshold
    ensures r.MatchFound? ==>
              exists k :: IsFirstMinimum(RowDistances(embed.value, rows, cos), k)
                       && r.inmate == MatchOf(rows[k], cos(embed.value, rows[k].encoding))
                       && r.inmate.distance < MatchThreshold
    ensures r == NoMatchFound <==>
              && file.Some? && file.value.filename != "" && embed.Some?
              && !exists k :: IsFirstMinimum(RowDistances(embed.value, rows, cos), k)
                           && cos(embed.value, rows[k].encoding) < MatchThreshold
  {
    if file.None? {
      return NoFileProvided;
    }
    if file.value.filename == "" {
      return NoSelectedFile;
    }
    if embed.None? {
      return ProcessingError;
    }
    var bestMatch, minDistance := ClosestInmate(embed.value, rows, cos);
    ghost var ds := RowDistances(embed.value, rows, cos);
    if IsMatch(bestMatch, minDistance) {
      r := MatchFound(bestMatch.value);
    } else {
      r := NoMatchFound;
      if rows != [] {
        ghost var k :| IsFirstMinimum(ds, k) && bestMatch == Some(MatchOf(rows[k], ds[k]))
                 && minDistance == Fin(ds[k]);
        forall k' | IsFirstMinimum(ds, k') ensures ds[k'] >= MatchThreshold {
          assert ds[k'] == ds[k];
        }
      }
    }
  }

  /** The text `video_feed` draws on each frame. */
  method VideoFeedLabel(frame: Embedding, rows: seq<InmateRow>, cos: CosineDistance) returns (text: string)
    ensures rows == [] ==> text == "No Match"
    ensures text != "No Match" <==>
              exists k :: IsFirstMinimum(RowDistances(frame, rows, cos), k)
                       && cos(frame, rows[k].encoding) < MatchThreshold
                       && text == "Match: " + rows[k].name
  {
    var bestMatch, minDistance := ClosestInmate(frame, rows, cos);
    ghost var ds := RowDistances(frame, rows, cos);
    if IsMatch(bestMatch, minDistance) {
      text := "Match: " + bestMatch.value.name;
      assert text[0] == 'M' && "No Match"[0] == 'N';
    } else {
      text := "No Match";
      if rows != [] {
        ghost var k :| IsFirstMinimum(ds, k) && bestMatch == Some(MatchOf(rows[k], ds[k]))
                 && minDistance == Fin(ds[k]);
        forall k' | IsFirstMinimum(ds, k') ensures ds[k'] >= MatchThreshold {
          assert ds[k'] == ds[k];
        }
      }
    }
  }

  // ---------------------------------------------------------------------------
  // The users table of the old admin pages

  /**
   * A column of `users` as SQLite declares it: whether it is NOT NULL, and whether the
   * table itself fills it when an INSERT leaves it out (a DDL default, or the rowid).
   */
  datatype Column = Column(name: string, notNull: bool, filled: bool)

  /**
   * The table `db.create_all()` builds from the `User` model when app.py is imported.
   * SQLAlchemy applies `default='active'` on its own inserts and never declares it to
   * SQLite, so a raw INSERT that names no status leaves a NOT NULL column empty.
   */
  const OrmUsers: seq<Column> :=
    [Column("id", true, true), Column("username", true, false), Column("password", true, false),
     Column("role", true, false), Column("status", true, false)]

  /** The table init_db would create: `CREATE TABLE IF NOT EXISTS` leaves an existing one as it is. */
  const InitDbUsers: seq<Column> :=
    [Column("id", true, true), Column("username", true, false), Column("password", true, false),
     Column("role", true, false), Column("user_id", false, false)]

  /** The two declarations reconciled: init_db's UNIQUE user_id and the model's status, defaulting to 'active'. */
  const CorrectedUsers: seq<Column> :=
    [Column("id", true, true), Column("username", true, false), Column("password", true, false),
     Column("role", true, false), Column("user_id", false, false), Column("status", true, true)]

  /** The columns register_user's INSERT names. */
  const RegisterColumns: set<string> := {"username", "password", "role", "user_id"}

  /** The columns verify_or_add_admin's INSERT names. */
  const AdminColumns: set<string> := {"username", "password", "role"}

  predicate HasColumn(table: seq<Column>, name: string)
  {
    exists i :: 0 <= i < |table| && table[i].name == name
  }

  /**
   * SQLite runs an INSERT naming `names` exactly when every named column exists and every
   * NOT NULL column the table does not fill itself is named.
   */
  predicate InsertRuns(table: seq<Column>, names: set<string>)
  {
    && (forall n :: n in names ==> HasColumn(table, n))
    && (forall i :: 0 <= i < |table| && table[i].notNull && !table[i].filled ==> table[i].name in names)
  }

  /** A row of `users` in the reconciled table; `userId` is NULL for rows register_user did not make. */
  datatype UserRow = UserRow(id: int, username: string, password: string, role: string,
                             userId: Option<string>, status: string)

  /** The Flask session keys the old admin pages read. */
  datatype Session = Session(username: Option<string>, role: Option<string>)

  /** Python truthiness of an optional JSON string: None and "" are falsy. */
  predicate Given(s: Option<string>)
  {
    s.Some? && s.value != ""
  }

  /** is_default_admin: only the seeded "Admin" account with role "admin" qualifies. */
  function IsDefaultAdmin(session: Session): (r: bool)
    ensures r ==> session.username == Some("Admin")
    ensures r ==> session.role == Some("admin")
    ensures session.username != Some("Admin") || session.role != Some("admin") ==> !r
  {
    session.username == Some("Admin") && session.role == Some("admin")
  }

  datatype RegisterResponse =
    | InvalidInput                // 400 'Invalid input. All fields are required.'
    | UsernameExists              // 409
    | InsertFailed                // 500: the sqlite3 error the INSERT raises is not caught
    | Registered(userId: string)  // 201 '... registered successfully with ID <user_id>'

  datatype SuspendResponse = UserNotFound | StatusChanged(status: string)

  predicate UniqueUsernames(rows: seq<UserRow>)
  {
    forall i, j :: 0 <= i < |rows| && 0 <= j < |rows| && rows[i].username == rows[j].username ==> i == j
  }

  predicate UniqueIds(rows: seq<UserRow>)
  {
    forall i, j :: 0 <= i < |rows| && 0 <= j < |rows| && rows[i].id == rows[j].id ==> i == j
  }

  /** The UNIQUE user_id column: NULLs may repeat, values may not. */
  predicate UniqueUserIds(rows: seq<UserRow>)
  {
    forall i, j :: 0 <= i < |rows| && 0 <= j < |rows| && rows[i].userId.Some? && rows[i].userId == rows[j].userId ==> i == j
  }

  predicate HasUsername(rows: seq<UserRow>, name: string)
  {
    exists i :: 0 <= i < |rows| && rows[i].username == name
  }

  predicate HasUserId(rows: seq<UserRow>, userId: string)
  {
    exists i :: 0 <= i < |rows| && rows[i].userId == Some(userId)
  }

  /**
   * register_user on a `users` table declared as `table`: the truthiness checks, the SELECT
   * for the username, then the INSERT, which raises when the table cannot take it or when
   * the `USER-<seconds>` user_id is already taken (two registrations in one second).
   */
  function RegisterOutcome(table: seq<Column>, rows: seq<UserRow>, username: Option<string>,
                           password: Option<string>, role: Option<string>, userId: string): (r: RegisterResponse)
    ensures r == InvalidInput <==> !Given(username) || !Given(password) || !Given(role)
    ensures r == UsernameExists <==>
              Given(username) && Given(password) && Given(role) && HasUsername(rows, username.value)
    ensures r == InsertFailed <==>
              Given(username) && Given(password) && Given(role) && !HasUsername(rows, username.value)
              && (!InsertRuns(table, RegisterColumns) || HasUserId(rows, userId))
    ensures r.Registered? ==> r.userId == userId
  {
    if !Given(username) || !Given(password) || !Given(role) then InvalidInput
    else if HasUsername(rows, username.value) then UsernameExists
    else if !InsertRuns(table, RegisterColumns) || HasUserId(rows, userId) then InsertFailed
    else Registered(userId)
  }

  /**
   * As written, the table is the one `db.create_all()` builds at import, and init_db then
   * changes nothing: register_user passes its checks and fails at the INSERT, so it never
   * registers anyone, and verify_or_add_admin's INSERT fails for the missing status. Had
   * init_db's table been there instead, it would have no status for suspend_user to toggle.
   */
  lemma RegisterFailsOnOrmTable(rows: seq<UserRow>, username: Option<string>, password: Option<string>,
                                role: Option<string>, userId: string)
    ensures !RegisterOutcome(OrmUsers, rows, username, password, role, userId).Registered?
    ensures Given(username) && Given(password) && Given(role) && !HasUsername(rows, username.value) ==>
              RegisterOutcome(OrmUsers, rows, username, password, role, userId) == InsertFailed
    ensures !InsertRuns(OrmUsers, AdminColumns)
    ensures !HasColumn(InitDbUsers, "status")
  {
    assert "user_id" in RegisterColumns && !HasColumn(OrmUsers, "user_id");
    assert OrmUsers[4].notNull && !OrmUsers[4].filled && OrmUsers[4].name !in AdminColumns;
  }

  /**
   * The reconciled table takes both INSERTs, has the status suspend_user toggles, and
   * register_user then registers every new username under a user_id not yet taken.
   */
  lemma CorrectedTableRegisters(rows: seq<UserRow>, username: Option<string>, password: Option<string>,
                                role: Option<string>, userId: string)
    ensures InsertRuns(CorrectedUsers, RegisterColumns) && InsertRuns(CorrectedUsers, AdminColumns)
    ensures HasColumn(CorrectedUsers, "status")
    ensures Given(username) && Given(password) && Given(role) && !HasUsername(rows, username.value)
            && !HasUserId(rows, userId) ==>
              RegisterOutcome(CorrectedUsers, rows, username, password, role, userId) == Registered(userId)
  {
    assert CorrectedUsers[0].name == "id" && CorrectedUsers[1].name == "username";
    assert CorrectedUsers[2].name == "password" && CorrectedUsers[3].name == "role";
    assert CorrectedUsers[4].name == "user_id" && CorrectedUsers[5].name == "status";
  }

  /** The values an `UPDATE users SET … WHERE username = ?` writes into a matched row. */
  function Updated(row: UserRow, newUsername: Option<string>, newPassword: Option<string>,
                    hash: string -> string): UserRow
    requires Given(newUsername) || Given(newPassword)
  {
    row.(username := if Given(newUsername) then newUsername.value else row.username,
         password := if Given(newPassword) then hash(newPassword.value) else row.password)
  }

  /** The whole table after that UPDATE: every row with the old username is rewritten. */
  function UpdatedRows(rows: seq<UserRow>, username: string, newUsername: Option<string>,
                       newPassword: Option<string>, hash: string -> string): (r: seq<UserRow>)
    requires Given(newUsername) || Given(newPassword)
    ensures |r| == |rows|
    ensures forall i :: 0 <= i < |rows| ==>
              r[i] == if rows[i].username == username then Updated(rows[i], newUsername, newPassword, hash) else rows[i]
  {
    seq(|rows|, i requires 0 <= i < |rows| =>
          if rows[i].username == username then Updated(rows[i], newUsername, newPassword, hash) else rows[i])
  }

  /**
   * The UPDATE keeps every UNIQUE column unique unless it rewrites a row to a username
   * another row holds; an UPDATE matching no row changes nothing.
   */
  lemma UpdatedRowsUnique(rows: seq<UserRow>, username: string, newUsername: Option<string>,
                          newPassword: Option<string>, hash: string -> string)
    requires Given(newUsername) || Given(newPassword)
    requires UniqueUsernames(rows) && UniqueIds(rows) && UniqueUserIds(rows)
    requires HasUsername(rows, username) ==>
               !(Given(newUsername) && newUsername.value != username && HasUsername(rows, newUsername.value))
    ensures var r := UpdatedRows(rows, username, newUsername, newPassword, hash);
            UniqueUsernames(r) && UniqueIds(r) && UniqueUserIds(r)
  {
    var r := UpdatedRows(rows, username, newUsername, newPassword, hash);
    assert forall i :: 0 <= i < |r| ==> r[i].id == rows[i].id && r[i].userId == rows[i].userId;
    if HasUsername(rows, username) {
      var m :| 0 <= m < |rows| && rows[m].username == username;
      forall i, j | 0 <= i < |r| && 0 <= j < |r| && r[i].username == r[j].username
        ensures i == j
      {
        if rows[i].username == username || rows[j].username == username {
          assert i == m || j == m;
        }
      }
    } else {
      assert r == rows;
    }
  }

  /** The `users` table, declared as CorrectedUsers. */
  class UserTable {
    var rows: seq<UserRow>

    /** The table's UNIQUE username, INTEGER PRIMARY KEY and UNIQUE user_id columns. */
    ghost predicate Valid()
      reads this
    {
      UniqueUsernames(rows) && UniqueIds(rows) && UniqueUserIds(rows)
    }

    constructor ()
      ensures Valid() && rows == []
    {
      rows := [];
    }

    /**
     * update_user_in_database: which columns the UPDATE writes depends on which new
     * values are given; with neither it returns False without touching the table.
     * A new username already held by another row violates UNIQUE, which the handler
     * catches and reports as False.
     */
    method UpdateUserInDatabase(username: string, newUsername: Option<string>, newPassword: Option<string>,
                                hash: string -> string) returns (ok: bool)
      requires Valid()
      modifies this
      ensures Valid()
      ensures !Given(newUsername) && !Given(newPassword) ==> !ok && rows == old(rows)
      ensures ok <==> (Given(newUsername) || Given(newPassword))
                      && HasUsername(old(rows), username)
                      && !(Given(newUsername) && newUsername.value != username
                           && HasUsername(old(rows), newUsername.value))
      ensures !ok ==> rows == old(rows)
      ensures ok ==> (|rows| == |old(rows)|
                      && forall i :: 0 <= i < |rows| ==>
                           rows[i] == if old(rows)[i].username == username
                                      then Updated(old(rows)[i], newUsername, newPassword, hash)
                                      else old(rows)[i])
    {
      if !Given(newUsername) && !Given(newPassword) {
        return false;
      }
      var matched := HasUsername(rows, username);
      if Given(newUsername) && newUsername.value != username && HasUsername(rows, newUsername.value) && matched {
        // IntegrityError (sqlite3.Error): caught, reported as a failed update
        return false;
      }
      UpdatedRowsUnique(rows, username, newUsername, newPassword, hash);
      rows := UpdatedRows(rows, username, newUsername, newPassword, hash);
      ok := matched;
      if !matched {
        assert rows == old(rows);
      }
    }

    /**
     * register_user: validation, the duplicate check, then the INSERT of the new row with
     * its hashed password and the `USER-<seconds>` user_id made from the clock (`userId`);
     * the table fills in the key and the default status.
     */
    method RegisterUser(username: Option<string>, password: Option<string>, role: Option<string>,
                        userId: string, hash: string -> string) returns (r: RegisterResponse)
      requires Valid()
      modifies this
      ensures Valid()
      ensures r == RegisterOutcome(CorrectedUsers, old(rows), username, password, role, userId)
      ensures !r.Registered? ==> rows == old(rows)
      ensures r.Registered? ==>
                rows == old(rows) + [UserRow(NextId(old(rows)), username.value, hash(password.value), role.value,
                                             Some(userId), "active")]
    {
      r := RegisterOutcome(CorrectedUsers, rows, username, password, role, userId);
      if r.Registered? {
        rows := rows + [UserRow(NextId(rows), username.value, hash(password.value), role.value, Some(userId), "active")];
      }
    }

    /** suspend_user: toggles between 'active' and 'suspended'; any other status becomes 'active'. */
    method SuspendUser(id: int) returns (r: SuspendResponse)
      requires Valid()
      modifies this
      ensures Valid()
      ensures (forall i :: 0 <= i < |old(rows)| ==> old(rows)[i].id != id) <==> r == UserNotFound
      ensures r == UserNotFound ==> rows == old(rows)
      ensures r.StatusChanged? ==>
                exists k :: 0 <= k < |old(rows)| && old(rows)[k].id == id
                         && r.status == (if old(rows)[k].status == "active" then "suspended" else "active")
                         && rows == old(rows)[k := old(rows)[k].(status := r.status)]
    {
      var found := IndexOfId(rows, id);
      if found.None? {
        return UserNotFound;
      }
      var k := found.value;
      var status := if rows[k].status == "active" then "suspended" else "active";
      rows := rows[k := rows[k].(status := status)];
      r := StatusChanged(status);
    }
  }

  /** `User.query.get(id)`: the position of the row with that primary key. */
  function IndexOfId(rows: seq<UserRow>, id: int): (r: Option<nat>)
    ensures r.None? <==> forall i :: 0 <= i < |rows| ==> rows[i].id != id
    ensures r.Some? ==> r.value < |rows| && rows[r.value].id == id
  {
    if rows == [] then None
    else if rows[|rows| - 1].id == id then Some(|rows| - 1)
    else IndexOfId(rows[..|rows| - 1], id)
  }

  /** The AUTOINCREMENT key of a new row: larger than every id in the table. */
  function NextId(rows: seq<UserRow>): (id: int)
    ensures forall i :: 0 <= i < |rows| ==> rows[i].id < id
  {
    if rows == [] then 1 else MaxI(NextId(rows[..|rows| - 1]), rows[|rows| - 1].id + 1)
  }
}
