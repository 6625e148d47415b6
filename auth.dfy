/**
 * Authentication: the passport `LocalStrategy` verify callback, user
 * serialization into the session, and the `/signup`, `/login` and `/session`
 * handlers.
 */
module Auth {
  import opened Wrappers
  import opened UsersDb

  /** How a handler ends. */
  datatype Outcome =
    | NoContent  // status 204
    | Forbidden  // status 403
    | Failed     // the database call rejected (no `users` table); no 204 or 403 is sent

  /**
   * The verify callback: the first row whose username and password both equal the
   * submitted ones (`userStmt[0]`), or no user ("Invalid credentials").
   */
  function Authenticate(rows: seq<User>, username: string, password: string): (r: Option<User>)
    ensures r.None? <==> forall i :: 0 <= i < |rows| ==> !Matches(rows[i], username, password)
    ensures r.Some? ==> exists i :: IsFirstMatch(rows, username, password, i) && r.value == rows[i]
  {
    var found := Where(rows, username, password);
    if found == [] then None else Some(found[0])
  }

  /**
   * passport-local's own guard: a missing or empty username or password is
   * refused ("Missing credentials") before the verify callback runs.
   */
  predicate HasCredentials(username: string, password: string)
  {
    username != "" && password != ""
  }

  /**
   * `serializeUser`: the session keeps only the user's id, and that id finds a
   * row in every table that holds the user.
   */
  function SerializeUser(u: User): (id: int)
    ensures forall rows: seq<User> {:trigger DeserializeUser(rows, id)} :: u in rows ==> DeserializeUser(rows, id).Some?
  {
    u.id
  }

  /**
   * `deserializeUser`: a row of the table with that id, or none when no row has
   * it.
   */
  function DeserializeUser(rows: seq<User>, id: int): (r: Option<User>)
    ensures r.Some? ==> r.value in rows && r.value.id == id
    ensures r.None? <==> forall u :: u in rows ==> u.id != id
  {
    FindById(rows, id)
  }

  /** Deserializing a serialized user of a well-formed table gives that user back. */
  lemma DeserializeSerialize(rows: seq<User>, nextId: int, u: User)
    requires WellFormed(rows, nextId) && u in rows
    ensures DeserializeUser(rows, SerializeUser(u)) == Some(u)
  {
    var v := FindById(rows, u.id).value;
    var i :| 0 <= i < |rows| && rows[i] == u;
    var j :| 0 <= j < |rows| && rows[j] == v;
    IdsUnique(rows, nextId, i, j);
  }

  /**
   * After a signup inserts `(nextId, username, password)`, authenticating with the
   * same credentials always finds a user. It is the new row exactly when no older
   * row had these credentials; otherwise it is the older row, as before the insert.
   */
  lemma AuthenticateAfterInsert(rows: seq<User>, nextId: int, username: string, password: string)
    requires WellFormed(rows, nextId)
    ensures var after := Authenticate(rows + [User(nextId, username, password)], username, password);
      && after.Some?
      && (after.value.id == nextId <==> Authenticate(rows, username, password).None?)
      && (Authenticate(rows, username, password).Some? ==> after == Authenticate(rows, username, password))
  {
    var row := User(nextId, username, password);
    var rows' := rows + [row];
    var after := Authenticate(rows', username, password);
    var before := Authenticate(rows, username, password);
    assert rows'[|rows|] == row;
    var k :| IsFirstMatch(rows', username, password, k) && after.value == rows'[k];
    if before.Some? {
      var i :| IsFirstMatch(rows, username, password, i) && before.value == rows[i];
      assert IsFirstMatch(rows', username, password, i);
      FirstMatchUnique(rows', username, password, i, k);
    } else {
      assert IsFirstMatch(rows', username, password, |rows|);
      FirstMatchUnique(rows', username, password, |rows|, k);
    }
  }

  /** The server side of one browser session. */
  class Session {
    /** `session.passport.user`: the serialized principal that `req.logIn` stores. */
    var passportUser: Option<int>
    /** `session.userId`: set by the login handler only. */
    var userId: Option<int>

    constructor ()
      ensures passportUser == None && userId == None
    {
      passportUser := None;
      userId := None;
    }
  }

  /**
   * `/session`: `req.user || {}`, where `req.user` is the stored principal
   * deserialized; `None` stands for the empty object.
   */
  function SessionUser(db: Database, session: Session): (r: Option<User>)
    reads db, session
    ensures r.Some? ==> session.passportUser == Some(r.value.id) && r.value in db.users
    ensures session.passportUser.None? ==> r.None?
    ensures session.passportUser.Some? && r.None? ==>
      forall u :: u in db.users ==> u.id != session.passportUser.value
  {
    match session.passportUser
    case None => None
    case Some(id) => DeserializeUser(db.users, id)
  }

  /**
   * `/login`: passport-local answers 403 to empty credentials before any query.
   * Otherwise the verify callback queries `users`; without a row matching both
   * credentials the answer is 403 and the session is left alone; with one, the
   * first such row is logged in, its id is also stored as `session.userId`, and
   * the answer is 204.
   */
  method Login(db: Database, session: Session, username: string, password: string) returns (outcome: Outcome)
    requires db.Valid()
    modifies session
    ensures !HasCredentials(username, password) ==> outcome == Forbidden && unchanged(session)
    ensures HasCredentials(username, password) && !db.hasUsersTable ==> outcome == Failed && unchanged(session)
    ensures (HasCredentials(username, password) && db.hasUsersTable &&
             Authenticate(db.users, username, password).None?) ==>
      outcome == Forbidden && unchanged(session)
    ensures (HasCredentials(username, password) && db.hasUsersTable &&
             Authenticate(db.users, username, password).Some?) ==>
      var user := Authenticate(db.users, username, password).value;
      && outcome == NoContent
      && session.passportUser == Some(user.id)
      && session.userId == Some(user.id)
      && SessionUser(db, session) == Some(user)
  {
    if !HasCredentials(username, password) {
      return Forbidden;
    }
    if !db.hasUsersTable {
      return Failed;
    }
    var user := Authenticate(db.users, username, password);
    if user.None? {
      return Forbidden;
    }
    session.passportUser := Some(SerializeUser(user.value));
    session.userId := Some(user.value.id);
    DeserializeSerialize(db.users, db.nextId, user.value);
    outcome := NoContent;
  }

  /**
   * `/signup`: inserts the credentials without looking for an existing username,
   * even empty ones. Then passport-local answers 403 to empty credentials, leaving
   * the session alone; otherwise it authenticates with them, which cannot fail,
   * and answers 204. The session holds the first row with these credentials,
   * which is the new row unless an identical one existed; `session.userId` is not
   * set.
   */
  method Signup(db: Database, session: Session, username: string, password: string) returns (outcome: Outcome)
    requires db.Valid()
    modifies db, session
    ensures db.Valid() && db.hasUsersTable == old(db.hasUsersTable)
    ensures !old(db.hasUsersTable) ==>
      outcome == Failed && db.users == old(db.users) && db.nextId == old(db.nextId) && unchanged(session)
    ensures old(db.hasUsersTable) ==>
      && db.users == old(db.users) + [User(old(db.nextId), username, password)]
      && db.nextId == old(db.nextId) + 1
    ensures old(db.hasUsersTable) && !HasCredentials(username, password) ==>
      outcome == Forbidden && unchanged(session)
    ensures old(db.hasUsersTable) && HasCredentials(username, password) ==>
      && outcome == NoContent
      && Authenticate(db.users, username, password).Some?
      && session.passportUser == Some(Authenticate(db.users, username, password).value.id)
      && (session.passportUser == Some(old(db.nextId)) <==> Authenticate(old(db.users), username, password).None?)
      && session.userId == old(session.userId)
  {
    ghost var before := db.users;
    var inserted := db.Insert(username, password);
    if inserted.None? {
      return Failed;
    }
    if !HasCredentials(username, password) {
      return Forbidden;
    }
    AuthenticateAfterInsert(before, inserted.value, username, password);
    var user := Authenticate(db.users, username, password);
    if user.None? {
      assert false;
      return Forbidden;
    }
    session.passportUser := Some(SerializeUser(user.value));
    outcome := NoContent;
  }

  /**
   * Two signups with one username on a fresh database both insert a row, with
   * different ids. A signup with non-empty credentials answers 204 and logs in;
   * one with an empty username or password answers 403 and logs in nobody. With
   * equal passwords, the second session holds the first row.
   */
  method DuplicateSignups(username: string, password1: string, password2: string)
    returns (rows: seq<User>, outcome1: Outcome, outcome2: Outcome, principal1: Option<int>, principal2: Option<int>)
    ensures |rows| == 2 && rows[0].username == username && rows[1].username == username
    ensures rows[0].password == password1 && rows[1].password == password2
    ensures rows[0].id != rows[1].id
    ensures outcome1 == (if HasCredentials(username, password1) then NoContent else Forbidden)
    ensures outcome2 == (if HasCredentials(username, password2) then NoContent else Forbidden)
    ensures principal1 == (if HasCredentials(username, password1) then Some(rows[0].id) else None)
    ensures principal2 ==
      if !HasCredentials(username, password2) then None
      else Some(if password1 == password2 then rows[0].id else rows[1].id)
  {
    var db := new Database();
    db.CreateSchema();
    var first := new Session();
    outcome1 := Signup(db, first, username, password1);
    var second := new Session();
    outcome2 := Signup(db, second, username, password2);
    rows := db.users;
    principal1 := first.passportUser;
    principal2 := second.passportUser;
    assert rows[0].id == 1 && rows[1].id == 2;
    assert [rows[0]][0] == rows[0];
    if password1 != password2 {
      assert !Matches(rows[0], username, password2);
    }
  }
}
