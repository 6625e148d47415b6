/**
 * The credential store: the `users` table behind the `User` model, with an
 * auto-increment primary key `id` and plain `username` and `password` columns
 * that carry no uniqueness constraint.
 */
module UsersDb {
  import opened Wrappers

  /** One row of `users`. */
  datatype User = User(id: int, username: string, password: string)

  /**
   * What an auto-increment key guarantees of the rows: every id is positive and
   * below the next id to hand out, and ids grow strictly in insertion order.
   */
  predicate WellFormed(rows: seq<User>, nextId: int)
  {
    && 1 <= nextId
    && (forall i :: 0 <= i < |rows| ==> 1 <= rows[i].id < nextId)
    && (forall i, j :: 0 <= i < j < |rows| ==> rows[i].id < rows[j].id)
  }

  /** No two rows of a well-formed table share an id. */
  lemma IdsUnique(rows: seq<User>, nextId: int, i: int, j: int)
    requires WellFormed(rows, nextId)
    requires 0 <= i < |rows| && 0 <= j < |rows| && rows[i].id == rows[j].id
    ensures i == j
  {
  }

  /** Appending a row under the next id keeps the table well formed; that id was unused. */
  lemma InsertKeepsWellFormed(rows: seq<User>, nextId: int, username: string, password: string)
    requires WellFormed(rows, nextId)
    ensures WellFormed(rows + [User(nextId, username, password)], nextId + 1)
    ensures forall u :: u in rows ==> u.id != nextId
  {
  }

  /** Both `where` clauses of the verify callback hold of `u`. */
  predicate Matches(u: User, username: string, password: string)
  {
    u.username == username && u.password == password
  }

  /** `i` is the position of the first row matching both columns. */
  predicate IsFirstMatch(rows: seq<User>, username: string, password: string, i: int)
  {
    && 0 <= i < |rows|
    && Matches(rows[i], username, password)
    && (forall j :: 0 <= j < i ==> !Matches(rows[j], username, password))
  }

  lemma FirstMatchUnique(rows: seq<User>, username: string, password: string, i: int, j: int)
    requires IsFirstMatch(rows, username, password, i) && IsFirstMatch(rows, username, password, j)
    ensures i == j
  {
    assert Matches(rows[i], username, password) && Matches(rows[j], username, password);
  }

  /**
   * `User.query().where('username', '=', username).where('password', '=', password)`:
   * the matching rows, in table order.
   */
  function Where(rows: seq<User>, username: string, password: string): (r: seq<User>)
    ensures forall u :: u in r ==> u in rows && Matches(u, username, password)
    ensures r == [] <==> forall i :: 0 <= i < |rows| ==> !Matches(rows[i], username, password)
    ensures r != [] ==> exists i :: IsFirstMatch(rows, username, password, i) && r[0] == rows[i]
  {
    if rows == [] then []
    else
      var n := |rows| - 1;
      var before := Where(rows[..n], username, password);
      assert forall i :: 0 <= i < n ==> rows[..n][i] == rows[i];
      assert forall u :: u in rows[..n] ==> u in rows;
      before + (if Matches(rows[n], username, password) then [rows[n]] else [])
  }

  /** `User.query().findById(id)`: the row with that id, if there is one. */
  function FindById(rows: seq<User>, id: int): (r: Option<User>)
    ensures r.None? <==> forall u :: u in rows ==> u.id != id
    ensures r.Some? ==> r.value in rows && r.value.id == id
  {
    if rows == [] then None
    else if rows[0].id == id then Some(rows[0])
    else
      assert rows == [rows[0]] + rows[1..];
      FindById(rows[1..], id)
  }

  /** The SQLite database file, reduced to the one table the server uses. */
  class Database {
    /** Whether the `users` table exists. */
    var hasUsersTable: bool
    /** The rows of `users`, in insertion order. */
    var users: seq<User>
    /** The id the auto-increment key hands out next. */
    var nextId: int

    ghost predicate Valid()
      reads this
    {
      WellFormed(users, nextId) && (!hasUsersTable ==> users == [] && nextId == 1)
    }

    /** A database file without the `users` table. */
    constructor ()
      ensures Valid() && !hasUsersTable
    {
      hasUsersTable := false;
      users := [];
      nextId := 1;
    }

    /**
     * `createSchema`: nothing happens when `users` exists; otherwise the table is
     * created empty, with its key counter at the start. Calling it twice is calling it once.
     */
    method CreateSchema()
      requires Valid()
      modifies this
      ensures Valid() && hasUsersTable
      ensures old(hasUsersTable) ==> users == old(users) && nextId == old(nextId)
      ensures !old(hasUsersTable) ==> users == [] && nextId == 1
    {
      if hasUsersTable {
        return;
      }
      hasUsersTable := true;
      users := [];
      nextId := 1;
    }

    /**
     * `User.query().insert({ username, password })`: always appends a row, even
     * when the username is taken, under a fresh id; fails if the table is missing.
     */
    method Insert(username: string, password: string) returns (id: Option<int>)
      requires Valid()
      modifies this
      ensures Valid() && hasUsersTable == old(hasUsersTable)
      ensures !old(hasUsersTable) ==> id == None && users == old(users) && nextId == old(nextId)
      ensures old(hasUsersTable) ==>
        && id == Some(old(nextId))
        && users == old(users) + [User(old(nextId), username, password)]
        && nextId == old(nextId) + 1
      ensures id.Some? ==> forall u :: u in old(users) ==> u.id != id.value
    {
      if !hasUsersTable {
        return None;
      }
      InsertKeepsWellFormed(users, nextId, username, password);
      id := Some(nextId);
      users := users + [User(nextId, username, password)];
      nextId := nextId + 1;
    }
  }
}
