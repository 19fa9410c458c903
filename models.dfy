/**
 * The stored records and the read-only store queries (src/models.rs), over an
 * in-memory copy of the `users` and `invitations` tables.
 */
module Models {
  import opened Wrappers
  import opened Errors
  import Bcrypt
  import Uuid

  /** A row of `users`; `email` is the table's primary key. */
  datatype User = User(email: string, password: Bcrypt.HashString, createdAt: int)

  /** A row of `invitations`; `id` is the table's primary key. */
  datatype Invitation = Invitation(id: Uuid.Uuid, email: string, expiresAt: int)

  /** The user as shown to clients: only the email. */
  datatype SlimUser = SlimUser(email: string)

  /**
   * Which store steps fail during one request: checking a connection out of
   * the pool, a reading query, a writing query.
   */
  datatype Faults = Faults(pool: bool, read: bool, write: bool)

  /** What the store functions that return `anyhow::Error` report. */
  datatype StoreError = PoolTimeout | Query(cause: DbCause)

  /** The rows a query with a WHERE clause loads, in table order. */
  function Filter<T>(rows: seq<T>, keep: T -> bool): (r: seq<T>)
    ensures |r| <= |rows|
    ensures forall k :: 0 <= k < |r| ==> keep(r[k]) && r[k] in rows
    ensures r == [] <==> forall i :: 0 <= i < |rows| ==> !keep(rows[i])
  {
    if rows == [] then []
    else
      var init := Filter(rows[..|rows| - 1], keep);
      var last := rows[|rows| - 1];
      assert forall i :: 0 <= i < |rows| - 1 ==> rows[..|rows| - 1][i] == rows[i];
      if keep(last) then init + [last] else init
  }

  /** A load misses no matching row. */
  lemma {:induction false} FilterComplete<T>(rows: seq<T>, keep: T -> bool, i: nat)
    requires i < |rows| && keep(rows[i])
    ensures rows[i] in Filter(rows, keep)
  {
    var n := |rows| - 1;
    if i < n {
      assert rows[..n][i] == rows[i];
      FilterComplete(rows[..n], keep, i);
    }
  }

  /** The last row a load returns is the last matching row of the table. */
  lemma {:induction false} FilterLast<T>(rows: seq<T>, keep: T -> bool)
    requires Filter(rows, keep) != []
    ensures exists i :: 0 <= i < |rows| && rows[i] == Filter(rows, keep)[|Filter(rows, keep)| - 1] &&
                        forall j :: i < j < |rows| ==> !keep(rows[j])
  {
    var i := LastMatch(rows, keep);
  }

  /** The position of the row FilterLast names. */
  lemma {:induction false} LastMatch<T>(rows: seq<T>, keep: T -> bool) returns (i: nat)
    requires Filter(rows, keep) != []
    ensures i < |rows| && rows[i] == Filter(rows, keep)[|Filter(rows, keep)| - 1]
    ensures forall j :: i < j < |rows| ==> !keep(rows[j])
  {
    var n := |rows| - 1;
    var init := Filter(rows[..n], keep);
    if keep(rows[n]) {
      assert Filter(rows, keep) == init + [rows[n]];
      i := n;
    } else {
      assert Filter(rows, keep) == init;
      i := LastMatch(rows[..n], keep);
      assert rows[..n][i] == rows[i];
      assert forall j :: i < j < n ==> rows[..n][j] == rows[j];
    }
  }

  /** A row appended to a table is the last one a matching query loads. */
  lemma FilterAppend<T>(rows: seq<T>, x: T, keep: T -> bool)
    ensures Filter(rows + [x], keep) == if keep(x) then Filter(rows, keep) + [x] else Filter(rows, keep)
  {
    assert (rows + [x])[..|rows|] == rows;
  }

  /** `User::get_authorized_users`: every row of `users`. */
  function GetAuthorizedUsers(rows: seq<User>, faults: Faults): (r: Result<seq<User>, StoreError>)
    ensures r.Success? <==> !faults.pool && !faults.read
    ensures r.Success? ==> r.value == rows
    ensures faults.pool ==> r == Failure(PoolTimeout)
    ensures !faults.pool && faults.read ==> r == Failure(Query(ConnectionLost))
  {
    if faults.pool then Failure(PoolTimeout)
    else if faults.read then Failure(Query(ConnectionLost))
    else Success(rows)
  }

  /** `User::from_details`: a new row stamped with the creation time. */
  function FromDetails(email: string, password: Bcrypt.HashString, now: int): (u: User)
    ensures u.email == email && u.password == password && u.createdAt == now
  {
    User(email, password, now)
  }

  /** The position of the first row with this email, or |rows| if there is none. */
  function FirstWithEmail(rows: seq<User>, email: string): (k: nat)
    ensures k <= |rows|
    ensures k < |rows| ==> rows[k].email == email
    ensures forall j :: 0 <= j < k ==> rows[j].email != email
  {
    if rows == [] then 0
    else if rows[0].email == email then 0
    else 1 + FirstWithEmail(rows[1..], email)
  }

  /** `User::get_by_email`: the first row with this email. */
  function GetByEmail(email: string, rows: seq<User>, faults: Faults): (r: Result<User, StoreError>)
    ensures faults.pool ==> r == Failure(PoolTimeout)
    ensures !faults.pool && faults.read ==> r == Failure(Query(ConnectionLost))
    ensures !faults.pool && !faults.read ==>
              (r.Success? <==> exists i :: 0 <= i < |rows| && rows[i].email == email)
    ensures !faults.pool && !faults.read && r.Failure? ==> r.error == Query(NotFound)
    ensures r.Success? ==> exists i :: 0 <= i < |rows| && rows[i] == r.value && r.value.email == email &&
                            forall j :: 0 <= j < i ==> rows[j].email != email
  {
    if faults.pool then Failure(PoolTimeout)
    else if faults.read then Failure(Query(ConnectionLost))
    else
      var k := FirstWithEmail(rows, email);
      if k < |rows| then Success(rows[k]) else Failure(Query(NotFound))
  }

  /** `From<User> for SlimUser`. */
  function SlimUserFromUser(u: User): (s: SlimUser)
    ensures s.email == u.email
  {
    SlimUser(u.email)
  }

  predicate EmailTaken(rows: seq<User>, email: string) {
    exists i :: 0 <= i < |rows| && rows[i].email == email
  }

  predicate IdTaken(rows: seq<Invitation>, id: Uuid.Uuid) {
    exists i :: 0 <= i < |rows| && rows[i].id == id
  }

  /** The primary key of `users`. */
  ghost predicate UniqueEmails(rows: seq<User>) {
    forall i, j :: 0 <= i < j < |rows| ==> rows[i].email != rows[j].email
  }

  /** The primary key of `invitations`. */
  ghost predicate UniqueIds(rows: seq<Invitation>) {
    forall i, j :: 0 <= i < j < |rows| ==> rows[i].id != rows[j].id
  }

  /**
   * The database behind the executor (DbExecutor): the two tables the
   * handlers read and write, with the inserts the primary keys constrain.
   */
  class DbExecutor {
    var users: seq<User>
    var invitations: seq<Invitation>

    ghost predicate Valid()
      reads this
    {
      UniqueEmails(users) && UniqueIds(invitations)
    }

    constructor (users: seq<User>, invitations: seq<Invitation>)
      requires UniqueEmails(users) && UniqueIds(invitations)
      ensures this.users == users && this.invitations == invitations
      ensures Valid()
    {
      this.users := users;
      this.invitations := invitations;
    }

    /** `insert_into(users).values(u).get_result`: fails on a taken email. */
    method InsertUser(u: User, faults: Faults) returns (r: Result<User, DbCause>)
      modifies this
      ensures faults.write ==> r == Failure(ConnectionLost)
      ensures !faults.write && EmailTaken(old(users), u.email) ==> r == Failure(UniqueViolation)
      ensures r.Success? <==> !faults.write && !EmailTaken(old(users), u.email)
      ensures r.Success? ==> r.value == u && users == old(users) + [u]
      ensures r.Failure? ==> users == old(users)
      ensures invitations == old(invitations)
      ensures old(Valid()) ==> Valid()
    {
      if faults.write {
        r := Failure(ConnectionLost);
      } else if EmailTaken(users, u.email) {
        r := Failure(UniqueViolation);
      } else {
        users := users + [u];
        r := Success(u);
      }
    }

    /** `insert_into(invitations).values(inv).get_result`: fails on a taken id. */
    method InsertInvitation(inv: Invitation, faults: Faults) returns (r: Result<Invitation, DbCause>)
      modifies this
      ensures faults.write ==> r == Failure(ConnectionLost)
      ensures !faults.write && IdTaken(old(invitations), inv.id) ==> r == Failure(UniqueViolation)
      ensures r.Success? <==> !faults.write && !IdTaken(old(invitations), inv.id)
      ensures r.Success? ==> r.value == inv && invitations == old(invitations) + [inv]
      ensures r.Failure? ==> invitations == old(invitations)
      ensures users == old(users)
      ensures old(Valid()) ==> Valid()
    {
      if faults.write {
        r := Failure(ConnectionLost);
      } else if IdTaken(invitations, inv.id) {
        r := Failure(UniqueViolation);
      } else {
        invitations := invitations + [inv];
        r := Success(inv);
      }
    }
  }
}
