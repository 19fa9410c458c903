/**
 * Changing a password (src/change_password_handler.rs): hash the new
 * password, then rewrite every row with the given email.
 */
module ChangePasswordHandler {
  import opened Wrappers
  import opened Errors
  import Env
  import Bcrypt
  import Models
  import Utils
  import AuthHandler

  datatype ChangePassword = ChangePassword(email: string, password: string)

  const UPDATE_FAILED := "Update failed"

  /**
   * The table after `UPDATE users SET password = hash WHERE email = email`:
   * only the password changes, and only on the rows with the email.
   */
  function WithPassword(rows: seq<Models.User>, email: string, hash: Bcrypt.HashString): (r: seq<Models.User>)
    ensures |r| == |rows|
    ensures forall i :: 0 <= i < |rows| ==> r[i].email == rows[i].email && r[i].createdAt == rows[i].createdAt
    ensures forall i :: 0 <= i < |rows| && rows[i].email == email ==> r[i].password == hash
    ensures forall i :: 0 <= i < |rows| && rows[i].email != email ==> r[i] == rows[i]
  {
    seq(|rows|, i requires 0 <= i < |rows| =>
      if rows[i].email == email then rows[i].(password := hash) else rows[i])
  }

  /**
   * `handle`: a hashing failure or an update failure leaves the table as it
   * was; otherwise the answer is whether any row matched.
   */
  method Handle(db: Models.DbExecutor, msg: ChangePassword, env: Env.Env, salt: Bcrypt.Salt, faults: Models.Faults)
    returns (r: Result<bool, ServiceError>)
    modifies db
    ensures var hashed := Utils.HashPassword(msg.password, env, salt);
            && (hashed.Failure? ==> r == Failure(InternalServerError) && db.users == old(db.users))
            && (hashed.Success? && faults.write ==> r == Failure(BadRequest(UPDATE_FAILED)) && db.users == old(db.users))
            && (hashed.Success? && !faults.write ==>
                  r == Success(Models.EmailTaken(old(db.users), msg.email)) &&
                  db.users == WithPassword(old(db.users), msg.email, hashed.value))
    ensures db.invitations == old(db.invitations)
    ensures old(db.Valid()) ==> db.Valid()
  {
    var hashed := Utils.HashPassword(msg.password, env, salt);
    if hashed.Failure? {
      return Failure(hashed.error);
    }
    if faults.write {
      return Failure(BadRequest(UPDATE_FAILED));
    }
    var changed := 0;
    var i := 0;
    while i < |db.users|
      invariant 0 <= i <= |db.users| == |old(db.users)|
      invariant forall j :: 0 <= j < |db.users| ==>
                  db.users[j] == if j < i && old(db.users)[j].email == msg.email
                                 then old(db.users)[j].(password := hashed.value) else old(db.users)[j]
      invariant (changed > 0) == Models.EmailTaken(old(db.users)[..i], msg.email)
      invariant db.invitations == old(db.invitations)
    {
      assert old(db.users)[..i + 1] == old(db.users)[..i] + [old(db.users)[i]];
      if db.users[i].email == msg.email {
        db.users := db.users[i := db.users[i].(password := hashed.value)];
        changed := changed + 1;
      }
      i := i + 1;
    }
    assert old(db.users)[..i] == old(db.users);
    assert db.users == WithPassword(old(db.users), msg.email, hashed.value);
    r := Success(changed > 0);
  }

  /** After a change, the account logs in with the new password and with nothing else. */
  lemma LoginAfterChange(users: seq<Models.User>, msg: ChangePassword, env: Env.Env, salt: Bcrypt.Salt,
                         attempt: string, now: int)
    requires Utils.HashPassword(msg.password, env, salt).Success?
    requires Models.EmailTaken(users, msg.email)
    ensures var after := WithPassword(users, msg.email, Utils.HashPassword(msg.password, env, salt).value);
            var r := AuthHandler.Handle(after, AuthHandler.AuthData(msg.email, attempt), env, Models.Faults(false, false, false), now);
            r.Success? <==> attempt == msg.password
  {
    var h := Utils.HashPassword(msg.password, env, salt).value;
    var after := WithPassword(users, msg.email, h);
    var i :| 0 <= i < |users| && users[i].email == msg.email;
    assert after[i].email == msg.email;
    var c := AuthHandler.Candidate(after, msg.email).value;
    var j :| 0 <= j < |after| && after[j] == c;
    assert c.password == h;
  }
}
