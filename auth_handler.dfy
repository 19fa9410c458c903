/**
 * Logging in (src/auth_handler.rs): look the email up, check the password,
 * issue a token.
 */
module AuthHandler {
  import opened Wrappers
  import opened Errors
  import Env
  import Bcrypt
  import Models
  import Utils
  import LoggedUsers
  import RegisterHandler

  datatype AuthData = AuthData(email: string, password: string)

  const MISMATCH := "Username and Password don't match"

  /** The row `pop` yields from the rows loaded for `email`: the last one. */
  function Candidate(users: seq<Models.User>, email: string): (c: Option<Models.User>)
    ensures c.Some? <==> Models.EmailTaken(users, email)
    ensures c.Some? ==> c.value.email == email && c.value in users
    ensures c.Some? ==> exists i :: 0 <= i < |users| && users[i] == c.value &&
                                   forall j :: i < j < |users| ==> users[j].email != email
  {
    var keep := (u: Models.User) => u.email == email;
    var loaded := Models.Filter(users, keep);
    if loaded == [] then None
    else
      Models.FilterLast(users, keep);
      Some(loaded[|loaded| - 1])
  }

  /** Under the primary key of `users`, the row checked is the one row with the email. */
  lemma CandidateUnique(users: seq<Models.User>, email: string, i: nat)
    requires Models.UniqueEmails(users)
    requires i < |users| && users[i].email == email
    ensures Candidate(users, email) == Some(users[i])
  {
    var c := Candidate(users, email).value;
    var k :| 0 <= k < |users| && users[k] == c;
    assert users[k].email == users[i].email;
  }

  /** Whether the password matches the candidate; a verification error is a mismatch. */
  predicate PasswordMatches(password: string, c: Models.User) {
    Bcrypt.Verify(password, c.password) == Success(true)
  }

  /** `handle`: the user and a token for it, or why not. */
  function Handle(users: seq<Models.User>, msg: AuthData, env: Env.Env, faults: Models.Faults, now: int)
    : (r: Result<(Models.SlimUser, Utils.Token), ServiceError>)
    ensures faults.pool ==> r == Failure(R2D2Error)
    ensures !faults.pool && faults.read ==> r == Failure(DbError(ConnectionLost))
    ensures !faults.pool && !faults.read ==>
              (r.Success? <==> Candidate(users, msg.email).Some? &&
                               PasswordMatches(msg.password, Candidate(users, msg.email).value))
    ensures !faults.pool && !faults.read && r.Failure? ==> r.error == BadRequest(MISMATCH)
    ensures r.Success? ==> r.value.0.email == msg.email
    ensures r.Success? ==> Utils.DecodeToken(r.value.1, env, now) == Success(Utils.WithEmail(msg.email, env, now))
  {
    if faults.pool then Failure(R2D2Error)
    else if faults.read then Failure(DbError(ConnectionLost))
    else
      match Candidate(users, msg.email)
      case Some(user) =>
        (match Bcrypt.Verify(msg.password, user.password)
         case Success(true) =>
           var slim := Models.SlimUserFromUser(user);
           (match Utils.CreateToken(slim, env, now)
            case Success(token) => Success((slim, token))
            case Failure(e) => Failure(e))
         case _ => Failure(BadRequest(MISMATCH)))
      case None => Failure(BadRequest(MISMATCH))
  }

  /** A user just registered can log in with the password it registered with, and with no other. */
  lemma LoginAfterRegister(users: seq<Models.User>, invitations: seq<Models.Invitation>,
                           reg: RegisterHandler.RegisterUser, env: Env.Env, salt: Bcrypt.Salt,
                           faults: Models.Faults, registered: int, attempt: string, now: int)
    requires RegisterHandler.NewUser(invitations, reg, env, salt, faults, registered).Success?
    ensures var u := RegisterHandler.NewUser(invitations, reg, env, salt, faults, registered).value;
            var r := Handle(users + [u], AuthData(u.email, attempt), env, faults, now);
            && (r.Success? <==> attempt == reg.password)
            && (r.Success? ==> r.value.0.email == u.email)
  {
    var u := RegisterHandler.NewUser(invitations, reg, env, salt, faults, registered).value;
    Models.FilterAppend(users, u, (x: Models.User) => x.email == u.email);
  }

  /**
   * A token from a successful login is accepted on a request while it is
   * unexpired and the cache was reloaded from the same users less than 15
   * minutes earlier.
   */
  lemma LoginThenRequest(users: seq<Models.User>, msg: AuthData, env: Env.Env, cache: LoggedUsers.Cache,
                         loggedIn: int, reloaded: int, now: int)
    requires Handle(users, msg, env, Models.Faults(false, false, false), loggedIn).Success?
    requires !LoggedUsers.TestBypass(env)
    requires now <= loggedIn + Utils.TOKEN_VALIDITY
    requires now - reloaded < LoggedUsers.FRESH_SECONDS
    ensures var token := Handle(users, msg, env, Models.Faults(false, false, false), loggedIn).value.1;
            LoggedUsers.Authorize(env, LoggedUsers.Identified(token),
                                  LoggedUsers.Merged(cache, LoggedUsers.Emails(users), reloaded), now)
              == Success(LoggedUsers.LoggedUser(msg.email))
  {
    var faults := Models.Faults(false, false, false);
    var r := Handle(users, msg, env, faults, loggedIn);
    var slim := r.value.0;
    Utils.TokenRoundTrip(slim, env, loggedIn, now);
    var c := Candidate(users, msg.email).value;
    var i :| 0 <= i < |users| && users[i] == c;
    var emails := LoggedUsers.Emails(users);
    var u := LoggedUsers.LoggedUser(msg.email);
    assert emails[i] == u;
    LoggedUsers.MergedAt(cache, emails, reloaded);
    var bag := LoggedUsers.Merged(cache, emails, reloaded)[u];
    assert bag[|LoggedUsers.Bag(cache, u)|] == LoggedUsers.Authorized(reloaded);
    assert LoggedUsers.Grants(bag[|LoggedUsers.Bag(cache, u)|], now);
  }
}
