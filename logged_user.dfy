/**
 * The authorization cache and the per-request authorization decision
 * (src/logged_user.rs).
 *
 * The cache maps each user to a bag of statuses: writing a status adds it to
 * the bag and never replaces what is there. A user is authorized while any
 * status in its bag is a grant less than 15 whole minutes old.
 */
module LoggedUsers {
  import opened Wrappers
  import opened Errors
  import Env
  import Utils
  import Models

  datatype LoggedUser = LoggedUser(email: string)

  /** `From<Claim> for LoggedUser`. */
  function FromClaim(c: Utils.Claim): (u: LoggedUser)
    ensures u.email == c.email
  {
    LoggedUser(Utils.GetEmail(c))
  }

  datatype AuthStatus = Authorized(at: int) | NotAuthorized

  const FRESH_MINUTES: int := 15
  const FRESH_SECONDS: int := FRESH_MINUTES * 60

  /** chrono's `Duration::num_minutes` on whole seconds: it truncates toward zero. */
  function NumMinutes(seconds: int): int {
    if seconds >= 0 then seconds / 60 else -((-seconds) / 60)
  }

  /** "Fewer than 15 whole minutes" is "fewer than 900 seconds", in the past or the future. */
  lemma FreshWindow(seconds: int)
    ensures NumMinutes(seconds) < FRESH_MINUTES <==> seconds < FRESH_SECONDS
  {
  }

  /** A status that lets its user in at `now`. */
  predicate Grants(s: AuthStatus, now: int) {
    s.Authorized? && now - s.at < FRESH_SECONDS
  }

  type Cache = map<LoggedUser, seq<AuthStatus>>

  /** What `is_authorized` answers for a cache in this state. */
  predicate AuthorizedIn(entries: Cache, u: LoggedUser, now: int) {
    u in entries && exists i :: 0 <= i < |entries[u]| && Grants(entries[u][i], now)
  }

  /** The bag of a key; a missing key has an empty bag. */
  function Bag(m: Cache, k: LoggedUser): seq<AuthStatus> {
    if k in m then m[k] else []
  }

  function Repeat(s: AuthStatus, n: nat): (r: seq<AuthStatus>)
    ensures |r| == n && forall i :: 0 <= i < n ==> r[i] == s
  {
    seq(n, _ => s)
  }

  predicate Distinct(us: seq<LoggedUser>) {
    forall i, j :: 0 <= i < j < |us| ==> us[i] != us[j]
  }

  /** The cache after inserting `s` once for every entry of `users`, in order. */
  function Stored(m: Cache, users: seq<LoggedUser>, s: AuthStatus): Cache {
    if users == [] then m
    else
      var prev := Stored(m, users[..|users| - 1], s);
      var u := users[|users| - 1];
      prev[u := Bag(prev, u) + [s]]
  }

  /** Storing adds exactly the listed users to the keys. */
  lemma {:induction false} StoredKeys(m: Cache, users: seq<LoggedUser>, s: AuthStatus)
    ensures forall k :: k in Stored(m, users, s) <==> k in m || k in users
  {
    if users != [] {
      var n := |users| - 1;
      StoredKeys(m, users[..n], s);
      assert users == users[..n] + [users[n]];
    }
  }

  /**
   * Storing appends to a bag one copy of the status per listing of its key,
   * and leaves every other bag as it was.
   */
  lemma {:induction false} StoredBag(m: Cache, users: seq<LoggedUser>, s: AuthStatus, k: LoggedUser)
    ensures Bag(Stored(m, users, s), k) == Bag(m, k) + Repeat(s, multiset(users)[k])
  {
    if users == [] {
      assert Bag(m, k) + Repeat(s, 0) == Bag(m, k);
    } else {
      var n := |users| - 1;
      var init, u := users[..n], users[n];
      StoredBag(m, init, s, k);
      assert users == init + [u];
      assert multiset(users) == multiset(init) + multiset{u};
      if k == u {
        assert Repeat(s, multiset(init)[k]) + [s] == Repeat(s, multiset(users)[k]);
      }
    }
  }

  lemma {:induction false} DistinctCount(us: seq<LoggedUser>, k: LoggedUser)
    requires Distinct(us)
    ensures multiset(us)[k] == if k in us then 1 else 0
  {
    if us != [] {
      var n := |us| - 1;
      assert us == us[..n] + [us[n]];
      assert us[n] !in us[..n];
      DistinctCount(us[..n], k);
    }
  }

  /** Storing a list without repetitions adds exactly one status to each listed bag. */
  lemma StoredOnce(m: Cache, users: seq<LoggedUser>, s: AuthStatus, k: LoggedUser)
    requires Distinct(users) && k in users
    ensures k in Stored(m, users, s) && Stored(m, users, s)[k] == Bag(m, k) + [s]
  {
    StoredKeys(m, users, s);
    StoredBag(m, users, s, k);
    DistinctCount(users, k);
  }

  /** The cache after the demotion half of a merge: unlisted keys gain NotAuthorized. */
  function Demoted(m: Cache, users: seq<LoggedUser>): Cache {
    map k | k in m :: if k in users then m[k] else m[k] + [NotAuthorized]
  }

  /** `merge_users`: demote every cached key that is not listed, then grant every listed user. */
  function Merged(m: Cache, users: seq<LoggedUser>, now: int): Cache {
    Stored(Demoted(m, users), users, Authorized(now))
  }

  /** Storing NotAuthorized for an enumeration of the unlisted keys is the demotion. */
  lemma DemotionByEnumeration(m: Cache, users: seq<LoggedUser>, demoted: seq<LoggedUser>)
    requires Distinct(demoted)
    requires forall k :: k in demoted <==> k in m && k !in users
    ensures Stored(m, demoted, NotAuthorized) == Demoted(m, users)
  {
    StoredKeys(m, demoted, NotAuthorized);
    forall k | k in m
      ensures Stored(m, demoted, NotAuthorized)[k] == Demoted(m, users)[k]
    {
      StoredBag(m, demoted, NotAuthorized, k);
      DistinctCount(demoted, k);
    }
  }

  /** What a merge does to each key. */
  lemma MergedAt(m: Cache, users: seq<LoggedUser>, now: int)
    ensures forall k :: k in Merged(m, users, now) <==> k in m || k in users
    ensures forall k :: k in m && k !in users ==> Merged(m, users, now)[k] == m[k] + [NotAuthorized]
    ensures forall k :: k in users ==>
              Merged(m, users, now)[k] == Bag(m, k) + Repeat(Authorized(now), multiset(users)[k])
  {
    var d := Demoted(m, users);
    StoredKeys(d, users, Authorized(now));
    forall k | k in m || k in users
      ensures Bag(Merged(m, users, now), k) == Bag(d, k) + Repeat(Authorized(now), multiset(users)[k])
    {
      StoredBag(d, users, Authorized(now), k);
    }
  }

  /** Right after a merge, every listed user is authorized. */
  lemma MergeAuthorizesListed(m: Cache, users: seq<LoggedUser>, now: int, u: LoggedUser)
    requires u in users
    ensures AuthorizedIn(Merged(m, users, now), u, now)
  {
    MergedAt(m, users, now);
    var bag := Merged(m, users, now)[u];
    assert bag[|Bag(m, u)|] == Authorized(now);
  }

  /**
   * A merge does not change whether an unlisted user is authorized: the
   * NotAuthorized it appends sits beside the user's earlier grants, and
   * `is_authorized` still finds those.
   */
  lemma MergeKeepsUnlisted(m: Cache, users: seq<LoggedUser>, now: int, k: LoggedUser, t: int)
    requires k !in users
    ensures AuthorizedIn(Merged(m, users, now), k, t) <==> AuthorizedIn(m, k, t)
  {
    MergedAt(m, users, now);
    if k in m {
      var bag := Merged(m, users, now)[k];
      assert bag == m[k] + [NotAuthorized];
      assert forall i :: 0 <= i < |m[k]| ==> bag[i] == m[k][i];
      if AuthorizedIn(Merged(m, users, now), k, t) {
        var i :| 0 <= i < |bag| && Grants(bag[i], t);
        assert i < |m[k]|;
      }
    }
  }

  /**
   * Dropping a user from the store does not revoke it: merged with a and b at
   * time 0, then with a alone at time 60, b is still let in at time 60.
   */
  lemma RevocationLag()
    ensures var a, b := LoggedUser("a@example.com"), LoggedUser("b@example.com");
            var second := Merged(Merged(map[], [a, b], 0), [a], 60);
            b in second && second[b] == [Authorized(0), NotAuthorized] && AuthorizedIn(second, b, 60)
  {
    var a, b := LoggedUser("a@example.com"), LoggedUser("b@example.com");
    var first := Merged(map[], [a, b], 0);
    MergedAt(map[], [a, b], 0);
    assert multiset([a, b])[b] == 1;
    assert first[b] == [Authorized(0)];
    MergedAt(first, [a], 60);
    var second := Merged(first, [a], 60);
    assert second[b] == [Authorized(0), NotAuthorized];
    assert Grants(second[b][0], 60);
  }

  /**
   * The cache (AuthorizedUsers). Readers and the writer share one map here;
   * every write is visible once the call that made it returns.
   */
  class AuthorizedUsers {
    var entries: Cache

    constructor ()
      ensures entries == map[]
    {
      entries := map[];
    }

    /** `is_authorized`: scan the user's bag for a grant under 15 minutes old. */
    method IsAuthorized(user: LoggedUser, now: int) returns (b: bool)
      ensures b == AuthorizedIn(entries, user, now)
      ensures b ==> exists i :: 0 <= i < |entries[user]| && entries[user][i].Authorized? &&
                               NumMinutes(now - entries[user][i].at) < FRESH_MINUTES
    {
      if user in entries {
        var values := entries[user];
        var i := 0;
        while i < |values|
          invariant 0 <= i <= |values|
          invariant forall j :: 0 <= j < i ==> !Grants(values[j], now)
        {
          if values[i].Authorized? {
            FreshWindow(now - values[i].at);
            if NumMinutes(now - values[i].at) < FRESH_MINUTES {
              return true;
            }
          }
          i := i + 1;
        }
      }
      b := false;
    }

    /** `store_auth`: one status, stamped `now` when granting, added for every listed user. */
    method StoreAuth(users: seq<LoggedUser>, isAuth: bool, now: int)
      modifies this
      ensures entries == Stored(old(entries), users, if isAuth then Authorized(now) else NotAuthorized)
    {
      var status := if isAuth then Authorized(now) else NotAuthorized;
      for i := 0 to |users|
        invariant entries == Stored(old(entries), users[..i], status)
      {
        assert users[..i + 1][..i] == users[..i];
        entries := entries[users[i] := Bag(entries, users[i]) + [status]];
      }
      assert users[..|users|] == users;
    }

    /**
     * `merge_users`: demote every cached key that is not listed, publish,
     * then grant every listed user. `published` is the cache readers see
     * between the two writes.
     */
    method MergeUsers(users: seq<LoggedUser>, now: int) returns (ghost published: Cache)
      modifies this
      ensures published == Demoted(old(entries), users)
      ensures entries == Stored(published, users, Authorized(now))
      ensures entries == Merged(old(entries), users, now)
    {
      var newUsers: seq<LoggedUser> := [];
      var remaining := entries.Keys;
      while remaining != {}
        invariant remaining <= entries.Keys
        invariant Distinct(newUsers)
        invariant forall k :: k in newUsers <==> k in entries && k !in remaining && k !in users
        decreases remaining
      {
        var k :| k in remaining;
        if k !in users {
          newUsers := newUsers + [k];
        }
        remaining := remaining - {k};
      }
      DemotionByEnumeration(entries, users, newUsers);
      StoreAuth(newUsers, false, now);
      published := entries;
      StoreAuth(users, true, now);
    }

    /** `get_keys`: every cached user, once each. */
    method GetKeys() returns (keys: seq<LoggedUser>)
      ensures Distinct(keys)
      ensures forall k :: k in keys <==> k in entries
    {
      keys := [];
      var remaining := entries.Keys;
      while remaining != {}
        invariant remaining <= entries.Keys
        invariant Distinct(keys)
        invariant forall k :: k in keys <==> k in entries && k !in remaining
        decreases remaining
      {
        var k :| k in remaining;
        keys := keys + [k];
        remaining := remaining - {k};
      }
    }
  }

  // ---------------------------------------------------------------------
  // The request path

  /** What the identity extractor yields for a request. */
  datatype IdentityLookup = ExtractorFailed | Anonymous | Identified(token: Utils.Token)

  /** Why a request is refused: the extractor's own error, or a service error. */
  datatype RequestError = Extractor | Service(error: ServiceError)

  const TEST_USER := LoggedUser("user@test")

  predicate TestBypass(env: Env.Env) {
    Env.Var(env, "TESTENV") == Some("true")
  }

  /** `_from_request` as a function of the cache's state. */
  function Authorize(env: Env.Env, identity: IdentityLookup, entries: Cache, now: int): (r: Result<LoggedUser, RequestError>)
    ensures TestBypass(env) ==> r == Success(TEST_USER)
    ensures !TestBypass(env) ==>
              (r.Success? <==> identity.Identified? &&
                               Utils.DecodeToken(identity.token, env, now).Success? &&
                               AuthorizedIn(entries, FromClaim(Utils.DecodeToken(identity.token, env, now).value), now))
    ensures !TestBypass(env) && r.Success? ==>
              r.value.email == Utils.DecodeToken(identity.token, env, now).value.email
    ensures !TestBypass(env) && r.Failure? ==>
              r.error == if identity.ExtractorFailed? then Extractor else Service(Unauthorized)
  {
    if TestBypass(env) then Success(TEST_USER)
    else
      match identity
      case ExtractorFailed => Failure(Extractor)
      case Anonymous => Failure(Service(Unauthorized))
      case Identified(token) =>
        match Utils.DecodeToken(token, env, now)
        case Failure(e) => Failure(Service(e))
        case Success(claim) =>
          var user := FromClaim(claim);
          if AuthorizedIn(entries, user, now) then Success(user) else Failure(Service(Unauthorized))
  }

  /** `_from_request`, reading the cache through `is_authorized`. */
  method FromRequest(env: Env.Env, identity: IdentityLookup, cache: AuthorizedUsers, now: int)
    returns (r: Result<LoggedUser, RequestError>)
    ensures r == Authorize(env, identity, cache.entries, now)
  {
    if Env.Var(env, "TESTENV") == Some("true") {
      return Success(TEST_USER);
    }
    match identity {
      case ExtractorFailed =>
        return Failure(Extractor);
      case Anonymous =>
      case Identified(token) =>
        var decoded := Utils.DecodeToken(token, env, now);
        if decoded.Failure? {
          return Failure(Service(decoded.error));
        }
        var user := FromClaim(decoded.value);
        var ok := cache.IsAuthorized(user, now);
        if ok {
          return Success(user);
        }
    }
    r := Failure(Service(Unauthorized));
  }

  // ---------------------------------------------------------------------
  // Reloading from the store

  /** The cache keys for a list of user rows. */
  function Emails(rows: seq<Models.User>): (us: seq<LoggedUser>)
    ensures |us| == |rows|
    ensures forall i :: 0 <= i < |rows| ==> us[i] == LoggedUser(rows[i].email)
  {
    seq(|rows|, i requires 0 <= i < |rows| => LoggedUser(rows[i].email))
  }

  /** `fill_auth_from_db`: merge exactly the loaded users, or leave the cache alone. */
  method FillAuthFromDb(db: Models.DbExecutor, cache: AuthorizedUsers, faults: Models.Faults, now: int)
    returns (r: Result<(), Models.StoreError>)
    modifies cache
    ensures var loaded := Models.GetAuthorizedUsers(db.users, faults);
            && (r.Success? <==> loaded.Success?)
            && (r.Failure? ==> r.error == loaded.error && cache.entries == old(cache.entries))
            && (r.Success? ==> cache.entries == Merged(old(cache.entries), Emails(db.users), now))
    ensures r.Success? ==> forall i :: 0 <= i < |db.users| ==>
              AuthorizedIn(cache.entries, LoggedUser(db.users[i].email), now)
  {
    var loaded := Models.GetAuthorizedUsers(db.users, faults);
    if loaded.Failure? {
      return Failure(loaded.error);
    }
    var users := Emails(loaded.value);
    ghost var published := cache.MergeUsers(users, now);
    forall i | 0 <= i < |db.users|
      ensures AuthorizedIn(cache.entries, LoggedUser(db.users[i].email), now)
    {
      assert users[i] in users;
      MergeAuthorizesListed(old(cache.entries), users, now, users[i]);
    }
    r := Success(());
  }

  /** One tick of the server's 60-second reload loop: a failed load is ignored. */
  method RefreshTick(db: Models.DbExecutor, cache: AuthorizedUsers, faults: Models.Faults, now: int)
    modifies cache
    ensures Models.GetAuthorizedUsers(db.users, faults).Success? ==>
              cache.entries == Merged(old(cache.entries), Emails(db.users), now)
    ensures Models.GetAuthorizedUsers(db.users, faults).Failure? ==> cache.entries == old(cache.entries)
  {
    var _ := FillAuthFromDb(db, cache, faults, now);
  }
}
