/**
 * Registering a user through an invitation (src/register_handler.rs).
 */
module RegisterHandler {
  import opened Wrappers
  import opened Errors
  import Env
  import Bcrypt
  import Uuid
  import Models
  import Utils
  import Trigger
  import InvitationHandler

  datatype RegisterUser = RegisterUser(invitationId: string, password: string)

  const INVALID_INVITATION := "Invalid Invitation"

  /** The invitation `pop` yields from the rows loaded for `id`: the last one. */
  function Pending(invitations: seq<Models.Invitation>, id: Uuid.Uuid): (p: Option<Models.Invitation>)
    ensures p.Some? <==> Models.IdTaken(invitations, id)
    ensures p.Some? ==> p.value.id == id && p.value in invitations
    ensures p.Some? ==> exists i :: 0 <= i < |invitations| && invitations[i] == p.value &&
                                   forall j :: i < j < |invitations| ==> invitations[j].id != id
  {
    var keep := (inv: Models.Invitation) => inv.id == id;
    var loaded := Models.Filter(invitations, keep);
    if loaded == [] then None
    else
      Models.FilterLast(invitations, keep);
      Some(loaded[|loaded| - 1])
  }

  /** Under the primary key of `invitations`, the invitation used is the one row with the id. */
  lemma PendingUnique(invitations: seq<Models.Invitation>, id: Uuid.Uuid, i: nat)
    requires Models.UniqueIds(invitations)
    requires i < |invitations| && invitations[i].id == id
    ensures Pending(invitations, id) == Some(invitations[i])
  {
    var p := Pending(invitations, id).value;
    var k :| 0 <= k < |invitations| && invitations[k] == p;
    assert invitations[k].id == invitations[i].id;
  }

  /** The user row a registration would insert, or the error the handler returns first. */
  function NewUser(invitations: seq<Models.Invitation>, msg: RegisterUser, env: Env.Env,
                   salt: Bcrypt.Salt, faults: Models.Faults, now: int): (r: Result<Models.User, ServiceError>)
    ensures Uuid.ParseStr(msg.invitationId).Failure? ==> r == Failure(BadRequest(INVALID_UUID))
    ensures Uuid.ParseStr(msg.invitationId).Success? && faults.pool ==> r == Failure(R2D2Error)
    ensures Uuid.ParseStr(msg.invitationId).Success? && !faults.pool && faults.read ==>
              r == Failure(BadRequest(INVALID_INVITATION))
    ensures r.Success? <==>
              && Uuid.ParseStr(msg.invitationId).Success? && !faults.pool && !faults.read
              && var p := Pending(invitations, Uuid.ParseStr(msg.invitationId).value);
                 p.Some? && p.value.expiresAt > now && Bcrypt.CostAllowed(Utils.HashCost(env))
    ensures r.Success? ==>
              && r.value.email == Pending(invitations, Uuid.ParseStr(msg.invitationId).value).value.email
              && r.value.createdAt == now
              && forall attempt :: Bcrypt.Verify(attempt, r.value.password) == Success(attempt == msg.password)
    ensures Uuid.ParseStr(msg.invitationId).Success? && !faults.pool && !faults.read ==>
              var p := Pending(invitations, Uuid.ParseStr(msg.invitationId).value);
              && (p.None? || p.value.expiresAt <= now ==> r == Failure(BadRequest(INVALID_INVITATION)))
              && (p.Some? && p.value.expiresAt > now && !Bcrypt.CostAllowed(Utils.HashCost(env)) ==>
                    r == Failure(InternalServerError))
    ensures r.Failure? ==> r.error in {BadRequest(INVALID_UUID), R2D2Error, BadRequest(INVALID_INVITATION), InternalServerError}
  {
    match Uuid.ParseStr(msg.invitationId)
    case Failure(p) => Failure(FromParseError(p))
    case Success(id) =>
      if faults.pool then Failure(R2D2Error)
      else if faults.read then Failure(BadRequest(INVALID_INVITATION))
      else
        match Pending(invitations, id)
        case None => Failure(BadRequest(INVALID_INVITATION))
        case Some(invitation) =>
          if invitation.expiresAt > now then
            match Utils.HashPassword(msg.password, env, salt)
            case Failure(e) => Failure(e)
            case Success(password) => Success(Models.FromDetails(invitation.email, password, now))
          else Failure(BadRequest(INVALID_INVITATION))
  }

  /**
   * `handle`: validate, insert the new user, raise the reload trigger. Only a
   * successful insert changes the store or the trigger.
   */
  method Handle(db: Models.DbExecutor, trigger: Trigger.UpdateTrigger, msg: RegisterUser, env: Env.Env,
                salt: Bcrypt.Salt, faults: Models.Faults, now: int)
    returns (r: Result<Models.SlimUser, ServiceError>)
    modifies db, trigger
    ensures var v := NewUser(old(db.invitations), msg, env, salt, faults, now);
            && (v.Failure? ==> r == Failure(v.error))
            && (v.Success? && faults.write ==> r == Failure(DbError(ConnectionLost)))
            && (v.Success? && !faults.write && Models.EmailTaken(old(db.users), v.value.email) ==>
                  r == Failure(DbError(UniqueViolation)))
            && (r.Success? ==> v.Success? && r.value.email == v.value.email &&
                               db.users == old(db.users) + [v.value])
    ensures r.Success? <==> NewUser(old(db.invitations), msg, env, salt, faults, now).Success? &&
                            !faults.write &&
                            !Models.EmailTaken(old(db.users), NewUser(old(db.invitations), msg, env, salt, faults, now).value.email)
    ensures r.Failure? ==> db.users == old(db.users)
    ensures trigger.raised == (old(trigger.raised) || r.Success?)
    ensures db.invitations == old(db.invitations)
    ensures old(db.Valid()) ==> db.Valid()
  {
    var validated := NewUser(db.invitations, msg, env, salt, faults, now);
    if validated.Failure? {
      return Failure(validated.error);
    }
    var inserted := db.InsertUser(validated.value, faults);
    if inserted.Failure? {
      return Failure(DbError(inserted.error));
    }
    trigger.Set();
    r := Success(Models.SlimUserFromUser(inserted.value));
  }

  /**
   * An invitation just created can be redeemed by its own link until it
   * expires, and the new account carries the invited email.
   */
  lemma RedeemInvitation(invitations: seq<Models.Invitation>, req: InvitationHandler.CreateInvitation,
                         id: Uuid.Uuid, created: int, password: string, env: Env.Env,
                         salt: Bcrypt.Salt, faults: Models.Faults, now: int)
    requires !faults.pool && !faults.read
    requires Bcrypt.CostAllowed(Utils.HashCost(env))
    ensures var inv := InvitationHandler.NewInvitation(req, id, created);
            var v := NewUser(invitations + [inv], RegisterUser(Uuid.Hyphenated(id), password), env, salt, faults, now);
            && (v.Success? <==> now < created + InvitationHandler.INVITATION_VALIDITY)
            && (v.Success? ==> v.value.email == req.email)
            && (v.Failure? ==> v.error == BadRequest(INVALID_INVITATION))
  {
    var inv := InvitationHandler.NewInvitation(req, id, created);
    Uuid.ParseHyphenated(id);
    Models.FilterAppend(invitations, inv, (i: Models.Invitation) => i.id == id);
  }
}
