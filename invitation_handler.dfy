/**
 * Creating an invitation (src/invitation_handler.rs): build it, store it,
 * then hand it to the mail step.
 */
module InvitationHandler {
  import opened Wrappers
  import opened Errors
  import Env
  import Uuid
  import Models

  datatype CreateInvitation = CreateInvitation(email: string)

  /** What the handler passes to `send_invitation`. */
  datatype Mail = Mail(invitation: Models.Invitation, callbackUrl: string)

  const INVITATION_VALIDITY: int := 24 * 60 * 60
  const DEFAULT_CALLBACK := "http://localhost:3000/register.html"

  /** The invitation for `msg`, with identifier `id`, made at `now`. */
  function NewInvitation(msg: CreateInvitation, id: Uuid.Uuid, now: int): (inv: Models.Invitation)
    ensures inv.id == id && inv.email == msg.email
    ensures inv.expiresAt - now == INVITATION_VALIDITY
  {
    Models.Invitation(id, msg.email, now + INVITATION_VALIDITY)
  }

  /** The registration page the mail links to: CALLBACK_URL, or the local default. */
  function CallbackUrl(env: Env.Env): (url: string)
    ensures "CALLBACK_URL" in env ==> url == env["CALLBACK_URL"]
    ensures "CALLBACK_URL" !in env ==> url == DEFAULT_CALLBACK
  {
    Env.VarOr(env, "CALLBACK_URL", DEFAULT_CALLBACK)
  }

  /**
   * `handle`: `id` is the freshly generated v4 UUID and `delivery` what the
   * mail step reports. `sent` records the call made to the mail step, if any.
   */
  method Handle(db: Models.DbExecutor, msg: CreateInvitation, id: Uuid.Uuid, env: Env.Env,
                faults: Models.Faults, delivery: Result<(), ServiceError>, now: int)
    returns (r: Result<Models.Invitation, ServiceError>, sent: Option<Mail>)
    modifies db
    ensures var inv := NewInvitation(msg, id, now);
            && (faults.pool ==> r == Failure(R2D2Error))
            && (!faults.pool && faults.write ==> r == Failure(DbError(ConnectionLost)))
            && (!faults.pool && !faults.write && Models.IdTaken(old(db.invitations), id) ==>
                  r == Failure(DbError(UniqueViolation)))
            && (sent.Some? <==> !faults.pool && !faults.write && !Models.IdTaken(old(db.invitations), id))
            && (sent.None? ==> db.invitations == old(db.invitations))
            && (sent.Some? ==> sent.value == Mail(inv, CallbackUrl(env)) &&
                               db.invitations == old(db.invitations) + [inv] &&
                               r == if delivery.Failure? then Failure(delivery.error) else Success(inv))
    ensures db.users == old(db.users)
    ensures old(db.Valid()) ==> db.Valid()
  {
    var invitation := NewInvitation(msg, id, now);
    sent := None;
    if faults.pool {
      return Failure(R2D2Error), None;
    }
    var inserted := db.InsertInvitation(invitation, faults);
    if inserted.Failure? {
      return Failure(DbError(inserted.error)), None;
    }
    var url := CallbackUrl(env);
    sent := Some(Mail(invitation, url));
    if delivery.Failure? {
      return Failure(delivery.error), sent;
    }
    r := Success(inserted.value);
  }
}
