/**
 * The credential controllers: changing a user's password inside a
 * transaction (with an optional check of the current password and a
 * confirmation of the new one), and switching a credential's active flag
 * without one.
 */
module CredentialController {
  import opened Wrappers
  import opened Helpers
  import opened CredentialStore
  import KeyedList

  /** The body of a password change; each field may be absent. */
  datatype PasswordChange = PasswordChange(password: Option<string>, newPassword: Option<string>, confirmPassword: Option<string>)

  /** The body of a status change: the owning user's id and the new flag. */
  datatype StatusChange = StatusChange(userId: string, isActive: bool)

  const MsgCredentialNotFound := "Credencial no encontrada"
  const MsgWrongPassword := "La contraseña actual es incorrecta"
  const MsgMismatch := "Las nuevas contraseñas no coinciden"
  const MsgUpdated := "Credencial actualizada con éxito"
  const MsgActivated := "Credencial activada con éxito"
  const MsgDeactivated := "Credencial desactivada con éxito"

  /** JavaScript truthiness of an optional string: present and not empty. */
  predicate Truthy(v: Option<string>)
  {
    v.Some? && v.value != ""
  }

  /** The `$set` a password change builds: the new hash when a new password is given, else nothing. */
  function PasswordPatch(svc: Services, req: PasswordChange): Patch
  {
    if Truthy(req.newPassword) then Patch(Some(svc.encrypt(req.newPassword.value)), None) else Patch(None, None)
  }

  /**
   * What `updateCredentialPassword` does, given the committed credentials,
   * the collaborators, the validator's verdict, the user id and the body.
   */
  function UpdatePasswordSpec(creds: seq<Credential>, svc: Services, verdict: Validation,
                              id: string, req: PasswordChange): (o: Outcome<Credential>)
    // an invalid body is refused with 400 before any session is opened
    ensures o.session == NoSession <==> verdict.Invalid?
    ensures verdict.Invalid? ==> o.reply == Err(400, verdict.message)
    // a 200 reply and a committed transaction go together; no other path writes
    ensures o.reply.Ok? <==> o.session == CommittedAndEnded
    ensures !o.reply.Ok? ==> o.credentials == creds
    // no credential owned by the user: 404
    ensures verdict.Valid? && FindByUser(creds, id).None? ==> o.reply == Err(404, MsgCredentialNotFound)
    // a current password is checked only when given, and before the confirmation
    ensures verdict.Valid? && FindByUser(creds, id).Some? ==>
      var c := FindByUser(creds, id).value;
      && (Truthy(req.password) && !svc.verify(req.password.value, c.password) ==>
            o.reply == Err(400, MsgWrongPassword))
      && ((!Truthy(req.password) || svc.verify(req.password.value, c.password))
          && Truthy(req.newPassword) && req.newPassword != req.confirmPassword ==>
            o.reply == Err(400, MsgMismatch))
    // success exactly when every check passes
    ensures o.reply.Ok? <==>
      && verdict.Valid?
      && FindByUser(creds, id).Some?
      && (!Truthy(req.password) || svc.verify(req.password.value, FindByUser(creds, id).value.password))
      && (!Truthy(req.newPassword) || req.newPassword == req.confirmPassword)
    // a confirmed new password is hashed into the credential; without one nothing is written
    ensures o.reply.Ok? ==>
      var c := FindByUser(creds, id).value;
      && (Truthy(req.newPassword) ==>
            o.credentials == UpdateById(creds, c.id, Patch(Some(svc.encrypt(req.newPassword.value)), None)))
      && (!Truthy(req.newPassword) ==> o.credentials == creds)
      && (UniqueIds(creds) ==> o.reply.payload == Apply(c, PasswordPatch(svc, req)))
      && o.reply.message == MsgUpdated
  {
    if verdict.Invalid? then
      Outcome(Err(400, verdict.message), creds, NoSession)
    else
      match FindByUser(creds, id)
      case None => Outcome(Err(404, MsgCredentialNotFound), creds, AbortedAndEnded)
      case Some(c) =>
        if Truthy(req.password) && !svc.verify(req.password.value, c.password) then
          Outcome(Err(400, MsgWrongPassword), creds, AbortedAndEnded)
        else if Truthy(req.newPassword) && req.newPassword != req.confirmPassword then
          Outcome(Err(400, MsgMismatch), creds, AbortedAndEnded)
        else
          var p := PasswordPatch(svc, req);
          var i := KeyedList.IndexOf(creds, UserOf, id);
          assert creds[i] == c;
          UpdatedIsPatched(creds, i, p);
          EmptyPatch(creds, c.id);
          Outcome(Ok(MsgUpdated, Updated(creds, c.id, p).value), UpdateById(creds, c.id, p), CommittedAndEnded)
  }

  /** `updateCredentialPassword(req, res)` */
  method UpdateCredentialPassword(db: Database, svc: Services, validate: PasswordChange -> Validation,
                                  id: string, req: PasswordChange)
    returns (reply: Reply<Credential>, session: Session?)
    modifies db`credentials
    ensures var o := UpdatePasswordSpec(old(db.credentials), svc, validate(req), id, req);
      reply == o.reply && db.credentials == o.credentials && Finished(session, o.session)
    ensures session != null ==> fresh(session)
  {
    var validationResult := validate(req);
    if validationResult.Invalid? {
      return Err(400, validationResult.message), null;
    }
    session := new Session();
    session.StartTransaction(db);
    reply := UpdatePasswordInTransaction(db, svc, id, req, session);
    session.EndSession();
  }

  /** The body of `updateCredentialPassword`'s `try` once the transaction is open. */
  method UpdatePasswordInTransaction(db: Database, svc: Services, id: string, req: PasswordChange, session: Session)
    returns (reply: Reply<Credential>)
    requires session.txn == InTxn && !session.ended && session.staged == db.credentials
    modifies session`txn, session`staged, db`credentials
    ensures var o := UpdatePasswordSpec(old(db.credentials), svc, Valid, id, req);
      && reply == o.reply && db.credentials == o.credentials
      && session.txn == (if o.session == CommittedAndEnded then Committed else Aborted)
  {
    var i := KeyedList.IndexOf(db.credentials, UserOf, id);
    if i == -1 {
      session.AbortTransaction();
      AbortIfOpen(session);
      return Err(404, MsgCredentialNotFound);
    }
    var credential := db.credentials[i];
    if Truthy(req.password) && !svc.verify(req.password.value, credential.password) {
      session.AbortTransaction();
      AbortIfOpen(session);
      return Err(400, MsgWrongPassword);
    }
    if Truthy(req.newPassword) && req.newPassword != req.confirmPassword {
      session.AbortTransaction();
      AbortIfOpen(session);
      return Err(400, MsgMismatch);
    }
    var updatedFields := Patch(None, None);
    if Truthy(req.newPassword) {
      updatedFields := updatedFields.(password := Some(svc.encrypt(req.newPassword.value)));
    }
    var updatedCredential := session.Write(credential.id, updatedFields);
    assert db.credentials[i].id == credential.id;
    session.CommitTransaction(db);
    reply := Ok(MsgUpdated, updatedCredential.value);
  }

  /**
   * What `updateCredentialStatus` does: no session is involved, and only the
   * credential's active flag is written.
   */
  function StatusSpec(creds: seq<Credential>, verdict: Validation, req: StatusChange): (o: Outcome<Credential>)
    ensures o.session == NoSession
    ensures verdict.Invalid? ==> o.reply == Err(400, verdict.message)
    ensures verdict.Valid? && FindByUser(creds, req.userId).None? ==> o.reply == Err(404, MsgCredentialNotFound)
    ensures !o.reply.Ok? ==> o.credentials == creds
    ensures o.reply.Ok? <==> verdict.Valid? && FindByUser(creds, req.userId).Some?
    ensures o.reply.Ok? ==>
      var c := FindByUser(creds, req.userId).value;
      && o.credentials == UpdateById(creds, c.id, Patch(None, Some(req.isActive)))
      && (UniqueIds(creds) ==> o.reply.payload == c.(isActive := req.isActive))
      && o.reply.message == (if req.isActive then MsgActivated else MsgDeactivated)
  {
    if verdict.Invalid? then
      Outcome(Err(400, verdict.message), creds, NoSession)
    else
      match FindByUser(creds, req.userId)
      case None => Outcome(Err(404, MsgCredentialNotFound), creds, NoSession)
      case Some(c) =>
        var p := Patch(None, Some(req.isActive));
        var i := KeyedList.IndexOf(creds, UserOf, req.userId);
        assert creds[i] == c;
        UpdatedIsPatched(creds, i, p);
        var message := if req.isActive then MsgActivated else MsgDeactivated;
        Outcome(Ok(message, Updated(creds, c.id, p).value), UpdateById(creds, c.id, p), NoSession)
  }

  /** `updateCredentialStatus(req, res)` */
  method UpdateCredentialStatus(db: Database, validate: StatusChange -> Validation, req: StatusChange)
    returns (reply: Reply<Credential>)
    modifies db`credentials
    ensures var o := StatusSpec(old(db.credentials), validate(req), req);
      reply == o.reply && db.credentials == o.credentials
  {
    var validationResult := validate(req);
    if validationResult.Invalid? {
      return Err(400, validationResult.message);
    }
    var i := KeyedList.IndexOf(db.credentials, UserOf, req.userId);
    if i == -1 {
      return Err(404, MsgCredentialNotFound);
    }
    var credentialUser := db.credentials[i];
    assert db.credentials[i].id == credentialUser.id;
    var credential := Updated(db.credentials, credentialUser.id, Patch(None, Some(req.isActive))).value;
    db.credentials := UpdateById(db.credentials, credentialUser.id, Patch(None, Some(req.isActive)));
    var successMessage := if req.isActive then MsgActivated else MsgDeactivated;
    reply := Ok(successMessage, credential);
  }

  /**
   * A mismatched confirmation is refused without writing, however the new
   * password and the hasher look.
   */
  lemma MismatchWritesNothing(creds: seq<Credential>, svc: Services, id: string, req: PasswordChange)
    requires Truthy(req.newPassword) && req.newPassword != req.confirmPassword
    ensures var o := UpdatePasswordSpec(creds, svc, Valid, id, req);
      !o.reply.Ok? && o.credentials == creds
  {
  }

  /**
   * Without a current password the hash check is skipped: any `verify`
   * gives the same outcome (the administrative override).
   */
  lemma OmittedPasswordSkipsVerify(creds: seq<Credential>, svc: Services, verify': (string, Hash) -> bool,
                                   verdict: Validation, id: string, req: PasswordChange)
    requires !Truthy(req.password)
    ensures UpdatePasswordSpec(creds, svc, verdict, id, req) == UpdatePasswordSpec(creds, svc.(verify := verify'), verdict, id, req)
  {
  }

  /**
   * A successful password change rewrites only the owner's stored hash:
   * every other credential, and every other field, stays as it was.
   */
  lemma PasswordChangeFrame(creds: seq<Credential>, svc: Services, id: string, req: PasswordChange)
    requires UniqueIds(creds)
    requires UpdatePasswordSpec(creds, svc, Valid, id, req).reply.Ok?
    ensures var o := UpdatePasswordSpec(creds, svc, Valid, id, req);
      var c := FindByUser(creds, id).value;
      && |o.credentials| == |creds|
      && forall j :: 0 <= j < |creds| ==>
           o.credentials[j] == if creds[j].id == c.id && Truthy(req.newPassword)
                               then creds[j].(password := svc.encrypt(req.newPassword.value))
                               else creds[j]
  {
  }

  /**
   * A successful status change flips only the active flag of the owner's
   * credential; every other credential and field stays as it was.
   */
  lemma {:induction false} StatusChangeFrame(creds: seq<Credential>, verdict: Validation, req: StatusChange)
    requires UniqueIds(creds)
    requires StatusSpec(creds, verdict, req).reply.Ok?
    ensures var o := StatusSpec(creds, verdict, req);
      var c := FindByUser(creds, req.userId).value;
      && |o.credentials| == |creds|
      && forall j :: 0 <= j < |creds| ==>
           o.credentials[j] == if creds[j].id == c.id then creds[j].(isActive := req.isActive) else creds[j]
  {
  }
}
