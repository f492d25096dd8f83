/**
 * The login and password-reset controllers: each validates its request,
 * opens a session and a transaction, looks the credential up by email,
 * checks it, possibly rewrites its stored hash, and commits or aborts; the
 * session is ended on every path that opened one.
 */
module AuthController {
  import opened Wrappers
  import opened Helpers
  import opened Json
  import opened Text
  import opened CredentialStore
  import KeyedList

  /** The body of a login request, once the credential validator has accepted it. */
  datatype LoginRequest = LoginRequest(email: string, password: string)

  const MsgUserNotFound := "Usuario no encontrado"
  const MsgUserInactive := "Usuario inactivo"
  const MsgBadPassword := "Contraseña inválida"
  const MsgLoginOk := "Inicio de sesión exitoso"
  const MsgLoginFailed := "Error al iniciar sesión"
  const MsgBodyNotObject := "El cuerpo de la solicitud debe ser un objeto"
  const MsgEmailRequired := "El email es requerido y debe ser una cadena no vacía"
  const MsgEmailFormat := "El email no tiene un formato válido"
  const MsgResetOk := "Contraseña reseteada con éxito"

  /**
   * The token claims for a credential: the owner's id, "name lastName" and
   * the name of the owner's role; `None` when the populated user or its role
   * is missing, where the controller dereferences `null` and throws.
   */
  function TokenClaims(c: Credential, users: map<string, User>, roles: map<string, Role>): Option<Claims>
  {
    if c.user in users && users[c.user].role in roles then
      var u := users[c.user];
      Some(Claims(c.user, u.name + " " + u.lastName, roles[u.role].name))
    else
      None
  }

  /**
   * What `login` does, given the committed credentials, the users and roles,
   * the collaborators, the validator's verdict on the body, and the body.
   */
  function LoginSpec(creds: seq<Credential>, users: map<string, User>, roles: map<string, Role>,
                     svc: Services, verdict: Validation, req: LoginRequest): (o: Outcome<Token>)
    // an invalid body is refused with 400 before any session is opened
    ensures o.session == NoSession <==> verdict.Invalid?
    ensures verdict.Invalid? ==> o.reply == Err(400, verdict.message)
    // a 200 reply and a committed transaction go together; no other path writes
    ensures o.reply.Ok? <==> o.session == CommittedAndEnded
    ensures !o.reply.Ok? ==> o.credentials == creds
    // an unknown email: "Usuario no encontrado"
    ensures verdict.Valid? && FindByEmail(creds, req.email).None? ==>
      o.reply == Err(400, MsgUserNotFound)
    // an inactive credential: "Usuario inactivo", whatever the password
    ensures verdict.Valid? && FindByEmail(creds, req.email).Some? && !FindByEmail(creds, req.email).value.isActive ==>
      o.reply == Err(400, MsgUserInactive)
    // a non-temporary password the hash does not verify: "Contraseña inválida"
    ensures verdict.Valid? && FindByEmail(creds, req.email).Some? ==>
      var c := FindByEmail(creds, req.email).value;
      c.isActive && req.password != svc.passwordTemp && !svc.verify(req.password, c.password) ==>
        o.reply == Err(400, MsgBadPassword)
    // success exactly when the credential is active, the password is the
    // temporary one or verifies, and the owner and its role resolve
    ensures o.reply.Ok? <==>
      && verdict.Valid?
      && FindByEmail(creds, req.email).Some?
      && var c := FindByEmail(creds, req.email).value;
      && c.isActive
      && (req.password == svc.passwordTemp || svc.verify(req.password, c.password))
      && c.user in users && users[c.user].role in roles
    // the token carries the owner's id, "name lastName" and role name
    ensures o.reply.Ok? ==>
      var c := FindByEmail(creds, req.email).value;
      var u := users[c.user];
      o.reply.payload == svc.sign(Claims(c.user, u.name + " " + u.lastName, roles[u.role].name))
    // the temporary password is re-hashed into the credential; any other
    // password leaves the collection as it was
    ensures o.reply.Ok? && req.password == svc.passwordTemp ==>
      o.credentials == UpdateById(creds, FindByEmail(creds, req.email).value.id,
                                  Patch(Some(svc.encrypt(req.password)), None))
    ensures o.reply.Ok? && req.password != svc.passwordTemp ==> o.credentials == creds
    ensures o.reply.Ok? ==> o.reply.message == MsgLoginOk
    // a missing owner or role makes the token step throw: the internal error
    ensures verdict.Valid? && FindByEmail(creds, req.email).Some? ==>
      var c := FindByEmail(creds, req.email).value;
      c.isActive && (req.password == svc.passwordTemp || svc.verify(req.password, c.password))
        && !(c.user in users && users[c.user].role in roles) ==>
        o.reply == Err(500, MsgLoginFailed)
    // the only failure that is not a 400 is the internal error
    ensures o.reply.Err? && o.reply.status != 400 ==> o.reply == Err(500, MsgLoginFailed)
  {
    if verdict.Invalid? then
      Outcome(Err(400, verdict.message), creds, NoSession)
    else
      match FindByEmail(creds, req.email)
      case None => Outcome(Err(400, MsgUserNotFound), creds, AbortedAndEnded)
      case Some(c) =>
        var isTemp := req.password == svc.passwordTemp;
        if !c.isActive then
          Outcome(Err(400, MsgUserInactive), creds, AbortedAndEnded)
        else if !isTemp && !svc.verify(req.password, c.password) then
          Outcome(Err(400, MsgBadPassword), creds, AbortedAndEnded)
        else
          match TokenClaims(c, users, roles)
          case None => Outcome(Err(500, MsgLoginFailed), creds, AbortedAndEnded)
          case Some(claims) =>
            var written := if isTemp then UpdateById(creds, c.id, Patch(Some(svc.encrypt(req.password)), None)) else creds;
            Outcome(Ok(MsgLoginOk, svc.sign(claims)), written, CommittedAndEnded)
  }

  /** `login(req, res)` */
  method Login(db: Database, svc: Services, validate: LoginRequest -> Validation, req: LoginRequest)
    returns (reply: Reply<Token>, session: Session?)
    modifies db`credentials
    ensures var o := LoginSpec(old(db.credentials), db.users, db.roles, svc, validate(req), req);
      reply == o.reply && db.credentials == o.credentials && Finished(session, o.session)
    ensures session != null ==> fresh(session)
  {
    var validationResult := validate(req);
    if validationResult.Invalid? {
      return Err(400, validationResult.message), null;
    }
    session := new Session();
    session.StartTransaction(db);
    reply := LoginInTransaction(db, svc, req, session);
    session.EndSession();
  }

  /** The body of `login`'s `try` once the transaction is open, with its `catch`. */
  method LoginInTransaction(db: Database, svc: Services, req: LoginRequest, session: Session)
    returns (reply: Reply<Token>)
    requires session.txn == InTxn && !session.ended && session.staged == db.credentials
    modifies session`txn, session`staged, db`credentials
    ensures var o := LoginSpec(old(db.credentials), db.users, db.roles, svc, Valid, req);
      && reply == o.reply && db.credentials == o.credentials
      && session.txn == (if o.session == CommittedAndEnded then Committed else Aborted)
  {
    var i := KeyedList.IndexOf(db.credentials, EmailOf, req.email);
    if i == -1 {
      AbortIfOpen(session);
      return Err(400, MsgUserNotFound);
    }
    var credential := db.credentials[i];
    if !credential.isActive {
      AbortIfOpen(session);
      return Err(400, MsgUserInactive);
    }
    var passwordTemp := svc.passwordTemp;
    var isPasswordValid := false;
    var isPasswordTemp := false;
    if req.password == passwordTemp {
      isPasswordTemp := true;
    } else {
      isPasswordValid := svc.verify(req.password, credential.password);
    }
    if isPasswordTemp {
      var newPass := svc.encrypt(req.password);
      var _ := session.Write(credential.id, Patch(Some(newPass), None));
    } else if !isPasswordValid {
      AbortIfOpen(session);
      return Err(400, MsgBadPassword);
    }
    // The populated `credential.user` is null when the owner is gone, and
    // `Role.findById` yields null when the role is: reading `user.role` or
    // `role.name` then throws, and the `catch` aborts with a 500.
    if credential.user !in db.users || db.users[credential.user].role !in db.roles {
      AbortIfOpen(session);
      return Err(500, MsgLoginFailed);
    }
    var user := db.users[credential.user];
    var role := db.roles[user.role];
    var response := Claims(credential.user, user.name + " " + user.lastName, role.name);
    var token := svc.sign(response);
    session.CommitTransaction(db);
    reply := Ok(MsgLoginOk, token);
  }

  /**
   * A second login with the temporary password succeeds again, with the same
   * token, and leaves the collection as the first one left it.
   */
  lemma TempLoginRepeatable(creds: seq<Credential>, users: map<string, User>,
                                               roles: map<string, Role>, svc: Services, req: LoginRequest)
    requires UniqueIds(creds)
    requires req.password == svc.passwordTemp
    requires LoginSpec(creds, users, roles, svc, Valid, req).reply.Ok?
    ensures var o := LoginSpec(creds, users, roles, svc, Valid, req);
      LoginSpec(o.credentials, users, roles, svc, Valid, req) == o
  {
  }

  /**
   * After a successful reset, logging in with the temporary password
   * succeeds (when the owner and its role resolve) and the stored hash stays
   * the temporary password's.
   */
  lemma {:induction false} ResetArmsTempLogin(creds: seq<Credential>, users: map<string, User>,
                                              roles: map<string, Role>, svc: Services, body: Json)
    requires UniqueIds(creds)
    requires ResetSpec(creds, svc, body).reply.Ok?
    requires TokenClaims(FindByEmail(creds, ResetEmail(body).value).value, users, roles).Some?
    ensures var r := ResetSpec(creds, svc, body);
      var o := LoginSpec(r.credentials, users, roles, svc, Valid, LoginRequest(ResetEmail(body).value, svc.passwordTemp));
      o.reply.Ok? && o.credentials == r.credentials
  {
    var r := ResetSpec(creds, svc, body);
    var email := ResetEmail(body).value;
    var c := FindByEmail(creds, email).value;
    var p := Patch(Some(svc.encrypt(svc.passwordTemp)), None);
    var written := UpdateById(creds, c.id, p);
    assert c.isActive && r.credentials == written;
    var i := KeyedList.IndexOf(creds, EmailOf, email);
    UpdateKeepsLookups(creds, c.id, p, email);
    assert FindByEmail(written, email) == Some(Apply(c, p));
    UpdateByIdIdempotent(creds, c.id, p);
    LoginWith(written, users, roles, svc, LoginRequest(email, svc.passwordTemp), Apply(c, p));
  }

  /** A temporary-password login on a found, active credential whose claims resolve. */
  lemma LoginWith(creds: seq<Credential>, users: map<string, User>, roles: map<string, Role>,
                  svc: Services, req: LoginRequest, c: Credential)
    requires FindByEmail(creds, req.email) == Some(c) && c.isActive && req.password == svc.passwordTemp
    requires TokenClaims(c, users, roles).Some?
    ensures var o := LoginSpec(creds, users, roles, svc, Valid, req);
      o.reply.Ok? && o.credentials == UpdateById(creds, c.id, Patch(Some(svc.encrypt(req.password)), None))
  {
  }

  /**
   * Once the temporary password has been used, a former password that does
   * not verify against the temporary password's hash is refused.
   */
  lemma TempLoginSupersedesPassword(creds: seq<Credential>, users: map<string, User>,
                                                       roles: map<string, Role>, svc: Services,
                                                       email: string, former: string)
    requires UniqueIds(creds)
    requires LoginSpec(creds, users, roles, svc, Valid, LoginRequest(email, svc.passwordTemp)).reply.Ok?
    requires former != svc.passwordTemp && !svc.verify(former, svc.encrypt(svc.passwordTemp))
    ensures var o := LoginSpec(creds, users, roles, svc, Valid, LoginRequest(email, svc.passwordTemp));
      LoginSpec(o.credentials, users, roles, svc, Valid, LoginRequest(email, former)).reply == Err(400, MsgBadPassword)
  {
  }

  /** With the temporary password the hash check is never consulted: any `verify` gives the same outcome. */
  lemma TempLoginSkipsVerify(creds: seq<Credential>, users: map<string, User>, roles: map<string, Role>,
                             svc: Services, verify': (string, Hash) -> bool, verdict: Validation, req: LoginRequest)
    requires req.password == svc.passwordTemp
    ensures LoginSpec(creds, users, roles, svc, verdict, req) == LoginSpec(creds, users, roles, svc.(verify := verify'), verdict, req)
  {
  }

  /**
   * An unknown email or an inactive credential is refused before any
   * password handling: neither the password nor the collaborators matter.
   */
  lemma RefusedBeforePasswordCheck(creds: seq<Credential>, users: map<string, User>, roles: map<string, Role>,
                                   svc: Services, svc': Services, verdict: Validation, req: LoginRequest, password': string)
    requires FindByEmail(creds, req.email).None? || !FindByEmail(creds, req.email).value.isActive
    ensures LoginSpec(creds, users, roles, svc, verdict, req) == LoginSpec(creds, users, roles, svc', verdict, req.(password := password'))
  {
  }

  /**
   * Only the credential's own flag is checked: an active credential whose
   * owning user is inactive still logs in.
   */
  lemma InactiveOwnerStillLogsIn(creds: seq<Credential>, users: map<string, User>, roles: map<string, Role>,
                                 svc: Services, req: LoginRequest)
    requires FindByEmail(creds, req.email).Some?
    requires var c := FindByEmail(creds, req.email).value;
      && c.isActive && svc.verify(req.password, c.password)
      && c.user in users && !users[c.user].isActive && users[c.user].role in roles
    ensures LoginSpec(creds, users, roles, svc, Valid, req).reply.Ok?
  {
  }

  /** The class `[^\s@]` of the reset email pattern. */
  predicate Plain(c: char)
  {
    !IsJsSpace(c) && c != '@'
  }

  predicate AllPlain(s: string)
  {
    forall k :: 0 <= k < |s| ==> Plain(s[k])
  }

  /**
   * A recogniser for `/^[^\s@]+@[^\s@]+\.[^\s@]+$/`: no white space, exactly
   * one `@` with something before it, and after it a dot that has something
   * on both sides.
   */
  predicate EmailShape(s: string)
  {
    var at := KeyedList.IndexOf(s, (c: char) => c, '@');
    && 0 < at
    && AllPlain(s[..at])
    && AllPlain(s[at + 1..])
    && exists p :: at + 2 <= p < |s| - 1 && s[p] == '.'
  }

  /** The language of that pattern, written as the pattern reads. */
  ghost predicate MatchesEmailPattern(s: string)
  {
    exists a, b, c :: a != [] && b != [] && c != [] && AllPlain(a) && AllPlain(b) && AllPlain(c)
      && s == a + "@" + b + "." + c
  }

  /** The recogniser accepts exactly the strings the pattern matches. */
  lemma {:induction false} EmailShapeIsPattern(s: string)
    ensures EmailShape(s) <==> MatchesEmailPattern(s)
  {
    var at := KeyedList.IndexOf(s, (c: char) => c, '@');
    if EmailShape(s) {
      var p :| at + 2 <= p < |s| - 1 && s[p] == '.';
      var a, b, c := s[..at], s[at + 1..p], s[p + 1..];
      assert AllPlain(b) by {
        forall k | 0 <= k < |b| ensures Plain(b[k]) {
          assert b[k] == s[at + 1..][k + 0];
        }
      }
      assert AllPlain(c) by {
        forall k | 0 <= k < |c| ensures Plain(c[k]) {
          assert c[k] == s[at + 1..][k + p - at];
        }
      }
      assert s == a + "@" + b + "." + c;
    }
    if MatchesEmailPattern(s) {
      var a, b, c :| a != [] && b != [] && c != [] && AllPlain(a) && AllPlain(b) && AllPlain(c)
        && s == a + "@" + b + "." + c;
      assert s[|a|] == '@';
      forall j | 0 <= j < |a| ensures s[j] != '@' {
        assert s[j] == a[j];
      }
      assert at == |a|;
      assert s[..at] == a;
      var d := s[at + 1..];
      assert d == b + "." + c;
      assert AllPlain(d) by {
        forall k | 0 <= k < |d| ensures Plain(d[k]) {
          if k < |b| {
            assert d[k] == b[k];
          } else if k > |b| {
            assert d[k] == c[k - |b| - 1];
          }
        }
      }
      assert s[at + 1 + |b|] == '.';
    }
  }

  /**
   * The email a reset body carries, when it is a non-blank string
   * (`!email || typeof email !== 'string' || email.trim() === ''` fails).
   */
  function ResetEmail(body: Json): Option<string>
    requires IsObject(body)
  {
    match Get(body, "email")
    case Some(JStr(e)) => if IsBlank(e) then None else Some(e)
    case _ => None
  }

  /** A body whose `email` is a non-blank string carries that email. */
  lemma ResetEmailOf(body: Json, e: string)
    requires IsObject(body) && Get(body, "email") == Some(JStr(e)) && !IsBlank(e)
    ensures ResetEmail(body) == Some(e)
  {
  }

  /** What `resetPassword` does, given the committed credentials, the collaborators and the body. */
  function ResetSpec(creds: seq<Credential>, svc: Services, body: Json): (o: Outcome<()>)
    // a malformed body is refused with 400 before any session is opened
    ensures !IsObject(body) ==> o == Outcome(Err(400, MsgBodyNotObject), creds, NoSession)
    ensures IsObject(body) && ResetEmail(body).None? ==> o == Outcome(Err(400, MsgEmailRequired), creds, NoSession)
    ensures IsObject(body) && ResetEmail(body).Some? && !EmailShape(ResetEmail(body).value) ==>
      o == Outcome(Err(400, MsgEmailFormat), creds, NoSession)
    ensures o.session == NoSession <==>
      !IsObject(body) || ResetEmail(body).None? || !EmailShape(ResetEmail(body).value)
    // a 200 reply and a committed transaction go together; no other path writes
    ensures o.reply.Ok? <==> o.session == CommittedAndEnded
    ensures !o.reply.Ok? ==> o.credentials == creds
    // an unknown email, or an inactive credential, is refused after the lookup
    ensures o.session != NoSession ==>
      var e := ResetEmail(body).value;
      && (FindByEmail(creds, e).None? ==> o.reply == Err(400, MsgUserNotFound))
      && (FindByEmail(creds, e).Some? && !FindByEmail(creds, e).value.isActive ==> o.reply == Err(400, MsgUserInactive))
    // an active credential gets the hash of the temporary password
    ensures o.reply.Ok? ==>
      var c := FindByEmail(creds, ResetEmail(body).value).value;
      c.isActive && o.credentials == UpdateById(creds, c.id, Patch(Some(svc.encrypt(svc.passwordTemp)), None))
    ensures o.reply.Ok? ==> o.reply.message == MsgResetOk
    // a well-formed email of an existing active credential is reset
    ensures o.reply.Ok? <==>
      && IsObject(body)
      && ResetEmail(body).Some?
      && EmailShape(ResetEmail(body).value)
      && FindByEmail(creds, ResetEmail(body).value).Some?
      && FindByEmail(creds, ResetEmail(body).value).value.isActive
  {
    if !IsObject(body) then
      Outcome(Err(400, MsgBodyNotObject), creds, NoSession)
    else
      match ResetEmail(body)
      case None => Outcome(Err(400, MsgEmailRequired), creds, NoSession)
      case Some(email) =>
        if !EmailShape(email) then
          Outcome(Err(400, MsgEmailFormat), creds, NoSession)
        else
          match FindByEmail(creds, email)
          case None => Outcome(Err(400, MsgUserNotFound), creds, AbortedAndEnded)
          case Some(c) =>
            if !c.isActive then
              Outcome(Err(400, MsgUserInactive), creds, AbortedAndEnded)
            else
              Outcome(Ok(MsgResetOk, ()),
                      UpdateById(creds, c.id, Patch(Some(svc.encrypt(svc.passwordTemp)), None)),
                      CommittedAndEnded)
  }

  /** `resetPassword(req, res)` */
  method ResetPassword(db: Database, svc: Services, body: Json)
    returns (reply: Reply<()>, session: Session?)
    modifies db`credentials
    ensures var o := ResetSpec(old(db.credentials), svc, body);
      reply == o.reply && db.credentials == o.credentials && Finished(session, o.session)
    ensures session != null ==> fresh(session)
  {
    if !IsObject(body) {
      return Err(400, MsgBodyNotObject), null;
    }
    var email: string;
    match Get(body, "email") {
      case Some(JStr(e)) =>
        if Trim(e) == "" {
          return Err(400, MsgEmailRequired), null;
        }
        ResetEmailOf(body, e);
        email := e;
      case _ =>
        return Err(400, MsgEmailRequired), null;
    }
    if !EmailShape(email) {
      return Err(400, MsgEmailFormat), null;
    }
    session := new Session();
    session.StartTransaction(db);
    reply := ResetInTransaction(db, svc, email, session);
    session.EndSession();
  }

  /** The body of `resetPassword`'s `try` once the transaction is open. */
  method ResetInTransaction(db: Database, svc: Services, email: string, session: Session)
    returns (reply: Reply<()>)
    requires session.txn == InTxn && !session.ended && session.staged == db.credentials
    modifies session`txn, session`staged, db`credentials
    ensures var c := FindByEmail(old(db.credentials), email);
      && reply == (if c.None? then Err(400, MsgUserNotFound)
                   else if !c.value.isActive then Err(400, MsgUserInactive)
                   else Ok(MsgResetOk, ()))
      && db.credentials == (if reply.Ok? then UpdateById(old(db.credentials), c.value.id,
                                                         Patch(Some(svc.encrypt(svc.passwordTemp)), None))
                            else old(db.credentials))
      && session.txn == (if reply.Ok? then Committed else Aborted)
  {
    var i := KeyedList.IndexOf(db.credentials, EmailOf, email);
    if i == -1 {
      AbortIfOpen(session);
      return Err(400, MsgUserNotFound);
    }
    var credential := db.credentials[i];
    if !credential.isActive {
      AbortIfOpen(session);
      return Err(400, MsgUserInactive);
    }
    var passwordTemp := svc.passwordTemp;
    var newPass := svc.encrypt(passwordTemp);
    var _ := session.Write(credential.id, Patch(Some(newPass), None));
    session.CommitTransaction(db);
    reply := Ok(MsgResetOk, ());
  }
}
