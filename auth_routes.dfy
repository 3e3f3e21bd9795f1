/**
 * The authentication routes of app/routes/auth.py: the register and
 * verify-email handlers around the service, and the login gate.
 * `accessToken` stands for the credential `create_access_token` signs.
 */
module AuthRoutes {
  import opened Wrappers
  import opened UserModel
  import opened SchoolDirectory
  import RegistrationService

  type Raised = RegistrationService.Raised

  /** The `user` object of the verify-email response. */
  datatype VerifiedUser = VerifiedUser(id: nat, externalId: string, email: string,
                                       displayName: Option<string>, isVerified: bool)

  /** The `user` object of the login response. */
  datatype LoginUser = LoginUser(id: nat, externalId: string, email: string, isVerified: bool,
                                 displayName: Option<string>, roles: seq<string>)

  datatype Body =
    | Detail(detail: string)
    | Registered(message: string, userId: nat, email: string, note: string)
    | EmailVerified(message: string, accessToken: string, tokenType: string, verifiedUser: VerifiedUser)
    | LoggedIn(accessToken: string, tokenType: string, user: LoginUser, message: string)
    | PlainText(text: string)  // the framework's own answer to an exception a handler lets escape

  /** An HTTP answer: status code and body (JSON except for `PlainText`). */
  datatype Reply = Reply(status: int, body: Body)

  /** A handler's answer and the store it leaves behind. */
  datatype Exchange = Exchange(reply: Reply, after: Store)

  const MsgRegistered := "Registration successful. Please check your email to verify your account."
  const NoteRegistered := "Account will be activated after email verification"
  const MsgVerified := "Email verified successfully! Your account is now active."
  const MsgInvalidCredentials := "Invalid email or password"
  const MsgNotVerified := "Email not verified. Please check your email for verification link."
  const MsgInactive := "Account is not active. Please contact administrator."
  const MsgLoginOk := "Login successful"
  const MsgServerError := "Internal Server Error"
  const Bearer := "bearer"

  /**
   * A `ValueError` becomes 400 with `{"detail": text}`; any other exception
   * escapes the handler and the server answers 500 in plain text.
   */
  function ErrorReply(e: Raised): (reply: Reply)
    ensures reply.status == 400 <==> e.ValueError?
    ensures e.ValueError? ==> reply.body == Detail(e.message)
    ensures e.Crash? ==> reply == Reply(500, PlainText(MsgServerError))
  {
    match e
    case ValueError(message) => Reply(400, Detail(message))
    case Crash(_) => Reply(500, PlainText(MsgServerError))
  }

  /** The register handler's answer to the service outcome. */
  function RegisterReply(r: Result<Account, Raised>): (reply: Reply)
    ensures reply.status == 200 <==> r.Ok?
    ensures reply.status == 400 <==> r.Err? && r.error.ValueError?
    ensures reply.status == 500 <==> r.Err? && r.error.Crash?
    ensures r.Ok? ==> reply.body.Registered? && reply.body.userId == r.value.id && reply.body.email == r.value.email
  {
    match r
    case Ok(a) => Reply(200, Registered(MsgRegistered, a.id, a.email, NoteRegistered))
    case Err(e) => ErrorReply(e)
  }

  /** The verify-email handler's answer to the service outcome. */
  function VerifyReply(r: Result<Account, Raised>, accessToken: string): (reply: Reply)
    ensures reply.status == 200 <==> r.Ok?
    ensures reply.status == 400 <==> r.Err? && r.error.ValueError?
    ensures reply.status == 500 <==> r.Err? && r.error.Crash?
    ensures r.Ok? ==> && reply.body.EmailVerified? && reply.body.accessToken == accessToken
                      && reply.body.verifiedUser.id == r.value.id && reply.body.verifiedUser.email == r.value.email
  {
    match r
    case Ok(a) => Reply(200, EmailVerified(MsgVerified, accessToken, Bearer,
                                           VerifiedUser(a.id, a.externalId, a.email, a.displayName, a.isVerified)))
    case Err(e) => ErrorReply(e)
  }

  /**
   * Both handlers answer 400 exactly when the service raised a `ValueError`,
   * carrying its text, and 200 exactly when the service returned.
   */
  lemma ValueErrorsBecome400(r: Result<Account, Raised>, accessToken: string)
    ensures RegisterReply(r).status == 400 <==> r.Err? && r.error.ValueError?
    ensures VerifyReply(r, accessToken).status == 400 <==> r.Err? && r.error.ValueError?
    ensures r.Err? && r.error.ValueError? ==>
              RegisterReply(r).body == Detail(r.error.message) && VerifyReply(r, accessToken).body == Detail(r.error.message)
    ensures RegisterReply(r).status == 200 <==> r.Ok?
    ensures VerifyReply(r, accessToken).status == 200 <==> r.Ok?
  {
  }

  /**
   * POST /register, over `register_user` as written: `hasUserData` is whether
   * the request carried `user_data`; without it a committed registration
   * still answers 500.
   */
  method Register(db: Db, email: string, passwordHash: string, directory: Option<CheckResult>,
                  token: string, now: Timestamp, hasUserData: bool, emailSent: bool) returns (reply: Reply)
    requires Valid(db.State())
    modifies db
    ensures Valid(db.State())
    ensures db.State() == RegistrationService.RegisterAsWritten(old(db.State()), email, passwordHash, directory,
                                                                token, now, hasUserData).after
    ensures reply == RegisterReply(RegistrationService.RegisterAsWritten(old(db.State()), email, passwordHash, directory,
                                                                         token, now, hasUserData).result)
  {
    var r := RegistrationService.RegisterUserAsWritten(db, email, passwordHash, directory, token, now,
                                                       hasUserData, emailSent);
    reply := RegisterReply(r);
  }

  /** POST /verify-email. */
  method VerifyEmail(db: Db, token: string, now: Timestamp, welcomeSent: bool, accessToken: string)
    returns (reply: Reply)
    requires Valid(db.State())
    modifies db
    ensures Valid(db.State())
    ensures db.State() == RegistrationService.Verify(old(db.State()), token, now).after
    ensures reply == VerifyReply(RegistrationService.Verify(old(db.State()), token, now).result, accessToken)
  {
    var r := RegistrationService.VerifyEmail(db, token, now, welcomeSent);
    reply := VerifyReply(r, accessToken);
  }

  // ---------------------------------------------------------------------------
  // POST /login

  datatype Gate = Rejected(status: int, detail: string) | Admitted(index: nat)

  /**
   * The guard cascade: bad credentials, then an unverified email, then an
   * inactive account. `passwordOk` is whether the password matches the hash
   * of the row with that email.
   */
  function LoginGate(s: Store, email: string, passwordOk: bool): (g: Gate)
    ensures g.Admitted? ==> g.index < |s.accounts| && s.accounts[g.index].email == email
                            && s.accounts[g.index].isVerified && s.accounts[g.index].isActive
  {
    match First(s.accounts, RegistrationService.HasEmail(email))
    case None => Rejected(401, MsgInvalidCredentials)
    case Some(k) =>
      if !passwordOk then Rejected(401, MsgInvalidCredentials)
      else if !s.accounts[k].isVerified then Rejected(403, MsgNotVerified)
      else if !s.accounts[k].isActive then Rejected(403, MsgInactive)
      else Admitted(k)
  }

  function RoleNames(roles: seq<Role>): seq<string> {
    if roles == [] then [] else [roles[0].name] + RoleNames(roles[1..])
  }

  lemma {:induction false} RoleNamesInOrder(roles: seq<Role>)
    ensures |RoleNames(roles)| == |roles|
    ensures forall i :: 0 <= i < |roles| ==> RoleNames(roles)[i] == roles[i].name
  {
    if roles != [] {
      RoleNamesInOrder(roles[1..]);
    }
  }

  /** The login handler: rejection leaves the store alone; admission stamps `last_login_at`. */
  function LoginOutcome(s: Store, email: string, passwordOk: bool, now: Timestamp, accessToken: string): (x: Exchange)
    ensures x.reply.status == 200 || x.reply.status == 401 || x.reply.status == 403
    ensures x.reply.status != 200 ==> x.after == s && x.reply.body.Detail?
    ensures x.after.roles == s.roles && x.after.nextId == s.nextId
    ensures x.reply.status == 200 ==>
              && passwordOk && x.reply.body.LoggedIn? && x.reply.body.accessToken == accessToken
              && exists k :: && 0 <= k < |s.accounts| && s.accounts[k].email == email
                             && s.accounts[k].isVerified && s.accounts[k].isActive
                             && x.after.accounts == s.accounts[k := s.accounts[k].(lastLoginAt := Some(now))]
  {
    match LoginGate(s, email, passwordOk)
    case Rejected(status, detail) => Exchange(Reply(status, Detail(detail)), s)
    case Admitted(k) =>
      var a := s.accounts[k].(lastLoginAt := Some(now));
      Exchange(Reply(200, LoggedIn(accessToken, Bearer,
                                   LoginUser(a.id, a.externalId, a.email, a.isVerified, a.displayName, RoleNames(a.roles)),
                                   MsgLoginOk)),
               s.(accounts := s.accounts[k := a]))
  }

  /**
   * The cascade's order: failed authentication is 401 whatever the row's
   * flags; an unverified row is 403 "not verified" whether active or not; a
   * verified inactive row is 403 "not active"; only a verified active row is
   * admitted.
   */
  lemma LoginCascade(s: Store, email: string, passwordOk: bool)
    ensures var found := First(s.accounts, RegistrationService.HasEmail(email));
            var g := LoginGate(s, email, passwordOk);
            && (g == Rejected(401, MsgInvalidCredentials) <==> found.None? || !passwordOk)
            && (g == Rejected(403, MsgNotVerified) <==> found.Some? && passwordOk && !s.accounts[found.value].isVerified)
            && (g == Rejected(403, MsgInactive) <==>
                  found.Some? && passwordOk && s.accounts[found.value].isVerified && !s.accounts[found.value].isActive)
            && (g.Admitted? <==>
                  found.Some? && passwordOk && s.accounts[found.value].isVerified && s.accounts[found.value].isActive)
  {
  }

  /** An unverified row never logs in, whatever the password. */
  lemma UnverifiedNeverLogsIn(s: Store, email: string, passwordOk: bool, now: Timestamp, accessToken: string, i: nat)
    requires i < |s.accounts| && s.accounts[i].email == email && !s.accounts[i].isVerified
    requires TableConstraints(s.accounts)
    ensures LoginOutcome(s, email, passwordOk, now, accessToken).reply.status != 200
    ensures LoginOutcome(s, email, passwordOk, now, accessToken).after == s
  {
  }

  /**
   * A successful login changes one thing: the admitted row's `last_login_at`,
   * set to now. The response lists that row's role names in order.
   */
  lemma LoginSuccessFrame(s: Store, email: string, passwordOk: bool, now: Timestamp, accessToken: string)
    requires LoginOutcome(s, email, passwordOk, now, accessToken).reply.status == 200
    ensures var k := First(s.accounts, RegistrationService.HasEmail(email)).value;
            var x := LoginOutcome(s, email, passwordOk, now, accessToken);
            && passwordOk && s.accounts[k].isVerified && s.accounts[k].isActive
            && x.after.roles == s.roles && x.after.nextId == s.nextId
            && |x.after.accounts| == |s.accounts|
            && x.after.accounts[k].lastLoginAt == Some(now)
            && x.after.accounts[k].(lastLoginAt := s.accounts[k].lastLoginAt) == s.accounts[k]
            && (forall j :: 0 <= j < |s.accounts| && j != k ==> x.after.accounts[j] == s.accounts[j])
            && x.reply.body.LoggedIn?
            && |x.reply.body.user.roles| == |s.accounts[k].roles|
            && (forall i :: 0 <= i < |s.accounts[k].roles| ==> x.reply.body.user.roles[i] == s.accounts[k].roles[i].name)
  {
    var k := First(s.accounts, RegistrationService.HasEmail(email)).value;
    RoleNamesInOrder(s.accounts[k].roles);
  }

  /** Login keeps the table's constraints and the lifecycle rule. */
  lemma LoginPreservesInvariants(s: Store, email: string, passwordOk: bool, now: Timestamp, accessToken: string)
    requires Valid(s)
    ensures Valid(LoginOutcome(s, email, passwordOk, now, accessToken).after)
    ensures ActiveImpliesVerified(s.accounts) ==>
              ActiveImpliesVerified(LoginOutcome(s, email, passwordOk, now, accessToken).after.accounts)
  {
  }

  method Login(db: Db, email: string, passwordOk: bool, now: Timestamp, accessToken: string) returns (reply: Reply)
    requires Valid(db.State())
    modifies db
    ensures Valid(db.State())
    ensures reply == LoginOutcome(old(db.State()), email, passwordOk, now, accessToken).reply
    ensures db.State() == LoginOutcome(old(db.State()), email, passwordOk, now, accessToken).after
  {
    LoginPreservesInvariants(db.State(), email, passwordOk, now, accessToken);
    var found := First(db.accounts, RegistrationService.HasEmail(email));
    if found.None? || !passwordOk {
      return Reply(401, Detail(MsgInvalidCredentials));
    }
    var k := found.value;
    var user := db.accounts[k];
    if !user.isVerified {
      return Reply(403, Detail(MsgNotVerified));
    }
    if !user.isActive {
      return Reply(403, Detail(MsgInactive));
    }
    user := user.(lastLoginAt := Some(now));
    db.accounts := db.accounts[k := user];
    var roles := RoleNames(user.roles);
    return Reply(200, LoggedIn(accessToken, Bearer,
                               LoginUser(user.id, user.externalId, user.email, user.isVerified, user.displayName, roles),
                               MsgLoginOk));
  }
}
