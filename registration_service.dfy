/**
 * The account lifecycle of app/services/registration_service.py: register a
 * pending account, redeem its verification token, re-issue the token.
 *
 * Each operation is given twice: as a function from the store before to the
 * outcome and the store after (the specification the lemmas talk about), and
 * as a method that changes a `Db` in place step by step, proved to end in the
 * state the function describes.
 */
module RegistrationService {
  import opened Wrappers
  import opened UserModel
  import opened SchoolDirectory

  /** The non-`ValueError` exceptions that escape the service. */
  datatype Cause =
    | AttributeError  // an attribute read on None or on a dict
    | TypeError       // None in arithmetic, or a call missing an argument
    | DatabaseError   // the commit violates a constraint of the users table
    | RequestError    // building the directory client: its HTTP fetch raised

  /** How a service call ends when it does not return. */
  datatype Raised = ValueError(message: string) | Crash(cause: Cause)

  /** The outcome of one call and the store it leaves behind. */
  datatype Step<T> = Step(result: Result<T, Raised>, after: Store)

  const MsgDuplicate := "Пользователь с таким email уже существует"
  const MsgNotInSchool := "Пользователь с таким email не найден в базе данных школы"
  const MsgCheckFailed := "Ошибка при проверке Email"
  const MsgBadToken := "Неверный или устаревший токен подтверждения"
  const MsgExpired := "Срок действия токена подтверждения истек"
  const MsgResendRefused := "Пользователь не найден или email уже подтвержден"

  /** A verification token is honoured for 24 hours after it was sent. */
  const TokenLifetime := 24 * 60 * 60

  // The filters of the service's queries.
  function HasEmail(email: string): Account -> bool {
    (a: Account) => a.email == email
  }

  function PendingWithToken(token: string): Account -> bool {
    (a: Account) => a.verificationToken == Some(token) && !a.isVerified
  }

  function UnverifiedWithEmail(email: string): Account -> bool {
    (a: Account) => a.email == email && !a.isVerified
  }

  function RoleNamed(name: string): Role -> bool {
    (r: Role) => r.name == name
  }

  /** The role list of a new account: the first role with the directory's role name, if any. */
  function RolesFor(roles: seq<Role>, name: string): (r: seq<Role>)
    ensures r == [] <==> forall j :: 0 <= j < |roles| ==> roles[j].name != name
    ensures r != [] ==> exists k :: 0 <= k < |roles| && r == [roles[k]] && roles[k].name == name
                                    && forall j :: 0 <= j < k ==> roles[j].name != name
  {
    match First(roles, RoleNamed(name))
    case None => []
    case Some(k) => [roles[k]]
  }

  /** The row `register_user` builds for a directory person. */
  function PendingAccount(s: Store, email: string, passwordHash: string, person: Person,
                          token: string, now: Timestamp): (a: Account)
    ensures a.id == s.nextId && a.externalId == person.uid && a.email == email && a.passwordHash == passwordHash
    ensures !a.isActive && !a.isVerified && a.emailVerifiedAt.None? && a.lastLoginAt.None?
    ensures a.verificationToken == Some(token) && a.verificationSentAt == Some(now)
    ensures a.displayName == Some(person.displayName)
    ensures |a.roles| <= 1 && forall j :: 0 <= j < |a.roles| ==> a.roles[j].name == person.role
  {
    Account(s.nextId, person.uid, email, passwordHash, false, false, Some(token), Some(now),
            None, None, Some(person.displayName), None, RolesFor(s.roles, person.role), None, None)
  }

  /** The row after its token is redeemed at `now`. */
  function Activated(a: Account, now: Timestamp): Account {
    a.(isActive := true, isVerified := true, emailVerifiedAt := Some(now), verificationToken := None)
  }

  /** The row after a new token is issued at `now`. */
  function Reissued(a: Account, token: string, now: Timestamp): Account {
    a.(verificationToken := Some(token), verificationSentAt := Some(now))
  }

  // ---------------------------------------------------------------------------
  // register_user

  /**
   * `register_user` up to and including its commit, with the verification
   * email's outcome only logged. `directory` is the single directory answer
   * for the email, None when building the directory client raised.
   */
  function Register(s: Store, email: string, passwordHash: string, directory: Option<CheckResult>,
                    token: string, now: Timestamp): (r: Step<Account>)
    ensures r.result.Err? ==> r.after == s
    ensures r.result.Ok? ==> && r.after.accounts == s.accounts + [r.result.value]
                             && r.after.roles == s.roles && r.after.nextId == s.nextId + 1
                             && r.result.value.email == email && !r.result.value.isVerified
    ensures r.result.Ok? ==> forall i :: 0 <= i < |s.accounts| ==> s.accounts[i].email != email
  {
    if First(s.accounts, HasEmail(email)).Some? then Step(Err(ValueError(MsgDuplicate)), s)
    else match directory
      case None => Step(Err(Crash(RequestError)), s)
      case Some(PlainDict(_, _)) => Step(Err(Crash(AttributeError)), s)
      case Some(Response(_, code, user)) =>
        if code == 400 then Step(Err(ValueError(MsgNotInSchool)), s)
        else if code == 500 then Step(Err(ValueError(MsgCheckFailed)), s)
        else match user
          case None => Step(Err(Crash(AttributeError)), s)
          case Some(person) =>
            var account := PendingAccount(s, email, passwordHash, person, token, now);
            if TableConstraints(s.accounts + [account]) then
              Step(Ok(account), s.(accounts := s.accounts + [account], nextId := s.nextId + 1))
            else Step(Err(Crash(DatabaseError)), s)
  }

  /**
   * `register_user` as written: after the commit it reads `user_data.get`,
   * which raises when the request carried no `user_data`.
   */
  function RegisterAsWritten(s: Store, email: string, passwordHash: string, directory: Option<CheckResult>,
                             token: string, now: Timestamp, hasUserData: bool): (r: Step<Account>)
    ensures r.after == Register(s, email, passwordHash, directory, token, now).after
    ensures r.result.Ok? <==> hasUserData && Register(s, email, passwordHash, directory, token, now).result.Ok?
  {
    var step := Register(s, email, passwordHash, directory, token, now);
    if step.result.Ok? && !hasUserData then Step(Err(Crash(AttributeError)), step.after) else step
  }

  lemma RegisterPreservesValid(s: Store, email: string, passwordHash: string, directory: Option<CheckResult>,
                               token: string, now: Timestamp)
    requires Valid(s)
    ensures Valid(Register(s, email, passwordHash, directory, token, now).after)
  {
  }

  // ---------------------------------------------------------------------------
  // verify_email

  /**
   * `verify_email`: the first unverified row holding the token is activated
   * unless more than 24 hours have passed since the token was sent.
   */
  function Verify(s: Store, token: string, now: Timestamp): (r: Step<Account>)
    ensures r.result.Err? ==> r.after == s
    ensures r.after.roles == s.roles && r.after.nextId == s.nextId && |r.after.accounts| == |s.accounts|
    ensures r.result.Ok? ==> && r.result.value.isActive && r.result.value.isVerified
                             && r.result.value.verificationToken.None? && r.result.value.emailVerifiedAt == Some(now)
                             && exists k :: && 0 <= k < |s.accounts| && s.accounts[k].verificationToken == Some(token)
                                           && !s.accounts[k].isVerified && r.after.accounts == s.accounts[k := r.result.value]
  {
    match First(s.accounts, PendingWithToken(token))
    case None => Step(Err(ValueError(MsgBadToken)), s)
    case Some(k) =>
      match s.accounts[k].verificationSentAt
      case None => Step(Err(Crash(TypeError)), s)
      case Some(sentAt) =>
        if now > sentAt + TokenLifetime then Step(Err(ValueError(MsgExpired)), s)
        else
          var v := Activated(s.accounts[k], now);
          Step(Ok(v), s.(accounts := s.accounts[k := v]))
  }

  lemma VerifyPreservesValid(s: Store, token: string, now: Timestamp)
    requires Valid(s)
    ensures Valid(Verify(s, token, now).after)
  {
  }

  // ---------------------------------------------------------------------------
  // resend_verification_email

  /**
   * `resend_verification_email` with the dispatch call it intends: the first
   * unverified row with the email gets a new token and send time, and the
   * dispatch outcome is returned.
   */
  function Resend(s: Store, email: string, token: string, now: Timestamp, emailSent: bool): (r: Step<bool>)
    ensures r.result.Err? ==> r.after == s
    ensures r.result.Ok? ==> r.result.value == emailSent
    ensures r.after.roles == s.roles && r.after.nextId == s.nextId && |r.after.accounts| == |s.accounts|
    ensures r.result.Ok? ==> exists k :: && 0 <= k < |s.accounts| && s.accounts[k].email == email && !s.accounts[k].isVerified
                                         && r.after.accounts[k].verificationToken == Some(token)
  {
    match First(s.accounts, UnverifiedWithEmail(email))
    case None => Step(Err(ValueError(MsgResendRefused)), s)
    case Some(k) =>
      var accounts := s.accounts[k := Reissued(s.accounts[k], token, now)];
      if TableConstraints(accounts) then Step(Ok(emailSent), s.(accounts := accounts))
      else Step(Err(Crash(DatabaseError)), s)
  }

  /**
   * `resend_verification_email` as written: the dispatch call omits the
   * required `db` argument, so it raises once the new token is committed.
   */
  function ResendAsWritten(s: Store, email: string, token: string, now: Timestamp): (r: Step<bool>)
    ensures r.result.Err?
    ensures r.after == Resend(s, email, token, now, false).after
  {
    var step := Resend(s, email, token, now, false);
    if step.result.Ok? then Step(Err(Crash(TypeError)), step.after) else step
  }

  lemma ResendPreservesValid(s: Store, email: string, token: string, now: Timestamp, emailSent: bool)
    requires Valid(s)
    ensures Valid(Resend(s, email, token, now, emailSent).after)
  {
  }

  // ---------------------------------------------------------------------------
  // The service over a session

  /** `register_user` against the session, `emailSent` being the dispatch outcome it only logs. */
  method RegisterUser(db: Db, email: string, passwordHash: string, directory: Option<CheckResult>,
                      token: string, now: Timestamp, emailSent: bool)
    returns (r: Result<Account, Raised>)
    requires Valid(db.State())
    modifies db
    ensures Valid(db.State())
    ensures r == Register(old(db.State()), email, passwordHash, directory, token, now).result
    ensures db.State() == Register(old(db.State()), email, passwordHash, directory, token, now).after
  {
    ghost var s := db.State();
    RegisterPreservesValid(s, email, passwordHash, directory, token, now);
    var existing := First(db.accounts, HasEmail(email));
    if existing.Some? {
      return Err(ValueError(MsgDuplicate));
    }
    if directory.None? {
      return Err(Crash(RequestError));
    }
    var answer := directory.value;
    if answer.PlainDict? {
      return Err(Crash(AttributeError));
    }
    if answer.statusCode == 400 {
      return Err(ValueError(MsgNotInSchool));
    }
    if answer.statusCode == 500 {
      return Err(ValueError(MsgCheckFailed));
    }
    if answer.user.None? {
      return Err(Crash(AttributeError));
    }
    var person := answer.user.value;
    var user := Account(db.nextId, person.uid, email, passwordHash, false, false, Some(token), Some(now),
                        None, None, Some(person.displayName), None, [], None, None);
    var role := First(db.roles, RoleNamed(person.role));
    if role.Some? {
      user := user.(roles := user.roles + [db.roles[role.value]]);
    }
    assert user == PendingAccount(s, email, passwordHash, person, token, now);
    if !TableConstraints(db.accounts + [user]) {
      return Err(Crash(DatabaseError));
    }
    db.accounts := db.accounts + [user];
    db.nextId := db.nextId + 1;
    // The verification email is sent here; its outcome `emailSent` is only logged.
    return Ok(user);
  }

  /**
   * `register_user` as the routes call it: the corrected registration, then
   * the read of `user_data` that raises after the commit when the request
   * carried none.
   */
  method RegisterUserAsWritten(db: Db, email: string, passwordHash: string, directory: Option<CheckResult>,
                               token: string, now: Timestamp, hasUserData: bool, emailSent: bool)
    returns (r: Result<Account, Raised>)
    requires Valid(db.State())
    modifies db
    ensures Valid(db.State())
    ensures r == RegisterAsWritten(old(db.State()), email, passwordHash, directory, token, now, hasUserData).result
    ensures db.State() == RegisterAsWritten(old(db.State()), email, passwordHash, directory, token, now, hasUserData).after
  {
    r := RegisterUser(db, email, passwordHash, directory, token, now, emailSent && hasUserData);
    if r.Ok? && !hasUserData {
      r := Err(Crash(AttributeError));
    }
  }

  /** `verify_email` against the session; the welcome email's outcome is ignored. */
  method VerifyEmail(db: Db, token: string, now: Timestamp, welcomeSent: bool) returns (r: Result<Account, Raised>)
    requires Valid(db.State())
    modifies db
    ensures Valid(db.State())
    ensures r == Verify(old(db.State()), token, now).result
    ensures db.State() == Verify(old(db.State()), token, now).after
  {
    VerifyPreservesValid(db.State(), token, now);
    var found := First(db.accounts, PendingWithToken(token));
    if found.None? {
      return Err(ValueError(MsgBadToken));
    }
    var k := found.value;
    var user := db.accounts[k];
    if user.verificationSentAt.None? {
      return Err(Crash(TypeError));
    }
    if now > user.verificationSentAt.value + TokenLifetime {
      return Err(ValueError(MsgExpired));
    }
    user := user.(isActive := true);
    user := user.(isVerified := true);
    user := user.(emailVerifiedAt := Some(now));
    user := user.(verificationToken := None);
    db.accounts := db.accounts[k := user];
    return Ok(user);
  }

  /** `resend_verification_email` against the session, returning the dispatch outcome. */
  method ResendVerificationEmail(db: Db, email: string, token: string, now: Timestamp, emailSent: bool)
    returns (r: Result<bool, Raised>)
    requires Valid(db.State())
    modifies db
    ensures Valid(db.State())
    ensures r == Resend(old(db.State()), email, token, now, emailSent).result
    ensures db.State() == Resend(old(db.State()), email, token, now, emailSent).after
  {
    ResendPreservesValid(db.State(), email, token, now, emailSent);
    var found := First(db.accounts, UnverifiedWithEmail(email));
    if found.None? {
      return Err(ValueError(MsgResendRefused));
    }
    var k := found.value;
    var user := db.accounts[k];
    user := user.(verificationToken := Some(token));
    user := user.(verificationSentAt := Some(now));
    if !TableConstraints(db.accounts[k := user]) {
      return Err(Crash(DatabaseError));
    }
    db.accounts := db.accounts[k := user];
    return Ok(emailSent);
  }
}
