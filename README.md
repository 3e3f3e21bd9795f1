# Account lifecycle of the school platform backend, in Dafny

This project models how the backend of an educational platform registers, verifies and logs in
accounts. That behaviour lives in four places:

- **The `users` table** (`app/database/models/users.py`). It defines the account row: NOT NULL
  columns, column widths, defaults, and the UNIQUE `email` and `external_id` columns. It also
  links each account to the `roles` table.
- **The school directory** (`app/services/SchoolServices/auth.py`). It resolves an email to a
  person of the school. It searches the staff listing (fetched over HTTP) first. If there is no
  teacher match, it queries the `students` table. The answer is a status of 200, 400 or 500,
  with the person on 200.
- **The registration service** (`app/services/registration_service.py`). `register_user`
  creates a *pending* account: inactive, unverified, and holding a fresh verification token.
  `verify_email` redeems the token within 24 hours and activates the account.
  `resend_verification_email` issues a new token.
- **The authentication routes** (`app/routes/auth.py`). The register and verify-email
  handlers turn a service `ValueError` into HTTP 400. The login handler checks credentials,
  then verification, then activity, and stamps `last_login_at`.

## How the model is built

- `wrappers.dfy` defines `Option` and `Result`.
- `user_model.dfy` (module `UserModel`) defines:
  - the `Account` and `Role` rows;
  - `TableConstraints`, which is what a commit enforces;
  - `Store`, the two tables as a value in insertion order, plus the next id;
  - `First`, the model of a `query(...).filter(...).first()`;
  - `Db`, the session's tables as a class whose `seq` fields the service methods reassign.
- `school_directory.dfy` (module `SchoolDirectory`) works over two snapshots.
  - The staff listing is a `TeacherFeed`: a fault, or the entries of its `value` array.
  - The student query is a `StudentSource`: a connector `Error`, no row, or a row.
  - `_check_teacher` is the loop method `CheckTeacher`, proved equal to the recursive
    `TeacherLookup`.
  - `check_user_in_school_db` is the function `CheckUser`.
- `registration_service.py` is modelled twice.
  - `registration_service.dfy` gives each operation as a function from the store before to a
    `Step`: what the call returns or raises, and the store after. These are `Register`, `Verify`
    and `Resend`.
  - Beside each function is a method that changes a `Db` in place, in the source's order of
    steps. These are `RegisterUser`, `VerifyEmail` and `ResendVerificationEmail`. Each method is
    proved to end in the function's state and result, and to keep `Valid`.
  - `RegisterUser` and `ResendVerificationEmail` are the corrected operations (see "Findings"):
    `RegisterUser` does not read the absent `user_data`, and `ResendVerificationEmail` returns
    the dispatch outcome. The code as written is `RegisterAsWritten` and `ResendAsWritten`.
    `RegisterUserAsWritten` runs `RegisterUser` and then the failing `user_data` read; the
    register route calls it, so the route answers as the deployed code does.
  - `registration_properties.dfy` proves the lifecycle properties over the functions.
- `auth_routes.dfy` (module `AuthRoutes`) gives the handlers, the login gate cascade
  `LoginGate`, and the login state change `LoginOutcome`.

Inputs that the source obtains by I/O are parameters:

- the current time `now`, in seconds;
- the freshly generated token;
- the password hash;
- the directory's answer: `Option<CheckResult>`, where None means that building the directory
  client raised in its HTTP fetch;
- whether an email was dispatched;
- whether the submitted password matches the stored hash;
- the signed access token.

Behaviour of the code worth knowing, which the model follows:

- A MySQL connector `Error` during the student lookup is reported as "not found" (400), the
  same as an unknown email. It is not told apart as a directory failure.
- A student's display name always joins the three name columns with single spaces, even when
  a part is empty.
- `verification_token` has no UNIQUE constraint. `verify_email` takes the first unverified row
  holding the token.
- The lifecycle rule is that an account is active only once its email is verified. The column
  defaults are `is_active = True` and `is_verified = False`, so the table does not enforce
  that rule. The model proves that the lifecycle operations preserve it
  (`LifecycleKeepsActiveVerified`, `LoginPreservesInvariants`). It also proves that a row
  built with the defaults breaks it.
- Login checks the password before verification. An unverified account with a wrong password
  therefore gets 401, not 403. It never gets 200 (`UnverifiedNeverLogsIn`).
- `register_user` does not catch constraint violations at commit. A second email that resolves
  to an `external_id` already in the table raises a non-`ValueError` (500). It is not reported
  as a duplicate.

## Model

| member | source | states |
|---|---|---|
| `UserModel.NewUser` | app/database/models/users.py:20-40 | a row built with only the NOT NULL columns holds the given id, external id, email and password hash, is active and unverified, has every other nullable column NULL (token, send time, last login, verified-at, display name, image, about, max link) and no roles |
| `UserModel.TableConstraints` | app/database/models/users.py:23-40 | a committable table has no two rows with the same email and no two with the same external id, and every verification token fits its 100-character column |
| `UserModel.DefaultRowBreaksActivationRule` | app/database/models/users.py:28-29 | the column defaults produce a row that is active while unverified |
| `UserModel.SharedTokenCommits` | app/database/models/users.py:23-34 | two rows with the same verification token satisfy every table constraint, because the token column is not UNIQUE |
| `UserModel.First` | app/services/registration_service.py:19-21 | the filtered `.first()` query returns the first row in store order that satisfies the filter, or None when no row does |
| `SchoolDirectory.SplitOnComma` | app/services/SchoolServices/auth.py:47 | splitting on commas always yields at least one part |
| `SchoolDirectory.JoinSplit` | app/services/SchoolServices/auth.py:47 | joining the parts of a split with commas gives back the class string |
| `SchoolDirectory.SplitPartsHaveNoComma` | app/services/SchoolServices/auth.py:47 | no part of a split contains a comma |
| `SchoolDirectory.SplitJoin` | app/services/SchoolServices/auth.py:47 | splitting the comma-join of comma-free parts gives back those parts |
| `SchoolDirectory.LeaderClassesRoundTrip` | app/services/SchoolServices/auth.py:47 | `leader_classes` is present exactly when the class string is present and non-empty; it then consists of comma-free parts whose comma-join is the class string |
| `SchoolDirectory.LeaderClasses` | app/services/SchoolServices/auth.py:47 | `leader_classes` is present exactly when `classStr` is present and non-empty, and then its parts, joined with commas, give back `classStr` |
| `SchoolDirectory.TeacherPerson` | app/services/SchoolServices/auth.py:43-49 | an entry gives a person exactly when it has an id and a name; the person has that id, name and image, the entry's leader classes, and role "teacher" |
| `SchoolDirectory.FirstTeacher` | app/services/SchoolServices/auth.py:41-50 | a teacher found by the scan has role "teacher" and comes from an entry carrying the query email |
| `SchoolDirectory.TeacherLookup` | app/services/SchoolServices/auth.py:36-54 | a fault in the staff listing gives no teacher; a found person has role "teacher" |
| `SchoolDirectory.CheckTeacher` | app/services/SchoolServices/auth.py:36-54 | the loop over the listing returns what the teacher lookup specifies: None on any listing fault, otherwise the first-match scan |
| `SchoolDirectory.FirstMatchDecides` | app/services/SchoolServices/auth.py:41-49 | when entry k carries the query email and every earlier entry carries a different email, entry k decides the result |
| `SchoolDirectory.FoundTeacherIsFirstMatch` | app/services/SchoolServices/auth.py:41-49 | a found teacher comes from the first entry whose email equals the query, and carries role "teacher" |
| `SchoolDirectory.NoMatchingEntryNoTeacher` | app/services/SchoolServices/auth.py:41-50 | when no entry carries the query email, no teacher is found |
| `SchoolDirectory.MissingEmailKeyAbortsScan` | app/services/SchoolServices/auth.py:42-54 | an entry without an email key before any match raises, and the exception becomes "no teacher", even if a later entry matches |
| `SchoolDirectory.CheckStudent` | app/services/SchoolServices/auth.py:56-82 | a connector `Error` gives no student, and only it does; a missing row raises; a row gives what the row's conversion gives; a found student has role "student" |
| `SchoolDirectory.StudentFromRow` | app/services/SchoolServices/auth.py:64-72 | a row gives a student exactly when its person id and three name columns are all present, and otherwise raises; the student's uid is the person id and the role is "student" |
| `SchoolDirectory.StudentHit` | app/services/SchoolServices/auth.py:66-72 | a complete student row gives uid = personid, display name = first + " " + last + " " + patronymic, role "student", no classes |
| `SchoolDirectory.StudentResponse` | app/services/SchoolServices/auth.py:101-124 | the answer after the student check is always a response object, with status 200 exactly when it carries a person |
| `SchoolDirectory.CheckUser` | app/services/SchoolServices/auth.py:84-125 | the empty email, and only it, gets the bare dict with the no-email message and status 400; every other email gets a response object with status 200, 400 or 500, with a person exactly on 200, and that person is a teacher or a student |
| `SchoolDirectory.TeacherTakesPrecedence` | app/services/SchoolServices/auth.py:93-99 | a teacher hit answers 200 with that teacher, and the student source makes no difference |
| `SchoolDirectory.FeedFaultFallsThrough` | app/services/SchoolServices/auth.py:51-54 | a fault in the staff listing is never reported; the student source alone decides |
| `SchoolDirectory.StudentDecidesWithoutTeacher` | app/services/SchoolServices/auth.py:101-117 | whenever the staff listing, working or faulty, yields no teacher, the answer is the student check's answer |
| `SchoolDirectory.StudentRowAnswers` | app/services/SchoolServices/auth.py:64-72 | with no teacher, a complete student row is answered 200 "found" with that student (uid = person id, the space-joined name, role "student"); a row with a NULL person id or name part is answered 500 |
| `SchoolDirectory.StudentFaultStatuses` | app/services/SchoolServices/auth.py:64-76 | with no teacher, a connector `Error` is answered 400 and a missing student row 500 |
| `SchoolDirectory.CheckUserIntended` | app/services/SchoolServices/auth.py:88-89 | the corrected lookup always answers with a response object, 400 for the empty email, with a person exactly on 200 |
| `SchoolDirectory.CheckStudentIntended` | app/services/SchoolServices/auth.py:64-68 | corrected, a missing student row is "no student"; only a row with missing columns raises; on every other source it agrees with the written check |
| `SchoolDirectory.UnknownEmailIsServerErrorAsWritten` | app/services/SchoolServices/auth.py:64-68 | as written, an email in neither source is answered 500 |
| `SchoolDirectory.UnknownEmailIsNotFoundIntended` | app/services/SchoolServices/auth.py:64-68 | corrected, an email in neither source is answered 400 "not found" |
| `SchoolDirectory.IntendedAgreesElsewhere` | app/services/SchoolServices/auth.py:84-125 | the corrected lookup differs from the written one only on the empty email and on the missing student row |
| `RegistrationService.RolesFor` | app/services/registration_service.py:47-51 | the new account gets the first role whose name is the directory role, and no role when none has that name |
| `RegistrationService.PendingAccount` | app/services/registration_service.py:37-51 | the new row has the next id, the person's uid and display name, the email and password hash; it is inactive and unverified, holds the fresh token sent now, was never logged in or verified, and has at most one role, named as the directory role |
| `RegistrationService.Register` | app/services/registration_service.py:19-55 | a registration that raises leaves the store unchanged; one that returns appends exactly the returned unverified row with the given email, keeps the roles, advances the id, and happens only when no row had that email |
| `RegistrationService.RegisterAsWritten` | app/services/registration_service.py:53-62 | as written, the store after is the registration's whatever `user_data` is, and the call returns only when the registration returns and `user_data` was given |
| `RegistrationService.Verify` | app/services/registration_service.py:72-95 | a verification that raises changes nothing; the row count, roles and id sequence never change; one that returns gives an active, verified row with no token and verified-at = now, written in place of an unverified row that held the token |
| `RegistrationService.Resend` | app/services/registration_service.py:106-122 | a reissue that raises changes nothing; the row count, roles and id sequence never change; one that returns gives the dispatch outcome, and an unverified row with that email now holds the new token |
| `RegistrationService.ResendAsWritten` | app/services/registration_service.py:120-130 | as written, reissue never returns, and leaves the store the reissue leaves |
| `RegistrationService.RegisterPreservesValid` | app/services/registration_service.py:37-55 | registration keeps the table constraints and a fresh id sequence |
| `RegistrationService.VerifyPreservesValid` | app/services/registration_service.py:88-95 | verification keeps the table constraints |
| `RegistrationService.ResendPreservesValid` | app/services/registration_service.py:117-122 | issuing a new token keeps the table constraints |
| `RegistrationService.RegisterUser` | app/services/registration_service.py:10-70 | the corrected in-place registration (no read of `user_data`) ends in exactly the state and result of the registration function, whatever the email dispatch outcome, and keeps the store valid |
| `RegistrationService.RegisterUserAsWritten` | app/services/registration_service.py:10-70 | the in-place registration as written ends in exactly the state and result of `RegisterAsWritten`, and keeps the store valid |
| `RegistrationService.VerifyEmail` | app/services/registration_service.py:72-104 | the in-place verification ends in exactly the state and result of the verification function and keeps the store valid |
| `RegistrationService.ResendVerificationEmail` | app/services/registration_service.py:106-132 | the corrected in-place token reissue (dispatch called with the session, its outcome returned) ends in exactly the state and result of the reissue function and keeps the store valid |
| `RegistrationProperties.RegisterRefusals` | app/services/registration_service.py:19-31 | an existing email, a directory status 400 and a directory status 500 each raise their own `ValueError` and leave the store unchanged |
| `RegistrationProperties.RegisterSucceedsIff` | app/services/registration_service.py:19-55 | registration succeeds exactly when: the email is new; the directory answered with a person and a status other than 400 or 500; the new row's columns fit; and no row holds the person's external id |
| `RegistrationProperties.RegisteredAccountIsPending` | app/services/registration_service.py:37-55 | a successful registration appends one row and changes nothing else. The row is inactive and unverified. It holds the fresh token, sent now. It has the person's uid and name, the matching role and a fresh id |
| `RegistrationProperties.RegisterAgainIsDuplicate` | app/services/registration_service.py:19-25 | after a successful registration, the same email is refused as a duplicate |
| `RegistrationProperties.RegisterWithoutUserDataAsWritten` | app/services/registration_service.py:53-62 | as written, a registration without `user_data` commits the row and then raises; a retry is refused as a duplicate |
| `RegistrationProperties.EmptyEmailRegistration` | app/services/registration_service.py:27-31 | as written, the empty email crashes registration (a non-`ValueError`); with the corrected lookup it is refused as not in the school |
| `RegistrationProperties.UnknownEmailRegistration` | app/services/registration_service.py:27-31 | an email in neither source is refused: with the check-failed message as written, with the not-in-school message when corrected; no row is added either way |
| `RegistrationProperties.VerifyUnknownToken` | app/services/registration_service.py:75-81 | when no unverified row holds the token, verification raises the invalid-token error and changes nothing |
| `RegistrationProperties.VerifyExpiry` | app/services/registration_service.py:83-86 | verification raises the expired error exactly when now > sent time + 24 h, succeeds exactly when now <= sent time + 24 h, and changes nothing when it raises |
| `RegistrationProperties.VerifySuccessFrame` | app/services/registration_service.py:88-94 | a successful verification sets active, verified, verified-at = now and token = None on the selected row; every other column and row is unchanged |
| `RegistrationProperties.VerifyOneShot` | app/services/registration_service.py:75-92 | a second verification with the same token never touches the activated row, and fails with the invalid-token error unless another unverified row holds that token |
| `RegistrationProperties.RegisterThenVerify` | app/services/registration_service.py:37-94 | a token issued by a registration, and held by no other unverified row, is redeemed within 24 h and activates exactly the new row |
| `RegistrationProperties.ResendFrame` | app/services/registration_service.py:109-122 | reissue is refused with nothing changed exactly when no unverified row has the email; otherwise only that row's token and send time change, and the dispatch outcome is returned |
| `RegistrationProperties.ResendAsWrittenNeverReturns` | app/services/registration_service.py:120-130 | as written, reissue always raises, and when it gets past the lookup the new token is already committed |
| `RegistrationProperties.LifecycleKeepsActiveVerified` | app/services/registration_service.py:42-43 | registration, verification and reissue keep every active row verified |
| `AuthRoutes.ValueErrorsBecome400` | app/routes/auth.py:40-41 | the register and verify-email handlers answer 400 exactly when the service raised a `ValueError`, with its text; they answer 200 exactly when it returned |
| `AuthRoutes.ErrorReply` | app/routes/auth.py:40-41 | a `ValueError` is answered 400 with its text as `detail`, and only it is; any other exception is answered 500 in plain text |
| `AuthRoutes.RegisterReply` | app/routes/auth.py:24-41 | the register handler answers 200 exactly when the service returned, with the new row's id and email; 400 exactly on a `ValueError`; 500 exactly on any other exception |
| `AuthRoutes.VerifyReply` | app/routes/auth.py:50-73 | the verify-email handler answers 200 exactly when the service returned, with the access token and the verified row's id and email; 400 exactly on a `ValueError`; 500 exactly on any other exception |
| `AuthRoutes.Register` | app/routes/auth.py:18-41 | the register handler, over the registration as written, leaves the store as `RegisterAsWritten` does and answers with that outcome's reply, so a committed registration without `user_data` answers 500 |
| `AuthRoutes.VerifyEmail` | app/routes/auth.py:44-73 | the verify-email handler leaves the store as the verification does, and answers with that outcome's reply |
| `AuthRoutes.LoginGate` | app/routes/auth.py:104-121 | an admitted login names a row with that email that is verified and active |
| `AuthRoutes.LoginCascade` | app/routes/auth.py:105-121 | 401 exactly when authentication fails; 403 "not verified" exactly for an unverified row, active or not; 403 "not active" exactly for a verified inactive row; admitted otherwise |
| `AuthRoutes.UnverifiedNeverLogsIn` | app/routes/auth.py:109-114 | an unverified account never gets 200, whatever the password, and its rejection changes nothing |
| `AuthRoutes.RoleNamesInOrder` | app/routes/auth.py:145 | the response's role list is the account's role names, in order |
| `AuthRoutes.LoginOutcome` | app/routes/auth.py:104-148 | login answers 200, 401 or 403; a rejection carries a `detail` and changes nothing; the roles and id sequence never change; a 200 carries the access token, needs a correct password and changes only the `last_login_at` of a verified active row with that email, to now |
| `AuthRoutes.LoginSuccessFrame` | app/routes/auth.py:123-148 | a successful login changes only the row's `last_login_at`, setting it to now, and lists the row's role names in order |
| `AuthRoutes.LoginPreservesInvariants` | app/routes/auth.py:123-125 | login keeps the table constraints and keeps every active row verified |
| `AuthRoutes.Login` | app/routes/auth.py:99-148 | the in-place login ends in exactly the reply and state of the login outcome and keeps the store valid |

## Left out

- Email delivery (`app/services/resend_email_service.py`): the provider call and the HTML
  templates are not modelled. A dispatch is a boolean input that the service ignores or returns.
  The `EmailLog` audit rows are not modelled: the failure and welcome logs are built but not
  added. The verification email's user name is not modelled either, since it reaches only the
  email.
- Token generation (`secrets.token_urlsafe`) and password hashing are not modelled. The token
  and the hash are caller-supplied values.
- `UserService.authenticate_user` and `create_access_token` are not part of this model.
  - Login finds the first row with the email.
  - A boolean says whether the password matches that row's hash.
  - The signed credential is an input.
- The `GET /me` handler is left out. It depends on `get_current_active_user`, which is not
  part of this model.
- The HTTP fetch in `SchoolService.__init__` and the MySQL connection are replaced by
  snapshots. The connection parameters, the timeout and the cleanup in `finally` are not modelled.
- `register_user` builds three directory clients, which fetch three times and look up three
  times. The model does one lookup and assumes the three answers agree.
- `verify_email` reads the clock twice. The model uses one `now` for the expiry test and for
  `email_verified_at`.
- A JSON `null` email in a staff entry is not modelled, and neither is a non-object entry. Only
  a missing key is modelled. Type coercion by the pydantic models (a numeric id, say) is not
  modelled: ids and names are strings.
- The commit's checks assume a database that enforces `String(n)` widths, as PostgreSQL does;
  SQLite does not.
- A fresh row gets the next id in sequence. A real sequence may skip values after a rollback.
- `.first()` without `ORDER BY` is modelled as the first row in insertion order.
- Concurrent registrations or verifications are not modelled. Only the database's constraints
  arbitrate them.
- Relationships of `User` other than `roles` (`p_office`, `event_types`, `achievements_given`)
  are not modelled. The admin views, the event-type tables and the application wiring are not
  modelled either.
- `print` output is not modelled.

## Findings

| source | as written | input that shows it | evidently intended | confidence | as-written member | corrected member |
|---|---|---|---|---|---|---|
| app/services/SchoolServices/auth.py:88-89 | the empty email is answered with a bare dict; `register_user` then reads `.status_code` from it and raises `AttributeError` (HTTP 500) | register with email "" | a 400 response object, so that registration is refused as not in the school | medium, not executed | `RegistrationProperties.EmptyEmailRegistration` | `SchoolDirectory.CheckUserIntended` |
| app/services/SchoolServices/auth.py:64-68 | `fetchone()` returns None for an unknown email; `result.get` raises, and the answer is 500, so registration says "Ошибка при проверке Email" | a non-empty email that matches no staff entry and no student row, with the database reachable | a missing row means "no student", answered 400 not found | medium, not executed | `SchoolDirectory.UnknownEmailIsServerErrorAsWritten` | `SchoolDirectory.UnknownEmailIsNotFoundIntended` |
| app/services/registration_service.py:62 | `user_data` defaults to None, so `user_data.get` raises `AttributeError` after the commit at line 54: the account exists, the client gets 500, and a retry is refused as a duplicate | register without `user_data` | send the email without a user name and return the account | high, not executed | `RegistrationProperties.RegisterWithoutUserDataAsWritten` | `RegistrationService.RegisterUser` |
| app/services/registration_service.py:125-130 | `send_verification_email` is called without its required `db` argument, so it raises `TypeError` after the new token was committed at line 122 | reissue for any unverified account | pass `db` and return the dispatch outcome | high, not executed | `RegistrationProperties.ResendAsWrittenNeverReturns` | `RegistrationService.ResendVerificationEmail` |
