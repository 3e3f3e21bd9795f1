/** What the lifecycle operations of RegistrationService promise, stated over their specification functions. */
module RegistrationProperties {
  import opened Wrappers
  import opened UserModel
  import opened SchoolDirectory
  import opened RegistrationService

  // ---------------------------------------------------------------------------
  // register_user

  /** Each refusal before the commit leaves the store as it was and carries its own message. */
  lemma RegisterRefusals(s: Store, email: string, passwordHash: string, directory: Option<CheckResult>,
                         token: string, now: Timestamp)
    ensures (exists i :: 0 <= i < |s.accounts| && s.accounts[i].email == email) ==>
      Register(s, email, passwordHash, directory, token, now) == Step(Err(ValueError(MsgDuplicate)), s)
    ensures (forall i :: 0 <= i < |s.accounts| ==> s.accounts[i].email != email)
            && directory.Some? && directory.value.Response? && directory.value.statusCode == 400 ==>
      Register(s, email, passwordHash, directory, token, now) == Step(Err(ValueError(MsgNotInSchool)), s)
    ensures (forall i :: 0 <= i < |s.accounts| ==> s.accounts[i].email != email)
            && directory.Some? && directory.value.Response? && directory.value.statusCode == 500 ==>
      Register(s, email, passwordHash, directory, token, now) == Step(Err(ValueError(MsgCheckFailed)), s)
  {
  }

  /** The conditions under which a registration is accepted. */
  predicate Registrable(s: Store, email: string, passwordHash: string, directory: Option<CheckResult>,
                        token: string, now: Timestamp)
  {
    && (forall i :: 0 <= i < |s.accounts| ==> s.accounts[i].email != email)
    && directory.Some? && directory.value.Response?
    && directory.value.statusCode != 400 && directory.value.statusCode != 500
    && directory.value.user.Some?
    && FitsColumns(PendingAccount(s, email, passwordHash, directory.value.user.value, token, now))
    && forall i :: 0 <= i < |s.accounts| ==> s.accounts[i].externalId != directory.value.user.value.uid
  }

  /**
   * On a valid store, registration succeeds exactly when the email is new,
   * the directory answered with a person, and the row fits the table: its
   * columns fit and no row already holds the person's external id.
   */
  lemma RegisterSucceedsIff(s: Store, email: string, passwordHash: string, directory: Option<CheckResult>,
                            token: string, now: Timestamp)
    requires Valid(s)
    ensures Register(s, email, passwordHash, directory, token, now).result.Ok?
            <==> Registrable(s, email, passwordHash, directory, token, now)
  {
    var found := First(s.accounts, HasEmail(email));
    if found.Some? {
      assert s.accounts[found.value].email == email;
    }
    if (forall i :: 0 <= i < |s.accounts| ==> s.accounts[i].email != email)
       && directory.Some? && directory.value.Response? && directory.value.user.Some?
    {
      var a := PendingAccount(s, email, passwordHash, directory.value.user.value, token, now);
      var rows := s.accounts + [a];
      assert rows[|s.accounts|] == a;
      assert forall i :: 0 <= i < |s.accounts| ==> rows[i] == s.accounts[i];
      if TableConstraints(rows) {
        assert FitsColumns(rows[|s.accounts|]);
        forall i | 0 <= i < |s.accounts|
          ensures s.accounts[i].externalId != a.externalId
        {
          assert rows[i].externalId != rows[|s.accounts|].externalId;
        }
      }
    }
  }

  /**
   * The registered row: pending (inactive, unverified), holding the fresh
   * token sent now, with the directory person's id and name and the first
   * role named after the person's role; it is appended and nothing else changes.
   */
  lemma RegisteredAccountIsPending(s: Store, email: string, passwordHash: string, directory: Option<CheckResult>,
                                   token: string, now: Timestamp)
    requires Valid(s)
    requires Register(s, email, passwordHash, directory, token, now).result.Ok?
    ensures var step := Register(s, email, passwordHash, directory, token, now);
            var a := step.result.value;
            var p := directory.value.user.value;
            && step.after == s.(accounts := s.accounts + [a], nextId := s.nextId + 1)
            && a.email == email && a.passwordHash == passwordHash
            && a.externalId == p.uid && a.displayName == Some(p.displayName)
            && !a.isActive && !a.isVerified
            && a.verificationToken == Some(token) && a.verificationSentAt == Some(now)
            && a.lastLoginAt.None? && a.emailVerifiedAt.None?
            && a.roles == RolesFor(s.roles, p.role)
            && (forall i :: 0 <= i < |s.accounts| ==> s.accounts[i].id != a.id)
  {
  }

  /** After a successful registration the same email is refused as a duplicate, whatever else is supplied. */
  lemma RegisterAgainIsDuplicate(s: Store, email: string, passwordHash: string, directory: Option<CheckResult>,
                                 token: string, now: Timestamp,
                                 passwordHash2: string, directory2: Option<CheckResult>, token2: string, now2: Timestamp)
    requires Register(s, email, passwordHash, directory, token, now).result.Ok?
    ensures var s' := Register(s, email, passwordHash, directory, token, now).after;
            Register(s', email, passwordHash2, directory2, token2, now2) == Step(Err(ValueError(MsgDuplicate)), s')
  {
    var s' := Register(s, email, passwordHash, directory, token, now).after;
    assert HasEmail(email)(s'.accounts[|s.accounts|]);
  }

  /**
   * As written, a registration without `user_data` commits the row and then
   * raises; the client sees a server error, and its retry is refused as a
   * duplicate.
   */
  lemma RegisterWithoutUserDataAsWritten(s: Store, email: string, passwordHash: string,
                                         directory: Option<CheckResult>, token: string, now: Timestamp)
    requires Register(s, email, passwordHash, directory, token, now).result.Ok?
    ensures var step := RegisterAsWritten(s, email, passwordHash, directory, token, now, false);
            && step.result == Err(Crash(AttributeError))
            && step.after != s
            && RegisterAsWritten(step.after, email, passwordHash, directory, token, now, false).result
               == Err(ValueError(MsgDuplicate))
  {
    var step := Register(s, email, passwordHash, directory, token, now);
    assert |step.after.accounts| == |s.accounts| + 1;
    RegisterAgainIsDuplicate(s, email, passwordHash, directory, token, now, passwordHash, directory, token, now);
  }

  /** As written, an empty email crashes registration; intended, it is refused as not in the school. */
  lemma EmptyEmailRegistration(s: Store, passwordHash: string, feed: TeacherFeed, students: StudentSource,
                               token: string, now: Timestamp)
    requires forall i :: 0 <= i < |s.accounts| ==> s.accounts[i].email != ""
    ensures Register(s, "", passwordHash, Some(CheckUser("", feed, students)), token, now)
            == Step(Err(Crash(AttributeError)), s)
    ensures Register(s, "", passwordHash, Some(CheckUserIntended("", feed, students)), token, now)
            == Step(Err(ValueError(MsgNotInSchool)), s)
  {
  }

  /**
   * An email that is in neither directory source: as written it is refused
   * with the check-failed message, intended with the not-in-school one.
   * Either way no row is created.
   */
  lemma UnknownEmailRegistration(s: Store, email: string, passwordHash: string, entries: seq<TeacherEntry>,
                                 token: string, now: Timestamp)
    requires email != ""
    requires forall j :: 0 <= j < |entries| ==> entries[j].email.Some? && entries[j].email.value != email
    requires forall i :: 0 <= i < |s.accounts| ==> s.accounts[i].email != email
    ensures Register(s, email, passwordHash, Some(CheckUser(email, Feed(entries), NoRow)), token, now)
            == Step(Err(ValueError(MsgCheckFailed)), s)
    ensures Register(s, email, passwordHash, Some(CheckUserIntended(email, Feed(entries), NoRow)), token, now)
            == Step(Err(ValueError(MsgNotInSchool)), s)
  {
    UnknownEmailIsServerErrorAsWritten(email, entries);
    UnknownEmailIsNotFoundIntended(email, entries);
    RegisterRefusals(s, email, passwordHash, Some(CheckUser(email, Feed(entries), NoRow)), token, now);
    RegisterRefusals(s, email, passwordHash, Some(CheckUserIntended(email, Feed(entries), NoRow)), token, now);
  }

  // ---------------------------------------------------------------------------
  // verify_email

  /** No unverified row holds the token: refused with the invalid-token message, nothing changes. */
  lemma VerifyUnknownToken(s: Store, token: string, now: Timestamp)
    requires forall i :: 0 <= i < |s.accounts| ==> s.accounts[i].verificationToken != Some(token) || s.accounts[i].isVerified
    ensures Verify(s, token, now) == Step(Err(ValueError(MsgBadToken)), s)
  {
  }

  /**
   * For the row the token selects, verification is refused as expired exactly
   * when more than 24 hours have passed since the token was sent; at exactly
   * 24 hours it still succeeds. Either way the refusal changes nothing.
   */
  lemma VerifyExpiry(s: Store, token: string, now: Timestamp)
    requires First(s.accounts, PendingWithToken(token)).Some?
    requires s.accounts[First(s.accounts, PendingWithToken(token)).value].verificationSentAt.Some?
    ensures var sentAt := s.accounts[First(s.accounts, PendingWithToken(token)).value].verificationSentAt.value;
            && (Verify(s, token, now).result == Err(ValueError(MsgExpired)) <==> now > sentAt + TokenLifetime)
            && (Verify(s, token, now).result.Ok? <==> now <= sentAt + TokenLifetime)
            && (Verify(s, token, now).result.Err? ==> Verify(s, token, now).after == s)
  {
  }

  /**
   * A successful verification activates the row the token selects: active,
   * verified, verified now, token cleared; every other column of that row and
   * every other row stay as they were.
   */
  lemma VerifySuccessFrame(s: Store, token: string, now: Timestamp)
    requires Verify(s, token, now).result.Ok?
    ensures var k := First(s.accounts, PendingWithToken(token)).value;
            var a := s.accounts[k];
            var s' := Verify(s, token, now).after;
            && a.verificationToken == Some(token) && !a.isVerified
            && Verify(s, token, now).result.value == s'.accounts[k]
            && |s'.accounts| == |s.accounts| && s'.roles == s.roles && s'.nextId == s.nextId
            && s'.accounts[k].isActive && s'.accounts[k].isVerified
            && s'.accounts[k].emailVerifiedAt == Some(now) && s'.accounts[k].verificationToken.None?
            && s'.accounts[k].(isActive := a.isActive, isVerified := a.isVerified,
                               emailVerifiedAt := a.emailVerifiedAt, verificationToken := a.verificationToken) == a
            && (forall j :: 0 <= j < |s.accounts| && j != k ==> s'.accounts[j] == s.accounts[j])
  {
  }

  /**
   * A token is redeemed once: a second verification with it never touches the
   * activated row again, and fails with the invalid-token message unless
   * another unverified row happens to hold the same token.
   */
  lemma VerifyOneShot(s: Store, token: string, now: Timestamp, later: Timestamp)
    requires Verify(s, token, now).result.Ok?
    ensures var k := First(s.accounts, PendingWithToken(token)).value;
            var s' := Verify(s, token, now).after;
            && Verify(s', token, later).after.accounts[k] == s'.accounts[k]
            && ((forall j :: 0 <= j < |s.accounts| && j != k ==> !PendingWithToken(token)(s.accounts[j])) ==>
                  Verify(s', token, later) == Step(Err(ValueError(MsgBadToken)), s'))
  {
  }

  /**
   * The round trip: a token issued by a registration, and held by no other
   * unverified row, is redeemed by a verification within 24 hours, which
   * activates exactly the new row.
   */
  lemma RegisterThenVerify(s: Store, email: string, passwordHash: string, directory: Option<CheckResult>,
                           token: string, now: Timestamp, delay: nat)
    requires Register(s, email, passwordHash, directory, token, now).result.Ok?
    requires forall i :: 0 <= i < |s.accounts| ==> !PendingWithToken(token)(s.accounts[i])
    requires delay <= TokenLifetime
    ensures var a := Register(s, email, passwordHash, directory, token, now).result.value;
            var s' := Register(s, email, passwordHash, directory, token, now).after;
            && Verify(s', token, now + delay).result == Ok(Activated(a, now + delay))
            && Verify(s', token, now + delay).after.accounts == s.accounts + [Activated(a, now + delay)]
  {
    var a := Register(s, email, passwordHash, directory, token, now).result.value;
    var s' := Register(s, email, passwordHash, directory, token, now).after;
    var n := |s.accounts|;
    assert s'.accounts[n] == a && PendingWithToken(token)(s'.accounts[n]);
    assert forall i :: 0 <= i < n ==> s'.accounts[i] == s.accounts[i];
    assert First(s'.accounts, PendingWithToken(token)) == Some(n);
    assert s'.accounts[n := Activated(a, now + delay)] == s.accounts + [Activated(a, now + delay)];
  }

  // ---------------------------------------------------------------------------
  // resend_verification_email

  /**
   * Re-issuing a token is refused, with nothing changed, exactly when no
   * unverified row has the email; otherwise only that row's token and send
   * time change, and the dispatch outcome is returned.
   */
  lemma ResendFrame(s: Store, email: string, token: string, now: Timestamp, emailSent: bool)
    requires Valid(s)
    requires |token| <= TokenWidth
    ensures var step := Resend(s, email, token, now, emailSent);
            && (step.result == Err(ValueError(MsgResendRefused)) <==>
                  forall i :: 0 <= i < |s.accounts| ==> !UnverifiedWithEmail(email)(s.accounts[i]))
            && (step.result.Err? ==> step.after == s)
            && (step.result.Ok? ==> step.result.value == emailSent)
            && (step.result.Ok? <==> exists i :: 0 <= i < |s.accounts| && UnverifiedWithEmail(email)(s.accounts[i]))
    ensures var step := Resend(s, email, token, now, emailSent);
            step.result.Ok? ==>
              var k := First(s.accounts, UnverifiedWithEmail(email)).value;
              && |step.after.accounts| == |s.accounts| && step.after.roles == s.roles && step.after.nextId == s.nextId
              && step.after.accounts[k].verificationToken == Some(token)
              && step.after.accounts[k].verificationSentAt == Some(now)
              && step.after.accounts[k].(verificationToken := s.accounts[k].verificationToken,
                                         verificationSentAt := s.accounts[k].verificationSentAt) == s.accounts[k]
              && (forall j :: 0 <= j < |s.accounts| && j != k ==> step.after.accounts[j] == s.accounts[j])
  {
  }

  /**
   * As written, re-issuing never returns: it raises whenever it does not
   * refuse, and by then the new token is already committed.
   */
  lemma ResendAsWrittenNeverReturns(s: Store, email: string, token: string, now: Timestamp, emailSent: bool)
    ensures ResendAsWritten(s, email, token, now).result.Err?
    ensures Resend(s, email, token, now, emailSent).result.Ok? ==>
              && ResendAsWritten(s, email, token, now).result == Err(Crash(TypeError))
              && ResendAsWritten(s, email, token, now).after == Resend(s, email, token, now, emailSent).after
  {
  }

  // ---------------------------------------------------------------------------
  // The lifecycle rule

  /** Registration, verification and re-issue keep every active row verified. */
  lemma LifecycleKeepsActiveVerified(s: Store, email: string, passwordHash: string, directory: Option<CheckResult>,
                                     token: string, now: Timestamp, emailSent: bool)
    requires ActiveImpliesVerified(s.accounts)
    ensures ActiveImpliesVerified(Register(s, email, passwordHash, directory, token, now).after.accounts)
    ensures ActiveImpliesVerified(Verify(s, token, now).after.accounts)
    ensures ActiveImpliesVerified(Resend(s, email, token, now, emailSent).after.accounts)
  {
  }
}
