/** Two account flows run end to end through the handlers, proving from
    their contracts alone that the steps fit together: a registration
    confirmed in time with the mailed OTP yields a user who can log in with
    the registered password, and a reset requested by mail and completed
    before the window closes makes the new password the one that logs in.
    Replaying the activation token fails on the unique email index, and
    replaying the reset token fails because the reset window was cleared. */
module Scenarios {
  import opened Records
  import opened Crypto
  import opened Tokens
  import opened Persistence
  import opened UserController

  /** register, then verifyUser with the mailed OTP at `later`, then
      loginUser with the registered password. */
  method SignUpAndLogIn(db: Store, name: string, email: string, password: string,
                        random: real, now: int, later: int)
    returns (loggedIn: Reply, session: Option<Token>, replayed: Reply)
    requires db.Valid()
    requires 0.0 <= random < 1.0
    requires !HasEmail(db.users, email)
    requires Seconds(now) <= Seconds(later) < Seconds(now) + ACTIVATION_LIFETIME
    modifies db
    ensures db.Valid()
    ensures loggedIn == Reply(200, WelcomeBack(name))
    ensures replayed == Reply(500, ServerError(DuplicateKey))
    ensures session.Some?
    ensures exists id :: (id in db.users && db.users[id].email == email &&
      db.users[id].password == Hash(password) &&
      Verify(session.value, SessionSecret, later) == Ok(Session(id)))
  {
    var reply, token, mail := Register(db, name, email, password, random, now, true);
    var otp := mail.value.otp;
    ghost var id := db.nextId;
    var confirmed := VerifyUser(db, Num(otp), token.value, later);
    assert id in db.users && db.users[id].email == email;
    MatchesOnlyOrigin(password, password);
    var user;
    loggedIn, session, user := LoginUser(db, email, password, later);
    replayed := VerifyUser(db, Num(otp), token.value, later);
  }

  /** forgotPassword at `now`, then resetPassword with the mailed token at
      `later`, no more than five minutes on (the last millisecond included),
      then loginUser with the new password. */
  method ResetAndLogIn(db: Store, email: string, newPassword: string, now: int, later: int)
    returns (loggedIn: Reply, replayed: Reply)
    requires db.Valid()
    requires HasEmail(db.users, email)
    requires later <= now + RESET_WINDOW_MS
    modifies db
    ensures db.Valid()
    ensures loggedIn.status == 200
    ensures replayed == Reply(400, TokenExpiredMessage)
    ensures exists id :: (id in db.users && db.users[id].email == email &&
      db.users[id].password == Hash(newPassword) && db.users[id].resetPasswordExpire == Cleared)
  {
    ghost var id :| id in db.users && db.users[id].email == email;
    var sent, mail := ForgotPassword(db, email, now, true);
    assert id in db.users && db.users[id].email == email;
    assert db.users[id].resetPasswordExpire == At(now + RESET_WINDOW_MS);
    var reset := ResetPassword(db, mail.value.token, newPassword, later);
    assert reset == Reply(200, PasswordReset);
    assert id in db.users && db.users[id].email == email;
    assert db.users[id].password == Hash(newPassword);
    MatchesOnlyOrigin(newPassword, newPassword);
    var session, user;
    loggedIn, session, user := LoginUser(db, email, newPassword, later);
    replayed := ResetPassword(db, mail.value.token, newPassword, later);
  }

  /** forgotPassword at `now` whose mail throws, then resetPassword with the
      token that was signed and handed to the mailer before the throw, for a
      user whose reset window was never set: the window is never stamped, yet
      the reset succeeds, because an unset window passes both of
      resetPassword's checks. */
  method ResetWithoutWindow(db: Store, email: string, newPassword: string, now: int, later: int)
    returns (requested: Reply, reset: Reply)
    requires db.Valid()
    requires exists id :: (id in db.users && db.users[id].email == email &&
      db.users[id].resetPasswordExpire == Unset)
    modifies db
    ensures db.Valid()
    ensures requested == Reply(500, ServerError(MailFailed))
    ensures reset == Reply(200, PasswordReset)
    ensures exists id :: (id in db.users && db.users[id].email == email &&
      db.users[id].password == Hash(newPassword) && db.users[id].resetPasswordExpire == Cleared)
  {
    ghost var id :| id in db.users && db.users[id].email == email && db.users[id].resetPasswordExpire == Unset;
    var mail;
    requested, mail := ForgotPassword(db, email, now, false);
    reset := ResetPassword(db, mail.value.token, newPassword, later);
    assert id in db.users && db.users[id].email == email;
  }
}
