/** The user account handlers: register, verifyUser, loginUser, myProfile,
    forgotPassword and resetPassword. Each takes the request's inputs, the
    store, the clock reading `now` (milliseconds, `Date.now()`) and, where
    mail is sent, whether the mail collaborator succeeded; each returns the
    reply it sends. An exception that the TryCatch wrapper turns into a 500
    reply is a `ServerError` reply here. */
module UserController {
  import opened Records
  import opened Crypto
  import opened Tokens
  import opened Persistence

  const MAIL_SUBJECT := "E learning"

  /** How long a password reset stays open: `5 * 60 * 1000` ms. */
  const RESET_WINDOW_MS := 5 * 60 * 1000

  /** A mail handed to the mail collaborator. */
  datatype Mail =
    | OtpMail(to: string, subject: string, name: string, otp: int)  // sendMail(email, subject, { name, otp })
    | ResetMail(subject: string, email: string, token: Token)      // sendForgotMail(subject, { email, token })

  /** The activation token register issues for a pending user and an OTP. */
  function ActivationToken(p: PendingUser, otp: int, now: int): Token
  {
    Sign(Activation(p, otp), now, Some(ACTIVATION_LIFETIME))
  }

  /** register: refuses a known email; otherwise hashes the password, draws
      the OTP and mails it, and answers with the activation token that
      carries the pending user and the OTP. It writes nothing to the store:
      the pending registration lives only in the token. */
  method Register(db: Store, name: string, email: string, password: string,
                  random: real, now: int, mailOk: bool)
    returns (reply: Reply, activationToken: Option<Token>, mail: Option<Mail>)
    requires db.Valid()
    requires 0.0 <= random < 1.0
    ensures HasEmail(db.users, email) ==>
      reply == Reply(400, UserAlreadyExists) && activationToken == None && mail == None
    ensures !HasEmail(db.users, email) ==>
      && mail == Some(OtpMail(email, MAIL_SUBJECT, name, Otp(random)))
      && 0 <= mail.value.otp <= 999999
      && (mailOk ==>
            && reply == Reply(200, OtpSent)
            && activationToken.Some?
            && (forall later :: Seconds(later) < Seconds(now) + ACTIVATION_LIFETIME ==>
                  Verify(activationToken.value, ActivationSecret, later)
                  == Ok(Activation(PendingUser(name, email, Hash(password)), mail.value.otp)))
            && (forall later :: Seconds(later) >= Seconds(now) + ACTIVATION_LIFETIME ==>
                  Verify(activationToken.value, ActivationSecret, later) == Err(JwtExpired)))
      && (!mailOk ==> reply == Reply(500, ErrorSendingVerificationEmail) && activationToken == None)
  {
    var existing := db.FindUserByEmail(email);
    if existing.Some? {
      return Reply(400, UserAlreadyExists), None, None;
    }
    var pending := PendingUser(name, email, Hash(password));
    var otp := Otp(random);
    var token := ActivationToken(pending, otp, now);
    mail := Some(OtpMail(email, MAIL_SUBJECT, name, otp));
    if !mailOk {
      return Reply(500, ErrorSendingVerificationEmail), None, mail;
    }
    reply, activationToken := Reply(200, OtpSent), Some(token);
  }

  /** verifyUser: a token that fails verification (malformed, foreign,
      expired) is a 500; an OTP that is not strictly equal to the token's is a
      400; otherwise the user in the token is created, unless the unique
      email index refuses it. */
  method VerifyUser(db: Store, otp: BodyValue, activationToken: Token, now: int)
    returns (reply: Reply)
    requires db.Valid()
    modifies db
    ensures db.Valid()
    ensures Verify(activationToken, ActivationSecret, now).Err? ==>
      reply == Reply(500, ServerError(TokenRejected)) && unchanged(db)
    ensures Verify(activationToken, ActivationSecret, now).Ok? ==>
      var claims := Verify(activationToken, ActivationSecret, now).value;
      && claims.Activation?
      && (otp != Num(claims.otp) ==> reply == Reply(400, WrongOtp) && unchanged(db))
      && (otp == Num(claims.otp) && HasEmail(old(db.users), claims.user.email) ==>
            reply == Reply(500, ServerError(DuplicateKey)) && unchanged(db))
      && (otp == Num(claims.otp) && !HasEmail(old(db.users), claims.user.email) ==>
            && reply == Reply(200, UserRegistered)
            && old(db.nextId) !in old(db.users)
            && db.users == old(db.users)[old(db.nextId) :=
                 User(old(db.nextId), claims.user.name, claims.user.email, claims.user.password,
                      USER_ROLE, USER_ROLE, [], Unset)]
            && db.courses == old(db.courses) && db.lectures == old(db.lectures))
  {
    var verified := Verify(activationToken, ActivationSecret, now);
    if verified.Err? {
      return Reply(500, ServerError(TokenRejected));
    }
    var claims := verified.value;
    if otp != Num(claims.otp) {
      return Reply(400, WrongOtp);
    }
    var created := db.CreateUser(claims.user);
    if created.Err? {
      return Reply(500, ServerError(created.error));
    }
    reply := Reply(200, UserRegistered);
  }

  /** loginUser: an unknown email or a password that does not match the
      stored digest is a 400 with no token; otherwise a session token for the
      user's id and the user record (password digest included). */
  method LoginUser(db: Store, email: string, password: string, now: int)
    returns (reply: Reply, token: Option<Token>, user: Option<User>)
    requires db.Valid()
    ensures !HasEmail(db.users, email) ==>
      reply == Reply(400, NoUserWithEmail) && token == None && user == None
    ensures HasEmail(db.users, email) ==>
      exists id :: id in db.users && db.users[id].email == email &&
        if Matches(password, db.users[id].password) then
          && reply == Reply(200, WelcomeBack(db.users[id].name))
          && user == Some(db.users[id])
          && token.Some?
          && (forall later :: Seconds(later) < Seconds(now) + SESSION_LIFETIME ==>
                Verify(token.value, SessionSecret, later) == Ok(Session(id)))
          && (forall later :: Seconds(later) >= Seconds(now) + SESSION_LIFETIME ==>
                Verify(token.value, SessionSecret, later) == Err(JwtExpired))
        else
          reply == Reply(400, WrongPassword) && token == None && user == None
  {
    var found := db.FindUserByEmail(email);
    if found.None? {
      return Reply(400, NoUserWithEmail), None, None;
    }
    var u := found.value;
    if !Matches(password, u.password) {
      return Reply(400, WrongPassword), None, None;
    }
    token := Some(Sign(Session(u.id), now, Some(SESSION_LIFETIME)));
    reply, user := Reply(200, WelcomeBack(u.name)), Some(u);
  }

  /** myProfile: the stored record of the authenticated caller, or null when
      it is no longer there. */
  method MyProfile(db: Store, caller: User) returns (reply: Reply, user: Option<User>)
    ensures reply == Reply(200, NoMessage)
    ensures user.Some? <==> caller.id in db.users
    ensures user.Some? ==> user.value == db.users[caller.id]
  {
    reply, user := Reply(200, NoMessage), Lookup(db.users, caller.id);
  }

  /** forgotPassword: an unknown email is a 404; otherwise a non-expiring
      reset token for the email is mailed, and only once the mail has gone
      out is the user's reset window stamped to close five minutes from
      now. A failing mail throws, so nothing is stamped. */
  method ForgotPassword(db: Store, email: string, now: int, mailOk: bool)
    returns (reply: Reply, mail: Option<Mail>)
    requires db.Valid()
    modifies db
    ensures db.Valid()
    ensures !HasEmail(old(db.users), email) ==>
      reply == Reply(404, NoUserWithEmail) && mail == None && unchanged(db)
    ensures HasEmail(old(db.users), email) ==>
      && mail.Some? && mail.value.ResetMail? && mail.value.email == email
      && (forall later :: Verify(mail.value.token, ForgotSecret, later) == Ok(ResetRequest(email)))
      && (!mailOk ==> reply == Reply(500, ServerError(MailFailed)) && unchanged(db))
      && (mailOk ==>
            && reply == Reply(200, ResetLinkSent)
            && (exists id :: id in old(db.users) && old(db.users)[id].email == email &&
                  db.users == old(db.users)[id := old(db.users)[id].(resetPasswordExpire := At(now + RESET_WINDOW_MS))])
            && db.courses == old(db.courses) && db.lectures == old(db.lectures))
  {
    var found := db.FindUserByEmail(email);
    if found.None? {
      return Reply(404, NoUserWithEmail), None;
    }
    var token := Sign(ResetRequest(email), now, None);
    mail := Some(ResetMail(MAIL_SUBJECT, email, token));
    if !mailOk {
      return Reply(500, ServerError(MailFailed)), mail;
    }
    var u := found.value;
    db.SaveUser(u.(resetPasswordExpire := At(now + RESET_WINDOW_MS)));
    reply := Reply(200, ResetLinkSent);
  }

  /** Whether a stored reset window admits a reset at `now`. Only a window
      cleared to `null` or closed strictly before `now` is refused: a window
      closing exactly at `now` admits the reset, and so does one that was
      never set, since `undefined < now` is false. */
  function ResetOpen(expire: Expiry, now: int): (open: bool)
    ensures open <==> expire != Cleared && !(expire.At? && expire.ms < now)
  {
    match expire
    case Unset => true
    case Cleared => false
    case At(ms) => now <= ms
  }

  /** resetPassword: a token that fails verification is a 500; an email no
      user has is a 404; a reset window that is null or closed before `now` is
      a 400 and changes nothing; otherwise the password becomes the digest of
      the new one and the window is cleared. */
  method ResetPassword(db: Store, token: Token, newPassword: string, now: int)
    returns (reply: Reply)
    requires db.Valid()
    modifies db
    ensures db.Valid()
    ensures Verify(token, ForgotSecret, now).Err? ==>
      reply == Reply(500, ServerError(TokenRejected)) && unchanged(db)
    ensures Verify(token, ForgotSecret, now).Ok? ==>
      var email := Verify(token, ForgotSecret, now).value.email;
      && (!HasEmail(old(db.users), email) ==>
            reply == Reply(404, NoUserWithEmailOnReset) && unchanged(db))
      && (HasEmail(old(db.users), email) ==>
            exists id :: id in old(db.users) && old(db.users)[id].email == email &&
              if ResetOpen(old(db.users)[id].resetPasswordExpire, now) then
                && reply == Reply(200, PasswordReset)
                && db.users == old(db.users)[id := old(db.users)[id].(password := Hash(newPassword),
                                                                     resetPasswordExpire := Cleared)]
                && db.courses == old(db.courses) && db.lectures == old(db.lectures)
              else
                reply == Reply(400, TokenExpiredMessage) && unchanged(db))
  {
    var verified := Verify(token, ForgotSecret, now);
    if verified.Err? {
      return Reply(500, ServerError(TokenRejected));
    }
    var found := db.FindUserByEmail(verified.value.email);
    if found.None? {
      return Reply(404, NoUserWithEmailOnReset);
    }
    var u := found.value;
    if u.resetPasswordExpire.Cleared? {
      return Reply(400, TokenExpiredMessage);
    }
    if u.resetPasswordExpire.At? && u.resetPasswordExpire.ms < now {
      return Reply(400, TokenExpiredMessage);
    }
    db.SaveUser(u.(password := Hash(newPassword), resetPasswordExpire := Cleared));
    reply := Reply(200, PasswordReset);
  }
}
