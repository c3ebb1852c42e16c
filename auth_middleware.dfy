/** The two gates in front of protected routes. isAuth turns the request's
    session token into the stored user and attaches it to the request;
    isAdmin lets through only a request whose attached user has role "admin". */
module AuthMiddleware {
  import opened Records
  import opened Tokens
  import opened Persistence

  /** The parts of an Express request the gates use. */
  class Request {
    /** The `token` header; None when it is missing or empty. */
    const token: Option<Token>
    /** `req.user`, set by isAuth. */
    var user: Option<User>

    constructor (token: Option<Token>)
      ensures this.token == token && user == None
    {
      this.token := token;
      user := None;
    }
  }

  /** isAuth: no token is a 403; a token that fails verification is a 500
      (the catch block), not a 403; a token whose id has no user is a 403;
      otherwise `req.user` becomes that user's record and the request goes on
      to the next handler (Next), which happens on this path only. */
  method IsAuth(db: Store, req: Request, now: int) returns (outcome: Outcome)
    modifies req
    ensures req.token.None? ==>
      outcome == Respond(Reply(403, PleaseLogin)) && unchanged(req)
    ensures req.token.Some? && Verify(req.token.value, SessionSecret, now).Err? ==>
      outcome == Respond(Reply(500, AuthenticationFailed)) && unchanged(req)
    ensures req.token.Some? && Verify(req.token.value, SessionSecret, now).Ok? ==>
      var id := Verify(req.token.value, SessionSecret, now).value.id;
      && (id !in db.users ==> outcome == Respond(Reply(403, UserNotFound)) && unchanged(req))
      && (id in db.users ==> outcome == Next && req.user == Some(db.users[id]))
  {
    if req.token.None? {
      return Respond(Reply(403, PleaseLogin));
    }
    var decoded := Verify(req.token.value, SessionSecret, now);
    if decoded.Err? {
      return Respond(Reply(500, AuthenticationFailed));
    }
    var found := Lookup(db.users, decoded.value.id);
    if found.None? {
      return Respond(Reply(403, UserNotFound));
    }
    req.user := found;
    outcome := Next;
  }

  /** isAdmin: goes on exactly when the attached user's role is "admin"
      (mainrole plays no part); a user of any other role gets a 403, and a
      request that never passed isAuth fails reading `req.user.role` (500). */
  function IsAdmin(user: Option<User>): (outcome: Outcome)
    ensures outcome == Next <==> user.Some? && user.value.role == ADMIN_ROLE
    ensures user.Some? && user.value.role != ADMIN_ROLE ==> outcome == Respond(Reply(403, NotAdmin))
    ensures user.None? ==> outcome == Respond(Reply(500, AdminVerificationFailed))
  {
    if user.None? then Respond(Reply(500, AdminVerificationFailed))
    else if user.value.role != ADMIN_ROLE then Respond(Reply(403, NotAdmin))
    else Next
  }
}
