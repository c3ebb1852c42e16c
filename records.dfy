/** The data model of the e-learning backend: the three persisted entities
    (User, Course, Lecture), the ids that link them, and the shape of an HTTP
    reply (status code plus message tag). */
module Records {

  /** A document id. MongoDB ObjectIds are opaque and unique; naturals drawn
      from a counter play that part here. */
  type Id = nat

  /** A storage path of an uploaded file (multer's `req.file.path`). */
  type Path = string

  datatype Option<+T> = None | Some(value: T)

  datatype Result<+T, +E> = Ok(value: T) | Err(error: E)

  /** A bcrypt digest as stored in `User.password`. Only `Crypto.Hash` makes one. */
  datatype Digest = Digest(source: string)

  /** The role strings the handlers compare against. */
  const USER_ROLE := "user"
  const ADMIN_ROLE := "admin"
  const SUPERADMIN := "superadmin"

  /** A persisted user. `role` is the mutable user/admin role; `mainrole` is
      the fixed designation that only the role-update endpoint consults;
      `resetPasswordExpire` is the reset window's closing time. */
  datatype User = User(
    id: Id,
    name: string,
    email: string,
    password: Digest,
    role: string,
    mainrole: string,
    subscription: seq<Id>,
    resetPasswordExpire: Expiry)

  /** The stored reset window: never set (the field is `undefined`, as on a
      new user), cleared to `null` after a reset, or a closing time in
      milliseconds. */
  datatype Expiry = Unset | Cleared | At(ms: int)

  /** The fields of a user who has registered but not yet confirmed the OTP:
      they travel inside the activation token, never in the store. */
  datatype PendingUser = PendingUser(name: string, email: string, password: Digest)

  datatype Course = Course(
    id: Id,
    title: string,
    description: string,
    createdBy: string,
    image: Option<Path>,
    duration: int,
    price: int,
    category: string)

  datatype Lecture = Lecture(
    id: Id,
    title: string,
    description: string,
    video: Option<Path>,
    course: Id)

  /** A value of a JSON request body field, kept apart by JavaScript type so
      that a strict comparison (`!==`) can be modelled. */
  datatype BodyValue = Num(n: int) | Text(s: string) | Absent

  /** Why an uncaught exception reached the TryCatch wrapper. */
  datatype Fault =
    | TokenRejected      // jsonwebtoken threw (malformed, bad signature, expired)
    | DuplicateKey       // the unique email index refused an insert
    | NullRecord         // a property was read off a `null` query result
    | MailFailed         // the mail collaborator threw

  /** The `message` field of a JSON reply, one tag per distinct source string. */
  datatype Message =
    | UserAlreadyExists
    | ErrorSendingVerificationEmail
    | OtpSent
    | WrongOtp
    | UserRegistered
    | NoUserWithEmail           // "No User with this email" (login, forgot)
    | WrongPassword
    | WelcomeBack(name: string)
    | ResetLinkSent
    | NoUserWithEmailOnReset    // "No user with this email" (reset)
    | TokenExpiredMessage
    | PasswordReset
    | CourseCreated
    | NoCourseWithId
    | LectureAdded
    | LectureNotFound
    | LectureDeleted
    | CourseNotFound
    | CourseDeleted
    | SuperadminOnly
    | RoleUpdatedToAdmin
    | RoleUpdated
    | PleaseLogin
    | UserNotFound
    | AuthenticationFailed
    | NotAdmin
    | AdminVerificationFailed
    | ServerError(fault: Fault) // the TryCatch wrapper's 500 reply
    | NoMessage                 // a reply that carries only data

  datatype Reply = Reply(status: int, message: Message)

  /** What a middleware does with a request: hand it to the next handler, or
      answer it itself. */
  datatype Outcome = Next | Respond(reply: Reply)
}
