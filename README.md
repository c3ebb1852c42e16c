# E-learning backend: request-handler decision logic in Dafny

This project models the decision logic of the e-learning platform's request
handlers: the user account flow (register, verifyUser, loginUser, myProfile,
forgotPassword, resetPassword), the admin operations (createCourse,
addLectures, deleteLecture, deleteCourse, getAllStats, getAllUser,
updateRole) and the two auth gates (isAuth, isAdmin).

The persistence layer is an in-memory `Store` class holding the User, Course
and Lecture collections as maps from id to record. It offers the Mongoose
operations the handlers use. Each handler is a method over the store that
returns the reply it sends, a status code plus a message tag. Handlers that
change the store say in `modifies`/`ensures` exactly what the new store is.
Handlers that only read it have no `modifies` clause, so they provably leave
it unchanged.

Libraries are abstract:

- bcrypt is `Crypto.Hash`, a digest determined by its password, and
  `Crypto.Matches`, which accepts a password exactly when the digest is its
  hash.
- A JWT is `Tokens.Token`: either a token this server signed, holding its
  claims and expiry second, or a malformed one. `Tokens.Verify` returns the
  claims or the error jsonwebtoken throws. Each claim kind has its own secret
  (activation, session, reset), so a token verifies only under the secret of
  its claims.
- Mail delivery is a boolean input, `mailOk`, saying whether the mail
  collaborator succeeded. The mail handed to it is returned so that contracts
  can talk about it.
- `Date.now()` is the input `now`, in milliseconds. `Math.random()` is the
  input `random`, in [0, 1).
- The upload directory is `Files.Disk`, a set of paths, with `fs.unlink` as
  `Disk.Unlink`.

An exception that the TryCatch wrapper turns into an error reply is modelled
as a reply with status 500 and message `ServerError(fault)`. This covers a
token that fails `jwt.verify`, a duplicate key, reading a field off a `null`
query result, and a mail that throws.

Behaviour kept as the code has it:

- verifyUser compares OTPs with strict `!==` (controllers/user.js:77). The
  request's OTP is a `BodyValue`, so an OTP sent as a string never equals the
  token's numeric OTP.
- resetPassword rejects only an expiry that is `null` or strictly less than
  `now` (controllers/user.js:162-170). A window that closes exactly at `now`
  still admits the reset. An expiry that was never set (`undefined`, as on
  every new user) passes both checks, since `undefined === null` and
  `undefined < now` are both false. The stored expiry is therefore
  `Unset`, `Cleared` (null) or `At(ms)`, and `Unset` admits the reset.
- isAuth answers a token that fails verification with 500 from its catch
  block, not 403 (middlewares/isAuth.js:29-34).
- updateRole by a superadmin on a user whose role is neither "user" nor
  "admin" changes nothing and sends no reply at all
  (controllers/admin.js:147-164). `UpdateRole` returns `None` in that case.
  The request is left hanging. This is kept as written and not repaired.
- updateRole on an unknown target id reads `role` off `null`, so the wrapper
  answers 500.
- verifyUser's `if (!verify)` branch, which answers 400 "Otp Expired"
  (controllers/user.js:72-75), cannot be reached. `jwt.verify` returns a
  payload object or throws. An expired activation token is therefore a 500,
  not a 400, and the model has no 400 path there.
- forgotPassword signs the reset token and hands it to the mailer before it
  stamps the reset window (controllers/user.js:137-145). `sendForgotMail` is
  not wrapped in a try block, so a failing mail is a 500 and nothing is
  saved, although the never-expiring token was already issued. For a user
  whose window was never set, that token still resets the password
  (`Scenarios.ResetWithoutWindow`).
- The user schema's unique index on `email` is modelled. A second
  `User.create` with a known email fails, and the wrapper answers 500. That
  is what replaying an activation token does. The schema file,
  models/User.js, is not part of this model. The defaults given to a new user
  (role and mainrole "user", an empty subscription list, a reset expiry never set) are
  taken to be the schema's.

The store invariant `Store.Valid()` says three things. Record ids match their
keys. Ids lie below the allocation counter, so new records get fresh ids. No
two users share an email. Every handler preserves it. The referential
invariant `LecturesHaveCourses` (every lecture's course exists) is preserved
by every admin handler; deleteCourse keeps it by cascading.

## Model

| member | source | states |
|---|---|---|
| Crypto.Hash | controllers/user.js:21 | the digest of a password is determined by that password and records it, so distinct passwords give distinct digests |
| Crypto.Matches | controllers/user.js:103 | `bcrypt.compare` succeeds exactly when the digest was made from the given password |
| Crypto.Otp | controllers/user.js:30 | the OTP drawn from a value of `Math.random()` lies in 0..999999 |
| Crypto.MatchesOnlyOrigin | controllers/user.js:103 | `bcrypt.compare` against `Hash(p)` succeeds exactly for the password `p` |
| Tokens.Verify | controllers/user.js:70 | a verified token is one this server signed, and its claims belong to the secret it was checked with |
| Tokens.Sign | controllers/user.js:33-42 | a signed token verifies to its claims under its own secret until the expiry second, is expired from that second on, never verifies under another secret, and without a lifetime never expires |
| Persistence.Lookup | controllers/admin.js:30 | `findById` finds a record exactly when the id is stored, and then returns the stored record |
| Persistence.Pull | controllers/admin.js:109 | `$pull` on one list removes every occurrence of the id and keeps every other entry with its multiplicity |
| Persistence.PullAppend | controllers/admin.js:109 | `$pull` distributes over concatenation, so the kept entries keep their order |
| Persistence.PullAbsent | controllers/admin.js:109 | `$pull` of an id not in the list leaves the list as it was |
| Persistence.PullIdempotent | controllers/admin.js:109 | pulling the same id twice equals pulling it once |
| Persistence.WithoutLecturesOf | controllers/admin.js:103 | `deleteMany({course: c})` keeps exactly the lectures of other courses, unchanged |
| Persistence.PullFromAll | controllers/admin.js:109 | after `updateMany` with `$pull`, every user remains; no subscription list holds the id; every other field is unchanged |
| Persistence.Others | controllers/admin.js:133-135 | the query `_id $ne me` yields every user except `me`, unchanged |
| Persistence.Store.FindUserByEmail | controllers/user.js:11 | `findOne({email})` finds a user exactly when one has that email, and returns that stored record |
| Persistence.Store.CreateUser | controllers/user.js:82-86 | `User.create` refuses a known email (duplicate key) and changes nothing; otherwise it adds exactly one user under a fresh id with the given name, email and digest |
| Persistence.Store.SaveUser | controllers/user.js:173-179 | `user.save()` replaces exactly that user's record and keeps the invariant |
| Persistence.Store.CreateCourse | controllers/admin.js:14-22 | `Courses.create` adds exactly one course under a fresh id |
| Persistence.Store.CreateLecture | controllers/admin.js:41-46 | `Lecture.create` adds exactly one lecture under a fresh id |
| Persistence.Store.DeleteLecture | controllers/admin.js:69 | `deleteOne` removes that lecture and nothing else |
| Persistence.Store.DeleteLecturesOf | controllers/admin.js:103 | `deleteMany` removes exactly the lectures of the course |
| Persistence.Store.DeleteCourse | controllers/admin.js:106 | `deleteOne` removes that course and nothing else |
| Persistence.Store.PullSubscription | controllers/admin.js:109 | `updateMany` with `$pull` rewrites the users as `PullFromAll` and nothing else |
| Files.Disk.Unlink | controllers/admin.js:62-67 | unlink succeeds exactly when the path is given and the file exists, and then removes only that file |
| UserController.Register | controllers/user.js:7-65 | a known email is a 400 with no token or mail; otherwise the OTP mail goes to the email with an OTP in 0..999999. If the mail fails: 500 and no token. If it succeeds: 200 and an activation token that verifies for five minutes to the name, email, `Hash(password)` and that OTP, and is expired after. The store is never written |
| UserController.VerifyUser | controllers/user.js:67-91 | a token failing verification is a 500; an OTP not strictly equal to the token's is a 400; both create nothing. A matching OTP adds exactly one user with the token's name, email and digest, unless the email is taken (500, nothing created) |
| UserController.LoginUser | controllers/user.js:93-119 | an unknown email or a non-matching password is a 400 with no token and no user; otherwise 200 with the stored user and a session token that verifies to that user's id under the session secret until fifteen days after the login second and is expired from then on |
| UserController.MyProfile | controllers/user.js:121-125 | returns the caller's stored record, or null when it is gone |
| UserController.ForgotPassword | controllers/user.js:127-150 | an unknown email is a 404 and changes nothing. Otherwise a reset token for the email, valid at every time, is mailed. A failing mail is a 500 that changes nothing. On success only that user's expiry changes, to now + 300000 |
| UserController.ResetOpen | controllers/user.js:162-171 | the stored window admits a reset at `now` exactly when it is not null and not strictly before `now`: a never-set window admits it, and so does one closing exactly at `now` |
| UserController.ResetPassword | controllers/user.js:152-182 | a failing token is a 500; an unknown email is a 404. A window `ResetOpen` refuses is a 400 that changes nothing. Otherwise only that user changes: the password becomes `Hash(new)` and the expiry null |
| AdminController.CreateCourse | controllers/admin.js:9-27 | 201, and exactly one new course under a fresh id with the form fields and the file path; users and lectures unchanged |
| AdminController.AddLectures | controllers/admin.js:29-52 | an unknown course is a 404 that creates nothing; otherwise 201 and one new lecture whose course is that id, returned |
| AdminController.DeleteLecture | controllers/admin.js:56-72 | an unknown id is a 404 that changes nothing; otherwise the lecture record goes whether or not its file existed, its file goes if present, and nothing else changes |
| AdminController.DeleteCourse | controllers/admin.js:74-114 | an unknown id is a 404. Otherwise the course goes, and exactly its lectures go; other lectures are untouched. Every user loses the id from its subscriptions and keeps everything else. Exactly the course's video files and image go from disk, whichever existed. Lecture integrity is preserved |
| AdminController.GetAllStats | controllers/admin.js:116-130 | the three counts are exactly the sizes of the course, lecture and user collections |
| AdminController.GetAllUser | controllers/admin.js:132-138 | every stored user except the caller, unchanged, and no one else |
| AdminController.FlipRole | controllers/admin.js:147-163 | "user" turns into "admin" and only it; "admin" turns into "user" and only it; every other role has no successor |
| AdminController.UpdateRole | controllers/admin.js:140-164 | a caller whose mainrole is not "superadmin" gets a 403 and nothing changes; an unknown target is a 500. A "user"/"admin" target has its role toggled and no one else changes. Any other role: no change and no reply |
| AuthMiddleware.IsAuth | middlewares/isAuth.js:4-36 | no token is a 403; a token failing verification is a 500; a token whose id has no user is a 403. These three leave `req.user` alone and do not continue. Otherwise `req.user` is that stored user and the request continues |
| AuthMiddleware.IsAdmin | middlewares/isAuth.js:38-55 | continues exactly when the attached user's role is "admin", which ignores mainrole; any other role is a 403; no attached user is a 500 |
| Scenarios.SignUpAndLogIn | controllers/user.js:7-119 | register, then verifyUser with the mailed OTP within five minutes, then login with the same password: 200 and a session token for the new user, whose digest is `Hash(password)`. Replaying the activation token is a 500 |
| Scenarios.ResetAndLogIn | controllers/user.js:127-182 | forgotPassword, then resetPassword with the mailed token no later than five minutes on: the new password logs in and the expiry is null. Replaying the reset token is a 400 |
| Scenarios.ResetWithoutWindow | controllers/user.js:127-182 | forgotPassword whose mail throws is a 500 and stamps nothing, yet for a user whose window was never set the token it issued resets the password: 200, the new digest stored and the expiry null |

## Left out

- Salted hashing: `Crypto.Hash` is a function of the password, so bcrypt's salt and cost factor are not modelled. The model assumes the hash is collision-free.
- JWT cryptography, the secrets and `process.env`: each claim kind is tied to its own secret by construction. A validly signed token whose claims do not match its secret cannot be expressed. jsonwebtoken's `nbf`, `iat`/`maxAge` and clock tolerance are not modelled.
- Mail delivery (`sendMail`, `sendForgotMail`): external I/O, reduced to the success flag `mailOk` and the mail handed over.
- AdminController.DeleteCourse: the `Promise.all` fan-out of file deletions is concurrent, and the model runs it as a sequential loop over the course's lectures. The loop's result, a set difference, does not depend on order.
- Logging (`console.log`/`console.error`), Express routing and the `req`/`res`/`next` plumbing are left out. A reply is returned instead of written. `next()` is the `Next` outcome.
- The TryCatch wrapper's reply body is not modelled. Its source is not part of this model. Each fault is a 500 with a `ServerError` tag.
- Mongoose behaviour beyond the maps is left out: schema validation of required fields, casting form strings to numbers, and `CastError` on a malformed id (a `findById` on a non-ObjectId string throws). Ids are naturals here.
- AdminController.GetAllUser: the `.select("-password")` projection is not modelled, so the returned records still hold their digest.
- Crypto.Otp: the source multiplies `Math.random()` by 1000000 in double-precision floating point; the model takes the exact real product. Both floors lie in 0..999999, but near an integer boundary a rounded product can floor to a different OTP than the exact one.
- How the stored expiry compares against `Date.now()` is taken as a comparison of milliseconds. Mongoose casting of the field to a `Date` is not modelled.
- The `Welcome back ${name}` message is the tag `WelcomeBack(name)`; message strings are tags, not text.
- Concurrency between requests is left out. Each handler runs alone against the store.
