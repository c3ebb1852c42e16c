/** The admin handlers: createCourse, addLectures, deleteLecture,
    deleteCourse, getAllStats, getAllUser and updateRole. File removal goes
    through the upload directory `Disk`; its failures are logged and ignored,
    so the record deletions happen whether or not the files were there. */
module AdminController {
  import opened Records
  import opened Persistence
  import opened Files

  /** The `stats` payload, with the source's field names. */
  datatype Stats = Stats(totalCoures: nat, totalLectures: nat, totalUsers: nat)

  /** The video paths of the lectures among `ids`. */
  ghost function Videos(lectures: map<Id, Lecture>, ids: set<Id>): set<Path>
  {
    set l | l in ids && l in lectures && lectures[l].video.Some? :: lectures[l].video.value
  }

  /** The ids of the lectures that belong to course `c`. */
  ghost function LecturesOf(lectures: map<Id, Lecture>, c: Id): set<Id>
  {
    set l | l in lectures && lectures[l].course == c
  }

  function PathSet(p: Option<Path>): set<Path>
  {
    if p.Some? then {p.value} else {}
  }

  /** createCourse: one new course, under a fresh id, with the form fields and
      the uploaded file's path; nothing else changes. */
  method CreateCourse(db: Store, title: string, description: string, createdBy: string,
                      image: Option<Path>, duration: int, price: int, category: string)
    returns (reply: Reply)
    requires db.Valid()
    modifies db
    ensures db.Valid()
    ensures reply == Reply(201, CourseCreated)
    ensures old(db.nextId) !in old(db.courses)
    ensures db.courses == old(db.courses)[old(db.nextId) :=
      Course(old(db.nextId), title, description, createdBy, image, duration, price, category)]
    ensures db.users == old(db.users) && db.lectures == old(db.lectures)
    ensures LecturesHaveCourses(old(db.courses), old(db.lectures)) ==>
      LecturesHaveCourses(db.courses, db.lectures)
  {
    var c := db.CreateCourse(title, description, createdBy, image, duration, price, category);
    reply := Reply(201, CourseCreated);
  }

  /** addLectures: an unknown course id is a 404 and creates nothing;
      otherwise one new lecture, under a fresh id, that belongs to that
      course. */
  method AddLectures(db: Store, courseId: Id, title: string, description: string,
                     video: Option<Path>)
    returns (reply: Reply, lecture: Option<Lecture>)
    requires db.Valid()
    modifies db
    ensures db.Valid()
    ensures courseId !in old(db.courses) ==>
      reply == Reply(404, NoCourseWithId) && lecture == None && unchanged(db)
    ensures courseId in old(db.courses) ==>
      && reply == Reply(201, LectureAdded)
      && lecture == Some(Lecture(old(db.nextId), title, description, video, courseId))
      && old(db.nextId) !in old(db.lectures)
      && db.lectures == old(db.lectures)[old(db.nextId) := lecture.value]
      && db.users == old(db.users) && db.courses == old(db.courses)
    ensures LecturesHaveCourses(old(db.courses), old(db.lectures)) ==>
      LecturesHaveCourses(db.courses, db.lectures)
  {
    if courseId !in db.courses {
      return Reply(404, NoCourseWithId), None;
    }
    var l := db.CreateLecture(title, description, video, courseId);
    reply, lecture := Reply(201, LectureAdded), Some(l);
  }

  /** deleteLecture: an unknown id is a 404; otherwise the video file is
      removed if it is there, and the lecture record is removed either way;
      nothing else changes. */
  method DeleteLecture(db: Store, disk: Disk, id: Id) returns (reply: Reply)
    requires db.Valid()
    modifies db, disk
    ensures db.Valid()
    ensures id !in old(db.lectures) ==>
      reply == Reply(404, LectureNotFound) && unchanged(db) && unchanged(disk)
    ensures id in old(db.lectures) ==>
      && reply == Reply(200, LectureDeleted)
      && db.lectures == old(db.lectures) - {id}
      && db.users == old(db.users) && db.courses == old(db.courses)
      && disk.files == old(disk.files) - PathSet(old(db.lectures)[id].video)
    ensures LecturesHaveCourses(old(db.courses), old(db.lectures)) ==>
      LecturesHaveCourses(db.courses, db.lectures)
  {
    if id !in db.lectures {
      return Reply(404, LectureNotFound);
    }
    var unlinked := disk.Unlink(db.lectures[id].video);
    db.DeleteLecture(id);
    reply := Reply(200, LectureDeleted);
  }

  /** deleteCourse: an unknown id is a 404; otherwise the course's lecture
      videos and its image are removed where they exist, then its lectures,
      the course itself and every subscription to it. Lectures of other
      courses, and users' other subscriptions, are untouched. */
  method DeleteCourse(db: Store, disk: Disk, id: Id) returns (reply: Reply)
    requires db.Valid()
    modifies db, disk
    ensures db.Valid()
    ensures id !in old(db.courses) ==>
      reply == Reply(404, CourseNotFound) && unchanged(db) && unchanged(disk)
    ensures id in old(db.courses) ==>
      && reply == Reply(200, CourseDeleted)
      && db.courses == old(db.courses) - {id}
      && db.lectures == WithoutLecturesOf(old(db.lectures), id)
      && db.users == PullFromAll(old(db.users), id)
      && disk.files == old(disk.files) - Videos(old(db.lectures), LecturesOf(old(db.lectures), id))
                                       - PathSet(old(db.courses)[id].image)
    ensures LecturesHaveCourses(old(db.courses), old(db.lectures)) ==>
      LecturesHaveCourses(db.courses, db.lectures)
  {
    if id !in db.courses {
      return Reply(404, CourseNotFound);
    }
    // Delete the lecture videos, one lecture at a time.
    ghost var ofCourse := LecturesOf(db.lectures, id);
    var pending := set l | l in db.lectures && db.lectures[l].course == id;
    while pending != {}
      invariant pending <= ofCourse
      invariant disk.files == old(disk.files) - Videos(db.lectures, ofCourse - pending)
      modifies disk
      decreases pending
    {
      var l :| l in pending;
      var unlinked := disk.Unlink(db.lectures[l].video);
      assert Videos(db.lectures, ofCourse - (pending - {l}))
          == Videos(db.lectures, ofCourse - pending) + PathSet(db.lectures[l].video);
      pending := pending - {l};
    }
    // Delete the course image.
    var unlinked := disk.Unlink(db.courses[id].image);
    db.DeleteLecturesOf(id);
    db.DeleteCourse(id);
    db.PullSubscription(id);
    reply := Reply(200, CourseDeleted);
  }

  /** getAllStats: the sizes of the three collections. */
  method GetAllStats(db: Store) returns (reply: Reply, stats: Stats)
    ensures reply == Reply(200, NoMessage)
    ensures stats.totalCoures == |db.courses|
    ensures stats.totalLectures == |db.lectures|
    ensures stats.totalUsers == |db.users|
  {
    stats := Stats(|db.courses|, |db.lectures|, |db.users|);
    reply := Reply(200, NoMessage);
  }

  /** getAllUser: every user except the caller. */
  method GetAllUser(db: Store, caller: User) returns (reply: Reply, users: map<Id, User>)
    ensures reply == Reply(200, NoMessage)
    ensures caller.id !in users
    ensures forall id :: id in db.users && id != caller.id ==> id in users && users[id] == db.users[id]
    ensures forall id :: id in users ==> id in db.users
  {
    users := Others(db.users, caller.id);
    reply := Reply(200, NoMessage);
  }

  /** The role a toggle turns `role` into: "user" and "admin" swap, and any
      other value has no successor. */
  function FlipRole(role: string): (r: Option<string>)
    ensures r == Some(ADMIN_ROLE) <==> role == USER_ROLE
    ensures r == Some(USER_ROLE) <==> role == ADMIN_ROLE
    ensures r.None? <==> role != USER_ROLE && role != ADMIN_ROLE
  {
    if role == USER_ROLE then Some(ADMIN_ROLE)
    else if role == ADMIN_ROLE then Some(USER_ROLE)
    else None
  }

  /** updateRole: a caller whose mainrole is not "superadmin" gets a 403; an
      unknown target is a null dereference (500); a target with role "user"
      or "admin" has it toggled; a target with any other role is left as it
      is and no reply is sent at all (None). */
  method UpdateRole(db: Store, caller: User, target: Id) returns (reply: Option<Reply>)
    requires db.Valid()
    modifies db
    ensures db.Valid()
    ensures caller.mainrole != SUPERADMIN ==>
      reply == Some(Reply(403, SuperadminOnly)) && unchanged(db)
    ensures caller.mainrole == SUPERADMIN && target !in old(db.users) ==>
      reply == Some(Reply(500, ServerError(NullRecord))) && unchanged(db)
    ensures caller.mainrole == SUPERADMIN && target in old(db.users) ==>
      var before := old(db.users)[target];
      && (FlipRole(before.role).None? ==> reply == None && unchanged(db))
      && (FlipRole(before.role).Some? ==>
            && reply == Some(Reply(200, if before.role == USER_ROLE then RoleUpdatedToAdmin else RoleUpdated))
            && db.users == old(db.users)[target := before.(role := FlipRole(before.role).value)]
            && db.courses == old(db.courses) && db.lectures == old(db.lectures))
  {
    if caller.mainrole != SUPERADMIN {
      return Some(Reply(403, SuperadminOnly));
    }
    if target !in db.users {
      return Some(Reply(500, ServerError(NullRecord)));
    }
    var user := db.users[target];
    if user.role == USER_ROLE {
      db.SaveUser(user.(role := ADMIN_ROLE));
      return Some(Reply(200, RoleUpdatedToAdmin));
    }
    if user.role == ADMIN_ROLE {
      db.SaveUser(user.(role := USER_ROLE));
      return Some(Reply(200, RoleUpdated));
    }
    reply := None;
  }
}
