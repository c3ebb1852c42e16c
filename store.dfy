/** The persistence layer: the User, Course and Lecture collections as maps
    from id to record, with the Mongoose operations the handlers call
    (`create`, `findOne`, `save`, `deleteOne`, `deleteMany`, `updateMany`
    with `$pull`). The user schema's unique index on `email` is kept:
    inserting a second user with an existing email fails. */
module Persistence {
  import opened Records

  /** No two users share an email (the unique index). */
  ghost predicate EmailsUnique(users: map<Id, User>)
  {
    forall a, b :: a in users && b in users && users[a].email == users[b].email ==> a == b
  }

  ghost predicate HasEmail(users: map<Id, User>, email: string)
  {
    exists id :: id in users && users[id].email == email
  }

  /** Every lecture names a course that is in the store. */
  ghost predicate LecturesHaveCourses(courses: map<Id, Course>, lectures: map<Id, Lecture>)
  {
    forall l :: l in lectures ==> lectures[l].course in courses
  }

  /** `findById` on one collection. */
  function Lookup<V>(m: map<Id, V>, id: Id): (r: Option<V>)
    ensures r.Some? <==> id in m
    ensures r.Some? ==> r.value == m[id]
  {
    if id in m then Some(m[id]) else None
  }

  /** `$pull: c` on one array: every occurrence of `c` goes, every other
      entry stays, as often as it was there. */
  function Pull(s: seq<Id>, c: Id): (r: seq<Id>)
    ensures forall x :: x in r <==> x in s && x != c
    ensures multiset(r) == multiset(s)[c := 0]
  {
    if s == [] then []
    else
      assert s == [s[0]] + s[1..];
      if s[0] == c then Pull(s[1..], c) else [s[0]] + Pull(s[1..], c)
  }

  /** `$pull` works piecewise, so the entries it keeps keep their order. */
  lemma {:induction false} PullAppend(a: seq<Id>, b: seq<Id>, c: Id)
    ensures Pull(a + b, c) == Pull(a, c) + Pull(b, c)
  {
    if a == [] {
      assert a + b == b;
    } else {
      assert (a + b)[1..] == a[1..] + b;
      PullAppend(a[1..], b, c);
    }
  }

  /** `$pull` of an id that is not in the array leaves the array as it was. */
  lemma {:induction false} PullAbsent(s: seq<Id>, c: Id)
    requires c !in s
    ensures Pull(s, c) == s
  {
    if s != [] {
      PullAbsent(s[1..], c);
    }
  }

  /** Pulling the same id twice is pulling it once. */
  lemma PullIdempotent(s: seq<Id>, c: Id)
    ensures Pull(Pull(s, c), c) == Pull(s, c)
  {
  }

  /** `Lecture.deleteMany({ course: c })`: the lectures of other courses, unchanged. */
  function WithoutLecturesOf(lectures: map<Id, Lecture>, c: Id): (r: map<Id, Lecture>)
    ensures forall l :: l in r <==> l in lectures && lectures[l].course != c
    ensures forall l :: l in r ==> r[l] == lectures[l]
  {
    map l | l in lectures && lectures[l].course != c :: lectures[l]
  }

  /** `User.updateMany({}, { $pull: { subscription: c } })`: every user keeps
      every field but the subscription list, which loses `c`. */
  function PullFromAll(users: map<Id, User>, c: Id): (r: map<Id, User>)
    ensures r.Keys == users.Keys
    ensures forall id :: id in r ==> c !in r[id].subscription
    ensures forall id :: id in r ==>
      r[id].subscription == Pull(users[id].subscription, c) &&
      r[id].(subscription := users[id].subscription) == users[id]
  {
    map id | id in users :: users[id].(subscription := Pull(users[id].subscription, c))
  }

  /** `User.find({ _id: { $ne: me } })`: every user but `me`. */
  function Others(users: map<Id, User>, me: Id): (r: map<Id, User>)
    ensures r.Keys == users.Keys - {me}
    ensures forall id :: id in r ==> r[id] == users[id]
  {
    users - {me}
  }

  class Store {
    var users: map<Id, User>
    var courses: map<Id, Course>
    var lectures: map<Id, Lecture>
    /** The next id to hand out; every id in use lies below it. */
    var nextId: nat

    ghost predicate Valid()
      reads this
    {
      && (forall id :: id in users ==> users[id].id == id && id < nextId)
      && (forall id :: id in courses ==> courses[id].id == id && id < nextId)
      && (forall id :: id in lectures ==> lectures[id].id == id && id < nextId)
      && EmailsUnique(users)
    }

    constructor ()
      ensures Valid()
      ensures users == map[] && courses == map[] && lectures == map[]
    {
      users, courses, lectures, nextId := map[], map[], map[], 0;
    }

    /** `User.findOne({ email })`. */
    method FindUserByEmail(email: string) returns (u: Option<User>)
      requires Valid()
      ensures u.Some? <==> HasEmail(users, email)
      ensures u.Some? ==> u.value.id in users && users[u.value.id] == u.value && u.value.email == email
    {
      if id :| id in users && users[id].email == email {
        u := Some(users[id]);
      } else {
        u := None;
      }
    }

    /** `User.create({ name, email, password })`, with the schema's defaults
        for the other fields, refused by the unique index on a known email. */
    method CreateUser(p: PendingUser) returns (r: Result<User, Fault>)
      requires Valid()
      modifies this
      ensures Valid()
      ensures HasEmail(old(users), p.email) ==> r == Err(DuplicateKey) && unchanged(this)
      ensures !HasEmail(old(users), p.email) ==>
        && r == Ok(User(old(nextId), p.name, p.email, p.password, USER_ROLE, USER_ROLE, [], Unset))
        && old(nextId) !in old(users)
        && users == old(users)[old(nextId) := r.value]
        && courses == old(courses) && lectures == old(lectures)
    {
      if id :| id in users && users[id].email == p.email {
        return Err(DuplicateKey);
      }
      var u := User(nextId, p.name, p.email, p.password, USER_ROLE, USER_ROLE, [], Unset);
      users := users[nextId := u];
      nextId := nextId + 1;
      r := Ok(u);
    }

    /** `user.save()` after changing fields of a loaded user other than its
        email. */
    method SaveUser(u: User)
      requires Valid()
      requires u.id in users && u.email == users[u.id].email
      modifies this
      ensures Valid()
      ensures users == old(users)[u.id := u]
      ensures courses == old(courses) && lectures == old(lectures) && nextId == old(nextId)
    {
      users := users[u.id := u];
    }

    /** `Courses.create({ ... })`. */
    method CreateCourse(title: string, description: string, createdBy: string, image: Option<Path>,
                        duration: int, price: int, category: string) returns (c: Course)
      requires Valid()
      modifies this
      ensures Valid()
      ensures c == Course(old(nextId), title, description, createdBy, image, duration, price, category)
      ensures c.id !in old(courses) && courses == old(courses)[c.id := c]
      ensures users == old(users) && lectures == old(lectures)
    {
      c := Course(nextId, title, description, createdBy, image, duration, price, category);
      courses := courses[nextId := c];
      nextId := nextId + 1;
    }

    /** `Lecture.create({ title, description, video, course })`. */
    method CreateLecture(title: string, description: string, video: Option<Path>, course: Id)
      returns (l: Lecture)
      requires Valid()
      modifies this
      ensures Valid()
      ensures l == Lecture(old(nextId), title, description, video, course)
      ensures l.id !in old(lectures) && lectures == old(lectures)[l.id := l]
      ensures users == old(users) && courses == old(courses)
    {
      l := Lecture(nextId, title, description, video, course);
      lectures := lectures[nextId := l];
      nextId := nextId + 1;
    }

    /** `lecture.deleteOne()`. */
    method DeleteLecture(id: Id)
      requires Valid()
      modifies this
      ensures Valid()
      ensures lectures == old(lectures) - {id}
      ensures users == old(users) && courses == old(courses) && nextId == old(nextId)
    {
      lectures := lectures - {id};
    }

    /** `Lecture.deleteMany({ course: c })`. */
    method DeleteLecturesOf(c: Id)
      requires Valid()
      modifies this
      ensures Valid()
      ensures lectures == WithoutLecturesOf(old(lectures), c)
      ensures users == old(users) && courses == old(courses) && nextId == old(nextId)
    {
      lectures := WithoutLecturesOf(lectures, c);
    }

    /** `course.deleteOne()`. */
    method DeleteCourse(c: Id)
      requires Valid()
      modifies this
      ensures Valid()
      ensures courses == old(courses) - {c}
      ensures users == old(users) && lectures == old(lectures) && nextId == old(nextId)
    {
      courses := courses - {c};
    }

    /** `User.updateMany({}, { $pull: { subscription: c } })`. */
    method PullSubscription(c: Id)
      requires Valid()
      modifies this
      ensures Valid()
      ensures users == PullFromAll(old(users), c)
      ensures courses == old(courses) && lectures == old(lectures) && nextId == old(nextId)
    {
      users := PullFromAll(users, c);
    }
  }
}
