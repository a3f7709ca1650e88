/** The domain store's operations (App.tsx). Each takes the current snapshot and
    gives the next one, as the `setState` calls there do; ids from `Math.random`
    and times from `new Date()` are parameters supplied by the caller. */
module App {
  import opened Types
  import opened Text
  import opened Lists
  import Seed

  const COURSE_POINTS := 20
  const COMPLETION_POINTS := 50
  const FEEDBACK_POINTS := 5
  const MAX_ADMINS := 10

  // ---------------------------------------------------------------- start-up

  /** The seed snapshot: demo users and courses, nothing else, nobody logged in. */
  const SEED_STATE := AppState(Seed.INITIAL_USERS, Seed.INITIAL_COURSES, [], [], None)

  /** The state the app starts from: the saved snapshot when the storage slot holds one,
      the seed otherwise. */
  function InitialState(saved: Option<AppState>): (r: AppState)
    ensures saved.Some? ==> r == saved.value
    ensures saved.None? ==> r.users == Seed.INITIAL_USERS && r.courses == Seed.INITIAL_COURSES
    ensures saved.None? ==> r.enrollments == [] && r.feedback == [] && r.currentUser == None
  {
    if saved.Some? then saved.value else SEED_STATE
  }

  // ---------------------------------------------------------------- points

  /** `u.id === state.currentUser?.id`, which never holds when nobody is logged in. */
  predicate IsSessionUser(u: User, session: Option<User>) {
    session.Some? && u.id == session.value.id
  }

  /** `users.map(u => u.id === currentUser?.id ? { ...u, points: u.points + n } : u)`. */
  function AwardUsers(users: seq<User>, session: Option<User>, n: int): seq<User> {
    seq(|users|, i requires 0 <= i < |users| =>
      if IsSessionUser(users[i], session) then users[i].(points := users[i].points + n) else users[i])
  }

  /** `currentUser ? { ...currentUser, points: currentUser.points + n } : null`. */
  function AwardSession(session: Option<User>, n: int): Option<User> {
    if session.Some? then Some(session.value.(points := session.value.points + n)) else None
  }

  /** The session record and every `users` entry with its id receive the same award,
      nothing else about them changes, and nobody else changes at all. */
  lemma AwardInStep(users: seq<User>, session: Option<User>, n: int)
    ensures |AwardUsers(users, session, n)| == |users|
    ensures session.None? ==> AwardUsers(users, session, n) == users && AwardSession(session, n) == None
    ensures forall i :: 0 <= i < |users| && IsSessionUser(users[i], session) ==>
      AwardUsers(users, session, n)[i].points - users[i].points
        == AwardSession(session, n).value.points - session.value.points
        == n
    ensures session.Some? && session.value in users ==> AwardSession(session, n).value in AwardUsers(users, session, n)
  {
    if session.Some? && session.value in users {
      var k :| 0 <= k < |users| && users[k] == session.value;
      assert AwardUsers(users, session, n)[k] == AwardSession(session, n).value;
    }
  }

  // ---------------------------------------------------------------- login, register, logout

  /** `u.email.toLowerCase() === email.toLowerCase()`. */
  predicate EmailMatches(u: User, email: string) {
    Lower(u.email) == Lower(email)
  }

  /** `users[i]` is the first user whose email matches. */
  predicate FirstEmailMatch(users: seq<User>, email: string, i: int) {
    0 <= i < |users| && EmailMatches(users[i], email)
    && forall j :: 0 <= j < i ==> !EmailMatches(users[j], email)
  }

  /** `login(email)`: succeeds exactly when some user's email matches ignoring case, and
      then makes the first such user the session; on failure nothing changes. There is
      no credential check. */
  function Login(s: AppState, email: string): (r: (bool, AppState))
    ensures r.0 <==> exists i :: 0 <= i < |s.users| && EmailMatches(s.users[i], email)
    ensures r.0 ==> exists i :: FirstEmailMatch(s.users, email, i) && r.1 == s.(currentUser := Some(s.users[i]))
    ensures !r.0 ==> r.1 == s
  {
    var i := FindIndex(s.users, u => EmailMatches(u, email));
    if i >= 0 then
      assert FirstEmailMatch(s.users, email, i);
      (true, s.(currentUser := Some(s.users[i])))
    else (false, s)
  }

  /** The account `register` creates: a researcher with no points. */
  function NewResearcher(name: string, email: string, id: string, now: Timestamp): User {
    User(id, name, email, Researcher, 0, now)
  }

  /** `register(name, email)`: appends exactly one researcher with 0 points and makes it the
      session; earlier users, courses, enrollments and feedback are untouched. It does not
      look at the other emails. */
  function Register(s: AppState, name: string, email: string, id: string, now: Timestamp): (r: AppState)
    ensures |r.users| == |s.users| + 1 && r.users[..|s.users|] == s.users
    ensures r.users[|s.users|] == NewResearcher(name, email, id, now)
    ensures r.users[|s.users|].role == Researcher && r.users[|s.users|].points == 0
    ensures r.currentUser == Some(r.users[|s.users|])
    ensures r.courses == s.courses && r.enrollments == s.enrollments && r.feedback == s.feedback
  {
    var u := NewResearcher(name, email, id, now);
    s.(users := s.users + [u], currentUser := Some(u))
  }

  /** `logout()`: clears the session and nothing else. */
  function Logout(s: AppState): (r: AppState)
    ensures r.currentUser == None
    ensures r.users == s.users && r.courses == s.courses
    ensures r.enrollments == s.enrollments && r.feedback == s.feedback
  {
    s.(currentUser := None)
  }

  // ---------------------------------------------------------------- courses

  /** The fields `addCourse` receives: a course without its id and creation time. */
  datatype CourseDraft = CourseDraft(
    title: string,
    description: string,
    link: string,
    delivery: Delivery,
    category: string,
    recommendedBy: string,
    tags: seq<string>)

  function Publish(d: CourseDraft, id: string, now: Timestamp): Course {
    Course(id, d.title, d.description, d.link, d.delivery, d.category, d.recommendedBy, now, d.tags)
  }

  /** `addCourse(data)`: always puts the new course in front of the others, also when nobody
      is logged in; only a session user is awarded 20 points, in `users` and in the session
      alike. Enrollments and feedback are untouched. */
  function AddCourse(s: AppState, d: CourseDraft, id: string, now: Timestamp): (r: AppState)
    ensures |r.courses| == |s.courses| + 1 && r.courses[0] == Publish(d, id, now) && r.courses[1..] == s.courses
    ensures r.users == AwardUsers(s.users, s.currentUser, COURSE_POINTS)
    ensures r.currentUser == AwardSession(s.currentUser, COURSE_POINTS)
    ensures s.currentUser.None? ==> r.users == s.users && r.currentUser == None
    ensures r.enrollments == s.enrollments && r.feedback == s.feedback
  {
    AwardInStep(s.users, s.currentUser, COURSE_POINTS);
    s.(courses := [Publish(d, id, now)] + s.courses,
       users := AwardUsers(s.users, s.currentUser, COURSE_POINTS),
       currentUser := AwardSession(s.currentUser, COURSE_POINTS))
  }

  predicate SessionIsAdmin(s: AppState) {
    s.currentUser.Some? && s.currentUser.value.role == Admin
  }

  function CourseIdIsNot(courseId: string): Course -> bool {
    (c: Course) => c.id != courseId
  }

  function EnrollmentCourseIsNot(courseId: string): Enrollment -> bool {
    (e: Enrollment) => e.courseId != courseId
  }

  function FeedbackCourseIsNot(courseId: string): Feedback -> bool {
    (f: Feedback) => f.courseId != courseId
  }

  /** `removeCourse(courseId)`: for anyone but an administrator nothing changes. For an
      administrator exactly the courses, enrollments and feedback carrying that course id
      are removed; every other record, the users and the session stay. */
  function RemoveCourse(s: AppState, courseId: string): (r: AppState)
    ensures !SessionIsAdmin(s) ==> r == s
    ensures SessionIsAdmin(s) ==>
      && (forall c :: c in r.courses <==> c in s.courses && c.id != courseId)
      && (forall e :: e in r.enrollments <==> e in s.enrollments && e.courseId != courseId)
      && (forall f :: f in r.feedback <==> f in s.feedback && f.courseId != courseId)
      && multiset(r.courses) <= multiset(s.courses)
      && multiset(r.enrollments) <= multiset(s.enrollments)
      && multiset(r.feedback) <= multiset(s.feedback)
    ensures SessionIsAdmin(s) ==>
      && (forall c :: multiset(r.courses)[c] == if c.id == courseId then 0 else multiset(s.courses)[c])
      && (forall e :: multiset(r.enrollments)[e] == if e.courseId == courseId then 0 else multiset(s.enrollments)[e])
      && (forall f :: multiset(r.feedback)[f] == if f.courseId == courseId then 0 else multiset(s.feedback)[f])
    ensures r.users == s.users && r.currentUser == s.currentUser
  {
    if !SessionIsAdmin(s) then s
    else
      FilterMultiplicity(s.courses, CourseIdIsNot(courseId));
      FilterMultiplicity(s.enrollments, EnrollmentCourseIsNot(courseId));
      FilterMultiplicity(s.feedback, FeedbackCourseIsNot(courseId));
      s.(courses := Filter(s.courses, CourseIdIsNot(courseId)),
         enrollments := Filter(s.enrollments, EnrollmentCourseIsNot(courseId)),
         feedback := Filter(s.feedback, FeedbackCourseIsNot(courseId)))
  }
  /** The removal keeps the records it keeps in their order: removing from a list split in two
      is removing from each part and joining the results. */
  lemma RemoveCourseKeepsOrder(s: AppState, courseId: string)
    ensures forall k :: 0 <= k <= |s.courses| ==>
      RemoveCourse(s, courseId).courses
        == RemoveCourse(s.(courses := s.courses[..k]), courseId).courses
         + RemoveCourse(s.(courses := s.courses[k..]), courseId).courses
    ensures forall k :: 0 <= k <= |s.enrollments| ==>
      RemoveCourse(s, courseId).enrollments
        == RemoveCourse(s.(enrollments := s.enrollments[..k]), courseId).enrollments
         + RemoveCourse(s.(enrollments := s.enrollments[k..]), courseId).enrollments
    ensures forall k :: 0 <= k <= |s.feedback| ==>
      RemoveCourse(s, courseId).feedback
        == RemoveCourse(s.(feedback := s.feedback[..k]), courseId).feedback
         + RemoveCourse(s.(feedback := s.feedback[k..]), courseId).feedback
  {
    if SessionIsAdmin(s) {
      forall k | 0 <= k <= |s.courses| ensures
        Filter(s.courses, CourseIdIsNot(courseId))
          == Filter(s.courses[..k], CourseIdIsNot(courseId)) + Filter(s.courses[k..], CourseIdIsNot(courseId))
      {
        assert s.courses == s.courses[..k] + s.courses[k..];
        FilterAppend(s.courses[..k], s.courses[k..], CourseIdIsNot(courseId));
      }
      forall k | 0 <= k <= |s.enrollments| ensures
        Filter(s.enrollments, EnrollmentCourseIsNot(courseId))
          == Filter(s.enrollments[..k], EnrollmentCourseIsNot(courseId))
           + Filter(s.enrollments[k..], EnrollmentCourseIsNot(courseId))
      {
        assert s.enrollments == s.enrollments[..k] + s.enrollments[k..];
        FilterAppend(s.enrollments[..k], s.enrollments[k..], EnrollmentCourseIsNot(courseId));
      }
      forall k | 0 <= k <= |s.feedback| ensures
        Filter(s.feedback, FeedbackCourseIsNot(courseId))
          == Filter(s.feedback[..k], FeedbackCourseIsNot(courseId)) + Filter(s.feedback[k..], FeedbackCourseIsNot(courseId))
      {
        assert s.feedback == s.feedback[..k] + s.feedback[k..];
        FilterAppend(s.feedback[..k], s.feedback[k..], FeedbackCourseIsNot(courseId));
      }
    } else {
      forall k | 0 <= k <= |s.courses| ensures s.courses == s.courses[..k] + s.courses[k..] { }
      forall k | 0 <= k <= |s.enrollments| ensures s.enrollments == s.enrollments[..k] + s.enrollments[k..] { }
      forall k | 0 <= k <= |s.feedback| ensures s.feedback == s.feedback[..k] + s.feedback[k..] { }
    }
  }


  // ---------------------------------------------------------------- enrollments

  /** The enrollment belongs to this (user, course) pair. */
  predicate IsPair(e: Enrollment, userId: string, courseId: string) {
    e.courseId == courseId && e.userId == userId
  }

  predicate HasPair(es: seq<Enrollment>, userId: string, courseId: string) {
    exists k :: 0 <= k < |es| && IsPair(es[k], userId, courseId)
  }

  /** `es[k]` is the first enrollment of the pair, the one `findIndex` returns. */
  predicate FirstPairAt(es: seq<Enrollment>, userId: string, courseId: string, k: int) {
    0 <= k < |es| && IsPair(es[k], userId, courseId)
    && forall j :: 0 <= j < k ==> !IsPair(es[j], userId, courseId)
  }

  /** Some enrollment of the pair is already fully completed (`alreadyCompleted`). */
  predicate PairCompleted(es: seq<Enrollment>, userId: string, courseId: string) {
    exists k :: 0 <= k < |es| && IsPair(es[k], userId, courseId) && es[k].status == FullyCompleted
  }

  /** The reference definition of the upsert: walk the list, rewrite the status and time of
      the first enrollment of the pair, or append a new one at the end when there is none. */
  function Upsert(es: seq<Enrollment>, userId: string, courseId: string, status: CourseStatus,
                  id: string, now: Timestamp): (r: seq<Enrollment>)
    ensures |r| == if HasPair(es, userId, courseId) then |es| else |es| + 1
    ensures HasPair(r, userId, courseId)
  {
    if es == [] then
      var r := [Enrollment(id, userId, courseId, status, now)];
      assert IsPair(r[0], userId, courseId);
      r
    else if IsPair(es[0], userId, courseId) then
      var r := [es[0].(status := status, updatedAt := now)] + es[1..];
      assert IsPair(r[0], userId, courseId);
      r
    else
      var tail := Upsert(es[1..], userId, courseId, status, id, now);
      var r := [es[0]] + tail;
      assert HasPair(es, userId, courseId) <==> HasPair(es[1..], userId, courseId) by {
        if HasPair(es, userId, courseId) {
          var k :| 0 <= k < |es| && IsPair(es[k], userId, courseId);
          assert es[1..][k - 1] == es[k];
        }
        if HasPair(es[1..], userId, courseId) {
          var k :| 0 <= k < |es| - 1 && IsPair(es[1..][k], userId, courseId);
          assert es[k + 1] == es[1..][k];
        }
      }
      var k :| 0 <= k < |tail| && IsPair(tail[k], userId, courseId);
      assert r[k + 1] == tail[k];
      r
  }

  /** The `findIndex` callback of `updateEnrollment`: the enrollment belongs to the pair. */
  function PairOf(userId: string, courseId: string): Enrollment -> bool {
    (e: Enrollment) => IsPair(e, userId, courseId)
  }

  /** The `some` callback computing `alreadyCompleted`. */
  function CompletedPairOf(userId: string, courseId: string): Enrollment -> bool {
    (e: Enrollment) => IsPair(e, userId, courseId) && e.status == FullyCompleted
  }

  /** The upsert is what the source does in place: rewrite status and time of the enrollment
      `findIndex` finds, or push a new enrollment when it finds none. */
  lemma {:induction false} UpsertSpec(es: seq<Enrollment>, userId: string, courseId: string, status: CourseStatus,
                                      id: string, now: Timestamp)
    ensures forall k :: FirstPairAt(es, userId, courseId, k) ==>
      Upsert(es, userId, courseId, status, id, now) == es[k := es[k].(status := status, updatedAt := now)]
    ensures !HasPair(es, userId, courseId) ==>
      Upsert(es, userId, courseId, status, id, now) == es + [Enrollment(id, userId, courseId, status, now)]
  {
    forall k | FirstPairAt(es, userId, courseId, k)
      ensures Upsert(es, userId, courseId, status, id, now) == es[k := es[k].(status := status, updatedAt := now)]
    {
      UpsertRewritesFirst(es, userId, courseId, status, id, now, k);
    }
    if !HasPair(es, userId, courseId) {
      UpsertAppendsNew(es, userId, courseId, status, id, now);
    }
  }

  lemma {:induction false} UpsertRewritesFirst(es: seq<Enrollment>, userId: string, courseId: string,
                                               status: CourseStatus, id: string, now: Timestamp, k: int)
    requires FirstPairAt(es, userId, courseId, k)
    ensures Upsert(es, userId, courseId, status, id, now) == es[k := es[k].(status := status, updatedAt := now)]
  {
    var v := es[k].(status := status, updatedAt := now);
    if k == 0 {
      assert [v] + es[1..] == es[0 := v];
    } else {
      assert !IsPair(es[0], userId, courseId);
      assert FirstPairAt(es[1..], userId, courseId, k - 1);
      UpsertRewritesFirst(es[1..], userId, courseId, status, id, now, k - 1);
      assert es[k := v] == [es[0]] + es[1..][k - 1 := v];
    }
  }

  lemma {:induction false} UpsertAppendsNew(es: seq<Enrollment>, userId: string, courseId: string,
                                            status: CourseStatus, id: string, now: Timestamp)
    requires !HasPair(es, userId, courseId)
    ensures Upsert(es, userId, courseId, status, id, now) == es + [Enrollment(id, userId, courseId, status, now)]
  {
    if es != [] {
      var n := Enrollment(id, userId, courseId, status, now);
      assert !IsPair(es[0], userId, courseId);
      assert !HasPair(es[1..], userId, courseId) by {
        forall j | 0 <= j < |es| - 1 ensures !IsPair(es[1..][j], userId, courseId) {
          assert es[1..][j] == es[j + 1];
        }
      }
      UpsertAppendsNew(es[1..], userId, courseId, status, id, now);
      assert es + [n] == [es[0]] + (es[1..] + [n]);
    }
  }

  /** The +50 completion bonus: paid when the new status is FULLY_COMPLETED and no enrollment
      of the pair is fully completed yet; it looks only at the current statuses. */
  function CompletionBonus(es: seq<Enrollment>, userId: string, courseId: string, status: CourseStatus): (b: int)
    ensures b == COMPLETION_POINTS <==> status == FullyCompleted && !PairCompleted(es, userId, courseId)
    ensures b == 0 <==> !(status == FullyCompleted && !PairCompleted(es, userId, courseId))
  {
    if status == FullyCompleted && !PairCompleted(es, userId, courseId) then COMPLETION_POINTS else 0
  }

  /** `updateEnrollment(courseId, status)`: nothing happens without a session. Otherwise the
      session user's enrollment for the course is upserted, and the session user is awarded the
      completion bonus, in `users` and in the session alike. Courses and feedback stay. */
  function UpdateEnrollment(s: AppState, courseId: string, status: CourseStatus, id: string, now: Timestamp): (r: AppState)
    ensures s.currentUser.None? ==> r == s
    ensures s.currentUser.Some? ==>
      var uid := s.currentUser.value.id;
      var bonus := CompletionBonus(s.enrollments, uid, courseId, status);
      && r.enrollments == Upsert(s.enrollments, uid, courseId, status, id, now)
      && r.users == AwardUsers(s.users, s.currentUser, bonus)
      && r.currentUser.Some? && r.currentUser.value.points == s.currentUser.value.points + bonus
      && r.currentUser.value.(points := 0) == s.currentUser.value.(points := 0)
    ensures r.courses == s.courses && r.feedback == s.feedback
  {
    if s.currentUser.None? then s
    else
      var uid := s.currentUser.value.id;
      var bonus := CompletionBonus(s.enrollments, uid, courseId, status);
      s.(enrollments := Upsert(s.enrollments, uid, courseId, status, id, now),
         users := AwardUsers(s.users, s.currentUser, bonus),
         currentUser := AwardSession(s.currentUser, bonus))
  }

  // ---------------------------------------------------------------- feedback

  /** `addFeedback(courseId, rating, comment)`: nothing happens without a session. Otherwise one
      feedback by the session user is appended, whatever the rating, and the session user is
      awarded 5 points, in `users` and in the session alike. */
  function AddFeedback(s: AppState, courseId: string, rating: int, comment: string, id: string, now: Timestamp): (r: AppState)
    ensures s.currentUser.None? ==> r == s
    ensures s.currentUser.Some? ==>
      && r.feedback == s.feedback + [Feedback(id, s.currentUser.value.id, courseId, rating, comment, now)]
      && r.users == AwardUsers(s.users, s.currentUser, FEEDBACK_POINTS)
      && r.currentUser == AwardSession(s.currentUser, FEEDBACK_POINTS)
    ensures r.courses == s.courses && r.enrollments == s.enrollments
  {
    if s.currentUser.None? then s
    else
      s.(feedback := s.feedback + [Feedback(id, s.currentUser.value.id, courseId, rating, comment, now)],
         users := AwardUsers(s.users, s.currentUser, FEEDBACK_POINTS),
         currentUser := AwardSession(s.currentUser, FEEDBACK_POINTS))
  }

  // ---------------------------------------------------------------- roles

  predicate IsAdmin(u: User) {
    u.role == Admin
  }

  /** `users.filter(u => u.role === UserRole.ADMIN).length`. */
  function AdminCount(users: seq<User>): (n: nat)
    ensures n <= |users|
  {
    |Filter(users, IsAdmin)|
  }

  /** `users.map(u => u.id === userId ? { ...u, role } : u)`. */
  function SetRole(users: seq<User>, userId: string, role: UserRole): seq<User> {
    seq(|users|, i requires 0 <= i < |users| => if users[i].id == userId then users[i].(role := role) else users[i])
  }

  /** `currentUser?.id === userId ? { ...currentUser, role } : currentUser`. */
  function SetSessionRole(session: Option<User>, userId: string, role: UserRole): Option<User> {
    if session.Some? && session.value.id == userId then Some(session.value.(role := role)) else session
  }

  /** `promoteUser(userId)`: nothing changes when there are already 10 or more administrators;
      otherwise every user with that id, and the session if it has that id, becomes an
      administrator. The caller's own role is not checked. */
  function PromoteUser(s: AppState, userId: string): (r: AppState)
    ensures AdminCount(s.users) >= MAX_ADMINS ==> r == s
    ensures AdminCount(s.users) < MAX_ADMINS ==>
      r == s.(users := SetRole(s.users, userId, Admin), currentUser := SetSessionRole(s.currentUser, userId, Admin))
  {
    if AdminCount(s.users) >= MAX_ADMINS then s
    else s.(users := SetRole(s.users, userId, Admin), currentUser := SetSessionRole(s.currentUser, userId, Admin))
  }

  /** `demoteUser(userId)`: unconditionally makes every user with that id, and the session if it
      has that id, a researcher; the last administrator may be demoted, the caller's role is not
      checked. */
  function DemoteUser(s: AppState, userId: string): (r: AppState)
    ensures r.users == SetRole(s.users, userId, Researcher)
    ensures r.currentUser == SetSessionRole(s.currentUser, userId, Researcher)
    ensures r.courses == s.courses && r.enrollments == s.enrollments && r.feedback == s.feedback
  {
    s.(users := SetRole(s.users, userId, Researcher), currentUser := SetSessionRole(s.currentUser, userId, Researcher))
  }

  /** Changing roles touches only the role of the users with the given id. */
  lemma SetRoleEffect(users: seq<User>, userId: string, role: UserRole)
    ensures |SetRole(users, userId, role)| == |users|
    ensures forall i :: 0 <= i < |users| ==>
      && SetRole(users, userId, role)[i].(role := users[i].role) == users[i]
      && (SetRole(users, userId, role)[i].role == if users[i].id == userId then role else users[i].role)
  {
  }

  // ---------------------------------------------------------------- cloud sync

  /** The JSON document a pull receives: every list is optional. */
  datatype RemoteData = RemoteData(
    users: Option<seq<User>>,
    courses: Option<seq<Course>>,
    enrollments: Option<seq<Enrollment>>,
    feedback: Option<seq<Feedback>>)

  /** `data && data.courses && data.courses.length > 0`. */
  predicate CarriesCourses(data: Option<RemoteData>) {
    data.Some? && data.value.courses.Some? && |data.value.courses.value| > 0
  }

  /** `list || []`: a present list, even an empty one, is kept. */
  function OrEmpty<T>(list: Option<seq<T>>): seq<T> {
    if list.Some? then list.value else []
  }

  /** The merge `fetchFromCloud` applies: a response with a non-empty course list replaces the
      courses, enrollments and feedback (missing lists become empty), replaces the users only
      with a non-empty user list, and always keeps the session; any other response leaves the
      snapshot as it is. */
  function PullMerge(s: AppState, data: Option<RemoteData>): (r: AppState)
    ensures r.currentUser == s.currentUser
    ensures !CarriesCourses(data) ==> r == s
    ensures CarriesCourses(data) ==>
      && r.courses == data.value.courses.value
      && r.enrollments == OrEmpty(data.value.enrollments)
      && r.feedback == OrEmpty(data.value.feedback)
      && r.users == (if data.value.users.Some? && |data.value.users.value| > 0 then data.value.users.value else s.users)
  {
    if !CarriesCourses(data) then s
    else
      var d := data.value;
      AppState(
        if d.users.Some? && |d.users.value| > 0 then d.users.value else s.users,
        d.courses.value,
        OrEmpty(d.enrollments),
        OrEmpty(d.feedback),
        s.currentUser)
  }

  /** The body `syncToCloud` posts: the four lists, without the session. */
  datatype Payload = Payload(
    users: seq<User>,
    courses: seq<Course>,
    enrollments: seq<Enrollment>,
    feedback: seq<Feedback>)

  function SyncPayload(s: AppState): (p: Payload)
    ensures p.users == s.users && p.courses == s.courses
    ensures p.enrollments == s.enrollments && p.feedback == s.feedback
  {
    Payload(s.users, s.courses, s.enrollments, s.feedback)
  }

  /** A pushed payload read back as a pull response. */
  function AsRemote(p: Payload): RemoteData {
    RemoteData(Some(p.users), Some(p.courses), Some(p.enrollments), Some(p.feedback))
  }

  /** Pulling back what one pushed restores the snapshot, whether or not the course list
      is empty. */
  lemma PullOwnPush(s: AppState)
    ensures PullMerge(s, Some(AsRemote(SyncPayload(s)))) == s
  {
  }

  // ---------------------------------------------------------------- the store's invariants

  function DistinctIds(a: User, b: User): bool {
    a.id != b.id
  }

  function DistinctEmails(a: User, b: User): bool {
    Lower(a.email) != Lower(b.email)
  }

  function DistinctPairs(a: Enrollment, b: Enrollment): bool {
    !(a.userId == b.userId && a.courseId == b.courseId)
  }

  /** User ids identify users. */
  predicate UniqueUserIds(users: seq<User>) {
    Pairwise(users, DistinctIds)
  }

  /** No two users share an email, ignoring case. */
  predicate UniqueEmails(users: seq<User>) {
    Pairwise(users, DistinctEmails)
  }

  /** At most one enrollment per (user, course) pair. */
  predicate UniquePairs(es: seq<Enrollment>) {
    Pairwise(es, DistinctPairs)
  }

  predicate NonNegativePoints(users: seq<User>) {
    forall i :: 0 <= i < |users| ==> users[i].points >= 0
  }

  /** The session is one of the users, record for record, so the two can never drift apart. */
  predicate SessionInUsers(s: AppState) {
    s.currentUser.Some? ==> s.currentUser.value in s.users
  }

  /** What the store is meant to keep true: unique ids and emails, at most 10 administrators,
      no negative points, at most one enrollment per pair, a session that is a user. */
  predicate Consistent(s: AppState) {
    && UniqueUserIds(s.users)
    && UniqueEmails(s.users)
    && AdminCount(s.users) <= MAX_ADMINS
    && NonNegativePoints(s.users)
    && UniquePairs(s.enrollments)
    && SessionInUsers(s)
  }

  /** Every user of `before` is still at the same place in `after`, with at least as many points. */
  predicate NoPointLoss(before: seq<User>, after: seq<User>) {
    |before| <= |after|
    && forall i :: 0 <= i < |before| ==> after[i].id == before[i].id && after[i].points >= before[i].points
  }
}
