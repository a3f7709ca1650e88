/** The invariants the store is meant to keep (`App.Consistent`) and what every mutation of the
    context API does to them (App.tsx, lines 126-259). */
module StoreInvariants {
  import opened Types
  import opened Text
  import opened Lists
  import opened App
  import opened EnrollmentProperties
  import Seed
  import LoginPage

  // ---------------------------------------------------------------- counting administrators

  /** How many users carry `userId` and do not have `role` yet: the records a role change alters. */
  function Changed(users: seq<User>, userId: string, role: UserRole): (n: nat)
    ensures n <= |users|
  {
    if users == [] then 0
    else (if users[0].id == userId && users[0].role != role then 1 else 0) + Changed(users[1..], userId, role)
  }

  lemma SetRoleTail(users: seq<User>, userId: string, role: UserRole)
    requires |users| > 0
    ensures SetRole(users, userId, role)[0] == if users[0].id == userId then users[0].(role := role) else users[0]
    ensures SetRole(users, userId, role)[1..] == SetRole(users[1..], userId, role)
  {
    assert |SetRole(users, userId, role)[1..]| == |SetRole(users[1..], userId, role)|;
  }

  /** A role change moves the administrator count by the number of records it alters: up when
      promoting, down when demoting. */
  lemma {:induction false} SetRoleAdminCount(users: seq<User>, userId: string, role: UserRole)
    ensures AdminCount(SetRole(users, userId, role)) ==
      if role == Admin then AdminCount(users) + Changed(users, userId, role)
      else AdminCount(users) - Changed(users, userId, role)
  {
    if users != [] {
      SetRoleTail(users, userId, role);
      SetRoleAdminCount(users[1..], userId, role);
    }
  }

  lemma {:induction false} ChangedNone(users: seq<User>, userId: string, role: UserRole)
    requires forall i :: 0 <= i < |users| ==> users[i].id != userId
    ensures Changed(users, userId, role) == 0
  {
    if users != [] {
      assert forall i :: 0 <= i < |users| - 1 ==> users[1..][i] == users[i + 1];
      ChangedNone(users[1..], userId, role);
    }
  }

  /** With unique ids a role change alters at most one record. */
  lemma {:induction false} ChangedAtMostOne(users: seq<User>, userId: string, role: UserRole)
    requires UniqueUserIds(users)
    ensures Changed(users, userId, role) <= 1
  {
    if users != [] {
      PairwiseTail(users, DistinctIds);
      ChangedAtMostOne(users[1..], userId, role);
      if users[0].id == userId {
        forall i | 0 <= i < |users| - 1 ensures users[1..][i].id != userId {
          assert DistinctIds(users[0], users[i + 1]);
        }
        ChangedNone(users[1..], userId, role);
      }
    }
  }

  lemma {:induction false} ChangedAtLeastOne(users: seq<User>, userId: string, role: UserRole, k: int)
    requires 0 <= k < |users| && users[k].id == userId && users[k].role != role
    ensures Changed(users, userId, role) >= 1
  {
    if k > 0 {
      assert users[1..][k - 1] == users[k];
      ChangedAtLeastOne(users[1..], userId, role, k - 1);
    }
  }

  /** The record of `userId` exists and does not have `role` yet. */
  predicate Alterable(users: seq<User>, userId: string, role: UserRole) {
    exists k :: 0 <= k < |users| && users[k].id == userId && users[k].role != role
  }

  /** With unique ids, `promoteUser` never takes the administrator count past 10: at 10 or more it
      changes nothing, below 10 it adds one administrator when the id names a researcher and none
      otherwise. */
  lemma PromoteRespectsCap(s: AppState, userId: string)
    requires UniqueUserIds(s.users)
    ensures var n := AdminCount(PromoteUser(s, userId).users);
      && (AdminCount(s.users) >= MAX_ADMINS ==> PromoteUser(s, userId) == s)
      && (AdminCount(s.users) < MAX_ADMINS ==>
            n == AdminCount(s.users) + (if Alterable(s.users, userId, Admin) then 1 else 0))
      && (AdminCount(s.users) <= MAX_ADMINS ==> n <= MAX_ADMINS)
  {
    SetRoleAdminCount(s.users, userId, Admin);
    ChangedAtMostOne(s.users, userId, Admin);
    if Alterable(s.users, userId, Admin) {
      var k :| 0 <= k < |s.users| && s.users[k].id == userId && s.users[k].role != Admin;
      ChangedAtLeastOne(s.users, userId, Admin, k);
    } else {
      Unalterable(s.users, userId, Admin);
    }
  }

  lemma {:induction false} Unalterable(users: seq<User>, userId: string, role: UserRole)
    requires !Alterable(users, userId, role)
    ensures Changed(users, userId, role) == 0
  {
    if users != [] {
      assert !Alterable(users[1..], userId, role);
      Unalterable(users[1..], userId, role);
    }
  }

  /** With unique ids, `demoteUser` removes one administrator when the id names one and none
      otherwise. */
  lemma DemoteCount(s: AppState, userId: string)
    requires UniqueUserIds(s.users)
    ensures AdminCount(DemoteUser(s, userId).users) ==
      AdminCount(s.users) - (if Alterable(s.users, userId, Researcher) then 1 else 0)
  {
    SetRoleAdminCount(s.users, userId, Researcher);
    ChangedAtMostOne(s.users, userId, Researcher);
    if Alterable(s.users, userId, Researcher) {
      var k :| 0 <= k < |s.users| && s.users[k].id == userId && s.users[k].role != Researcher;
      ChangedAtLeastOne(s.users, userId, Researcher, k);
    } else {
      Unalterable(s.users, userId, Researcher);
    }
  }

  /** The cap depends on unique ids: two researcher records sharing an id, next to nine
      administrators, are both promoted in one call and the count reaches 11. */
  lemma DuplicateIdsBreakCap(admin: User, twin: User)
    requires admin.role == Admin && twin.role == Researcher && twin.id != admin.id
    ensures var s := AppState(seq(9, _ => admin) + [twin, twin], [], [], [], None);
      AdminCount(s.users) == 9 && AdminCount(PromoteUser(s, twin.id).users) == 11
  {
    var admins := seq(9, _ => admin);
    var users := admins + [twin, twin];
    assert AdminCount(users) == 9 by {
      FilterAll(admins, IsAdmin);
      FilterAppend(admins, [twin, twin], IsAdmin);
      assert Filter([twin, twin], IsAdmin) == [];
    }
    assert Changed(users, twin.id, Admin) == 2 by {
      ChangedSplit(users, twin.id, Admin, 9);
      assert users[..9] == admins && users[9..] == [twin, twin];
      ChangedNone(admins, twin.id, Admin);
      assert [twin, twin][1..] == [twin];
    }
    SetRoleAdminCount(users, twin.id, Admin);
  }

  lemma {:induction false} ChangedSplit(users: seq<User>, userId: string, role: UserRole, k: nat)
    requires k <= |users|
    ensures Changed(users, userId, role) == Changed(users[..k], userId, role) + Changed(users[k..], userId, role)
  {
    if k > 0 {
      assert users[..k][1..] == users[1..][..k - 1];
      assert users[k..] == users[1..][k - 1..];
      ChangedSplit(users[1..], userId, role, k - 1);
    }
  }

  // ---------------------------------------------------------------- records that keep their identity

  /** The same users in the same places; only points or roles may differ. */
  predicate SameIdentities(a: seq<User>, b: seq<User>) {
    |a| == |b| && forall i :: 0 <= i < |a| ==> b[i].id == a[i].id && b[i].email == a[i].email
  }

  lemma SameIdentitiesKeepUniqueness(a: seq<User>, b: seq<User>)
    requires SameIdentities(a, b)
    ensures UniqueUserIds(a) ==> UniqueUserIds(b)
    ensures UniqueEmails(a) ==> UniqueEmails(b)
  {
    if UniqueUserIds(a) {
      forall i, j | 0 <= i < j < |b| ensures DistinctIds(b[i], b[j]) {
        assert DistinctIds(a[i], a[j]);
      }
    }
    if UniqueEmails(a) {
      forall i, j | 0 <= i < j < |b| ensures DistinctEmails(b[i], b[j]) {
        assert DistinctEmails(a[i], a[j]);
      }
    }
  }

  lemma {:induction false} SameRolesSameAdminCount(a: seq<User>, b: seq<User>)
    requires |a| == |b| && forall i :: 0 <= i < |a| ==> a[i].role == b[i].role
    ensures AdminCount(a) == AdminCount(b)
  {
    if a != [] {
      assert forall i :: 0 <= i < |a| - 1 ==> a[1..][i] == a[i + 1] && b[1..][i] == b[i + 1];
      SameRolesSameAdminCount(a[1..], b[1..]);
    }
  }

  /** Awarding a non-negative number of points to the session user keeps every invariant about
      users, loses nobody's points, and keeps the session among the users. */
  lemma AwardKeepsUsers(s: AppState, n: int)
    requires Consistent(s) && n >= 0
    ensures var users := AwardUsers(s.users, s.currentUser, n);
      && UniqueUserIds(users) && UniqueEmails(users)
      && AdminCount(users) <= MAX_ADMINS && NonNegativePoints(users)
      && NoPointLoss(s.users, users)
      && (s.currentUser.Some? ==> AwardSession(s.currentUser, n).value in users)
  {
    var users := AwardUsers(s.users, s.currentUser, n);
    AwardInStep(s.users, s.currentUser, n);
    assert SameIdentities(s.users, users);
    SameIdentitiesKeepUniqueness(s.users, users);
    SameRolesSameAdminCount(s.users, users);
    assert NonNegativePoints(users) && NoPointLoss(s.users, users) by {
      forall i | 0 <= i < |users| ensures users[i].id == s.users[i].id && users[i].points >= s.users[i].points {
      }
    }
  }

  // ---------------------------------------------------------------- one lemma per mutation

  lemma LoginKeepsConsistent(s: AppState, email: string)
    requires Consistent(s)
    ensures Consistent(Login(s, email).1) && Login(s, email).1.users == s.users
  {
  }

  lemma LogoutKeepsConsistent(s: AppState)
    requires Consistent(s)
    ensures Consistent(Logout(s)) && Logout(s).users == s.users
  {
  }

  /** Registering through the form's guard with a fresh id keeps the store consistent. */
  lemma RegisterKeepsConsistent(s: AppState, name: string, email: string, id: string, now: Timestamp)
    requires Consistent(s)
    requires forall i :: 0 <= i < |s.users| ==> s.users[i].id != id
    requires !LoginPage.EmailTaken(s.users, email)
    ensures Consistent(Register(s, name, email, id, now))
    ensures NoPointLoss(s.users, Register(s, name, email, id, now).users)
  {
    var u := NewResearcher(name, email, id, now);
    LoginPage.GuardedRegister(s, name, email, id, now);
    AppendResearcher(s.users, u);
  }

  /** Appending a researcher with a fresh id and no negative points keeps the user-list
      invariants and takes nobody's points. */
  lemma AppendResearcher(users: seq<User>, u: User)
    requires UniqueUserIds(users) && NonNegativePoints(users)
    requires u.role == Researcher && u.points >= 0
    requires forall i :: 0 <= i < |users| ==> users[i].id != u.id
    ensures UniqueUserIds(users + [u]) && NonNegativePoints(users + [u])
    ensures AdminCount(users + [u]) == AdminCount(users)
    ensures NoPointLoss(users, users + [u]) && u in users + [u]
  {
    var r := users + [u];
    PairwiseAppend(users, u, DistinctIds);
    assert AdminCount(r) == AdminCount(users) by {
      FilterAppend(users, [u], IsAdmin);
      assert Filter([u], IsAdmin) == [];
    }
    assert NonNegativePoints(r) && NoPointLoss(users, r) by {
      assert forall i :: 0 <= i < |users| ==> r[i] == users[i];
    }
  }

  lemma AddCourseKeepsConsistent(s: AppState, d: CourseDraft, id: string, now: Timestamp)
    requires Consistent(s)
    ensures Consistent(AddCourse(s, d, id, now))
    ensures NoPointLoss(s.users, AddCourse(s, d, id, now).users)
  {
    AwardKeepsUsers(s, COURSE_POINTS);
  }

  lemma RemoveCourseKeepsConsistent(s: AppState, courseId: string)
    requires Consistent(s)
    ensures Consistent(RemoveCourse(s, courseId))
    ensures RemoveCourse(s, courseId).users == s.users
  {
    FilterPairwise(s.enrollments, EnrollmentCourseIsNot(courseId), DistinctPairs);
  }

  lemma UpdateEnrollmentKeepsConsistent(s: AppState, courseId: string, status: CourseStatus, id: string, now: Timestamp)
    requires Consistent(s)
    ensures Consistent(UpdateEnrollment(s, courseId, status, id, now))
    ensures NoPointLoss(s.users, UpdateEnrollment(s, courseId, status, id, now).users)
  {
    if s.currentUser.Some? {
      var uid := s.currentUser.value.id;
      AwardKeepsUsers(s, CompletionBonus(s.enrollments, uid, courseId, status));
      UpsertKeepsPairsUnique(s.enrollments, uid, courseId, status, id, now);
    }
  }

  lemma AddFeedbackKeepsConsistent(s: AppState, courseId: string, rating: int, comment: string, id: string, now: Timestamp)
    requires Consistent(s)
    ensures Consistent(AddFeedback(s, courseId, rating, comment, id, now))
    ensures NoPointLoss(s.users, AddFeedback(s, courseId, rating, comment, id, now).users)
  {
    AwardKeepsUsers(s, FEEDBACK_POINTS);
  }

  /** A role change keeps ids, emails and points, and the session stays the record of its id. */
  lemma SetRoleKeepsUsers(s: AppState, userId: string, role: UserRole)
    requires Consistent(s)
    ensures var users := SetRole(s.users, userId, role);
      && UniqueUserIds(users) && UniqueEmails(users) && NonNegativePoints(users)
      && NoPointLoss(s.users, users)
      && (s.currentUser.Some? ==> SetSessionRole(s.currentUser, userId, role).value in users)
  {
    var users := SetRole(s.users, userId, role);
    SetRoleEffect(s.users, userId, role);
    assert SameIdentities(s.users, users);
    SameIdentitiesKeepUniqueness(s.users, users);
    if s.currentUser.Some? {
      var k :| 0 <= k < |s.users| && s.users[k] == s.currentUser.value;
      assert users[k] == SetSessionRole(s.currentUser, userId, role).value;
    }
  }

  lemma PromoteKeepsConsistent(s: AppState, userId: string)
    requires Consistent(s)
    ensures Consistent(PromoteUser(s, userId))
    ensures NoPointLoss(s.users, PromoteUser(s, userId).users)
  {
    PromoteRespectsCap(s, userId);
    SetRoleKeepsUsers(s, userId, Admin);
  }

  lemma DemoteKeepsConsistent(s: AppState, userId: string)
    requires Consistent(s)
    ensures Consistent(DemoteUser(s, userId))
    ensures NoPointLoss(s.users, DemoteUser(s, userId).users)
  {
    DemoteCount(s, userId);
    SetRoleKeepsUsers(s, userId, Researcher);
  }

  // ---------------------------------------------------------------- runs of mutations

  /** A user action that reaches the store, with the id and time the browser would supply. Sign-up
      goes through the form's duplicate-email guard. */
  datatype Mutation =
    | SignIn(email: string)
    | SignUp(name: string, email: string, id: string, now: Timestamp)
    | SignOut
    | PostCourse(draft: CourseDraft, id: string, now: Timestamp)
    | DeleteCourse(courseId: string)
    | SetStatus(courseId: string, status: CourseStatus, id: string, now: Timestamp)
    | Review(courseId: string, rating: int, comment: string, id: string, now: Timestamp)
    | Grant(userId: string)
    | Revoke(userId: string)

  function Apply(s: AppState, m: Mutation): AppState {
    match m
    case SignIn(email) => Login(s, email).1
    case SignUp(name, email, id, now) =>
      if LoginPage.EmailTaken(s.users, email) then s else Register(s, name, email, id, now)
    case SignOut => Logout(s)
    case PostCourse(d, id, now) => AddCourse(s, d, id, now)
    case DeleteCourse(courseId) => RemoveCourse(s, courseId)
    case SetStatus(courseId, status, id, now) => UpdateEnrollment(s, courseId, status, id, now)
    case Review(courseId, rating, comment, id, now) => AddFeedback(s, courseId, rating, comment, id, now)
    case Grant(userId) => PromoteUser(s, userId)
    case Revoke(userId) => DemoteUser(s, userId)
  }

  /** A new account's id is not in use yet. */
  predicate FreshFor(s: AppState, m: Mutation) {
    m.SignUp? ==> forall i :: 0 <= i < |s.users| ==> s.users[i].id != m.id
  }

  function Run(s: AppState, ms: seq<Mutation>): AppState
    decreases |ms|
  {
    if ms == [] then s else Run(Apply(s, ms[0]), ms[1..])
  }

  predicate FreshRun(s: AppState, ms: seq<Mutation>)
    decreases |ms|
  {
    ms == [] || (FreshFor(s, ms[0]) && FreshRun(Apply(s, ms[0]), ms[1..]))
  }

  /** Every mutation keeps the store consistent and takes no points away from anyone. */
  lemma ApplyKeepsConsistent(s: AppState, m: Mutation)
    requires Consistent(s) && FreshFor(s, m)
    ensures Consistent(Apply(s, m)) && NoPointLoss(s.users, Apply(s, m).users)
  {
    match m
    case SignIn(email) => LoginKeepsConsistent(s, email);
    case SignUp(name, email, id, now) =>
      if !LoginPage.EmailTaken(s.users, email) {
        RegisterKeepsConsistent(s, name, email, id, now);
      }
    case SignOut => LogoutKeepsConsistent(s);
    case PostCourse(d, id, now) => AddCourseKeepsConsistent(s, d, id, now);
    case DeleteCourse(courseId) => RemoveCourseKeepsConsistent(s, courseId);
    case SetStatus(courseId, status, id, now) => UpdateEnrollmentKeepsConsistent(s, courseId, status, id, now);
    case Review(courseId, rating, comment, id, now) => AddFeedbackKeepsConsistent(s, courseId, rating, comment, id, now);
    case Grant(userId) => PromoteKeepsConsistent(s, userId);
    case Revoke(userId) => DemoteKeepsConsistent(s, userId);
  }

  lemma NoPointLossTrans(a: seq<User>, b: seq<User>, c: seq<User>)
    requires NoPointLoss(a, b) && NoPointLoss(b, c)
    ensures NoPointLoss(a, c)
  {
  }

  /** Any run of mutations with fresh account ids keeps the store consistent, and every user
      keeps their place with at least the points they had. */
  lemma {:induction false} RunKeepsConsistent(s: AppState, ms: seq<Mutation>)
    requires Consistent(s) && FreshRun(s, ms)
    ensures Consistent(Run(s, ms)) && NoPointLoss(s.users, Run(s, ms).users)
    decreases |ms|
  {
    if ms != [] {
      var next := Apply(s, ms[0]);
      ApplyKeepsConsistent(s, ms[0]);
      RunKeepsConsistent(next, ms[1..]);
      NoPointLossTrans(s.users, next.users, Run(next, ms[1..]).users);
    }
  }

  lemma UniqueFromDistinct(users: seq<User>)
    requires forall i, j :: 0 <= i < j < |users| ==> users[i].id != users[j].id
    requires forall i, j :: 0 <= i < j < |users| ==> Lower(users[i].email) != Lower(users[j].email)
    ensures UniqueUserIds(users) && UniqueEmails(users)
  {
  }

  /** The seed is consistent. */
  lemma SeedConsistent(s: AppState)
    requires s == SEED_STATE
    ensures Consistent(s)
  {
    var users := Seed.INITIAL_USERS;
    assert s.users == users && s.enrollments == [] && s.currentUser == None;
    assert UniqueUserIds(users) && UniqueEmails(users) by {
      Seed.SeedUserIdsDistinct();
      Seed.SeedEmailsDistinct();
      UniqueFromDistinct(users);
    }
    assert NonNegativePoints(users) by {
      Seed.SeedPointsNonNegative();
    }
    assert AdminCount(users) <= |users| == 5;
  }

  /** From the seed, every run with fresh account ids ends consistent: in particular at most 10
      administrators and at most one enrollment per user and course. */
  lemma SeedRunsStayConsistent(s: AppState, ms: seq<Mutation>)
    requires s == SEED_STATE && FreshRun(s, ms)
    ensures Consistent(Run(s, ms))
    ensures AdminCount(Run(s, ms).users) <= MAX_ADMINS && UniquePairs(Run(s, ms).enrollments)
  {
    SeedConsistent(s);
    RunKeepsConsistent(s, ms);
  }

  // ---------------------------------------------------------------- what the invariant does not survive

  /** A pull that brings a user list without the session user leaves a session that is no
      longer one of the users: `fetchFromCloud` keeps `prev.currentUser` whatever arrives. */
  lemma PullCanOrphanSession(u: User, v: User, c: Course)
    requires u != v && u.points >= 0
    ensures var s := AppState([u], [], [], [], Some(u));
      var data := Some(RemoteData(Some([v]), Some([c]), None, None));
      Consistent(s) && !SessionInUsers(PullMerge(s, data))
  {
    var s := AppState([u], [], [], [], Some(u));
    assert AdminCount(s.users) <= 1;
  }
}
