/** What `updateEnrollment` guarantees about enrollments and the completion bonus
    (App.tsx, lines 185-217). */
module EnrollmentProperties {
  import opened Types
  import opened Lists
  import opened App
  import Seed

  /** Rewriting one record without changing its (user, course) pair keeps the pairs unique. */
  lemma SamePairsKeepUnique(a: seq<Enrollment>, b: seq<Enrollment>)
    requires |a| == |b| && UniquePairs(a)
    requires forall i :: 0 <= i < |a| ==> b[i].userId == a[i].userId && b[i].courseId == a[i].courseId
    ensures UniquePairs(b)
  {
    forall i, j | 0 <= i < j < |b| ensures DistinctPairs(b[i], b[j]) {
      assert DistinctPairs(a[i], a[j]);
    }
  }

  /** Upsert-on-write keeps at most one enrollment per (user, course) pair. */
  lemma UpsertKeepsPairsUnique(es: seq<Enrollment>, userId: string, courseId: string, status: CourseStatus,
                               id: string, now: Timestamp)
    requires UniquePairs(es)
    ensures UniquePairs(Upsert(es, userId, courseId, status, id, now))
  {
    UpsertSpec(es, userId, courseId, status, id, now);
    var k := FindIndex(es, PairOf(userId, courseId));
    if k >= 0 {
      assert FirstPairAt(es, userId, courseId, k);
      SamePairsKeepUnique(es, es[k := es[k].(status := status, updatedAt := now)]);
    } else {
      PairwiseAppend(es, Enrollment(id, userId, courseId, status, now), DistinctPairs);
    }
  }

  /** After the upsert the first enrollment of the pair, the one the pages `find`, carries the
      new status and time, and every enrollment of another pair is where it was, unchanged. */
  lemma UpsertFirstPair(es: seq<Enrollment>, userId: string, courseId: string, status: CourseStatus,
                        id: string, now: Timestamp)
    ensures exists k ::
              && FirstPairAt(Upsert(es, userId, courseId, status, id, now), userId, courseId, k)
              && Upsert(es, userId, courseId, status, id, now)[k].status == status
              && Upsert(es, userId, courseId, status, id, now)[k].updatedAt == now
    ensures var r := Upsert(es, userId, courseId, status, id, now);
      forall i :: 0 <= i < |es| && !IsPair(es[i], userId, courseId) ==> r[i] == es[i]
  {
    UpsertSpec(es, userId, courseId, status, id, now);
    var r := Upsert(es, userId, courseId, status, id, now);
    var k := FindIndex(es, PairOf(userId, courseId));
    if k >= 0 {
      assert FirstPairAt(es, userId, courseId, k);
      assert r == es[k := es[k].(status := status, updatedAt := now)];
      assert FirstPairAt(r, userId, courseId, k) by {
        forall j | 0 <= j < k ensures !IsPair(r[j], userId, courseId) {
          assert r[j] == es[j];
        }
      }
      assert r[k].status == status && r[k].updatedAt == now;
    } else {
      assert FirstPairAt(r, userId, courseId, |es|);
    }
  }

  /** The enrollment list grows by one exactly when a logged-in user sets a status for a course
      they had no enrollment for; otherwise its length stays. */
  lemma EnrollmentCount(s: AppState, courseId: string, status: CourseStatus, id: string, now: Timestamp)
    ensures var r := UpdateEnrollment(s, courseId, status, id, now);
      (|r.enrollments| == |s.enrollments| + 1 <==>
        s.currentUser.Some? && !HasPair(s.enrollments, s.currentUser.value.id, courseId))
      && (|r.enrollments| == |s.enrollments| || |r.enrollments| == |s.enrollments| + 1)
  {
  }

  /** The session stays the same user: only its points may change. */
  lemma UpdateKeepsSessionUser(s: AppState, courseId: string, status: CourseStatus, id: string, now: Timestamp)
    requires s.currentUser.Some?
    ensures var r := UpdateEnrollment(s, courseId, status, id, now);
      r.currentUser.Some? && r.currentUser.value.id == s.currentUser.value.id
      && r.currentUser.value.points >= s.currentUser.value.points
  {
    var r := UpdateEnrollment(s, courseId, status, id, now);
    assert r.currentUser.value.(points := 0).id == s.currentUser.value.(points := 0).id;
  }

  /** After marking a course fully completed, the pair counts as completed. */
  lemma CompletionRecorded(s: AppState, courseId: string, id: string, now: Timestamp)
    requires s.currentUser.Some?
    ensures var r := UpdateEnrollment(s, courseId, FullyCompleted, id, now);
      PairCompleted(r.enrollments, s.currentUser.value.id, courseId)
  {
    var uid := s.currentUser.value.id;
    UpsertFirstPair(s.enrollments, uid, courseId, FullyCompleted, id, now);
    var r := Upsert(s.enrollments, uid, courseId, FullyCompleted, id, now);
    var k :| FirstPairAt(r, uid, courseId, k) && r[k].status == FullyCompleted;
  }

  /** Marking the same course fully completed twice in a row pays the 50 points once: the first
      call pays exactly when the pair was not completed yet, the second never pays. A status
      other than fully completed never pays. */
  lemma CompletingTwiceAwardsOnce(s: AppState, courseId: string, id1: string, now1: Timestamp,
                                  id2: string, now2: Timestamp)
    requires s.currentUser.Some?
    ensures var s1 := UpdateEnrollment(s, courseId, FullyCompleted, id1, now1);
      var s2 := UpdateEnrollment(s1, courseId, FullyCompleted, id2, now2);
      && s1.currentUser.Some? && s2.currentUser.Some?
      && s1.currentUser.value.points == s.currentUser.value.points
           + (if PairCompleted(s.enrollments, s.currentUser.value.id, courseId) then 0 else COMPLETION_POINTS)
      && s2.currentUser.value.points == s1.currentUser.value.points
      && s2.users == s1.users
  {
    var s1 := UpdateEnrollment(s, courseId, FullyCompleted, id1, now1);
    UpdateKeepsSessionUser(s, courseId, FullyCompleted, id1, now1);
    CompletionRecorded(s, courseId, id1, now1);
    assert CompletionBonus(s1.enrollments, s1.currentUser.value.id, courseId, FullyCompleted) == 0;
    var s2 := UpdateEnrollment(s1, courseId, FullyCompleted, id2, now2);
    assert s2.users == s1.users;
  }

  lemma OtherStatusesPayNothing(s: AppState, courseId: string, status: CourseStatus, id: string, now: Timestamp)
    requires status != FullyCompleted
    ensures var r := UpdateEnrollment(s, courseId, status, id, now);
      r.users == s.users
      && (s.currentUser.Some? ==> r.currentUser.Some? && r.currentUser.value.points == s.currentUser.value.points)
  {
    if s.currentUser.Some? {
      var r := UpdateEnrollment(s, courseId, status, id, now);
      assert AwardUsers(s.users, s.currentUser, 0) == s.users;
    }
  }

  /** With one enrollment per pair, stepping back from fully completed to another status and
      completing again pays the 50 points again: the bonus looks at the current status only. */
  lemma RecompletionPaysAgain(s: AppState, courseId: string, status: CourseStatus,
                              id1: string, now1: Timestamp, id2: string, now2: Timestamp)
    requires s.currentUser.Some? && UniquePairs(s.enrollments)
    requires status != FullyCompleted
    ensures var s1 := UpdateEnrollment(s, courseId, status, id1, now1);
      var s2 := UpdateEnrollment(s1, courseId, FullyCompleted, id2, now2);
      s2.currentUser.Some? && s2.currentUser.value.points == s.currentUser.value.points + COMPLETION_POINTS
  {
    var uid := s.currentUser.value.id;
    var s1 := UpdateEnrollment(s, courseId, status, id1, now1);
    UpdateKeepsSessionUser(s, courseId, status, id1, now1);
    OtherStatusesPayNothing(s, courseId, status, id1, now1);
    var r := s1.enrollments;
    UpsertKeepsPairsUnique(s.enrollments, uid, courseId, status, id1, now1);
    UpsertFirstPair(s.enrollments, uid, courseId, status, id1, now1);
    var k :| FirstPairAt(r, uid, courseId, k) && r[k].status == status;
    OnlyPairNotCompleted(r, uid, courseId, k);
  }

  /** With one enrollment per pair, the pair's first enrollment is its only one. */
  lemma OnlyPairNotCompleted(es: seq<Enrollment>, userId: string, courseId: string, k: int)
    requires UniquePairs(es) && FirstPairAt(es, userId, courseId, k) && es[k].status != FullyCompleted
    ensures !PairCompleted(es, userId, courseId)
  {
    forall j | 0 <= j < |es| && IsPair(es[j], userId, courseId) ensures j == k {
    }
  }

  /** The seed scenario: with Bob, the third seed user, signed in, starting course c1 and then
      completing it leaves one enrollment of (Bob, c1), fully completed, and Bob's 80 seed points
      become 130 in the session and in the user list. */
  lemma BobCompletesCourse(s: AppState, id1: string, now1: Timestamp, id2: string, now2: Timestamp)
    requires s == SEED_STATE.(currentUser := Some(Seed.INITIAL_USERS[2]))
    ensures var s1 := UpdateEnrollment(s, "c1", InProgress, id1, now1);
      var s2 := UpdateEnrollment(s1, "c1", FullyCompleted, id2, now2);
      && s2.enrollments == [Enrollment(id1, "2", "c1", FullyCompleted, now2)]
      && s2.currentUser == Some(Seed.INITIAL_USERS[2].(points := 130))
      && s2.users[2].points == 130
  {
    var users := Seed.INITIAL_USERS;
    var s1 := UpdateEnrollment(s, "c1", InProgress, id1, now1);
    assert s1.enrollments == [Enrollment(id1, "2", "c1", InProgress, now1)];
    OtherStatusesPayNothing(s, "c1", InProgress, id1, now1);
    assert s1.currentUser == s.currentUser && s1.users == users;
    var s2 := UpdateEnrollment(s1, "c1", FullyCompleted, id2, now2);
    assert !PairCompleted(s1.enrollments, "2", "c1");
    assert s2.currentUser == Some(users[2].(points := 130));
    assert AwardUsers(users, s1.currentUser, COMPLETION_POINTS)[2] == users[2].(points := 130);
  }
}
