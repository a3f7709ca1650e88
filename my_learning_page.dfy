/** The personal learning page (pages/MyLearning.tsx): the session user's enrollments, split into
    courses in progress and courses completed, the activity history, the stat tiles, the review
    offer and the review form. */
module MyLearningPage {
  import opened Types
  import opened Lists
  import opened App
  import AppContext
  import EnrollmentProperties

  const NEXT_LEVEL := 250
  const DEFAULT_RATING := 5
  /** The five buttons of the rating picker. */
  const RATING_OPTIONS: seq<int> := [1, 2, 3, 4, 5]

  // ---------------------------------------------------------------- derived lists

  /** `e.userId === currentUser?.id`: nobody owns anything when nobody is logged in. */
  predicate OwnedBy(e: Enrollment, session: Option<User>) {
    session.Some? && e.userId == session.value.id
  }

  function OwnedFor(session: Option<User>): Enrollment -> bool {
    (e: Enrollment) => OwnedBy(e, session)
  }

  /** `myEnrollments`: exactly the session user's enrollments, in store order. */
  function MyEnrollments(es: seq<Enrollment>, session: Option<User>): (r: seq<Enrollment>)
    ensures forall e :: e in r <==> e in es && OwnedBy(e, session)
    ensures multiset(r) <= multiset(es)
    ensures session.None? ==> r == []
  {
    if session.None? then
      FilterNone(es, OwnedFor(session));
      Filter(es, OwnedFor(session))
    else Filter(es, OwnedFor(session))
  }

  function UpdatedAt(e: Enrollment): int {
    e.updatedAt
  }

  /** `history`: the same enrollments as `myEnrollments`, most recent activity first. */
  function History(es: seq<Enrollment>, session: Option<User>): (r: seq<Enrollment>)
    ensures multiset(r) == multiset(MyEnrollments(es, session))
    ensures SortedDesc(r, UpdatedAt)
  {
    SortDesc(MyEnrollments(es, session), UpdatedAt)
  }

  predicate IsActive(e: Enrollment) {
    e.status == InProgress || e.status == PartiallyCompleted
  }

  predicate IsDone(e: Enrollment) {
    e.status == FullyCompleted
  }

  predicate IsFresh(e: Enrollment) {
    e.status == NotStarted
  }

  /** `inProgress`: the session user's enrollments in progress or partially completed. */
  function InProgressList(es: seq<Enrollment>, session: Option<User>): (r: seq<Enrollment>)
    ensures forall e :: e in r <==> e in es && OwnedBy(e, session) && IsActive(e)
    ensures multiset(r) <= multiset(MyEnrollments(es, session))
  {
    Filter(MyEnrollments(es, session), IsActive)
  }

  /** `completed`: the session user's fully completed enrollments. */
  function CompletedList(es: seq<Enrollment>, session: Option<User>): (r: seq<Enrollment>)
    ensures forall e :: e in r <==> e in es && OwnedBy(e, session) && IsDone(e)
    ensures multiset(r) <= multiset(MyEnrollments(es, session))
  {
    Filter(MyEnrollments(es, session), IsDone)
  }

  /** The two lists never share an enrollment. */
  lemma PartitionDisjoint(es: seq<Enrollment>, session: Option<User>)
    ensures forall e :: !(e in InProgressList(es, session) && e in CompletedList(es, session))
  {
  }

  /** Every enrollment is in progress, completed or not started, and exactly one of them. */
  lemma {:induction false} StatusSplit(s: seq<Enrollment>)
    ensures |Filter(s, IsActive)| + |Filter(s, IsDone)| + |Filter(s, IsFresh)| == |s|
  {
    if s != [] {
      StatusSplit(s[1..]);
      assert |Filter(s, IsActive)| == (if IsActive(s[0]) then 1 else 0) + |Filter(s[1..], IsActive)|;
      assert |Filter(s, IsDone)| == (if IsDone(s[0]) then 1 else 0) + |Filter(s[1..], IsDone)|;
      assert |Filter(s, IsFresh)| == (if IsFresh(s[0]) then 1 else 0) + |Filter(s[1..], IsFresh)|;
    }
  }

  // ---------------------------------------------------------------- stat tiles

  datatype Stats = Stats(started: nat, completed: nat, points: int)

  /** The three tiles. 'Courses Started' counts every enrollment of the user, not-started ones
      included; 'Completed' counts the fully completed ones; 'Total Points' is 0 when logged out. */
  function StatsFor(es: seq<Enrollment>, session: Option<User>): (st: Stats)
    ensures st.started == |MyEnrollments(es, session)|
    ensures st.completed == |CompletedList(es, session)|
    ensures st.started == st.completed + |InProgressList(es, session)|
                          + |Filter(MyEnrollments(es, session), IsFresh)|
    ensures st.points == if session.Some? then session.value.points else 0
  {
    StatusSplit(MyEnrollments(es, session));
    Stats(|MyEnrollments(es, session)|, |CompletedList(es, session)|,
          if session.Some? then session.value.points else 0)
  }

  /** 'Points to next level': 250 minus the points, which turns negative past 250. */
  function PointsToNextLevel(session: Option<User>): (n: int)
    ensures n < 0 <==> session.Some? && session.value.points > NEXT_LEVEL
    ensures n + StatsFor([], session).points == NEXT_LEVEL
  {
    NEXT_LEVEL - (if session.Some? then session.value.points else 0)
  }

  // ---------------------------------------------------------------- review offer

  function ReviewOf(userId: string, courseId: string): Feedback -> bool {
    (f: Feedback) => f.userId == userId && f.courseId == courseId
  }

  /** `feedback.some(f => f.userId === currentUser?.id && f.courseId === e.courseId)`. */
  function HasFeedback(feedback: seq<Feedback>, session: Option<User>, courseId: string): (b: bool)
    ensures b <==> session.Some? && exists i :: 0 <= i < |feedback| && feedback[i].userId == session.value.id
                                                 && feedback[i].courseId == courseId
  {
    session.Some? && Any(feedback, ReviewOf(session.value.id, courseId))
  }

  function CourseIdIs(courseId: string): Course -> bool {
    (c: Course) => c.id == courseId
  }

  /** A history row shows 'Rate & Review' exactly when its course still exists, the enrollment is
      fully completed and the user has not reviewed that course yet. */
  function ReviewOffered(s: AppState, e: Enrollment): (b: bool)
    ensures b <==> (exists i :: 0 <= i < |s.courses| && s.courses[i].id == e.courseId)
                   && e.status == FullyCompleted
                   && !HasFeedback(s.feedback, s.currentUser, e.courseId)
  {
    Any(s.courses, CourseIdIs(e.courseId)) && e.status == FullyCompleted
    && !HasFeedback(s.feedback, s.currentUser, e.courseId)
  }

  /** Submitting a review for a course withdraws the offer for that course. */
  lemma ReviewWithdrawsOffer(s: AppState, e: Enrollment, rating: int, comment: string, id: string, now: Timestamp)
    requires s.currentUser.Some?
    ensures !ReviewOffered(AddFeedback(s, e.courseId, rating, comment, id, now), e)
  {
    var r := AddFeedback(s, e.courseId, rating, comment, id, now);
    assert r.currentUser.Some? && r.currentUser.value.id == s.currentUser.value.id by {
      AwardInStep(s.users, s.currentUser, FEEDBACK_POINTS);
    }
    assert r.feedback[|s.feedback|].userId == s.currentUser.value.id;
  }

  /** 'Mark Done' on a course in progress puts the user's enrollment for it in the completed list. */
  lemma MarkDoneCompletes(s: AppState, courseId: string, id: string, now: Timestamp)
    requires s.currentUser.Some?
    ensures var r := UpdateEnrollment(s, courseId, FullyCompleted, id, now);
      exists e :: e in CompletedList(r.enrollments, r.currentUser) && e.courseId == courseId
  {
    var uid := s.currentUser.value.id;
    var r := UpdateEnrollment(s, courseId, FullyCompleted, id, now);
    EnrollmentProperties.UpdateKeepsSessionUser(s, courseId, FullyCompleted, id, now);
    EnrollmentProperties.UpsertFirstPair(s.enrollments, uid, courseId, FullyCompleted, id, now);
    var k :| FirstPairAt(r.enrollments, uid, courseId, k) && r.enrollments[k].status == FullyCompleted;
    assert r.enrollments[k] in r.enrollments;
  }

  // ---------------------------------------------------------------- the review form

  /** The review modal's state: the course being reviewed (none while closed), the chosen rating
      and the comment. */
  class ReviewForm {
    var selected: Option<string>
    var rating: int
    var comment: string

    /** The picker only ever sets a rating it offers. */
    predicate Valid()
      reads this
    {
      rating in RATING_OPTIONS
    }

    constructor ()
      ensures Valid()
      ensures selected == None && rating == DEFAULT_RATING && comment == ""
    {
      selected := None;
      rating := DEFAULT_RATING;
      comment := "";
    }

    /** 'Rate & Review' opens the modal on the row's course. */
    method Open(courseId: string)
      modifies this
      ensures selected == Some(courseId) && rating == old(rating) && comment == old(comment)
    {
      selected := Some(courseId);
    }

    /** One of the five rating buttons. */
    method PickRating(v: int)
      requires v in RATING_OPTIONS
      modifies this
      ensures Valid()
      ensures rating == v && selected == old(selected) && comment == old(comment)
    {
      rating := v;
    }

    method EditComment(text: string)
      modifies this
      ensures comment == text && selected == old(selected) && rating == old(rating)
    {
      comment := text;
    }

    /** 'Cancel' closes the modal and keeps what was typed. */
    method Cancel()
      modifies this
      ensures selected == None && rating == old(rating) && comment == old(comment)
    {
      selected := None;
    }

    /** `handleFeedbackSubmit`: only with a course selected (an empty id counts as none) does
        anything happen: the review goes to the store and the form is reset to no course, an
        empty comment and rating 5. Without one, the form and the store stay as they are. A
        review submitted here is rated between 1 and 5. */
    method HandleFeedbackSubmit(app: AppContext.Store, id: string, now: Timestamp)
      requires Valid() && app.Valid()
      modifies this, app
      ensures Valid() && app.Valid()
      ensures old(selected).Some? && |old(selected).value| > 0 ==>
        && selected == None && comment == "" && rating == DEFAULT_RATING
        && app.state == AddFeedback(old(app.state), old(selected).value, old(rating), old(comment), id, now)
      ensures !(old(selected).Some? && |old(selected).value| > 0) ==> unchanged(this) && unchanged(app)
      ensures (forall i :: 0 <= i < |old(app.state).feedback| ==> 1 <= old(app.state).feedback[i].rating <= 5) ==>
        forall i :: 0 <= i < |app.state.feedback| ==> 1 <= app.state.feedback[i].rating <= 5
    {
      if selected.Some? && |selected.value| > 0 {
        app.AddFeedback(selected.value, rating, comment, id, now);
        selected := None;
        comment := "";
        rating := DEFAULT_RATING;
      }
    }
  }
}
