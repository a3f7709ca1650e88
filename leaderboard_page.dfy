/** The leaderboard (pages/Leaderboard.tsx): three rankings of the users, by points, by courses
    recommended and by courses fully completed, each shown as a panel of the first ten. */
module LeaderboardPage {
  import opened Types
  import opened Lists
  import opened App
  import MyLearningPage

  const PANEL_SIZE := 10

  // ---------------------------------------------------------------- points

  function Points(u: User): int {
    u.points
  }

  /** `sortedByPoints`: a reordering of the users, most points first; the store's list is a
      value here, so it cannot be reordered by the sort. */
  function SortedByPoints(users: seq<User>): (r: seq<User>)
    ensures multiset(r) == multiset(users)
    ensures SortedDesc(r, Points)
  {
    SortDesc(users, Points)
  }

  // ---------------------------------------------------------------- tallies

  /** A user together with the number the panel shows for them. */
  datatype Tally = Tally(user: User, count: nat)

  function TallyCount(t: Tally): int {
    t.count
  }

  function RecommendedBy(userId: string): Course -> bool {
    (c: Course) => c.recommendedBy == userId
  }

  /** `courses.filter(c => c.recommendedBy === u.id).length`. */
  function Recommendations(courses: seq<Course>, userId: string): (n: nat)
    ensures n <= |courses|
    ensures n == 0 <==> forall c :: c in courses ==> c.recommendedBy != userId
  {
    var picked := Filter(courses, RecommendedBy(userId));
    assert picked != [] ==> picked[0] in picked;
    |picked|
  }

  function CompletedBy(userId: string): Enrollment -> bool {
    (e: Enrollment) => e.userId == userId && e.status == FullyCompleted
  }

  /** `enrollments.filter(e => e.userId === u.id && e.status === 'FULLY_COMPLETED').length`. */
  function Completions(es: seq<Enrollment>, userId: string): (n: nat)
    ensures n <= |es|
    ensures n == 0 <==> forall e :: e in es ==> !(e.userId == userId && e.status == FullyCompleted)
    ensures n == |set i | 0 <= i < |es| && es[i].userId == userId && es[i].status == FullyCompleted|
  {
    var picked := Filter(es, CompletedBy(userId));
    assert picked != [] ==> picked[0] in picked;
    FilterCount(es, CompletedBy(userId));
    assert Positions(es, CompletedBy(userId))
        == set i | 0 <= i < |es| && es[i].userId == userId && es[i].status == FullyCompleted;
    |picked|
  }

  /** `users.map(u => ({...u, recommendations: ...}))`, before sorting. */
  function RecommenderTallies(users: seq<User>, courses: seq<Course>): (r: seq<Tally>)
    ensures |r| == |users|
    ensures forall i :: 0 <= i < |r| ==> r[i] == Tally(users[i], Recommendations(courses, users[i].id))
  {
    seq(|users|, i requires 0 <= i < |users| => Tally(users[i], Recommendations(courses, users[i].id)))
  }

  function ActivityTallies(users: seq<User>, es: seq<Enrollment>): (r: seq<Tally>)
    ensures |r| == |users|
    ensures forall i :: 0 <= i < |r| ==> r[i] == Tally(users[i], Completions(es, users[i].id))
  {
    seq(|users|, i requires 0 <= i < |users| => Tally(users[i], Completions(es, users[i].id)))
  }

  /** `recommenderCounts`: one entry per user with the number of courses they recommended, most
      first. */
  function RecommenderCounts(users: seq<User>, courses: seq<Course>): (r: seq<Tally>)
    ensures |r| == |users|
    ensures multiset(r) == multiset(RecommenderTallies(users, courses))
    ensures SortedDesc(r, TallyCount)
    ensures forall t :: t in r <==> t.user in users && t.count == Recommendations(courses, t.user.id)
  {
    var tallies := RecommenderTallies(users, courses);
    SortDescMembers(tallies, TallyCount);
    assert forall t :: t in tallies <==> t.user in users && t.count == Recommendations(courses, t.user.id) by {
      forall t ensures t in tallies <==> t.user in users && t.count == Recommendations(courses, t.user.id) {
        if t.user in users && t.count == Recommendations(courses, t.user.id) {
          var i :| 0 <= i < |users| && users[i] == t.user;
          assert tallies[i] == t;
        }
      }
    }
    SortDesc(tallies, TallyCount)
  }

  /** `activityCounts`: one entry per user with the number of courses they fully completed, most
      first. */
  function ActivityCounts(users: seq<User>, es: seq<Enrollment>): (r: seq<Tally>)
    ensures |r| == |users|
    ensures multiset(r) == multiset(ActivityTallies(users, es))
    ensures SortedDesc(r, TallyCount)
    ensures forall t :: t in r <==> t.user in users && t.count == Completions(es, t.user.id)
  {
    var tallies := ActivityTallies(users, es);
    SortDescMembers(tallies, TallyCount);
    assert forall t :: t in tallies <==> t.user in users && t.count == Completions(es, t.user.id) by {
      forall t ensures t in tallies <==> t.user in users && t.count == Completions(es, t.user.id) {
        if t.user in users && t.count == Completions(es, t.user.id) {
          var i :| 0 <= i < |users| && users[i] == t.user;
          assert tallies[i] == t;
        }
      }
    }
    SortDesc(tallies, TallyCount)
  }

  /** Posting a course credits exactly its recommender with one more recommendation. */
  lemma PostingCreditsRecommender(s: AppState, d: CourseDraft, id: string, now: Timestamp, userId: string)
    ensures Recommendations(AddCourse(s, d, id, now).courses, userId)
         == Recommendations(s.courses, userId) + (if d.recommendedBy == userId then 1 else 0)
  {
    var c := Publish(d, id, now);
    FilterAppend([c], s.courses, RecommendedBy(userId));
  }

  /** The leaderboard's completion count for a user agrees with the 'Completed' tile that user
      sees on their own learning page. */
  lemma CompletionsMatchLearningPage(es: seq<Enrollment>, u: User)
    ensures Completions(es, u.id) == MyLearningPage.StatsFor(es, Some(u)).completed
  {
    var session := Some(u);
    FilterFilter(es, MyLearningPage.OwnedFor(session), MyLearningPage.IsDone, CompletedBy(u.id));
  }

  // ---------------------------------------------------------------- panels

  /** One row of a panel: its rank, counted from 1, and what it shows. */
  datatype Entry<T> = Entry(rank: nat, item: T)

  /** `list.slice(0, 10).map((u, i) => ... i + 1 ...)`: the first ten of a ranking, ranked 1 to 10
      in list order. */
  function Panel<T>(s: seq<T>): (r: seq<Entry<T>>)
    ensures |r| == if |s| < PANEL_SIZE then |s| else PANEL_SIZE
    ensures forall i :: 0 <= i < |r| ==> r[i].rank == i + 1 && r[i].item == s[i]
  {
    var top := Take(s, PANEL_SIZE);
    seq(|top|, i requires 0 <= i < |top| => Entry(i + 1, top[i]))
  }

  /** On a ranking sorted by a key, everything a panel shows scores at least as much as anything
      left off it, and a better rank never scores less. */
  lemma PanelShowsTop<T>(s: seq<T>, key: T -> int)
    requires SortedDesc(s, key)
    ensures forall i, j :: 0 <= i < |Panel(s)| <= j < |s| ==> key(Panel(s)[i].item) >= key(s[j])
    ensures forall i, j :: 0 <= i < j < |Panel(s)| ==> key(Panel(s)[i].item) >= key(Panel(s)[j].item)
  {
  }

  /** A user with more points than some user on the points panel is on it too. */
  lemma PointsPanelIsTopTen(users: seq<User>, u: User)
    requires u in users
    requires exists i :: 0 <= i < |Panel(SortedByPoints(users))| && Panel(SortedByPoints(users))[i].item.points < u.points
    ensures exists i :: 0 <= i < |Panel(SortedByPoints(users))| && Panel(SortedByPoints(users))[i].item == u
  {
    var r := SortedByPoints(users);
    var p := Panel(r);
    assert u in multiset(r);
    var j :| 0 <= j < |r| && r[j] == u;
    var i :| 0 <= i < |p| && p[i].item.points < u.points;
    PanelShowsTop(r, Points);
    assert j < |p|;
    assert p[j].item == u;
  }
}
