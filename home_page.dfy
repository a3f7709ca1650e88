/** What the catalog page computes from the snapshot (pages/Home.tsx): the filtered, latest-first
    course list, the lookups each course card makes, the tags of a posted course and the list of
    AI suggestions. */
module HomePage {
  import opened Types
  import opened Text
  import opened Lists
  import opened App
  import EnrollmentProperties

  const ALL := "All"
  const UNKNOWN := "Unknown"

  // ---------------------------------------------------------------- filteredCourses

  /** The lower-cased title or description contains the lower-cased search term. */
  predicate MatchesSearch(c: Course, term: string) {
    Includes(Lower(c.title), Lower(term)) || Includes(Lower(c.description), Lower(term))
  }

  predicate MatchesCategory(c: Course, category: string) {
    category == ALL || c.category == category
  }

  function Shown(term: string, category: string): Course -> bool {
    (c: Course) => MatchesSearch(c, term) && MatchesCategory(c, category)
  }

  function CreatedAt(c: Course): int {
    c.createdAt
  }

  /** `filteredCourses` under the default 'latest' order: exactly the courses matching the search
      and the category, newest first, as a sorted copy of the filtered list. */
  function FilteredCourses(courses: seq<Course>, term: string, category: string): (r: seq<Course>)
    ensures forall c :: c in r <==> c in courses && MatchesSearch(c, term) && MatchesCategory(c, category)
    ensures multiset(r) == multiset(Filter(courses, Shown(term, category)))
    ensures SortedDesc(r, CreatedAt)
  {
    var shown := Filter(courses, Shown(term, category));
    SortDescMembers(shown, CreatedAt);
    SortDesc(shown, CreatedAt)
  }

  /** An empty search with 'All' selected shows every course, newest first. */
  lemma EmptySearchShowsAll(courses: seq<Course>)
    ensures multiset(FilteredCourses(courses, "", ALL)) == multiset(courses)
  {
    forall i | 0 <= i < |courses| ensures Shown("", ALL)(courses[i]) {
      IncludesEmpty(Lower(courses[i].title));
    }
    FilterAll(courses, Shown("", ALL));
  }

  /** The search ignores the case of the term. */
  lemma SearchIgnoresCase(courses: seq<Course>, term: string, category: string)
    ensures FilteredCourses(courses, Lower(term), category) == FilteredCourses(courses, term, category)
  {
    LowerIdempotent(term);
    FilterSame(courses, Shown(Lower(term), category), Shown(term, category));
  }

  // ---------------------------------------------------------------- the course card

  /** The status the card's select shows: the status of the first enrollment of the session user
      for the course, NOT_STARTED when there is none or nobody is logged in. */
  function CardStatus(es: seq<Enrollment>, courseId: string, session: Option<User>): (st: CourseStatus)
    ensures session.None? ==> st == NotStarted
    ensures session.Some? && !HasPair(es, session.value.id, courseId) ==> st == NotStarted
    ensures forall k :: session.Some? && FirstPairAt(es, session.value.id, courseId, k) ==> st == es[k].status
  {
    if session.None? then NotStarted
    else
      var k := FindIndex(es, PairOf(session.value.id, courseId));
      if k >= 0 then
        assert FirstPairAt(es, session.value.id, courseId, k);
        es[k].status
      else NotStarted
  }

  /** Choosing a status on a card makes the card show it. */
  lemma CardShowsChosenStatus(s: AppState, courseId: string, status: CourseStatus, id: string, now: Timestamp)
    requires s.currentUser.Some?
    ensures var r := UpdateEnrollment(s, courseId, status, id, now);
      CardStatus(r.enrollments, courseId, r.currentUser) == status
  {
    var uid := s.currentUser.value.id;
    EnrollmentProperties.UpdateKeepsSessionUser(s, courseId, status, id, now);
    EnrollmentProperties.UpsertFirstPair(s.enrollments, uid, courseId, status, id, now);
  }

  /** `users[i]` is the first user with the id. */
  predicate FirstIdAt(users: seq<User>, userId: string, i: int) {
    0 <= i < |users| && users[i].id == userId && forall j :: 0 <= j < i ==> users[j].id != userId
  }

  function IdIs(userId: string): User -> bool {
    (u: User) => u.id == userId
  }

  /** `users.find(u => u.id === course.recommendedBy)?.name || 'Unknown'`: the first matching
      user's name, or 'Unknown' when nobody has the id or that name is empty. */
  function RecommenderName(users: seq<User>, recommendedBy: string): (name: string)
    ensures |name| > 0
    ensures (forall i :: 0 <= i < |users| ==> users[i].id != recommendedBy) ==> name == UNKNOWN
    ensures forall i :: FirstIdAt(users, recommendedBy, i) ==>
      name == if |users[i].name| > 0 then users[i].name else UNKNOWN
  {
    var k := FindIndex(users, IdIs(recommendedBy));
    if k >= 0 && |users[k].name| > 0 then
      assert FirstIdAt(users, recommendedBy, k);
      users[k].name
    else
      assert k >= 0 ==> FirstIdAt(users, recommendedBy, k);
      UNKNOWN
  }

  /** With unique ids every user with a name is credited by that name. */
  lemma RecommenderNamed(users: seq<User>, i: int)
    requires UniqueUserIds(users) && 0 <= i < |users| && |users[i].name| > 0
    ensures RecommenderName(users, users[i].id) == users[i].name
  {
    forall j | 0 <= j < i ensures users[j].id != users[i].id {
      assert DistinctIds(users[j], users[i]);
    }
    assert FirstIdAt(users, users[i].id, i);
  }

  /** The rating shown on a card: 'N/A', or the average of the course's ratings, kept here as the
      exact sum and count that the page divides and rounds. */
  datatype RatingLabel = NotAvailable | Average(total: int, count: nat)

  function FeedbackCourseIs(courseId: string): Feedback -> bool {
    (f: Feedback) => f.courseId == courseId
  }

  function SumRatings(fs: seq<Feedback>): int {
    if fs == [] then 0 else fs[0].rating + SumRatings(fs[1..])
  }

  /** 'N/A' exactly when the course has no feedback; otherwise the total and number of its ratings. */
  function RatingLabelFor(feedback: seq<Feedback>, courseId: string): (l: RatingLabel)
    ensures l.NotAvailable? <==> forall f :: f in feedback ==> f.courseId != courseId
    ensures l.Average? ==> l.count > 0 && l.count == |Filter(feedback, FeedbackCourseIs(courseId))|
    ensures l.Average? ==> l.total == SumRatings(Filter(feedback, FeedbackCourseIs(courseId)))
  {
    var fs := Filter(feedback, FeedbackCourseIs(courseId));
    if |fs| > 0 then
      assert fs[0] in fs;
      Average(SumRatings(fs), |fs|)
    else
      assert forall f :: f in feedback ==> !FeedbackCourseIs(courseId)(f);
      NotAvailable
  }

  /** Ratings from 1 to 5 give an average from 1 to 5. */
  lemma {:induction false} SumRatingsBounds(fs: seq<Feedback>)
    requires forall i :: 0 <= i < |fs| ==> 1 <= fs[i].rating <= 5
    ensures |fs| <= SumRatings(fs) <= 5 * |fs|
  {
    if fs != [] {
      SumRatingsBounds(fs[1..]);
    }
  }

  lemma AverageInRange(feedback: seq<Feedback>, courseId: string)
    requires forall i :: 0 <= i < |feedback| ==> 1 <= feedback[i].rating <= 5
    ensures var l := RatingLabelFor(feedback, courseId);
      l.Average? ==> l.count <= l.total <= 5 * l.count
  {
    var fs := Filter(feedback, FeedbackCourseIs(courseId));
    forall i | 0 <= i < |fs| ensures 1 <= fs[i].rating <= 5 {
      assert fs[i] in feedback;
    }
    SumRatingsBounds(fs);
  }

  /** The delete button appears exactly for administrators, the only ones `removeCourse` obeys. */
  lemma DeleteButtonMatchesGuard(s: AppState, c: Course)
    requires c in s.courses
    ensures SessionIsAdmin(s) ==> c !in RemoveCourse(s, c.id).courses
    ensures !SessionIsAdmin(s) ==> RemoveCourse(s, c.id) == s
  {
  }

  // ---------------------------------------------------------------- posting a course

  /** A tag as the form stores it: no comma inside and no white space at either end. */
  predicate CleanTag(t: string) {
    ',' !in t && (t == [] || (!IsSpace(t[0]) && !IsSpace(t[|t| - 1])))
  }

  /** `(formData.get('tags') as string).split(',').map(t => t.trim())`: one tag per comma-separated
      piece, each the piece with white space cut from both ends, so a clean tag. */
  function ParseTags(raw: string): (tags: seq<string>)
    ensures |tags| == Occurrences(raw, ',') + 1
    ensures forall k :: 0 <= k < |tags| ==> TrimmedFrom(Split(raw, ',')[k], tags[k])
    ensures forall k :: 0 <= k < |tags| ==> CleanTag(tags[k])
  {
    var pieces := Split(raw, ',');
    var tags := seq(|pieces|, k requires 0 <= k < |pieces| => Trim(pieces[k]));
    forall k | 0 <= k < |tags| ensures CleanTag(tags[k]) {
      TrimmedKeepsOut(pieces[k], tags[k], ',');
    }
    tags
  }

  /** Clean tags survive being typed comma-separated and parsed again. */
  lemma ParseTagsOfJoin(tags: seq<string>)
    requires |tags| > 0
    requires forall k :: 0 <= k < |tags| ==> CleanTag(tags[k])
    ensures ParseTags(Join(tags, ',')) == tags
  {
    SplitJoin(tags, ',');
    forall k | 0 <= k < |tags| ensures Trim(tags[k]) == tags[k] {
      TrimClean(tags[k]);
    }
  }

  /** `currentUser?.id || '1'`: the recommender a posted course is credited to. */
  function RecommenderFor(session: Option<User>): (id: string)
    ensures session.Some? && |session.value.id| > 0 ==> id == session.value.id
    ensures session.None? ==> id == "1"
    ensures session.Some? && |session.value.id| == 0 ==> id == "1"
    ensures |id| > 0
  {
    if session.Some? && |session.value.id| > 0 then session.value.id else "1"
  }

  /** What the course form submits. */
  function FormDraft(title: string, description: string, link: string, delivery: Delivery, category: string,
                     rawTags: string, session: Option<User>): (d: CourseDraft)
    ensures d.recommendedBy == RecommenderFor(session) && d.tags == ParseTags(rawTags)
    ensures d.title == title && d.description == description && d.link == link
    ensures d.delivery == delivery && d.category == category
  {
    CourseDraft(title, description, link, delivery, category, RecommenderFor(session), ParseTags(rawTags))
  }

  // ---------------------------------------------------------------- AI suggestions

  /** One suggestion as the page reads it. */
  datatype Suggestion = Suggestion(title: string, description: string, category: string, tags: seq<string>)

  /** What 'Add to Hub' submits: an online course with the placeholder link '#'. */
  function SuggestionDraft(sg: Suggestion, session: Option<User>): (d: CourseDraft)
    ensures d.link == "#" && d.delivery == Online && d.recommendedBy == RecommenderFor(session)
    ensures d.title == sg.title && d.description == sg.description
    ensures d.category == sg.category && d.tags == sg.tags
  {
    CourseDraft(sg.title, sg.description, "#", Online, sg.category, RecommenderFor(session), sg.tags)
  }

  /** `prev.filter((_, idx) => idx !== i)`: exactly the suggestion at index `i` goes, the others
      keep their order; an index outside the list removes nothing. */
  function DropAt<T>(s: seq<T>, i: int): (r: seq<T>)
    ensures 0 <= i < |s| ==> |r| == |s| - 1
    ensures 0 <= i < |s| ==> forall j :: 0 <= j < |r| ==> r[j] == if j < i then s[j] else s[j + 1]
    ensures !(0 <= i < |s|) ==> r == s
  {
    if 0 <= i < |s| then s[..i] + s[i + 1..] else s
  }

  /** Dropping an entry loses exactly that one occurrence. */
  lemma DropAtMultiset<T>(s: seq<T>, i: int)
    requires 0 <= i < |s|
    ensures multiset(DropAt(s, i)) + multiset{s[i]} == multiset(s)
  {
    assert s == s[..i] + [s[i]] + s[i + 1..];
  }
}
