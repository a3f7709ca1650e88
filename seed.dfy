/** The built-in demo data the store starts from when nothing is saved (constants.ts).
    Dates are the milliseconds since the epoch of the ISO dates written there. */
module Seed {
  import opened Types
  import opened Text

  const INITIAL_USERS: seq<User> := [
    User("admin-1", "Yang F.", "yangf@a-star.edu.sg", Admin, 500, 1672531200000),
    User("1", "Alice Admin", "alice@research.ci", Admin, 150, 1672531200000),
    User("2", "Bob Researcher", "bob@research.ci", Researcher, 80, 1676419200000),
    User("3", "Charlie Dave", "charlie@research.ci", Researcher, 210, 1678406400000),
    User("4", "test0", "test0@a-star.edu.sg", Researcher, 100, 1678406400000)
  ]

  const INITIAL_COURSES: seq<Course> := [
    Course(
      "c1",
      "Generative AI Fundamentals",
      "Learn the basics of LLMs and Diffusion models for research workflows.",
      "https://example.com/ai-basics",
      Online,
      "AI Agents",
      "admin-1",
      1696118400000,
      ["AI", "LLM", "Intro"]),
    Course(
      "c2",
      "Advanced Python for Researchers",
      "Deep dive into data analysis and automation scripts.",
      "https://example.com/python-adv",
      Online,
      "Programming",
      "2",
      1699142400000,
      ["Python", "Data Science"])
  ]

  const CATEGORIES: seq<string> :=
    ["AI Agents", "Machine Learning", "Programming", "Data Analysis", "Soft Skills", "Methodology"]

  /** No two seed users share an id. */
  lemma SeedUserIdsDistinct()
    ensures forall i, j :: 0 <= i < j < |INITIAL_USERS| ==> INITIAL_USERS[i].id != INITIAL_USERS[j].id
  {
  }

  /** No two seed users share an email, even ignoring ASCII case. */
  lemma SeedEmailsDistinct()
    ensures forall i, j :: 0 <= i < j < |INITIAL_USERS| ==>
      Lower(INITIAL_USERS[i].email) != Lower(INITIAL_USERS[j].email)
  {
    // the seed emails start with five different lower-case letters
    forall i, j | 0 <= i < j < |INITIAL_USERS|
      ensures Lower(INITIAL_USERS[i].email) != Lower(INITIAL_USERS[j].email)
    {
      LowerDiffersAtHead(INITIAL_USERS[i].email, INITIAL_USERS[j].email);
    }
  }

  lemma LowerDiffersAtHead(a: string, b: string)
    requires |a| > 0 && |b| > 0 && a[0] != b[0]
    requires 'a' <= a[0] <= 'z' && 'a' <= b[0] <= 'z'
    ensures Lower(a) != Lower(b)
  {
    assert Lower(a)[0] == a[0] && Lower(b)[0] == b[0];
  }

  /** Exactly the first two seed users are administrators, so the seed is under the cap of 10. */
  lemma SeedAdmins()
    ensures forall i :: 0 <= i < |INITIAL_USERS| ==> (INITIAL_USERS[i].role == Admin <==> i < 2)
  {
  }

  /** Every seed course is recommended by a seed user. */
  lemma SeedRecommendersExist()
    ensures forall c :: c in INITIAL_COURSES ==>
      exists i :: 0 <= i < |INITIAL_USERS| && INITIAL_USERS[i].id == c.recommendedBy
  {
    assert INITIAL_USERS[0].id == INITIAL_COURSES[0].recommendedBy;
    assert INITIAL_USERS[2].id == INITIAL_COURSES[1].recommendedBy;
  }

  /** The seed course ids differ, and every seed course's category is one the catalog offers. */
  lemma SeedCoursesWellFormed()
    ensures INITIAL_COURSES[0].id != INITIAL_COURSES[1].id
    ensures forall c :: c in INITIAL_COURSES ==> c.category in CATEGORIES
  {
  }

  /** No seed user starts with negative points. */
  lemma SeedPointsNonNegative()
    ensures forall u :: u in INITIAL_USERS ==> u.points >= 0
  {
  }
}
