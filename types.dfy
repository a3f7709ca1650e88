/** The records of the learning hub: users, courses, enrollments, feedback and
    the snapshot the domain store holds (types.ts). */
module Types {

  datatype Option<+T> = None | Some(value: T)

  datatype UserRole = Admin | Researcher

  datatype CourseStatus = NotStarted | InProgress | PartiallyCompleted | FullyCompleted

  /** The `type: 'Online' | 'Offline'` field of a course. */
  datatype Delivery = Online | Offline

  /** A point in time as `new Date(x).getTime()` reads it: milliseconds since the epoch. */
  type Timestamp = int

  datatype User = User(
    id: string,
    name: string,
    email: string,
    role: UserRole,
    points: int,
    joinedDate: Timestamp)

  datatype Course = Course(
    id: string,
    title: string,
    description: string,
    link: string,
    delivery: Delivery,
    category: string,
    recommendedBy: string,  // a user id; a weak reference
    createdAt: Timestamp,
    tags: seq<string>)

  datatype Enrollment = Enrollment(
    id: string,
    userId: string,
    courseId: string,
    status: CourseStatus,
    updatedAt: Timestamp)

  datatype Feedback = Feedback(
    id: string,
    userId: string,
    courseId: string,
    rating: int,
    comment: string,
    createdAt: Timestamp)

  /** The store's snapshot; `currentUser` is the session (None when logged out). */
  datatype AppState = AppState(
    users: seq<User>,
    courses: seq<Course>,
    enrollments: seq<Enrollment>,
    feedback: seq<Feedback>,
    currentUser: Option<User>)
}
