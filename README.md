# CI L&D Hub — a verified model of the client-side store

The hub is a single-page React application. Researchers use it to browse recommended courses,
record their progress and review what they completed. The application keeps one snapshot,
`AppState`, in memory. That snapshot holds the users, the courses, the enrollments, the feedback
and the logged-in user.

- **The store.** The snapshot and its mutations live in the `App` component (`App.tsx`). The mutations are log in, register, log out, add or remove a course, set an enrollment status, add feedback, and promote or demote a user.
- **Points.** Posting a course earns 20 points, completing a course 50, and a review 5.
- **Administrators.** At most 10 administrators are allowed, and only an administrator may delete a course.
- **Saving and syncing.** Every change is mirrored to local storage. Most changes are also pushed to a cloud endpoint, and a pull can replace the lists.
- **The pages.** They compute read-only views of the snapshot: the catalog filter, the personal learning lists, the leaderboards and the admin counts. They also apply two guards:
  - the duplicate-email check on registration;
  - the promote button disabled at 10 administrators.

This project restates that core in Dafny and proves the properties it promises. The files are:

- `types.dfy`: the records (`User`, `Course`, `Enrollment`, `Feedback`, `AppState`).
- `text.dfy`, `lists.dfy`: the JavaScript string and array operations used: `toLowerCase`, `includes`, `startsWith`, `split`, `trim`, `filter`, `find`/`findIndex`, `some`, a stable copy-sort and `slice`.
- `seed.dfy`: the seed data.
- `app.dfy`: every store mutation as a function from snapshot to snapshot, plus the invariants the store is meant to keep.
- `app_context.dfy`: the `App` component as a class. It holds the snapshot, the sync flags, the storage slot and the posted bodies. It has one method per context operation, each proved to produce the snapshot the function in `app.dfy` specifies. `updateEnrollment` is kept in the source's imperative form: a `findIndex`, then an index write or a push.
- `enrollments.dfy`, `invariants.dfy`: the lemmas about the store:
  - at most one enrollment per (user, course) pair;
  - the completion bonus paid once;
  - the administrator cap;
  - every mutation, and every run of mutations from the seed, keeping the invariants.
- `login_page.dfy`, `home_page.dfy`, `my_learning_page.dfy`, `leaderboard_page.dfy`, `admin_dashboard_page.dfy`: one module per page. The two pages with form state, the sign-in form and the review form, are classes.

Some inputs are not computed but passed in:

- Ids from `Math.random()` and times from `new Date()` are parameters of the operations that use them.
- Timestamps are integers.
- A network request is not performed. A push appends its body to `Store.outbox`. A pull or a settled push receives its outcome as a parameter.

Two behaviours of the code are worth knowing, and the model keeps both:

- One promotion can add more than one administrator. `App.tsx:240-244` checks the cap once, then rewrites every user record that carries the id. So the count grows by the number of matching researcher records. `StoreInvariants.DuplicateIdsBreakCap` shows two records sharing an id taking 9 administrators to 11. The cap therefore holds only while ids are unique: `StoreInvariants.PromoteRespectsCap`.
- A corrupt saved snapshot is not recovered from. `App.tsx:50` calls `JSON.parse` without a fallback. The model takes the decoded slot as `Option<AppState>`, and a parse failure is not modelled.

## Model

| member | source | states |
|---|---|---|
| Seed.SeedUserIdsDistinct | constants.ts:4-10 | no two seed users share an id |
| Seed.SeedEmailsDistinct | constants.ts:4-10 | no two seed users share an email, even ignoring case |
| Seed.SeedAdmins | constants.ts:4-10 | exactly the first two seed users are administrators |
| Seed.SeedRecommendersExist | constants.ts:12-35 | every seed course is recommended by a seed user |
| Seed.SeedCoursesWellFormed | constants.ts:12-37 | seed course ids differ and every seed category is one of `CATEGORIES` |
| Seed.SeedPointsNonNegative | constants.ts:4-10 | no seed user starts with negative points |
| Text.Lower | App.tsx:127 | `toLowerCase` keeps the length, folds each character, leaves no upper-case ASCII letter |
| Text.LowerIdempotent | pages/Home.tsx:20-21 | folding twice is folding once |
| Text.Includes | pages/Home.tsx:20-21 | `includes` holds exactly when some position starts a copy of the needle |
| Text.IncludesEmpty | pages/Home.tsx:20-21 | every string includes the empty search term |
| Text.Split | pages/Home.tsx:223 | `split(',')` gives one more piece than there are commas, none containing a comma |
| Text.JoinSplit | pages/Home.tsx:223 | joining the pieces with the separator gives back the input |
| Text.SplitJoin | pages/Home.tsx:223 | splitting the join of comma-free pieces gives the pieces back |
| Text.Trim | pages/Home.tsx:223 | `trim` removes only white space, from both ends, and leaves no white space at either end |
| Text.TrimClean | pages/Home.tsx:223 | text without white space at its ends is left alone by `trim` |
| Lists.Filter | App.tsx:177-179 | `filter` keeps exactly the elements that pass, in a sub-multiset of the input |
| Lists.FilterMultiplicity | App.tsx:177-179 | `filter` keeps every copy of a passing element and no copy of a failing one |
| Lists.FilterCount | pages/Leaderboard.tsx:19 | `filter(...).length` is the number of positions whose element passes |
| Lists.FindIndex | App.tsx:187 | `findIndex` returns the first passing index, or -1 exactly when none passes |
| Lists.Any | App.tsx:191 | `some` holds exactly when some element passes |
| Lists.SortDesc | pages/Leaderboard.tsx:8 | the copy-sort is a permutation of its input, ordered by a non-increasing key |
| Lists.Take | pages/Leaderboard.tsx:39 | `slice(0, n)` is the first `min(n, length)` elements |
| Lists.FilterPairwise | App.tsx:178 | filtering keeps a pairwise property such as one enrollment per pair |
| App.InitialState | App.tsx:48-58 | the saved snapshot when the slot holds one, else the seed users and courses, no enrollments, no feedback, nobody logged in |
| App.Login | App.tsx:126-133 | succeeds exactly when some email matches ignoring case; then the first match becomes the session; on failure nothing changes |
| App.Register | App.tsx:135-151 | appends exactly one researcher with 0 points, makes it the session, leaves every earlier user and list untouched, checks no email |
| App.Logout | App.tsx:153-155 | clears the session and nothing else |
| App.AddCourse | App.tsx:157-171 | the new course goes first and the others keep their order; only a session user earns 20 points, in `users` and in the session alike |
| App.RemoveCourse | App.tsx:173-183 | for a non-administrator nothing changes; for an administrator every copy of each record whose course id differs stays and every record with that id goes, in all three lists; users and session stay |
| App.RemoveCourseKeepsOrder | App.tsx:177-179 | the kept records stay in their order: removing from a list cut in two is removing from each part and joining the results |
| App.Upsert | App.tsx:187-204 | one more enrollment exactly when the pair had none, and afterwards the pair always has one |
| App.UpsertSpec | App.tsx:194-204 | the upsert rewrites status and time of the enrollment `findIndex` finds, or appends a new one |
| App.CompletionBonus | App.tsx:189-192 | 50 exactly when the new status is fully completed and no enrollment of the pair is completed yet, 0 otherwise |
| App.UpdateEnrollment | App.tsx:185-217 | no-op without a session; otherwise upserts the session user's enrollment and awards the bonus in `users` and the session, courses and feedback untouched |
| App.AddFeedback | App.tsx:219-237 | no-op without a session; otherwise appends one feedback by the session user, any rating, and awards 5 points in both places |
| App.AdminCount | App.tsx:240 | the administrator count never exceeds the number of users |
| App.PromoteUser | App.tsx:239-249 | at 10 or more administrators nothing changes; below, every record with the id and a matching session become administrators |
| App.DemoteUser | App.tsx:251-259 | every record with the id and a matching session become researchers, unconditionally; other lists untouched |
| App.SetRoleEffect | App.tsx:244 | a role change alters only the role, and only of the records with that id |
| App.AwardInStep | App.tsx:166-167 | the session and every user record with its id get the same award; nobody else changes |
| App.PullMerge | App.tsx:78-86 | a response with a non-empty course list replaces courses, enrollments and feedback, replaces users only if non-empty, keeps the session; any other response changes nothing |
| App.SyncPayload | App.tsx:110-115 | the posted body carries the four lists and not the session |
| App.PullOwnPush | App.tsx:78-86 | pulling back one's own push restores the snapshot |
| AppContext.ShippedUrlEnablesSync | App.tsx:18 | the shipped endpoint passes the `startsWith('http')` guard and a blank one does not |
| AppContext.Store.constructor | App.tsx:48-58 | the app mounts on the saved or seed snapshot, not syncing, no error, nothing posted, storage holding the snapshot |
| AppContext.Store.SyncToCloud | App.tsx:97-124 | posts the override's lists or the current ones with the indicator on; without an endpoint only the alert shows; the snapshot never changes |
| AppContext.Store.PushSettled | App.tsx:117-120 | a thrown push shows the sync error, anything else clears it |
| AppContext.Store.SyncIndicatorElapsed | App.tsx:122 | the 1.2 s timer turns the indicator off and changes nothing else |
| AppContext.Store.FetchFromCloud | App.tsx:70-95 | without an endpoint nothing; a failure keeps the snapshot and shows the offline error; a document is merged and clears the error; indicator off at the end |
| AppContext.Store.Login | App.tsx:126-133 | the result and the new snapshot are those of `App.Login`; nothing is posted |
| AppContext.Store.Register | App.tsx:135-151 | the snapshot becomes `App.Register`'s, it is stored and posted |
| AppContext.Store.Logout | App.tsx:153-155 | the session is cleared and stored; nothing is posted |
| AppContext.Store.SetCurrentUser | App.tsx:265 | replaces only the session, with no check against the users, and posts nothing |
| AppContext.Store.AddCourse | App.tsx:157-171 | the snapshot becomes `App.AddCourse`'s, stored and posted |
| AppContext.Store.RemoveCourse | App.tsx:173-183 | a non-administrator changes nothing at all; an administrator's removal is stored and posted |
| AppContext.Store.UpdateEnrollment | App.tsx:185-217 | the in-place find, index write or push, and award produce exactly `App.UpdateEnrollment`'s snapshot; nothing at all happens without a session |
| AppContext.Store.AddFeedback | App.tsx:219-237 | the snapshot becomes `App.AddFeedback`'s; nothing at all happens without a session |
| AppContext.Store.PromoteUser | App.tsx:239-249 | at the cap the store is untouched and nothing is posted; otherwise the promotion is stored and posted |
| AppContext.Store.DemoteUser | App.tsx:251-259 | the demotion is stored and always posted |
| EnrollmentProperties.UpsertKeepsPairsUnique | App.tsx:185-204 | the upsert keeps at most one enrollment per (user, course) pair |
| EnrollmentProperties.UpsertFirstPair | App.tsx:194-204 | afterwards the pair's first enrollment carries the new status and time; enrollments of other pairs stay where and as they were |
| EnrollmentProperties.EnrollmentCount | App.tsx:194-204 | the list grows by one exactly when a session user had no enrollment for the course, otherwise keeps its length |
| EnrollmentProperties.UpdateKeepsSessionUser | App.tsx:207 | the session stays the same user and does not lose points |
| EnrollmentProperties.CompletionRecorded | App.tsx:195-203 | after marking a course fully completed the pair counts as completed |
| EnrollmentProperties.CompletingTwiceAwardsOnce | App.tsx:191-192 | completing the same course twice in a row pays 50 at most once |
| EnrollmentProperties.OtherStatusesPayNothing | App.tsx:192 | a status other than fully completed changes no points |
| EnrollmentProperties.RecompletionPaysAgain | App.tsx:191-192 | stepping back from completed and completing again pays 50 again: the bonus looks only at current statuses |
| EnrollmentProperties.BobCompletesCourse | constants.ts:7 | with Bob logged in, starting then completing c1 leaves one completed enrollment and raises his 80 points to 130 in the session and in the list |
| StoreInvariants.SetRoleAdminCount | App.tsx:244 | a role change moves the administrator count by the number of records it alters |
| StoreInvariants.PromoteRespectsCap | App.tsx:239-249 | with unique ids a promotion adds one administrator exactly when the id names a researcher, and never goes past 10 |
| StoreInvariants.DemoteCount | App.tsx:251-259 | with unique ids a demotion removes one administrator exactly when the id names one |
| StoreInvariants.DuplicateIdsBreakCap | App.tsx:240-244 | two researcher records sharing an id let one promotion take 9 administrators to 11 |
| StoreInvariants.LoginKeepsConsistent | App.tsx:126-133 | login keeps every store invariant |
| StoreInvariants.LogoutKeepsConsistent | App.tsx:153-155 | logout keeps every store invariant |
| StoreInvariants.RegisterKeepsConsistent | App.tsx:135-151 | registering an unused email with a fresh id keeps every invariant and takes no points away |
| StoreInvariants.AddCourseKeepsConsistent | App.tsx:157-171 | adding a course keeps every invariant and takes no points away |
| StoreInvariants.RemoveCourseKeepsConsistent | App.tsx:173-183 | removing a course keeps every invariant and the users |
| StoreInvariants.UpdateEnrollmentKeepsConsistent | App.tsx:185-217 | setting a status keeps every invariant and takes no points away |
| StoreInvariants.AddFeedbackKeepsConsistent | App.tsx:219-237 | adding feedback keeps every invariant and takes no points away |
| StoreInvariants.PromoteKeepsConsistent | App.tsx:239-249 | promoting keeps every invariant, including the cap of 10 |
| StoreInvariants.DemoteKeepsConsistent | App.tsx:251-259 | demoting keeps every invariant |
| StoreInvariants.RunKeepsConsistent | App.tsx:126-259 | any sequence of mutations with fresh account ids keeps every invariant and no user ever loses points |
| StoreInvariants.SeedConsistent | constants.ts:4-35 | the seed snapshot satisfies every store invariant |
| StoreInvariants.SeedRunsStayConsistent | App.tsx:48-58 | from the seed, every such run ends with at most 10 administrators and one enrollment per pair |
| StoreInvariants.PullCanOrphanSession | App.tsx:78-86 | a pull whose user list lacks the session user leaves a session that is no longer a user |
| LoginPage.EmailTaken | pages/Login.tsx:25 | the guard holds exactly when some user's email matches ignoring case |
| LoginPage.TakenIffSignInSucceeds | pages/Login.tsx:25 | an email is taken exactly when signing in with it succeeds |
| LoginPage.GuardedRegister | pages/Login.tsx:25-29 | registering an email the guard lets through keeps emails unique, and signing in with it finds the new account |
| LoginPage.LoginForm.constructor | pages/Login.tsx:8-11 | the form starts in sign-in mode with empty fields and no error |
| LoginPage.LoginForm.SwitchMode | pages/Login.tsx:52-58 | switching tabs clears the error and keeps what was typed |
| LoginPage.LoginForm.HandleSignIn | pages/Login.tsx:13-20 | the error is cleared, then set to the not-found message exactly when `login` fails |
| LoginPage.LoginForm.HandleRegister | pages/Login.tsx:22-30 | a taken email sets the error and leaves the store untouched; otherwise exactly one registration, which keeps emails unique |
| HomePage.FilteredCourses | pages/Home.tsx:18-37 | exactly the courses matching search and category, as a permutation of the filtered list, newest first |
| HomePage.EmptySearchShowsAll | pages/Home.tsx:19-24 | an empty search with 'All' shows every course |
| HomePage.SearchIgnoresCase | pages/Home.tsx:20-21 | the search gives the same list whatever the case of the term |
| HomePage.CardStatus | pages/Home.tsx:47 | the card shows the status of the user's first enrollment for the course, not started when none or logged out |
| HomePage.CardShowsChosenStatus | pages/Home.tsx:79-80 | choosing a status on a card makes the card show it |
| HomePage.RecommenderName | pages/Home.tsx:52 | the first matching user's name, or 'Unknown' when nobody has the id or the name is empty |
| HomePage.RecommenderNamed | pages/Home.tsx:52 | with unique ids a named user is credited by their name |
| HomePage.RatingLabelFor | pages/Home.tsx:48-51 | 'N/A' exactly when the course has no feedback; otherwise the number and sum of its ratings |
| HomePage.AverageInRange | pages/Home.tsx:48-51 | ratings from 1 to 5 give an average between 1 and 5 |
| HomePage.DeleteButtonMatchesGuard | pages/Home.tsx:93-94 | the delete button is shown exactly to those whose removal the store carries out |
| HomePage.ParseTags | pages/Home.tsx:223 | one tag per comma-separated piece, each the piece trimmed, without comma or edge white space |
| HomePage.ParseTagsOfJoin | pages/Home.tsx:223 | clean tags typed comma-separated are parsed back to themselves |
| HomePage.RecommenderFor | pages/Home.tsx:146 | a posted course is credited to the session user's id, or to '1' when logged out or that id is empty |
| HomePage.FormDraft | pages/Home.tsx:216-224 | the form posts its fields, the parsed tags and that recommender |
| HomePage.SuggestionDraft | pages/Home.tsx:139-148 | 'Add to Hub' posts the suggestion as an online course with link '#' |
| HomePage.DropAt | pages/Home.tsx:149 | exactly the added suggestion leaves the list, the others keep their order |
| HomePage.DropAtMultiset | pages/Home.tsx:149 | dropping a suggestion loses that one occurrence and nothing else |
| MyLearningPage.MyEnrollments | pages/MyLearning.tsx:13 | exactly the session user's enrollments; none when logged out |
| MyLearningPage.History | pages/MyLearning.tsx:14 | a permutation of the user's enrollments, most recent activity first |
| MyLearningPage.InProgressList | pages/MyLearning.tsx:16 | the user's enrollments in progress or partially completed |
| MyLearningPage.CompletedList | pages/MyLearning.tsx:17 | the user's fully completed enrollments |
| MyLearningPage.PartitionDisjoint | pages/MyLearning.tsx:16-17 | no enrollment is both in progress and completed |
| MyLearningPage.StatusSplit | pages/MyLearning.tsx:16-21 | every enrollment is exactly one of in progress, completed or not started |
| MyLearningPage.StatsFor | pages/MyLearning.tsx:19-23 | 'Courses Started' counts all the user's enrollments, not-started ones included; 'Completed' only the completed; points 0 when logged out |
| MyLearningPage.PointsToNextLevel | pages/MyLearning.tsx:175 | 250 minus the points, negative exactly past 250 |
| MyLearningPage.HasFeedback | pages/MyLearning.tsx:113 | holds exactly when the session user has feedback for the course |
| MyLearningPage.ReviewOffered | pages/MyLearning.tsx:111-132 | 'Rate & Review' exactly when the course exists, the enrollment is fully completed and the user has not reviewed it |
| MyLearningPage.ReviewWithdrawsOffer | pages/MyLearning.tsx:126-132 | after reviewing a course the offer for it disappears |
| MyLearningPage.MarkDoneCompletes | pages/MyLearning.tsx:76 | 'Mark Done' puts the user's enrollment for the course in the completed list |
| MyLearningPage.ReviewForm.constructor | pages/MyLearning.tsx:9-11 | no course selected, rating 5, empty comment |
| MyLearningPage.ReviewForm.PickRating | pages/MyLearning.tsx:192-199 | the picker sets one of 1 to 5 and nothing else |
| MyLearningPage.ReviewForm.Open | pages/MyLearning.tsx:127 | 'Rate & Review' selects the row's course |
| MyLearningPage.ReviewForm.EditComment | pages/MyLearning.tsx:210 | typing changes only the comment |
| MyLearningPage.ReviewForm.Cancel | pages/MyLearning.tsx:215 | 'Cancel' closes the modal and keeps rating and comment |
| MyLearningPage.ReviewForm.HandleFeedbackSubmit | pages/MyLearning.tsx:25-32 | with a course selected the review is added and the form resets to no course, empty comment, rating 5; without one (an empty id counts as none) neither the form nor the store changes; stored ratings stay within 1 to 5 |
| LeaderboardPage.SortedByPoints | pages/Leaderboard.tsx:8 | a permutation of the users with non-increasing points |
| LeaderboardPage.Recommendations | pages/Leaderboard.tsx:13 | the number of courses the user recommended; 0 exactly when none |
| LeaderboardPage.Completions | pages/Leaderboard.tsx:19 | the number of positions holding a fully completed enrollment of the user; 0 exactly when none |
| LeaderboardPage.RecommenderCounts | pages/Leaderboard.tsx:11-14 | one entry per user with their recommendation count, non-increasing |
| LeaderboardPage.ActivityCounts | pages/Leaderboard.tsx:17-20 | one entry per user with their completion count, non-increasing |
| LeaderboardPage.PostingCreditsRecommender | pages/Leaderboard.tsx:13 | posting a course adds one recommendation to its recommender and to nobody else |
| LeaderboardPage.CompletionsMatchLearningPage | pages/Leaderboard.tsx:19 | a user's completion count equals the 'Completed' tile on their own learning page |
| LeaderboardPage.Panel | pages/Leaderboard.tsx:39-41 | at most 10 entries, ranked 1, 2, … in list order |
| LeaderboardPage.PointsPanelIsTopTen | pages/Leaderboard.tsx:39-41 | a user with more points than someone on the points panel is on it too |
| AdminDashboardPage.StatsFor | pages/AdminDashboard.tsx:11-17 | the list lengths; completions are the number of fully completed enrollments and administrators the number of admin users, the same count `promoteUser` checks; 0 exactly when there are none |
| AdminDashboardPage.AdminCountCapped | pages/AdminDashboard.tsx:16 | in a consistent store the dashboard shows at most 10 administrators |
| AdminDashboardPage.RowActionFor | pages/AdminDashboard.tsx:109-117 | 'Self' exactly on the session user's row; otherwise administrators get revoke, researchers get grant, disabled from 10 administrators |
| AdminDashboardPage.DisabledGrantMatchesStore | pages/AdminDashboard.tsx:113 | a disabled grant withholds only a promotion the store would refuse |
| AdminDashboardPage.ClickMovesAdminCountByOne | pages/AdminDashboard.tsx:111-113 | with unique ids an enabled grant adds exactly one administrator, a revoke removes exactly one, and the cap holds |
| AdminDashboardPage.ClickKeepsOwnSession | pages/AdminDashboard.tsx:109-116 | no click on the dashboard changes the session user |

## Left out

- Rendering, styling, routing, the navigation layout and the modal and tab state of the pages are not modelled. `activeTab` in `pages/AdminDashboard.tsx` is UI-only.
- `services/geminiService.ts` is not part of this model. It is a call to an external language model. The suggestions it returns are taken as given `HomePage.Suggestion` values.
- `components/ui/Button.tsx` and the build configuration are not part of this model. They hold no logic.
- The network is not modelled. A push appends its body to `Store.outbox`, and a pull or a settled push receives its outcome as a parameter.
- Overlapping asynchronous pulls and pushes, and which response lands last, are not modelled. Each network call is modelled as a separate step.
- `AppContext.Store.FetchFromCloud` runs from its start to its `finally` in one step. The indicator is on only in between.
- Local storage and `JSON.parse`/`JSON.stringify` are reduced to the slot holding the snapshot (`Store.storage`).
- A corrupt saved snapshot, on which `JSON.parse` throws, is not modelled.
- Ids from `Math.random()` and times from `new Date()` are parameters. ISO date strings are integers ordered as the dates are.
- Text.Lower: folds only ASCII letters, not the full Unicode case mapping of `toLowerCase`.
- Floating-point results are kept exact or left out:
  - the average rating is kept as the exact sum and count;
  - `toFixed` rounding is not modelled;
  - the catalog's sort by rating, which divides ratings, is not modelled, only the default newest-first order;
  - the completion rate and the participation figures are not modelled.
- Lists.SortDesc: its contract states the permutation and the order, but not stability for equal keys.
- Registration through `App.Register` with a reused id or email breaks the invariants. The invariant lemmas assume the form's guard and a fresh id. A random collision is not modelled.
- The invariants and the runs in `StoreInvariants` cover sign-in, sign-up, sign-out, course changes, status changes, reviews and role changes. They do not cover `setCurrentUser` or a cloud pull. Either can leave a session that is not in the user list, as `StoreInvariants.PullCanOrphanSession` shows.
- EnrollmentProperties.BobCompletesCourse: starts from the seed with Bob already signed in. It does not include the sign-in step. That step, evaluated on the literal seed data, is beyond what the verifier handles cheaply. `App.Login` is specified in general instead.
- The reminders panel of `pages/MyLearning.tsx` is not modelled. It is static text with no behaviour.
