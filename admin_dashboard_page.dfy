/** The administrator dashboard (pages/AdminDashboard.tsx): its headline counts and the action
    each row of the user table offers. */
module AdminDashboardPage {
  import opened Types
  import opened Lists
  import opened App
  import StoreInvariants

  // ---------------------------------------------------------------- stats

  datatype Stats = Stats(totalUsers: nat, totalCourses: nat, totalEnrollments: nat,
                         totalCompletions: nat, adminCount: nat)

  predicate IsCompleted(e: Enrollment) {
    e.status == FullyCompleted
  }

  /** `stats`: the three list lengths, the fully completed enrollments among all enrollments and
      the administrators among the users, the same count `promoteUser` checks against its cap. */
  function StatsFor(s: AppState): (st: Stats)
    ensures st.totalUsers == |s.users| && st.totalCourses == |s.courses| && st.totalEnrollments == |s.enrollments|
    ensures st.totalCompletions <= st.totalEnrollments
    ensures st.totalCompletions == 0 <==> forall e :: e in s.enrollments ==> e.status != FullyCompleted
    ensures st.adminCount <= st.totalUsers
    ensures st.adminCount == 0 <==> forall u :: u in s.users ==> u.role != Admin
    ensures st.totalCompletions == |set i | 0 <= i < |s.enrollments| && s.enrollments[i].status == FullyCompleted|
    ensures st.adminCount == |set i | 0 <= i < |s.users| && s.users[i].role == Admin|
    ensures st.adminCount == AdminCount(s.users)
  {
    var done := Filter(s.enrollments, IsCompleted);
    var admins := Filter(s.users, IsAdmin);
    assert done != [] ==> done[0] in done;
    assert admins != [] ==> admins[0] in admins;
    CountCompleted(s.enrollments);
    CountAdmins(s.users);
    Stats(|s.users|, |s.courses|, |s.enrollments|, |done|, |admins|)
  }

  lemma CountCompleted(es: seq<Enrollment>)
    ensures |Filter(es, IsCompleted)| == |set i | 0 <= i < |es| && es[i].status == FullyCompleted|
  {
    FilterCount(es, IsCompleted);
    assert Positions(es, IsCompleted) == set i | 0 <= i < |es| && es[i].status == FullyCompleted;
  }

  lemma CountAdmins(users: seq<User>)
    ensures |Filter(users, IsAdmin)| == |set i | 0 <= i < |users| && users[i].role == Admin|
  {
    FilterCount(users, IsAdmin);
    assert Positions(users, IsAdmin) == set i | 0 <= i < |users| && users[i].role == Admin;
  }

  /** In a consistent store the dashboard never shows more than 10 administrators. */
  lemma AdminCountCapped(s: AppState)
    requires Consistent(s)
    ensures StatsFor(s).adminCount <= MAX_ADMINS
  {
  }

  // ---------------------------------------------------------------- row actions

  /** What the last cell of a user's row holds. */
  datatype RowAction = SelfRow | RevokeButton | GrantButton(enabled: bool)

  /** The session user's own row says 'Self'; an administrator's row offers 'Revoke Admin'; a
      researcher's row offers 'Grant Admin', disabled from 10 administrators on. */
  function RowActionFor(s: AppState, user: User): (a: RowAction)
    ensures a.SelfRow? <==> IsSessionUser(user, s.currentUser)
    ensures a.RevokeButton? <==> !IsSessionUser(user, s.currentUser) && user.role == Admin
    ensures a.GrantButton? <==> !IsSessionUser(user, s.currentUser) && user.role == Researcher
    ensures a.GrantButton? ==> (a.enabled <==> StatsFor(s).adminCount < MAX_ADMINS)
  {
    if IsSessionUser(user, s.currentUser) then SelfRow
    else if user.role == Admin then RevokeButton
    else GrantButton(StatsFor(s).adminCount < MAX_ADMINS)
  }

  /** The store after clicking the row's button; 'Self' and a disabled button do nothing. */
  function Click(s: AppState, user: User): AppState {
    match RowActionFor(s, user)
    case SelfRow => s
    case RevokeButton => DemoteUser(s, user.id)
    case GrantButton(enabled) => if enabled then PromoteUser(s, user.id) else s
  }

  /** A disabled 'Grant Admin' button withholds only what the store would refuse anyway. */
  lemma DisabledGrantMatchesStore(s: AppState, user: User)
    requires RowActionFor(s, user) == GrantButton(false)
    ensures PromoteUser(s, user.id) == s
  {
  }

  /** With unique ids, an enabled 'Grant Admin' on a listed researcher adds exactly one
      administrator, and 'Revoke Admin' on a listed administrator removes exactly one. */
  lemma ClickMovesAdminCountByOne(s: AppState, user: User)
    requires UniqueUserIds(s.users) && user in s.users
    ensures RowActionFor(s, user) == GrantButton(true) ==>
      AdminCount(Click(s, user).users) == AdminCount(s.users) + 1
    ensures RowActionFor(s, user) == RevokeButton ==>
      AdminCount(Click(s, user).users) == AdminCount(s.users) - 1
    ensures AdminCount(s.users) <= MAX_ADMINS ==> AdminCount(Click(s, user).users) <= MAX_ADMINS
  {
    var k :| 0 <= k < |s.users| && s.users[k] == user;
    StoreInvariants.PromoteRespectsCap(s, user.id);
    StoreInvariants.DemoteCount(s, user.id);
    match RowActionFor(s, user)
    case SelfRow =>
    case RevokeButton =>
      assert StoreInvariants.Alterable(s.users, user.id, Researcher) by {
        assert s.users[k].id == user.id && s.users[k].role != Researcher;
      }
    case GrantButton(enabled) =>
      assert StoreInvariants.Alterable(s.users, user.id, Admin) by {
        assert s.users[k].id == user.id && s.users[k].role != Admin;
      }
  }

  /** No click on the dashboard changes the role or the record of the administrator using it. */
  lemma ClickKeepsOwnSession(s: AppState, user: User)
    ensures Click(s, user).currentUser == s.currentUser
  {
  }
}
