/** The `App` component's mutable state and the context API it hands to the pages (App.tsx):
    the snapshot, the two sync flags, the local storage slot the persistence effect writes,
    and the bodies posted to the cloud endpoint. Every `setState` becomes an assignment to
    `state`, and the persistence effect an assignment to `storage` right after it. The network
    is not called: a push appends its body to `outbox`, and a pull or a settled push receives
    its outcome as a parameter. */
module AppContext {
  import opened Types
  import opened Text
  import opened Lists
  import opened App

  /** The endpoint the shipped build is configured with, written as scheme plus the rest. */
  const CLOUD_URL: string :=
    "https://" + "script.google.com/macros/s/AKfycbxdibLzZ-q94bGsxv5TLF6bIYmm3HNa7yc20CNEYXQDR56Eg5ibkEXtahBDsOqJ4EkIqQ/exec"

  const FETCH_ERROR := "Offline: Using local cache."
  const PUSH_ERROR := "Sync Error: Cloud update failed."
  const MISSING_URL_ALERT :=
    "ACTION REQUIRED: You must paste your Google Web App URL into App.tsx (Line 17) before you can push data."

  /** `CLOUD_URL && CLOUD_URL.startsWith('http')`: an empty string is falsy. */
  predicate SyncEnabled(url: string) {
    |url| > 0 && StartsWith(url, "http")
  }

  /** The shipped endpoint switches both pull and push on; a blank one switches them off. */
  lemma ShippedUrlEnablesSync()
    ensures SyncEnabled(CLOUD_URL)
    ensures !SyncEnabled("")
  {
    assert CLOUD_URL[..4] == "https://"[..4];
  }

  /** How a pull ends: the request or its JSON decoding failed (a non-ok status counts as a
      failure), or a document arrived (`null` read as None). */
  datatype FetchOutcome = Failed | Received(data: Option<RemoteData>)

  class Store {
    const cloudUrl: string
    var state: AppState
    var isSyncing: bool
    var cloudError: Option<string>
    /** The `ci_ld_hub_data` storage slot. */
    var storage: Option<AppState>
    /** Every body posted to the endpoint, oldest first. */
    var outbox: seq<Payload>
    /** Every `alert` shown, oldest first. */
    var alerts: seq<string>

    /** The persistence effect has run: the storage slot holds the current snapshot. */
    predicate Valid()
      reads this
    {
      storage == Some(state)
    }

    /** The state a mutation leaves behind when it pushes `p`: with sync enabled the indicator is
        on and `p` is posted; without, the missing-URL alert is shown and nothing is posted. */
    predicate Pushed(outbox0: seq<Payload>, alerts0: seq<string>, syncing0: bool, p: Payload)
      reads this
    {
      if SyncEnabled(cloudUrl) then isSyncing && outbox == outbox0 + [p] && alerts == alerts0
      else isSyncing == syncing0 && outbox == outbox0 && alerts == alerts0 + [MISSING_URL_ALERT]
    }

    /** Nothing was posted or shown and the indicator did not move. */
    predicate Quiet(outbox0: seq<Payload>, alerts0: seq<string>, syncing0: bool)
      reads this
    {
      outbox == outbox0 && alerts == alerts0 && isSyncing == syncing0
    }

    /** Mounting the app: the saved snapshot if the slot holds one, the seed otherwise. */
    constructor (url: string, saved: Option<AppState>)
      ensures cloudUrl == url && state == InitialState(saved)
      ensures !isSyncing && cloudError == None && outbox == [] && alerts == []
      ensures Valid()
    {
      var initial := InitialState(saved);
      cloudUrl := url;
      state := initial;
      isSyncing := false;
      cloudError := None;
      storage := Some(initial);
      outbox := [];
      alerts := [];
    }

    // ------------------------------------------------------------ remote sync

    /** `syncToCloud(overrideState)`: posts the four lists of the override, or of the current
        snapshot when there is none. The snapshot itself never changes. */
    method SyncToCloud(overrideState: Option<AppState>)
      modifies this
      ensures state == old(state) && storage == old(storage) && cloudError == old(cloudError)
      ensures Pushed(old(outbox), old(alerts), old(isSyncing),
                     SyncPayload(if overrideState.Some? then overrideState.value else old(state)))
    {
      if !SyncEnabled(cloudUrl) {
        alerts := alerts + [MISSING_URL_ALERT];
        return;
      }
      isSyncing := true;
      var stateToSync := if overrideState.Some? then overrideState.value else state;
      outbox := outbox + [SyncPayload(stateToSync)];
    }

    /** A posted request settled: a thrown network error shows the sync error, anything else
        clears the error. The indicator stays on until its timer runs out. */
    method PushSettled(failed: bool)
      modifies this
      ensures cloudError == (if failed then Some(PUSH_ERROR) else None)
      ensures state == old(state) && storage == old(storage)
      ensures Quiet(old(outbox), old(alerts), old(isSyncing))
    {
      cloudError := if failed then Some(PUSH_ERROR) else None;
    }

    /** The 1.2 second timer started by a push ran out. */
    method SyncIndicatorElapsed()
      modifies this
      ensures !isSyncing
      ensures state == old(state) && storage == old(storage) && cloudError == old(cloudError)
      ensures outbox == old(outbox) && alerts == old(alerts)
    {
      isSyncing := false;
    }

    /** `fetchFromCloud()`, from start to `finally`: without a configured endpoint nothing happens;
        otherwise a failure keeps the snapshot and shows the offline error, a received document is
        merged by `PullMerge` and clears the error, and the indicator ends off either way. */
    method FetchFromCloud(outcome: FetchOutcome)
      requires Valid()
      modifies this
      ensures Valid()
      ensures !SyncEnabled(cloudUrl) ==> unchanged(this)
      ensures SyncEnabled(cloudUrl) ==> !isSyncing
      ensures SyncEnabled(cloudUrl) && outcome.Failed? ==> state == old(state) && cloudError == Some(FETCH_ERROR)
      ensures SyncEnabled(cloudUrl) && outcome.Received? ==>
        state == PullMerge(old(state), outcome.data) && cloudError == None
      ensures outbox == old(outbox) && alerts == old(alerts)
    {
      if !SyncEnabled(cloudUrl) {
        return;
      }
      isSyncing := true;
      match outcome {
        case Failed =>
          cloudError := Some(FETCH_ERROR);
        case Received(data) =>
          if CarriesCourses(data) {
            state := PullMerge(state, data);
            storage := Some(state);
          }
          cloudError := None;
      }
      isSyncing := false;
    }

    // ------------------------------------------------------------ session

    /** `login(email)`: never posts. */
    method Login(email: string) returns (ok: bool)
      requires Valid()
      modifies this
      ensures Valid()
      ensures (ok, state) == App.Login(old(state), email)
      ensures cloudError == old(cloudError) && Quiet(old(outbox), old(alerts), old(isSyncing))
    {
      var r := App.Login(state, email);
      ok := r.0;
      if ok {
        state := r.1;
        storage := Some(state);
      }
    }

    /** `register(name, email)`: the new snapshot is posted. */
    method Register(name: string, email: string, id: string, now: Timestamp)
      requires Valid()
      modifies this
      ensures Valid()
      ensures state == App.Register(old(state), name, email, id, now)
      ensures cloudError == old(cloudError) && Pushed(old(outbox), old(alerts), old(isSyncing), SyncPayload(state))
    {
      state := App.Register(state, name, email, id, now);
      storage := Some(state);
      SyncToCloud(Some(state));
    }

    /** `logout()`: never posts. */
    method Logout()
      requires Valid()
      modifies this
      ensures Valid()
      ensures state == App.Logout(old(state))
      ensures cloudError == old(cloudError) && Quiet(old(outbox), old(alerts), old(isSyncing))
    {
      state := App.Logout(state);
      storage := Some(state);
    }

    /** `setCurrentUser(user)`: replaces the session with any record or none, without looking at
        the user list, and never posts. */
    method SetCurrentUser(user: Option<User>)
      requires Valid()
      modifies this
      ensures Valid()
      ensures state == old(state).(currentUser := user)
      ensures cloudError == old(cloudError) && Quiet(old(outbox), old(alerts), old(isSyncing))
    {
      state := state.(currentUser := user);
      storage := Some(state);
    }

    // ------------------------------------------------------------ catalog

    /** `addCourse(data)`: the new snapshot is posted. */
    method AddCourse(d: CourseDraft, id: string, now: Timestamp)
      requires Valid()
      modifies this
      ensures Valid()
      ensures state == App.AddCourse(old(state), d, id, now)
      ensures cloudError == old(cloudError) && Pushed(old(outbox), old(alerts), old(isSyncing), SyncPayload(state))
    {
      state := App.AddCourse(state, d, id, now);
      storage := Some(state);
      SyncToCloud(Some(state));
    }

    /** `removeCourse(courseId)`: returns early, without posting, unless the session is an
        administrator. */
    method RemoveCourse(courseId: string)
      requires Valid()
      modifies this
      ensures Valid()
      ensures !SessionIsAdmin(old(state)) ==> unchanged(this)
      ensures SessionIsAdmin(old(state)) ==>
        && state == App.RemoveCourse(old(state), courseId)
        && cloudError == old(cloudError)
        && Pushed(old(outbox), old(alerts), old(isSyncing), SyncPayload(state))
    {
      if !SessionIsAdmin(state) {
        return;
      }
      state := App.RemoveCourse(state, courseId);
      storage := Some(state);
      SyncToCloud(Some(state));
    }

    // ------------------------------------------------------------ progress

    /** `updateEnrollment(courseId, status)`, step by step as the source does it: find the index
        of the session user's enrollment, work out the bonus from `alreadyCompleted`, rewrite that
        enrollment in a copy of the list or push a new one, award the bonus in both places, post.
        The result is the snapshot `App.UpdateEnrollment` specifies. */
    method UpdateEnrollment(courseId: string, status: CourseStatus, id: string, now: Timestamp)
      requires Valid()
      modifies this
      ensures Valid()
      ensures state == App.UpdateEnrollment(old(state), courseId, status, id, now)
      ensures old(state).currentUser.None? ==> unchanged(this)
      ensures old(state).currentUser.Some? ==>
        cloudError == old(cloudError) && Pushed(old(outbox), old(alerts), old(isSyncing), SyncPayload(state))
    {
      if state.currentUser.None? {
        return;
      }
      var uid := state.currentUser.value.id;
      var existingIdx := FindIndex(state.enrollments, PairOf(uid, courseId));
      var newEnrollments := state.enrollments;
      var pointBump := 0;
      var alreadyCompleted := Any(state.enrollments, CompletedPairOf(uid, courseId));
      if status == FullyCompleted && !alreadyCompleted {
        pointBump := COMPLETION_POINTS;
      }
      UpsertSpec(state.enrollments, uid, courseId, status, id, now);
      if existingIdx > -1 {
        assert FirstPairAt(state.enrollments, uid, courseId, existingIdx);
        newEnrollments := newEnrollments[existingIdx := newEnrollments[existingIdx].(status := status, updatedAt := now)];
      } else {
        newEnrollments := newEnrollments + [Enrollment(id, uid, courseId, status, now)];
      }
      assert pointBump == CompletionBonus(state.enrollments, uid, courseId, status);
      var updatedUsers := AwardUsers(state.users, state.currentUser, pointBump);
      var updatedCurrentUser := AwardSession(state.currentUser, pointBump);
      state := state.(enrollments := newEnrollments, users := updatedUsers, currentUser := updatedCurrentUser);
      storage := Some(state);
      SyncToCloud(Some(state));
    }

    /** `addFeedback(courseId, rating, comment)`: returns early, without posting, when nobody is
        logged in. */
    method AddFeedback(courseId: string, rating: int, comment: string, id: string, now: Timestamp)
      requires Valid()
      modifies this
      ensures Valid()
      ensures state == App.AddFeedback(old(state), courseId, rating, comment, id, now)
      ensures old(state).currentUser.None? ==> unchanged(this)
      ensures old(state).currentUser.Some? ==>
        cloudError == old(cloudError) && Pushed(old(outbox), old(alerts), old(isSyncing), SyncPayload(state))
    {
      if state.currentUser.None? {
        return;
      }
      state := App.AddFeedback(state, courseId, rating, comment, id, now);
      storage := Some(state);
      SyncToCloud(Some(state));
    }

    // ------------------------------------------------------------ roles

    /** `promoteUser(userId)`: returns early, without posting, at 10 or more administrators. */
    method PromoteUser(userId: string)
      requires Valid()
      modifies this
      ensures Valid()
      ensures state == App.PromoteUser(old(state), userId)
      ensures AdminCount(old(state).users) >= MAX_ADMINS ==> unchanged(this)
      ensures AdminCount(old(state).users) < MAX_ADMINS ==>
        cloudError == old(cloudError) && Pushed(old(outbox), old(alerts), old(isSyncing), SyncPayload(state))
    {
      var adminCount := AdminCount(state.users);
      if adminCount >= MAX_ADMINS {
        return;
      }
      state := state.(users := SetRole(state.users, userId, Admin),
                      currentUser := SetSessionRole(state.currentUser, userId, Admin));
      storage := Some(state);
      SyncToCloud(Some(state));
    }

    /** `demoteUser(userId)`: always posts. */
    method DemoteUser(userId: string)
      requires Valid()
      modifies this
      ensures Valid()
      ensures state == App.DemoteUser(old(state), userId)
      ensures cloudError == old(cloudError) && Pushed(old(outbox), old(alerts), old(isSyncing), SyncPayload(state))
    {
      state := App.DemoteUser(state, userId);
      storage := Some(state);
      SyncToCloud(Some(state));
    }
  }
}
