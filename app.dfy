/** The root component of the application: its React state (signed-in user, completed weeks,
    current view, auth mode, selected week) together with the two browser stores it reads and
    writes (the durable store holding `users` and `progress_<email>`, and the per-tab store
    holding the `loggedInUser` slot). Each handler is a method. */
module App {
  import opened Types
  import opened Credentials
  import opened Accounts
  import opened WeekList
  import Dashboard

  /** The durable record under `key`, if one is stored. */
  function Lookup(progress: map<string, Json<seq<int>>>, key: string): Option<Json<seq<int>>> {
    if key in progress then Some(progress[key]) else None
  }

  class Store {
    // durable store: the `users` record (an absent record reads as the empty list) and the
    // `progress_<email>` records, keyed by their full storage key
    var users: Json<seq<StoredUser>>
    var progress: map<string, Json<seq<int>>>
    // per-tab store: the `loggedInUser` slot
    var session: Option<Json<SessionUser>>
    // component state
    var user: Option<SessionUser>
    var completedWeeks: seq<int>
    var view: View
    var authMode: AuthMode
    var selectedWeek: Option<Week>

    /** What the handlers maintain: emails unique among stored users, every readable progress
        record and the in-memory list ascending without repetitions. */
    ghost predicate Valid()
      reads this
    {
      (users.Parsed? ==> UniqueEmails(users.value)) &&
      (forall key :: key in progress && progress[key].Parsed? ==> WellFormedProgress(progress[key].value)) &&
      WellFormedProgress(completedWeeks)
    }

    /** Mounting the component over whatever the two stores hold: every piece of state at its
        initial value. */
    constructor (storedUsers: Json<seq<StoredUser>>, storedProgress: map<string, Json<seq<int>>>,
                 storedSession: Option<Json<SessionUser>>)
      ensures users == storedUsers && progress == storedProgress && session == storedSession
      ensures user == None && completedWeeks == [] && view == LandingView
      ensures authMode == LoginMode && selectedWeek == None
      ensures Valid() <==>
        (storedUsers.Parsed? ==> UniqueEmails(storedUsers.value)) &&
        (forall key :: key in storedProgress && storedProgress[key].Parsed? ==>
           WellFormedProgress(storedProgress[key].value))
    {
      users, progress, session := storedUsers, storedProgress, storedSession;
      user, completedWeeks, view := None, [], LandingView;
      authMode, selectedWeek := LoginMode, None;
    }

    /** The mount effect that restores a session kept in the per-tab store. The loaded list is
        taken as stored, without sorting. A session that fails to parse clears the per-tab store;
        so does a progress record that fails to parse, after the user has already been set. */
    method RestoreSession()
      modifies this
      ensures users == old(users) && progress == old(progress)
      ensures authMode == old(authMode) && selectedWeek == old(selectedWeek)
      ensures old(session) == None ==> unchanged(this)
      ensures old(session) == Some(Malformed) ==>
        session == None && user == old(user) && completedWeeks == old(completedWeeks) && view == old(view)
      ensures old(session).Some? && old(session).value.Parsed? ==>
        var u := old(session).value.value;
        user == Some(u) &&
        match Lookup(progress, ProgressKey(u.email))
        case None =>
          session == old(session) && completedWeeks == old(completedWeeks) && view == DashboardView
        case Some(Parsed(ids)) =>
          session == old(session) && completedWeeks == ids && view == DashboardView
        case Some(Malformed) =>
          session == None && completedWeeks == old(completedWeeks) && view == old(view)
      ensures old(Valid()) ==> Valid()
    {
      match session
      case None =>
      case Some(Malformed) =>
        session := None;
      case Some(Parsed(u)) =>
        var stored := Lookup(progress, ProgressKey(u.email));
        user := Some(u);
        match stored
        case None =>
          view := DashboardView;
        case Some(Parsed(ids)) =>
          completedWeeks := ids;
          view := DashboardView;
        case Some(Malformed) =>
          session := None;
    }

    /** `handleRegister`. A taken email (exact match) fails and writes nothing. Otherwise the new
        account is appended with its transformed password, an empty progress record is written
        for it, and it is signed in without its password. */
    method Register(name: string, email: string, password: string) returns (reply: Reply)
      modifies this
      ensures old(users).Malformed? ==> reply == Rejected && unchanged(this)
      ensures old(users).Parsed? && EmailTaken(old(users).value, email) ==>
        reply == Resolved(false) && unchanged(this)
      ensures old(users).Parsed? && !EmailTaken(old(users).value, email) ==>
        reply == Resolved(true) &&
        users == Parsed(old(users).value + [StoredUser(name, email, SimpleHash(password))]) &&
        progress == old(progress)[ProgressKey(email) := Parsed([])] &&
        session == Some(Parsed(SessionUser(name, email))) &&
        user == Some(SessionUser(name, email)) && completedWeeks == [] && view == DashboardView &&
        authMode == old(authMode) && selectedWeek == old(selectedWeek)
      ensures old(Valid()) ==> Valid()
    {
      if users.Malformed? {
        return Rejected;
      }
      var list := users.value;
      if EmailTaken(list, email) {
        return Resolved(false);
      }
      var saved := StoredUser(name, email, SimpleHash(password));
      if UniqueEmails(list) {
        AppendKeepsEmailsUnique(list, saved);
      }
      users := Parsed(list + [saved]);
      progress := progress[ProgressKey(email) := Parsed([])];
      session := Some(Parsed(SessionUser(name, email)));
      user := Some(SessionUser(name, email));
      completedWeeks := [];
      view := DashboardView;
      reply := Resolved(true);
    }

    /** `handleLogin`. It signs in the first stored user with this email whose stored password is
        the transform of the supplied one, and loads that account's progress (empty when none is
        stored); when no user matches it fails and changes nothing. The session is written before
        the progress record is parsed, so an unreadable record leaves only that write behind. */
    method Login(email: string, password: string) returns (reply: Reply)
      modifies this
      ensures users == old(users) && progress == old(progress)
      ensures authMode == old(authMode) && selectedWeek == old(selectedWeek)
      ensures old(users).Malformed? ==> reply == Rejected && unchanged(this)
      ensures old(users).Parsed? && FindAccount(old(users).value, email, password).None? ==>
        reply == Resolved(false) && unchanged(this)
      ensures old(users).Parsed? && FindAccount(old(users).value, email, password).Some? ==>
        var found := old(users).value[FindAccount(old(users).value, email, password).value];
        var u := SessionUser(found.name, email);
        session == Some(Parsed(u)) &&
        match Lookup(progress, ProgressKey(email))
        case None =>
          reply == Resolved(true) && user == Some(u) && completedWeeks == [] && view == DashboardView
        case Some(Parsed(ids)) =>
          reply == Resolved(true) && user == Some(u) && completedWeeks == ids && view == DashboardView
        case Some(Malformed) =>
          reply == Rejected && user == old(user) && completedWeeks == old(completedWeeks) && view == old(view)
      ensures old(Valid()) ==> Valid()
    {
      if users.Malformed? {
        return Rejected;
      }
      var list := users.value;
      var index := FindAccount(list, email, password);
      if index.None? {
        return Resolved(false);
      }
      var found := list[index.value];
      var u := SessionUser(found.name, found.email);
      session := Some(Parsed(u));
      match Lookup(progress, ProgressKey(found.email))
      case Some(Malformed) =>
        reply := Rejected;
      case None =>
        user, completedWeeks, view := Some(u), [], DashboardView;
        reply := Resolved(true);
      case Some(Parsed(ids)) =>
        user, completedWeeks, view := Some(u), ids, DashboardView;
        reply := Resolved(true);
    }

    /** `handleLogout`: always the same signed-out state; the durable store is left alone. */
    method Logout()
      modifies this
      ensures session == None && user == None && completedWeeks == [] && view == LandingView
      ensures users == old(users) && progress == old(progress)
      ensures authMode == old(authMode) && selectedWeek == old(selectedWeek)
      ensures old(Valid()) ==> Valid()
    {
      session := None;
      user := None;
      view := LandingView;
      completedWeeks := [];
    }

    /** `handleSelectWeek`: open a week's page. */
    method SelectWeek(week: Week)
      modifies this
      ensures selectedWeek == Some(week) && view == WeekView
      ensures users == old(users) && progress == old(progress) && session == old(session)
      ensures user == old(user) && completedWeeks == old(completedWeeks) && authMode == old(authMode)
      ensures old(Valid()) ==> Valid()
    {
      selectedWeek := Some(week);
      view := WeekView;
    }

    /** `handleCompleteWeek`. Without a signed-in user nothing happens, not even a view change.
        A week already completed writes nothing and only returns to the dashboard. A new week is
        added, the list sorted ascending, and the result kept both in memory and in the user's
        progress record. */
    method CompleteWeek(weekId: int)
      modifies this
      ensures old(user).None? ==> unchanged(this)
      ensures old(user).Some? ==>
        completedWeeks == WithWeek(old(completedWeeks), weekId) &&
        progress == (if weekId in old(completedWeeks) then old(progress)
                     else old(progress)[ProgressKey(old(user).value.email) := Parsed(completedWeeks)]) &&
        view == DashboardView &&
        users == old(users) && session == old(session) && user == old(user) &&
        authMode == old(authMode) && selectedWeek == old(selectedWeek)
      ensures old(Valid()) ==> Valid()
    {
      if user.None? {
        return;
      }
      if weekId !in completedWeeks {
        var updated := SortAscending(completedWeeks + [weekId]);
        completedWeeks := updated;
        progress := progress[ProgressKey(user.value.email) := Parsed(updated)];
      }
      view := DashboardView;
    }

    /** `handleNavigateToDashboard`. */
    method NavigateToDashboard()
      modifies this
      ensures view == DashboardView
      ensures users == old(users) && progress == old(progress) && session == old(session)
      ensures user == old(user) && completedWeeks == old(completedWeeks)
      ensures authMode == old(authMode) && selectedWeek == old(selectedWeek)
      ensures old(Valid()) ==> Valid()
    {
      view := DashboardView;
    }

    /** `handleNavigateToAuth`: the auth page in the given mode. */
    method NavigateToAuth(mode: AuthMode)
      modifies this
      ensures view == AuthView && authMode == mode
      ensures users == old(users) && progress == old(progress) && session == old(session)
      ensures user == old(user) && completedWeeks == old(completedWeeks) && selectedWeek == old(selectedWeek)
      ensures old(Valid()) ==> Valid()
    {
      authMode := mode;
      view := AuthView;
    }

    /** The auth page's `onSwitchView`, which is the view setter itself, restricted by the
        prop's type to the landing and auth views. The auth page never calls it. */
    method SwitchView(v: View)
      requires v == LandingView || v == AuthView
      modifies this
      ensures view == v
      ensures users == old(users) && progress == old(progress) && session == old(session)
      ensures user == old(user) && completedWeeks == old(completedWeeks)
      ensures authMode == old(authMode) && selectedWeek == old(selectedWeek)
      ensures old(Valid()) ==> Valid()
    {
      view := v;
    }

    /** A click on the dashboard's row for the week at `index`: the row calls back into
        `handleSelectWeek` only when the week is not locked; a locked row does nothing. */
    method ClickWeek(course: Course, index: nat)
      requires index < |course.weeks|
      modifies this
      ensures Dashboard.IsLocked(old(completedWeeks), course.weeks, index) ==> unchanged(this)
      ensures !Dashboard.IsLocked(old(completedWeeks), course.weeks, index) ==>
        selectedWeek == Some(course.weeks[index]) && view == WeekView &&
        users == old(users) && progress == old(progress) && session == old(session) &&
        user == old(user) && completedWeeks == old(completedWeeks) && authMode == old(authMode)
      ensures old(Valid()) ==> Valid()
    {
      if !Dashboard.IsLocked(completedWeeks, course.weeks, index) {
        SelectWeek(course.weeks[index]);
      }
    }
  }
}
