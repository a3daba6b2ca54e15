/** Client runs of the store, stated only through the handlers' contracts. */
module Scenarios {
  import opened Types
  import opened Credentials
  import opened WeekList
  import opened App

  /** Registering a new email signs the account in with an empty progress list. */
  method RegisterNewAccount() {
    var app := new Store(Parsed([]), map[], None);
    var r := app.Register("Alex", "alex@x.com", "pw1");
    assert r == Resolved(true) && app.completedWeeks == [] && app.view == DashboardView;
    assert app.progress[ProgressKey("alex@x.com")] == Parsed([]);
  }

  /** Week 1 added to an empty list. */
  lemma FirstCompletion()
    ensures WithWeek([], 1) == [1]
  {
    SortedUnique(WithWeek([], 1), [1]);
  }

  /** Week 3 added after week 1. */
  lemma SecondCompletion()
    ensures WithWeek([1], 3) == [1, 3]
  {
    SortedUnique(WithWeek([1], 3), [1, 3]);
  }

  /** Completing weeks 1 and 3, the second one twice, writes the sorted list once per new week. */
  method CompleteTwoWeeks() {
    var alex := SessionUser("Alex", "alex@x.com");
    var app := new Store(Parsed([]), map[ProgressKey("alex@x.com") := Parsed([])], Some(Parsed(alex)));
    app.RestoreSession();
    assert app.user == Some(alex) && app.completedWeeks == [];
    FirstCompletion();
    SecondCompletion();
    app.CompleteWeek(1);
    assert app.completedWeeks == [1];
    app.CompleteWeek(3);
    assert app.completedWeeks == [1, 3];
    app.CompleteWeek(3);
    assert app.completedWeeks == [1, 3];
    assert app.progress[ProgressKey("alex@x.com")] == Parsed([1, 3]);
  }

  /** Sign out twice, fail with a wrong password and with an unknown email, sign back in:
      the progress comes back as it was written, and the email cannot be registered again. */
  method LogoutThenLogin() {
    var alex := StoredUser("Alex", "alex@x.com", SimpleHash("pw1"));
    var app := new Store(Parsed([alex]), map[ProgressKey("alex@x.com") := Parsed([1, 3])],
                         Some(Parsed(SessionUser("Alex", "alex@x.com"))));
    app.Logout();
    app.Logout();
    assert app.session == None && app.user == None && app.view == LandingView;
    HashInjective("pw1", "pw2");
    var bad := app.Login("alex@x.com", "pw2");
    assert bad == Resolved(false) && app.user == None;
    var unknown := app.Login("sam@x.com", "pw1");
    assert unknown == Resolved(false) && app.user == None;
    var ok := app.Login("alex@x.com", "pw1");
    assert ok == Resolved(true) && app.completedWeeks == [1, 3];
    assert app.user == Some(SessionUser("Alex", "alex@x.com"));
    var again := app.Register("Al", "alex@x.com", "other");
    assert again == Resolved(false) && app.user == Some(SessionUser("Alex", "alex@x.com"));
  }

  /** Restoring a session takes the stored list as it is, here unsorted; after sign-out a
      fresh mount over the same stores restores nothing. */
  method RestoreThenReload() {
    var a := SessionUser("A", "a@x.com");
    var app := new Store(Parsed([]), map[ProgressKey("a@x.com") := Parsed([2, 1])], Some(Parsed(a)));
    app.RestoreSession();
    assert app.user == Some(a) && app.completedWeeks == [2, 1] && app.view == DashboardView;
    app.Logout();
    var reloaded := new Store(app.users, app.progress, app.session);
    reloaded.RestoreSession();
    assert reloaded.user == None && reloaded.view == LandingView;
  }

  /** A corrupt session is dropped; a corrupt progress record leaves the user set on the
      landing page. */
  method RestoreCorrupt() {
    var app := new Store(Parsed([]), map[], Some(Malformed));
    app.RestoreSession();
    assert app.session == None && app.user == None && app.view == LandingView;
    var a := SessionUser("A", "a@x.com");
    var other := new Store(Parsed([]), map[ProgressKey("a@x.com") := Malformed], Some(Parsed(a)));
    other.RestoreSession();
    assert other.session == None && other.user == Some(a) && other.view == LandingView;
  }
}
