# Course app account and progress store, in Dafny

This project models the logic core of a small single-page course application: the root
component `App.tsx` and the progress predicates of `pages/Dashboard.tsx`.

The root component keeps an account directory (`users`), one progress record per account
(`progress_<email>`) in the browser's durable store, and a `loggedInUser` slot in the per-tab
store. In memory it holds the signed-in user, the list of completed week ids, the current view,
the auth mode and the selected week. Its handlers are register, login, logout, complete-week,
select-week and the view switches. A mount effect restores a session from the per-tab store.
The dashboard derives from the completed-week list whether the course is complete and which
weeks are completed or locked. It also builds the certificate's file name from the student's name.

Modules:

- `Types` (types.dfy): the records of `types.ts`, the views, and the wrappers `Option`, `Json`
  (a stored record either parses or throws) and `Reply` (a handler's promise resolves with a
  boolean or rejects).
- `Credentials` (credentials.dfy): the password transform `simpleHash` and the storage keys. Both
  put a fixed prefix in front of a string, so both are injective.
- `Accounts` (accounts.dfy): the duplicate-email test of registration and the search of login,
  with the lemmas that registration keeps emails unique and that login compares plaintexts.
- `WeekList` (week_list.dfy): the ascending numeric sort and the list that marking a week
  produces. It is idempotent and independent of the order in which weeks are marked, and it keeps
  the list ascending and free of repetitions.
- `Dashboard` (dashboard.dfy): the completion, completed and locked predicates, unlock
  monotonicity, the link between "course complete" and "every week completed", and the
  certificate file name.
- `App` (app.dfy): class `Store`, one field per piece of state and per stored record, one method
  per handler. `Valid()` is the store's invariant, and every handler keeps it.
- `Scenarios` (scenarios.dfy): client methods that run the handlers and check results from their
  contracts alone. They cover registering, completing weeks 1 and 3, signing out and back in,
  restoring a session, and corrupt storage.

Modelling choices:

- Browser storage is typed. The `users` record is a `Json<seq<StoredUser>>`. An absent record
  reads as the empty list, exactly as the code does, so it is represented as `Parsed([])`.
  Progress records are a `map` from the full key `progress_<email>` to `Json<seq<int>>`. The
  session slot is an `Option<Json<SessionUser>>`.
- A `JSON.parse` that throws is `Malformed`. In `handleRegister` and `handleLogin` such a throw
  rejects the promise, which is modelled as `Rejected`. In the mount effect it is caught and the
  per-tab store is cleared.
- React setters are modelled as assignments in program order. No handler reads back state that it
  has set, so batching the updates does not change the outcome.
- Week ids are JavaScript numbers. They are modelled as `int`, which is what the curriculum uses.

Four behaviours of the code are easy to miss:

- Restoring a session loads the stored progress list as it is and does not sort it. A stored
  `[2, 1]` stays `[2, 1]` (`Scenarios.RestoreThenReload`).
- A progress record that fails to parse during restore leaves the user signed in, because the
  user has already been set at that point. The view stays on the landing page and the
  per-tab store is cleared.
- A successful login whose progress record fails to parse leaves the session slot written and
  changes nothing else.
- Login replaces the in-memory list with the stored one, and logout empties it. The list is
  therefore not monotone across those two handlers.

## Model

| member | source | states |
|---|---|---|
| Credentials.PrefixCancels | App.tsx:16 | a fixed prefix in front of two strings gives equal results exactly when the strings are equal |
| Credentials.SimpleHash | App.tsx:16 | the stored password value is never the plaintext and is strictly longer than it |
| Credentials.HashInjective | App.tsx:16 | two passwords have the same stored value exactly when they are equal |
| Credentials.ProgressKey | App.tsx:30 | a progress key never collides with the `users` key |
| Credentials.ProgressKeyInjective | App.tsx:110 | two emails share a progress key exactly when they are equal |
| Accounts.EmailTaken | App.tsx:48 | the duplicate test holds exactly when some stored user has this exact email |
| Accounts.FindAccount | App.tsx:74 | finds the first stored user with this email whose stored password is the transform of the supplied one, or reports that none matches |
| Accounts.AppendKeepsEmailsUnique | App.tsx:48-59 | appending a user whose email is not taken keeps emails unique |
| Accounts.LoginComparesPlaintext | App.tsx:74 | a user stored with the transform of `p` matches a supplied password `q` exactly when the emails match and `p == q` |
| Accounts.FindAccountUnique | App.tsx:74-89 | with unique emails, login finds the one account with that email when its password matches and nothing otherwise, so a wrong password fails like an unknown email |
| Accounts.UnknownEmailFails | App.tsx:74 | login with an email no stored user has finds nothing |
| WeekList.Insert | App.tsx:108 | inserting into an ascending list gives an ascending list with one more occurrence of the value |
| WeekList.SortAscending | App.tsx:108 | the numeric sort gives an ascending permutation of its input |
| WeekList.SortedUnique | App.tsx:108 | two ascending lists with the same elements are equal, so the sort's result does not depend on the algorithm |
| WeekList.DistinctByMultiset | App.tsx:108 | sorting a list without repetitions leaves none |
| WeekList.WithWeek | App.tsx:107-111 | an id already present leaves the list alone; otherwise the result is ascending and holds the old ids plus the new one; it keeps the list ascending and free of repetitions |
| WeekList.CompleteIdempotent | App.tsx:107 | marking the same week twice gives the list marking it once gives |
| WeekList.CompleteCommutes | App.tsx:107-111 | marking two weeks in either order gives the same list |
| Dashboard.FirstWeekNeverLocked | pages/Dashboard.tsx:96 | the first week is never locked |
| Dashboard.UnlockingIsMonotone | pages/Dashboard.tsx:96 | adding completed ids never locks an unlocked week |
| Dashboard.CompletingKeepsCourseIds | App.tsx:107-111 | marking the id of a course week keeps a list of course ids a list of course ids |
| Dashboard.CompletingUnlocksNext | pages/Dashboard.tsx:95-96 | after a week is marked, it is shown completed and the next week is unlocked |
| Dashboard.CompleteMeansEveryWeekCompleted | pages/Dashboard.tsx:36 | with a list free of repetitions that holds only course ids, the length test for completion means every week is shown completed |
| Dashboard.EveryWeekCompletedMeansComplete | pages/Dashboard.tsx:36 | with distinct week ids, every week shown completed means the length test holds |
| Dashboard.LengthTestIgnoresIds | pages/Dashboard.tsx:36 | the completion test counts ids: a list with a foreign id passes it while a week is not completed |
| Dashboard.ReplaceWhitespace | pages/Dashboard.tsx:62 | same length, no whitespace left, each whitespace character becomes `_`, every other character stays in place |
| Dashboard.CertificateFileName | pages/Dashboard.tsx:62 | the name is `Certificate-` plus the name with its whitespace replaced plus `.pdf` |
| App.Store.constructor | App.tsx:18-23 | mounting keeps both stores and starts signed out on the landing view with an empty list |
| App.Store.RestoreSession | App.tsx:25-42 | no session: nothing changes; a corrupt session is cleared; a readable one sets the user and loads the stored list unsorted (none stored: list kept), going to the dashboard; a corrupt progress record clears the session and keeps the landing view with the user set; the invariant is kept |
| App.Store.Register | App.tsx:44-68 | unreadable directory: rejected, nothing changes; taken email: false, nothing changes; otherwise true, exactly one record with the transformed password appended, an empty progress record written, the session and user set to name and email, empty list, dashboard; emails stay unique |
| App.Store.Login | App.tsx:70-90 | unless a stored record fails to parse (then rejected), succeeds exactly when some stored user matches the email and transformed password; sets the session and user to the first match's name and email, loads the stored list (empty when none), goes to the dashboard; otherwise false and nothing changes; never writes the durable store |
| App.Store.Logout | App.tsx:92-97 | always the same signed-out state: no session, no user, empty list, landing view; the durable store is untouched |
| App.Store.SelectWeek | App.tsx:99-102 | selects the week and shows its page, nothing else changes |
| App.Store.CompleteWeek | App.tsx:104-113 | no user: nothing changes; otherwise the list becomes the marked list, it is written to the user's progress record only when it changed, and the view returns to the dashboard |
| App.Store.NavigateToDashboard | App.tsx:115-117 | shows the dashboard, nothing else changes |
| App.Store.NavigateToAuth | App.tsx:119-122 | shows the auth page in the given mode, nothing else changes |
| App.Store.SwitchView | App.tsx:145 | the view setter handed to the auth page as `onSwitchView` sets the landing or auth view, nothing else changes (the auth page never calls it) |
| App.Store.ClickWeek | pages/Dashboard.tsx:101 | a click on a locked week changes nothing; on an unlocked week it selects that week and shows its page |
| Scenarios.FirstCompletion | App.tsx:108 | marking week 1 on an empty list gives `[1]` |
| Scenarios.SecondCompletion | App.tsx:108 | marking week 3 after week 1 gives `[1, 3]` |

## Left out

- Rendering: the JSX of every component, the landing page, course-week page, header, footer,
  certificate and progress bar. None of it holds logic beyond the dashboard predicates modelled here.
- Certificate PDF generation (pages/Dashboard.tsx:38-70): DOM manipulation, a timer delay and the
  foreign `html2canvas` and `jspdf` libraries. Only the file name rule is modelled.
- `JSON.parse`, `JSON.stringify` and the browser storage APIs are foreign code. The stores are
  typed Dafny values, and a record that does not parse, or that parses into a value whose fields
  cannot be read, is the abstract `Malformed`. A record that parses into a value of an unexpected
  shape but is read without throwing (a session object without an `email`, progress that is not an
  array of numbers) is not represented.
- `sessionStorage.clear()` empties the whole per-tab store. The model holds only the
  `loggedInUser` slot of that store, which it empties.
- The progress percentage (App.tsx:152-155) and the progress bar's clamping and rounding: these
  are floating-point division and `Math.round`.
- The auth page's form state, loading flag and error messages, including its empty-field check
  before registering. `Register` accepts any strings, as `handleRegister` does.
- `constants.ts` is static curriculum data. It holds six weeks with ids 1 to 6 and is not part of
  this model.
- A failing storage write (for example a full quota) part-way through `handleRegister` or
  `handleCompleteWeek`: every write of the model succeeds, so the partial state such a failure
  leaves behind is not represented.
- Several tabs sharing the durable store, and the lost updates this allows, are concurrency
  outside one running instance.
- Week ids are unbounded integers, not IEEE doubles. Characters are Unicode scalar values, not
  UTF-16 code units. Every character that JavaScript's `\s` matches lies in the Basic Multilingual
  Plane, so the replacement is the same on both.
