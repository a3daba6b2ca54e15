/** The records of types.ts, the views of App.tsx, and the two wrappers the store needs:
    an optional value and a record read back from browser storage. */
module Types {

  datatype Option<T> = None | Some(value: T)

  /** A record read back from browser storage: either it parses into the expected shape,
      or parsing it (or reading a field of what it parsed to) throws. */
  datatype Json<T> = Parsed(value: T) | Malformed

  /** An entry of the `users` list; `password` holds the transformed password. */
  datatype StoredUser = StoredUser(name: string, email: string, password: string)

  /** The `{name, email}` record kept in the session slot and in memory; it never carries a password. */
  datatype SessionUser = SessionUser(name: string, email: string)

  datatype Example = Example(title: string, code: string)

  datatype Assignment = Assignment(title: string, description: string)

  datatype Week = Week(
    id: int,
    title: string,
    description: string,
    content: seq<string>,
    videoUrls: seq<string>,
    examples: seq<Example>,
    assignment: Assignment)

  datatype Course = Course(title: string, description: string, weeks: seq<Week>)

  /** The four screens the root component switches between. */
  datatype View = LandingView | AuthView | DashboardView | WeekView

  datatype AuthMode = LoginMode | RegisterMode

  /** How an `async` handler's promise settles: resolved with a boolean, or rejected because
      a `JSON.parse` inside it threw. */
  datatype Reply = Resolved(success: bool) | Rejected
}
