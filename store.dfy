/** What the handlers read and write: the users, tasks and ownership tables,
    the cookie session, and the responses they send back. */
module Store {
  import opened Wrappers

  type UserId = nat
  type TaskId = nat

  // ---------------------------------------------------------------------------
  // Password digests

  /** A SHA-256 digest, represented by the message it was computed over. */
  datatype Digest = Sha256(message: string)

  /** The fixed secret written in front of every password before hashing. */
  const Salt: string := "todolist.go#"

  /** The stored form of a password: SHA-256 over the salt followed by the
      password. The same password always gives the same digest. */
  function Hash(password: string): (d: Digest)
    ensures |d.message| == |Salt| + |password|
    ensures d.message[..|Salt|] == Salt && d.message[|Salt|..] == password
  {
    Sha256(Salt + password)
  }

  // ---------------------------------------------------------------------------
  // Rows

  /** A row of `users`; `isValid == false` marks a deactivated account. */
  datatype User = User(name: string, password: Digest, isValid: bool)

  /** What the application sent for the `priority` column: the raw form text
      on creation, the number strconv.ParseUint produced on edit. */
  datatype Priority = Text(text: string) | Number(value: nat)

  /** A row of `tasks`. */
  datatype Task = Task(title: string, description: string, isDone: bool,
                       priority: Priority, deadline: string)

  /** No two rows of `users` share a name (the column is UNIQUE). */
  ghost predicate NamesUnique(users: map<UserId, User>)
  {
    forall a, b :: a in users && b in users && users[a].name == users[b].name ==> a == b
  }

  /** Some row of `users` has this name (deactivated rows included). */
  predicate NameTaken(users: map<UserId, User>, name: string)
  {
    exists id :: id in users && users[id].name == name
  }

  // ---------------------------------------------------------------------------
  // Requests and responses

  /** The submitted form fields. */
  type Form = map<string, string>

  /** gin's PostForm and the value half of GetPostForm: "" for a missing field. */
  function PostForm(form: Form, key: string): (v: string)
    ensures key !in form ==> v == ""
    ensures key in form ==> v == form[key]
  {
    if key in form then form[key] else ""
  }

  /** Targets of the redirects the handlers send. */
  datatype Location = HomePage | ListPage | LoginPage | TaskPage(id: TaskId)

  datatype Response =
    | Redirect(to: Location)        // 302 Found
    | FormError(message: string)    // 400: the submitted form shown again with this message
    | ErrorPage(message: string)    // 400: the error page with this fixed message
    | RawErrorPage                  // 400: the error page with a parser's or the store's own error text
    | Unauthorized                  // CheckUser's "401 Unauthorized" page, sent with status 400
    | InternalError                 // 500 with the store's own error text
    | ListView(tasks: seq<TaskId>, pages: seq<int>, nowPage: int)   // 200: the task list page
    | Panic                         // a runtime panic, answered with 500 by gin's recovery middleware

  /** What a pipeline guard decides: run the rest of the chain, or answer and stop. */
  datatype Guard = Continue | Abort(response: Response)

  /** How the database behaves during one request: it works, the connection is
      unavailable, or the handler's database call number `index` (counting from
      0, in the order the handler makes them) returns an error. */
  datatype Db = Healthy | ConnectFails | CallFails(index: nat)

  predicate Connected(db: Db) { db != ConnectFails }

  predicate CallSucceeds(db: Db, index: nat) { db != CallFails(index) }

  // ---------------------------------------------------------------------------
  // The application state

  /** The three tables, their AUTO_INCREMENT counters, and the session of the
      client making the request. */
  class App {
    var users: map<UserId, User>
    var tasks: map<TaskId, Task>
    var ownership: map<TaskId, UserId>    // task_id -> user_id
    var session: Option<UserId>           // the "user" entry of the session cookie
    var nextUserId: nat
    var nextTaskId: nat

    /** Ids are positive and below their counters (so a new id is fresh),
        names are unique, and the session and every ownership row name an
        existing user. */
    ghost predicate Valid()
      reads this
    {
      && 0 < nextUserId && 0 < nextTaskId
      && (forall id :: id in users ==> 0 < id < nextUserId)
      && (forall id :: id in tasks ==> 0 < id < nextTaskId)
      && (forall id :: id in ownership ==> 0 < id < nextTaskId && ownership[id] in users)
      && (session.Some? ==> session.value in users)
      && NamesUnique(users)
    }

    /** Empty tables, no one logged in. */
    constructor ()
      ensures Valid()
      ensures users == map[] && tasks == map[] && ownership == map[] && session == None
      ensures nextUserId == 1 && nextTaskId == 1
    {
      users, tasks, ownership, session := map[], map[], map[], None;
      nextUserId, nextTaskId := 1, 1;
    }
  }
}
