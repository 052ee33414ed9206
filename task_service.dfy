/** Tasks: the paginated, filtered list, creation inside a transaction, edit
    with lenient parsing, deletion, and the ownership guard. */
module TaskService {
  import opened Wrappers
  import opened GoLib
  import opened Checks
  import opened Store

  // ---------------------------------------------------------------------------
  // Pagination

  const PageSize: nat := 10

  /** How many pages n tasks fill: ceil(n / 10). */
  function PageLen(n: nat): (c: nat)
    ensures n <= c * PageSize
    ensures c > 0 ==> (c - 1) * PageSize < n
    ensures c == 0 <==> n == 0
  {
    var c := n / PageSize;
    if n % PageSize != 0 then c + 1 else c
  }

  /** The `page` query parameter: 1 when absent or empty, otherwise whatever
      strconv.Atoi returns, errors ignored (0 for junk, a bound on overflow). */
  function NowPage(pageParam: string): (p: int)
    ensures MinInt64 <= p <= MaxInt64
    ensures pageParam == "" ==> p == 1
    ensures pageParam != "" && Atoi(pageParam).err == ErrSyntax ==> p == 0
    ensures IsInt64Literal(pageParam) ==>
      p == (if Negative(pageParam) then -(Value(Unsigned(pageParam)) as int) else Value(Unsigned(pageParam)))
    ensures Atoi(pageParam).err == ErrRange ==> p == (if Negative(pageParam) then MinInt64 else MaxInt64)
  {
    if pageParam == "" then 1 else Atoi(pageParam).value
  }

  /** The tasks shown, or the slice-bounds panic. */
  datatype Page = Rows(rows: seq<TaskId>) | OutOfRange

  /** In 64-bit int, a + 10 is either 10 more than a or, past the top of the
      range, 10 - 2^64 more. */
  lemma WrapGap(a: int)
    ensures Wrap64(a + PageSize) - Wrap64(a) == PageSize
         || Wrap64(a + PageSize) - Wrap64(a) == PageSize - TwoTo64
  {
    var lo, hi := Wrap64(a), Wrap64(a + PageSize);
    var g := hi - lo - PageSize;
    assert g % TwoTo64 == 0 by {
      assert (hi - (a + PageSize)) % TwoTo64 == 0 && (lo - a) % TwoTo64 == 0;
      assert g == (hi - (a + PageSize)) - (lo - a);
    }
    assert 0 - TwoTo64 - PageSize < g < TwoTo64;
    var q := g / TwoTo64;
    assert g == q * TwoTo64;
    assert q == 0 || q == -1;
  }

  /** rows are the listed tasks from position lo on, consecutively. */
  predicate ShownFrom(tasks: seq<TaskId>, rows: seq<TaskId>, lo: int)
  {
    0 <= lo <= |tasks| - |rows| && rows == tasks[lo..lo + |rows|]
  }

  /** The slice of the listed tasks the handler renders for page `page`.
      The bounds (page-1)*10 and page*10 are computed in 64-bit int.
      Whatever the page number, what is shown is 1 to 10 consecutive listed
      tasks (none when nothing is listed), or a panic. */
  function SelectPage(tasks: seq<TaskId>, page: int): (r: Page)
    requires MinInt64 <= page <= MaxInt64
    ensures tasks == [] ==> r == Rows([])
    ensures r.Rows? && tasks != [] ==>
      && 1 <= |r.rows| <= PageSize
      && exists lo :: ShownFrom(tasks, r.rows, lo)
  {
    var pageLen := PageLen(|tasks|);
    if pageLen == 0 then Rows(tasks)
    else if page >= pageLen then
      var lo := (pageLen - 1) * PageSize;
      assert ShownFrom(tasks, tasks[lo..], lo);
      Rows(tasks[lo..])
    else
      var lo := Wrap64((page - 1) * PageSize);
      var hi := Wrap64(page * PageSize);
      if 0 <= lo <= hi <= |tasks| then
        WrapGap((page - 1) * PageSize);
        assert hi - lo == PageSize;
        assert ShownFrom(tasks, tasks[lo..hi], lo);
        Rows(tasks[lo..hi])
      else OutOfRange
  }

  /** With nothing listed, every page request shows the (empty) list. */
  lemma EmptyListIgnoresPage(page: int)
    requires MinInt64 <= page <= MaxInt64
    ensures SelectPage([], page) == Rows([])
  {
  }

  /** A page at or past the last one shows the last page, which holds 1 to 10 tasks. */
  lemma TailClamp(tasks: seq<TaskId>, page: int)
    requires MinInt64 <= page <= MaxInt64
    requires 0 < PageLen(|tasks|) <= page
    ensures SelectPage(tasks, page) == SelectPage(tasks, PageLen(|tasks|))
    ensures SelectPage(tasks, page) == Rows(tasks[(PageLen(|tasks|) - 1) * PageSize..])
    ensures 1 <= |SelectPage(tasks, page).rows| <= PageSize
  {
  }

  /** A page before the last one is a full, in-bounds window of ten tasks. */
  lemma InteriorPage(tasks: seq<TaskId>, page: int)
    requires |tasks| <= MaxInt64
    requires 1 <= page < PageLen(|tasks|)
    ensures page * PageSize <= |tasks|
    ensures SelectPage(tasks, page) == Rows(tasks[(page - 1) * PageSize..page * PageSize])
    ensures |SelectPage(tasks, page).rows| == PageSize
  {
    var pageLen := PageLen(|tasks|);
    MulMono(page, pageLen - 1, PageSize);
  }

  /** A page of 0 or below, down to where page*10 would wrap, panics: the
      slice start is negative, or (at the very bottom) wraps past the end. */
  lemma NonPositivePagePanics(tasks: seq<TaskId>, page: int)
    requires tasks != []
    requires MinInt64 / PageSize + 1 <= page <= 0
    ensures SelectPage(tasks, page) == OutOfRange
  {
  }

  /** Far enough below zero, (page-1)*10 and page*10 wrap around to small
      non-negative numbers, and the handler shows tasks 6 to 15 instead of panicking. */
  lemma WrappedPageShowsShiftedWindow(tasks: seq<TaskId>)
    requires |tasks| >= 16
    ensures SelectPage(tasks, -1844674407370955160) == Rows(tasks[6..16])
  {
    var page := -1844674407370955160;
    assert (page - 1) * PageSize + TwoTo64 == 6;
    assert page * PageSize + TwoTo64 == 16;
  }

  /** Every listed task is on page i/10 + 1, at position i mod 10. */
  lemma {:induction false} EveryTaskOnItsPage(tasks: seq<TaskId>, i: nat)
    requires i < |tasks| <= MaxInt64
    ensures var p := SelectPage(tasks, i / PageSize + 1);
      p.Rows? && i % PageSize < |p.rows| && p.rows[i % PageSize] == tasks[i]
  {
    var pageLen := PageLen(|tasks|);
    var page := i / PageSize + 1;
    assert (page - 1) * PageSize + i % PageSize == i;
    assert page <= pageLen;
    if page < pageLen {
      InteriorPage(tasks, page);
    }
  }

  /** Twenty-three tasks make pages 1, 2 and 3; page 4 shows what page 3 shows,
      and page 1 shows the first ten. */
  lemma TwentyThreeTasks(tasks: seq<TaskId>)
    requires |tasks| == 23
    ensures PageLen(|tasks|) == 3
    ensures SelectPage(tasks, 4) == SelectPage(tasks, 3) == Rows(tasks[20..])
    ensures SelectPage(tasks, 1) == Rows(tasks[..10])
  {
    TailClamp(tasks, 4);
    InteriorPage(tasks, 1);
  }

  /** The page links 1..pageLen, built with the handler's append loop. */
  method PageNumbers(pageLen: int) returns (pages: seq<int>)
    ensures |pages| == if pageLen > 0 then pageLen else 0
    ensures forall k :: 0 <= k < |pages| ==> pages[k] == k + 1
  {
    pages := [];
    var i := 1;
    while i <= pageLen
      invariant 1 <= i <= if pageLen > 0 then pageLen + 1 else 1
      invariant |pages| == i - 1
      invariant forall k :: 0 <= k < |pages| ==> pages[k] == k + 1
    {
      pages := pages + [i];
      i := i + 1;
    }
  }

  // ---------------------------------------------------------------------------
  // The list query

  /** `title LIKE '%kw%'`, read as substring containment. */
  predicate Contains(title: string, kw: string)
  {
    kw <= title || (title != [] && Contains(title[1..], kw))
  }

  /** kw occurs in title starting at offset i. */
  predicate OccursAt(title: string, kw: string, i: int)
  {
    0 <= i && i + |kw| <= |title| && title[i..i + |kw|] == kw
  }

  /** A title that contains kw has it at some offset. */
  lemma {:induction false} ContainsHasOffset(title: string, kw: string)
    requires Contains(title, kw)
    ensures exists i :: OccursAt(title, kw, i)
  {
    if kw <= title {
      assert OccursAt(title, kw, 0);
    } else {
      var rest := title[1..];
      ContainsHasOffset(rest, kw);
      var i :| OccursAt(rest, kw, i);
      assert title[i + 1..i + 1 + |kw|] == rest[i..i + |kw|];
      assert OccursAt(title, kw, i + 1);
    }
  }

  /** kw at any offset of the title makes the title contain it. */
  lemma {:induction false} OffsetGivesContains(title: string, kw: string, i: int)
    requires OccursAt(title, kw, i)
    ensures Contains(title, kw)
    decreases i
  {
    if i > 0 {
      var rest := title[1..];
      assert rest[i - 1..i - 1 + |kw|] == title[i..i + |kw|];
      OffsetGivesContains(rest, kw, i - 1);
    }
  }

  /** Contains holds exactly when kw occurs in title at some offset. */
  lemma ContainsMeansSubstring(title: string, kw: string)
    ensures Contains(title, kw) <==> exists i :: OccursAt(title, kw, i)
  {
    if Contains(title, kw) {
      ContainsHasOffset(title, kw);
    } else {
      forall i | OccursAt(title, kw, i)
        ensures false
      {
        OffsetGivesContains(title, kw, i);
      }
    }
  }

  /** An empty keyword matches every title; a keyword longer than the title matches none. */
  lemma ContainsBounds(title: string, kw: string)
    ensures kw == [] ==> Contains(title, kw)
    ensures |kw| > |title| ==> !Contains(title, kw)
  {
    ContainsMeansSubstring(title, kw);
    if kw == [] {
      assert OccursAt(title, kw, 0);
    }
  }

  /** The four query variants the handler chooses between. */
  datatype Filter = Unfiltered | ByKeyword | ByStatus | ByKeywordAndStatus

  function FilterOf(kw: string, status: string): Filter
  {
    if kw != "" && status != "" then ByKeywordAndStatus
    else if kw != "" then ByKeyword
    else if status != "" then ByStatus
    else Unfiltered
  }

  /** The WHERE clause of the chosen query, for task `id` and session user `user`. */
  predicate Selects(tasks: map<TaskId, Task>, ownership: map<TaskId, UserId>,
                    user: UserId, kw: string, status: string, id: TaskId)
  {
    id in tasks && id in ownership && ownership[id] == user &&
    match FilterOf(kw, status)
    case Unfiltered => true
    case ByKeyword => Contains(tasks[id].title, kw)
    case ByStatus => tasks[id].isDone == (status == "done")
    case ByKeywordAndStatus => Contains(tasks[id].title, kw) && tasks[id].isDone == (status == "done")
  }

  /** The four variants are one filter: the user's own tasks, narrowed by the
      keyword when one is given and by the status when one is given. */
  lemma SelectsOwnFilteredTasks(tasks: map<TaskId, Task>, ownership: map<TaskId, UserId>,
                                user: UserId, kw: string, status: string, id: TaskId)
    ensures Selects(tasks, ownership, user, kw, status, id) <==>
      && id in tasks && id in ownership && ownership[id] == user
      && (kw != "" ==> Contains(tasks[id].title, kw))
      && (status != "" ==> tasks[id].isDone == (status == "done"))
  {
  }

  /** `answer` is what the database returns for the list query: each selected
      task once, in an order the query leaves open (it has no ORDER BY). With
      no user in the session the query compares user_id with NULL and selects nothing. */
  ghost predicate QueryAnswer(answer: seq<TaskId>, session: Option<UserId>,
                              tasks: map<TaskId, Task>, ownership: map<TaskId, UserId>,
                              kw: string, status: string)
  {
    && (forall i, j :: 0 <= i < j < |answer| ==> answer[i] != answer[j])
    && (forall id :: id in answer <==> session.Some? && Selects(tasks, ownership, session.value, kw, status, id))
  }

  /** The rows the handler's slice holds after the list query: all of the
      answer, or, when the query fails, the rows sqlx appended before the
      failure (its first `scanned`, none when the query itself fails). */
  function Listed(answer: seq<TaskId>, scanned: nat, db: Db): (listed: seq<TaskId>)
    ensures listed <= answer
    ensures CallSucceeds(db, 0) ==> listed == answer
    ensures !CallSucceeds(db, 0) ==> |listed| == if scanned < |answer| then scanned else |answer|
  {
    if CallSucceeds(db, 0) then answer
    else answer[..if scanned < |answer| then scanned else |answer|]
  }

  /** GET /list. A failing SELECT is not checked: the page is rendered from
      whatever rows were read before it failed. */
  method TaskList(app: App, kw: string, status: string, pageParam: string,
                  answer: seq<TaskId>, scanned: nat, db: Db) returns (res: Response)
    requires QueryAnswer(answer, app.session, app.tasks, app.ownership, kw, status)
    ensures !Connected(db) ==> res == InternalError
    ensures Connected(db) ==>
      var listed := Listed(answer, scanned, db);
      var page := NowPage(pageParam);
      match SelectPage(listed, page)
      case Rows(shown) => res == ListView(shown, seq(PageLen(|listed|), k => k + 1), page)
      case OutOfRange => res == Panic
  {
    if !Connected(db) {
      return InternalError;
    }
    var page := NowPage(pageParam);
    var listed := Listed(answer, scanned, db);
    var pageLen := PageLen(|listed|);
    var shown := SelectPage(listed, page);
    if shown.OutOfRange? {
      return Panic;
    }
    var pages := PageNumbers(pageLen);
    assert pages == seq(pageLen, k => k + 1);
    res := ListView(shown.rows, pages, page);
  }

  /** Every task the list shows is one of the session user's own tasks that
      passes the keyword and status filters. */
  lemma ListShowsOnlyOwnTasks(session: Option<UserId>, tasks: map<TaskId, Task>,
                              ownership: map<TaskId, UserId>, kw: string, status: string,
                              answer: seq<TaskId>, scanned: nat, db: Db, page: int, id: TaskId)
    requires QueryAnswer(answer, session, tasks, ownership, kw, status)
    requires MinInt64 <= page <= MaxInt64
    requires var p := SelectPage(Listed(answer, scanned, db), page); p.Rows? && id in p.rows
    ensures session.Some? && Selects(tasks, ownership, session.value, kw, status, id)
  {
    var listed := Listed(answer, scanned, db);
    var p := SelectPage(listed, page);
    var j :| 0 <= j < |p.rows| && p.rows[j] == id;
    assert listed != [];
    var lo :| ShownFrom(listed, p.rows, lo);
    assert listed[lo + j] == id;
    assert answer[lo + j] == id;
    assert id in answer;
  }

  // ---------------------------------------------------------------------------
  // The ownership guard

  /** The user_id CheckUser's join of tasks and ownership finds for task id,
      or the 0 its variable keeps when no row comes back. */
  function OwnerOf(tasks: map<TaskId, Task>, ownership: map<TaskId, UserId>, id: int): UserId
  {
    if 0 <= id && id in tasks && id in ownership then ownership[id] else 0
  }

  /** The owner CheckUser compares the session with: the row found for the
      parsed id, or 0 (the variable's zero value) when db.Get fails, since
      its error is ignored. */
  function LookedUpOwner(idParam: string, tasks: map<TaskId, Task>, ownership: map<TaskId, UserId>,
                         db: Db): (owner: UserId)
    ensures !CallSucceeds(db, 0) ==> owner == 0
    ensures owner != 0 ==> var id := Atoi(idParam).value;
      0 <= id && id in tasks && id in ownership && owner == ownership[id]
  {
    if CallSucceeds(db, 0) then OwnerOf(tasks, ownership, Atoi(idParam).value) else 0
  }

  /** CheckUser: parse the route's id (errors ignored), look up its owner
      (call 0), and let the chain go on only when the session holds exactly
      that user. When the connection fails it writes a 500 page but neither
      aborts nor stops the chain, so gin goes on to the handler. */
  function CheckUser(session: Option<UserId>, idParam: string,
                     tasks: map<TaskId, Task>, ownership: map<TaskId, UserId>, db: Db): (g: Guard)
    ensures !Connected(db) ==> g == Continue
    ensures Connected(db) ==> (g == Continue <==> session == Some(LookedUpOwner(idParam, tasks, ownership, db)))
    ensures g != Continue ==> g == Abort(Unauthorized)
  {
    if !Connected(db) then Continue
    else
      var owner := LookedUpOwner(idParam, tasks, ownership, db);
      if session != Some(owner) then Abort(Unauthorized) else Continue
  }

  /** For a real user (ids start at 1) and a working connection, CheckUser
      admits exactly the owner of an existing task; an unparsable id, a
      deleted task, a task without an ownership row or a failed lookup is
      refused. Without a connection it admits everyone. */
  lemma CheckUserAdmitsOnlyOwner(session: Option<UserId>, idParam: string,
                                 tasks: map<TaskId, Task>, ownership: map<TaskId, UserId>, db: Db)
    requires session.None? || session.value > 0
    requires forall t :: t in tasks ==> t > 0
    ensures var id := Atoi(idParam).value;
      CheckUser(session, idParam, tasks, ownership, db) == Continue <==>
        || !Connected(db)
        || (CallSucceeds(db, 0) && session.Some? && id in tasks && id in ownership && ownership[id] == session.value)
    ensures Connected(db) && Atoi(idParam).err == ErrSyntax ==>
      CheckUser(session, idParam, tasks, ownership, db) != Continue
  {
  }

  // ---------------------------------------------------------------------------
  // Creating a task

  /** The creation form's required fields, in order. Only presence is checked:
      an empty value passes. */
  function TaskFormChecks(form: Form): seq<Check>
  {
    [ Check("title" in form, "No title is given"),
      Check("description" in form, "No description is given"),
      Check("priority" in form, "No priority is given"),
      Check("deadline" in form, "No deadline is given") ]
  }

  /** Task creation names the first missing field, in this order. */
  lemma TaskFormOrder(form: Form)
    ensures FirstError(TaskFormChecks(form)) ==
      if "title" !in form then Some("No title is given")
      else if "description" !in form then Some("No description is given")
      else if "priority" !in form then Some("No priority is given")
      else if "deadline" !in form then Some("No deadline is given")
      else None
  {
    var checks := TaskFormChecks(form);
    assert FailsFirst(checks, 0) || FailsFirst(checks, 1) || FailsFirst(checks, 2)
        || FailsFirst(checks, 3) || FirstError(checks).None?;
  }

  /** The row a creation form inserts: is_done keeps its column default, false,
      and priority is sent as the submitted text. */
  function NewTask(form: Form): Task
  {
    Task(PostForm(form, "title"), PostForm(form, "description"), false,
         Text(PostForm(form, "priority")), PostForm(form, "deadline"))
  }

  /** POST /task/new, behind LoginCheck. The two inserts run in one
      transaction: call 0 inserts the task, call 1 reads its id, call 2 inserts
      the ownership row, call 3 commits. A failure of calls 0-2 rolls back; the
      commit's own error is not checked, so a failed commit still redirects.
      The task insert takes its id from the AUTO_INCREMENT counter, which a
      rollback does not give back: once call 0 has run, that id is used up. */
  method RegisterTask(app: App, form: Form, db: Db) returns (res: Response)
    requires app.Valid() && app.session.Some?
    modifies app`tasks, app`ownership, app`nextTaskId
    ensures app.Valid()
    // a task row is added exactly when its ownership row is, and at most one
    ensures app.tasks.Keys - old(app.tasks.Keys) == app.ownership.Keys - old(app.ownership.Keys)
    ensures app.tasks == old(app.tasks) <==> app.ownership == old(app.ownership)
    // an id handed out is never handed out again
    ensures app.nextTaskId >= old(app.nextTaskId)
    ensures var missing := FirstError(TaskFormChecks(form));
      var id := old(app.nextTaskId);
      var same := app.tasks == old(app.tasks) && app.ownership == old(app.ownership);
      if missing.Some? then res == ErrorPage(missing.value) && same && app.nextTaskId == id
      else if !Connected(db) || !CallSucceeds(db, 0) then res == InternalError && same && app.nextTaskId == id
      else if !CallSucceeds(db, 1) || !CallSucceeds(db, 2) then
        res == InternalError && same && app.nextTaskId == id + 1
      else if !CallSucceeds(db, 3) then res == Redirect(TaskPage(id)) && same && app.nextTaskId == id + 1
      else
        && id !in old(app.tasks) && id !in old(app.ownership)
        && app.tasks == old(app.tasks)[id := NewTask(form)]
        && app.ownership == old(app.ownership)[id := app.session.value]
        && app.nextTaskId == id + 1
        && res == Redirect(TaskPage(id))
  {
    var missing := FirstError(TaskFormChecks(form));
    if missing.Some? {
      return ErrorPage(missing.value);
    }
    if !Connected(db) {
      return InternalError;
    }
    // the transaction works on its own copy of the two tables
    var txTasks, txOwnership := app.tasks, app.ownership;
    if !CallSucceeds(db, 0) {
      return InternalError;
    }
    var id := app.nextTaskId;
    app.nextTaskId := id + 1;
    txTasks := txTasks[id := NewTask(form)];
    if !CallSucceeds(db, 1) {
      return InternalError;
    }
    if !CallSucceeds(db, 2) {
      return InternalError;
    }
    txOwnership := txOwnership[id := app.session.value];
    if CallSucceeds(db, 3) {
      app.tasks, app.ownership := txTasks, txOwnership;
      assert id in app.tasks.Keys - old(app.tasks.Keys);
      assert id in app.ownership.Keys - old(app.ownership.Keys);
    }
    res := Redirect(TaskPage(id));
  }

  // ---------------------------------------------------------------------------
  // Editing a task

  /** The row an edit form writes: missing fields read as "", an is_done that
      ParseBool refuses becomes false, a priority ParseUint refuses becomes 0
      (or the maximum on overflow). */
  function EditedTask(form: Form): Task
  {
    Task(PostForm(form, "title"), PostForm(form, "description"),
         ParseBool(PostForm(form, "is_done")).value,
         Number(ParseUint(PostForm(form, "priority")).value as nat),
         PostForm(form, "deadline"))
  }

  /** The lenient defaults of an edit. */
  lemma EditedTaskDefaults(form: Form)
    ensures PostForm(form, "is_done") !in TrueSpellings ==> !EditedTask(form).isDone
    ensures var p := PostForm(form, "priority");
      DigitRun(p) < |p| && Value(p[..DigitRun(p)]) <= MaxUint64 ==> EditedTask(form).priority == Number(0)
    ensures EditedTask(form).priority.value <= MaxUint64
  {
    ParseUintAccepts(PostForm(form, "priority"));
  }

  /** The fields of a task as an edit form submits them. */
  function FormOf(t: Task, priority: nat): Form
  {
    map["title" := t.title, "description" := t.description, "is_done" := FormatBool(t.isDone),
        "priority" := Decimal(priority), "deadline" := t.deadline]
  }

  /** Submitting a task's own fields, with its priority printed in decimal,
      writes back exactly that task. */
  lemma EditRoundTrip(t: Task)
    requires t.priority.Number? && t.priority.value <= MaxUint64
    ensures EditedTask(FormOf(t, t.priority.value)) == t
  {
    ParseBoolFormatBool(t.isDone);
    ParseUintDecimal(t.priority.value);
  }

  /** POST /task/edit/:id. Call 0 loads the task, call 1 its owner, call 2 updates it. */
  method EditTask(app: App, idParam: string, form: Form, db: Db) returns (res: Response)
    requires app.Valid()
    modifies app`tasks
    ensures app.Valid()
    ensures var parsed := Atoi(idParam);
      var id := parsed.value;
      if parsed.err != NoError then res == RawErrorPage && app.tasks == old(app.tasks)
      else if !Connected(db) then res == InternalError && app.tasks == old(app.tasks)
      else if !CallSucceeds(db, 0) || id < 0 || id !in old(app.tasks) then
        res == RawErrorPage && app.tasks == old(app.tasks)
      else if !CallSucceeds(db, 1) || id !in app.ownership then
        res == RawErrorPage && app.tasks == old(app.tasks)
      else if app.session != Some(app.ownership[id]) then
        res == ErrorPage("You are not owner of this task") && app.tasks == old(app.tasks)
      else if !CallSucceeds(db, 2) then res == InternalError && app.tasks == old(app.tasks)
      else app.tasks == old(app.tasks)[id := EditedTask(form)] && res == Redirect(TaskPage(id))
  {
    var parsed := Atoi(idParam);
    if parsed.err != NoError {
      return RawErrorPage;
    }
    var id := parsed.value;
    if !Connected(db) {
      return InternalError;
    }
    if !CallSucceeds(db, 0) || id < 0 || id !in app.tasks {
      return RawErrorPage;
    }
    if !CallSucceeds(db, 1) || id !in app.ownership {
      return RawErrorPage;
    }
    if app.session != Some(app.ownership[id]) {
      return ErrorPage("You are not owner of this task");
    }
    if !CallSucceeds(db, 2) {
      return InternalError;
    }
    app.tasks := app.tasks[id := EditedTask(form)];
    res := Redirect(TaskPage(id));
  }

  // ---------------------------------------------------------------------------
  // Deleting a task

  /** GET /task/delete/:id. Only the tasks row goes; the ownership row stays. */
  method DeleteTask(app: App, idParam: string, db: Db) returns (res: Response)
    requires app.Valid()
    modifies app`tasks
    ensures app.Valid()
    ensures app.ownership == old(app.ownership)
    ensures var parsed := Atoi(idParam);
      if parsed.err != NoError then res == RawErrorPage && app.tasks == old(app.tasks)
      else if !Connected(db) || !CallSucceeds(db, 0) then res == InternalError && app.tasks == old(app.tasks)
      else
        && app.tasks == (map t | t in old(app.tasks) && t != parsed.value :: old(app.tasks)[t])
        && res == Redirect(ListPage)
  {
    var parsed := Atoi(idParam);
    if parsed.err != NoError {
      return RawErrorPage;
    }
    if !Connected(db) || !CallSucceeds(db, 0) {
      return InternalError;
    }
    app.tasks := map t | t in app.tasks && t != parsed.value :: app.tasks[t];
    res := Redirect(ListPage);
  }

  /** After a delete, the task's leftover ownership row opens nothing: CheckUser
      refuses every real user for that id. */
  lemma DeletedTaskIsUnreachable(session: Option<UserId>, idParam: string,
                                 tasks: map<TaskId, Task>, ownership: map<TaskId, UserId>, db: Db)
    requires session.None? || session.value > 0
    requires Atoi(idParam).value !in tasks
    ensures Connected(db) ==> CheckUser(session, idParam, tasks, ownership, db) == Abort(Unauthorized)
  {
  }
}
