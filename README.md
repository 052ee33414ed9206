# todolist.go — a verified model of its handlers

todolist.go is a small server-rendered to-do application written in Go. It uses
gin for routing, cookie sessions for login and a MySQL database. Users sign up,
log in and out, edit their profile and deactivate their account. Each user
keeps a private list of tasks that can be searched, filtered, paginated,
created, edited and deleted.

This project models the application's decision logic and table updates in
Dafny:

- the account handlers of `service/user.go`, including the salted password digest;
- the task handlers of `service/task.go`, including the page arithmetic of the
  list and the `CheckUser` ownership guard;
- the route table of `main.go`, which says which guards run before which handler.

The database is three tables held by one `App` object:

- `users`: id → name, digest, validity;
- `tasks`: id → title, description, done flag, priority, deadline;
- `ownership`: task id → user id.

The `App` object also holds the requesting client's session (`Option<UserId>`)
and the two AUTO_INCREMENT counters. Each handler is a method on that object.
Its postcondition gives the response for every path through the handler. It
also gives the exact new state, which is the old state wherever the handler
stops early. Database calls can fail. Which one fails is a parameter `Db`: the
connection, or the k-th call the handler makes.

Files:

| file | module | contents |
|---|---|---|
| wrappers.dfy | Wrappers | `Option` |
| golib.dfy | GoLib | Go behaviour the handlers rely on: `strconv.Atoi`, `ParseUint`, `ParseBool`, `len` of a string in bytes, 64-bit `int` wrap-around |
| checks.dfy | Checks | an ordered list of validation rules, and the first failing one |
| store.dfy | Store | rows, digests, responses, database faults, the `App` state |
| user_service.dfy | UserService | registration, login, `LoginCheck`, logout, deactivation, profile edit |
| task_service.dfy | TaskService | list, pagination, keyword and status filter, `CheckUser`, task create/edit/delete |
| routes.dfy | Routes | the registered routes and their guards |
| pipeline.dfy | Pipeline | running a route's guards before its handler |

`main.go:71` registers `GET /task/delete/:id` behind `LoginCheck` and
`CheckUser`, like the other routes that name a task (`Routes.DeleteRoute`).

## Model

| member | source | states |
|---|---|---|
| Store.Hash | service/user.go:18-24 | the digest is computed over the fixed salt "todolist.go#" followed by the password, and only over that; equal passwords give equal digests |
| Checks.FirstError | service/user.go:31-49 | no message exactly when every rule passes; otherwise the message of the first failing rule in list order |
| Checks.FirstErrorReportsFirstFailure | service/user.go:31-49 | when some rule fails, a first failing rule exists and its message is the one reported |
| Checks.FirstOfFive | service/user.go:31-49 | of five rules tested in order, the first failing one's message is reported, and nothing when all pass, as a five-arm switch does |
| GoLib.Wrap64 | service/task.go:60 | Go's 64-bit `int` result: in range, congruent to the exact value mod 2^64, and equal to it when it fits |
| GoLib.ByteLen | service/user.go:42 | `len` of a string counts UTF-8 bytes: between 1 and 4 per character, and equal to the character count exactly for ASCII text |
| GoLib.Atoi | service/user.go:31 | success exactly on an optionally signed decimal that fits in int64, with its value; the value is always an int64; a syntax error gives 0; a range error gives the bound on the side of the sign |
| GoLib.AtoiRange | service/task.go:34 | Atoi reports a range error exactly when the digit prefix after the sign overflows uint64 (even if junk follows), or when everything after the sign is digits whose value exceeds the int64 bound on the sign's side |
| GoLib.ParseUint | service/task.go:237-238 | value of an all-digit string up to 2^64-1; `MaxUint64` with a range error once the digit prefix overflows, even if junk follows; 0 with a syntax error otherwise |
| GoLib.ParseUintAccepts | service/task.go:238 | ParseUint succeeds exactly on non-empty digit strings whose value is at most 2^64-1; the value returned always lies in 0..2^64-1 |
| GoLib.ParseBool | service/task.go:235-236 | accepted exactly for the twelve spellings; true exactly for "1", "t", "T", "TRUE", "true", "True"; false for anything else |
| GoLib.ParseBoolFormatBool | service/task.go:236 | a bool printed by FormatBool parses back to itself |
| GoLib.ParseUintDecimal | service/task.go:238 | a number up to 2^64-1 printed in decimal parses back to itself |
| UserService.RegistrationChecks | service/user.go:31-49 | the five registration rules in the order the handler tests them, with `len` in bytes and "only numbers" meaning Atoi succeeds |
| UserService.RegistrationOrder | service/user.go:31-49 | registration reports the first of: empty username, empty password, confirmation mismatch, fewer than 8 bytes, password that Atoi accepts |
| UserService.NumericPasswordRefused | service/user.go:46-48 | any password of 8 bytes or more that spells an int64 is refused as "only numbers" |
| UserService.SignedNumericPasswordRefused | service/user.go:46-48 | "-12345678" is refused as "only numbers" |
| UserService.LongNumericPasswordAccepted | service/user.go:31 | a 25-digit numeric password passes every rule, because Atoi overflows |
| UserService.ThreeKanaPasswordAccepted | service/user.go:42-44 | a 3-character password of 9 UTF-8 bytes passes the length rule |
| UserService.EditChecks | service/user.go:237-254 | the four profile-edit rules in the handler's order, with no "only numbers" rule |
| UserService.EditOrder | service/user.go:237-254 | profile edit reports the first of: empty username, empty password, empty new password, new password under 8 bytes |
| GoLib.ShortNumeralIsInt64 | service/user.go:31 | every numeral of 1 to 18 digits is an int64 literal for Atoi, and `len` of it is its digit count |
| UserService.EditAcceptsNumericPassword | service/user.go:251-254 | profile edit accepts an all-digit new password that registration refuses |
| UserService.DeactivationChecks | service/user.go:165-172 | the two deactivation rules in the handler's order |
| UserService.DeactivationOrder | service/user.go:165-172 | deactivation reports an empty password first, then a confirmation mismatch |
| UserService.LoginChecks | service/user.go:100-118 | the three login decisions in order: the name exists, the digest matches, the account is valid |
| UserService.LoginDecision | service/user.go:100-118 | login reports an unknown name, then a digest mismatch, then an invalid account; it succeeds exactly when all three pass |
| UserService.RegisteredUserCanLogIn | service/user.go:109-118 | the row registration writes logs in with its own password, and any password with a different digest is refused as "Incorrect password" |
| UserService.DeactivatedUserCannotLogIn | service/user.go:115-118 | a deactivated row never logs in; with the right password the refusal is "User is not valid" |
| UserService.LoginCheck | service/user.go:138-145 | continues exactly when the session holds a user; otherwise aborts with a redirect to /login |
| UserService.RegisterUser | service/user.go:26-86 | a failed rule, a taken name (deactivated rows included) or a failed lookup or insert leaves the users table and the counter as they were; otherwise one fresh row with the password's digest, valid; a failed read-back still answers 500 with the row kept; the session is never touched |
| UserService.Login | service/user.go:90-126 | the session becomes the named user exactly when LoginDecision passes; every refusal leaves the session unchanged |
| UserService.Logout | service/user.go:147-153 | the session is cleared and the client is sent to / |
| UserService.DeleteUser | service/user.go:159-209 | a failed rule, a digest mismatch or a failed database call changes nothing; on success only the session user's row changes, to invalid, and the session is cleared |
| UserService.EditUser | service/user.go:230-284 | a failed rule, a digest mismatch or a failed update changes nothing; on success only the session user's row changes: the new name and the new password's digest, with validity kept |
| TaskService.PageLen | service/task.go:51-55 | the page count is the ceiling of n/10: 10 times it covers n, one page fewer does not, and it is 0 only for no tasks |
| TaskService.NowPage | service/task.go:30-35 | a missing or empty page gives 1; a signed decimal that fits in int64 gives its number; a non-number gives 0; an overflowing number gives the int64 bound on the side of its sign |
| TaskService.SelectPage | service/task.go:56-61 | with nothing listed the page is the empty list; otherwise any page number, wrapped ones included, shows 1 to 10 consecutive listed tasks or panics |
| TaskService.WrapGap | service/task.go:60 | in 64-bit int the two slice bounds of a page differ by 10, or by 10 - 2^64 where the upper one wraps |
| TaskService.EmptyListIgnoresPage | service/task.go:56 | with no tasks, every page request shows the empty list |
| TaskService.TailClamp | service/task.go:57-58 | a page at or past the last one shows the last page, the same as requesting the last page; it holds 1 to 10 tasks |
| TaskService.InteriorPage | service/task.go:59-60 | a page from 1 up to the one before the last is the in-bounds window of tasks (page-1)*10 up to page*10, ten tasks |
| TaskService.NonPositivePagePanics | service/task.go:60 | page 0 or a negative page down to where page*10 would wrap, on a non-empty list, is a slice-bounds panic: the start is negative or, at the very bottom, wraps past the end |
| TaskService.WrappedPageShowsShiftedWindow | service/task.go:60 | page -1844674407370955160 wraps around in 64-bit arithmetic and shows tasks 6 to 15 instead of panicking |
| TaskService.EveryTaskOnItsPage | service/task.go:51-62 | task i appears on page i/10+1 at position i mod 10 |
| TaskService.TwentyThreeTasks | service/task.go:51-62 | 23 tasks make 3 pages; page 4 shows the same as page 3, the last three tasks; page 1 shows the first ten |
| TaskService.PageNumbers | service/task.go:63-66 | the page links are exactly 1, 2, ..., PageLen (none when there are no pages) |
| TaskService.ContainsHasOffset | service/task.go:42-44 | a title the keyword filter accepts has the keyword at some offset |
| TaskService.OffsetGivesContains | service/task.go:42-44 | the keyword at any offset of the title makes the filter accept it |
| TaskService.ContainsMeansSubstring | service/task.go:42-44 | the keyword filter holds exactly when the keyword occurs in the title at some offset |
| TaskService.ContainsBounds | service/task.go:42-44 | an empty keyword matches every title; a keyword longer than the title matches none |
| TaskService.SelectsOwnFilteredTasks | service/task.go:39-49 | the four query variants select the session user's own tasks, narrowed by the keyword when given and by done-ness (status == "done") when a status is given |
| TaskService.Selects | service/task.go:39-49 | the WHERE clause of the chosen query: the task and its ownership row exist, the session user owns it, and the keyword and status conditions of the chosen variant hold |
| TaskService.QueryAnswer | service/task.go:38-49 | the database's answer lists exactly the selected tasks, each once, in any order; with no session user nothing is selected |
| TaskService.Listed | service/task.go:38-49 | the rows the handler works on are a prefix of the answer: all of it when the query succeeds, otherwise the rows appended before the failure |
| TaskService.TaskList | service/task.go:14-70 | a connection failure gives 500; an ignored query error keeps the rows read before it; the listed rows are sliced to the requested page with links 1..PageLen, or the request panics on bad bounds |
| TaskService.ListShowsOnlyOwnTasks | service/task.go:39-61 | every task on any page of the list, even after a failed query, is one of the session user's own tasks passing the keyword and status filters |
| TaskService.OwnerOf | service/task.go:283-284 | the user_id the join of tasks and ownership finds for the id, or 0 when no row comes back |
| TaskService.LookedUpOwner | service/task.go:282-284 | the owner CheckUser compares with: 0 when the lookup fails, and otherwise, when non-zero, the ownership row of an existing task |
| TaskService.CheckUser | service/task.go:273-290 | with a connection, continues exactly when the session holds the owner looked up for the parsed id (0 for a missing row or a failed lookup), otherwise aborts with the 401 page; without one it does not abort, so the chain goes on |
| TaskService.CheckUserAdmitsOnlyOwner | service/task.go:277-290 | for real users, the guard admits exactly the owner of an existing task when the connection and the lookup work, refuses everyone when the lookup fails, and admits everyone without a connection; with a connection an unparsable id is always refused |
| TaskService.TaskFormChecks | service/task.go:108-127 | the creation form's four required fields, in the order the handler tests them, each checked for presence only |
| TaskService.TaskFormOrder | service/task.go:108-127 | task creation reports the first missing field in the order title, description, priority, deadline; present but empty fields pass |
| TaskService.NewTask | service/task.go:136 | the row a creation inserts: the form's title, description, priority text and deadline, not done |
| TaskService.RegisterTask | service/task.go:105-157 | a task row is added exactly when its ownership row is; a missing field, a failure or a failed commit leaves both tables unchanged; once the task insert has run its id is used up, even when the transaction rolls back, so no id is handed out twice; a failed commit still redirects to the task; on success one fresh task with the form's fields, not done, owned by the session user |
| TaskService.EditedTask | service/task.go:233-241 | the row an edit writes: title, description and deadline as submitted (empty when missing), is_done through ParseBool and priority through ParseUint with their errors ignored |
| TaskService.EditedTaskDefaults | service/task.go:233-239 | an is_done other than a true spelling edits to not done; a priority with a non-digit and no overflow edits to 0; the priority always fits in uint64 |
| TaskService.EditRoundTrip | service/task.go:233-241 | submitting a task's own fields back, with its priority printed in decimal, writes back exactly that task |
| TaskService.EditTask | service/task.go:198-248 | a bad id, a missing task or ownership row, a different owner or a failed call changes nothing; on success only that task changes, to the form's fields parsed leniently |
| TaskService.DeleteTask | service/task.go:250-271 | a bad id or failed call changes nothing; otherwise exactly the task with that id is removed, and the ownership table is never touched |
| TaskService.DeletedTaskIsUnreachable | service/task.go:277-290 | with a working connection, the ownership row left behind by a delete lets no real user through CheckUser for that id |
| Routes.Group | main.go:63-64 | a router group: its prefix put in front of each path and its middleware in front of each chain |
| Routes.TaskGroup | main.go:66-71 | the six routes as written inside the "/task" group, with CheckUser before each handler whose path ends in :id |
| Routes.EngineRoutes | main.go:42-71 | the seventeen registered routes in registration order, each with its method, path pattern, guards and handler |
| Routes.Lookup | main.go:42-71 | the route registered for a method and path, if any: a found route is in the table with that method and path, and None means no route has both |
| Routes.LookupFirst | main.go:42-71 | a lookup returns the first route registered for the method and path |
| Routes.GroupPrefixes | main.go:63-64 | a group keeps its routes' order, methods and handlers, prefixing each path and each chain |
| Routes.TaskGroupRegistered | main.go:63-72 | the registered /task routes are the group's routes under the "/task" prefix behind LoginCheck |
| Routes.RoutesDistinct | main.go:42-71 | no method and path pattern is registered twice |
| Routes.PublicRoutes | main.go:42-60 | only /, /user/new and /login are reachable without LoginCheck |
| Routes.LoginCheckFirst | main.go:43-71 | every guarded chain runs LoginCheck first |
| Routes.TaskRoutesCheckOwner | main.go:66-71 | every route whose path ends in :id runs LoginCheck then CheckUser before its handler |
| Routes.OwnerCheckOnlyOnTaskRoutes | main.go:66-71 | CheckUser guards only routes whose path ends in :id |
| Routes.DeleteRoute | main.go:71 | GET /task/delete/:id is registered, behind LoginCheck and CheckUser |
| Pipeline.Verdict | main.go:43-71 | LoginCheck judges the session; CheckUser judges the session, the :id parameter and the database |
| Pipeline.Execute | main.go:43-71 | gin's handler chain: each guard in turn continues or aborts with its response, and the handler runs when none aborts |
| Pipeline.ExecuteSound | main.go:63-71 | a chain reaches its handler exactly when every guard continues; otherwise the first refusing guard's response is the answer |
| Pipeline.OwnerChain | main.go:64-71 | the chain LoginCheck then CheckUser sends a client without a session to /login, and otherwise does what CheckUser decides |
| Pipeline.TaskRouteNeedsOwner | main.go:66-71 | through any :id route, a real user reaches the handler exactly when the connection and the owner lookup work and they own that existing task, or when the connection is down; a client without a session is sent to /login, anyone else gets the 401 page |

## Left out

- SHA-256 and hex encoding: a digest is represented by the text it is computed over, and digests are compared for equality. No property relies on collision resistance.
- SQL semantics beyond the tables: the collation and case rules of `LIKE`, and `%` or `_` in the keyword acting as wildcards. The keyword filter is plain substring containment.
- The column types: the priority text sent on creation is kept as text, not coerced to a number. The `is_done` default is false. `created_at` is not modelled.
- `LastInsertId` is the table's AUTO_INCREMENT counter. A rollback does not give a used value back, so new ids are never reused.
- The `users.name` column is assumed to be UNIQUE (`NamesUnique` in `App.Valid`), because the schema is not part of this model. `UserService.EditUser`'s 500 on a rename to a name another row holds rests on this assumption alone.
- Strings are sequences of Unicode scalar values. A Go string that is not valid UTF-8 cannot be represented, although Go's `len` and `strconv` would read it byte by byte.
- `TaskService.TaskList`: takes the database's answer to the list query as an input. It requires the answer to list each selected task once, in any order, because the query has no ORDER BY. Rows are represented by their ids.
- `TaskService.TaskList`: checks slice bounds against the slice's length. Go checks the upper bound against the slice's capacity, which the model does not track.
- `TaskService.InteriorPage`: assumes fewer than 2^63 tasks, as any Go slice has.
- `TaskService.CheckUser`: on a connection failure it writes a 500 page and does not abort, so the chain goes on. The model records that the chain goes on, but not the 500 page written before the handler runs.
- `TaskService.RegisterTask`: requires a logged-in session, which `LoginCheck` guarantees on its only route.
- `db.MustBegin` panicking, errors from `tx.Rollback` and `session.Save`, and cookie encoding, signing and `MaxAge`.
- Sessions of other clients: deactivation clears only the requesting client's session.
- Handlers that only render a page (`Home`, `NewUserForm`, `LoginForm`, `EditUserForm`, `DeleteUserForm`, `ShowTask`, `NewTaskForm`, `EditTaskForm`): they appear in the route table by name only. The templates and rendered payloads are out of scope. Responses carry only their status class and message.
- gin's own middleware (logger, sessions), static assets, server start-up and reading the database settings from the environment. Panic recovery is modelled only by what it sends, the `Panic` response (a 500).
- Concurrency: each request is one atomic step.
