# Todo app: task service, account service and dashboard task list

This project is a Dafny model of the core of a small to-do application. It has three parts.

- **Task service** (`backend/routes/tasks.js`). The Express handlers behind `/api/tasks` act on a task collection, modelled as a map from task id to task record. They are:
  - list, with search, status filter and paging;
  - get, create, update and delete of a single task, with the check that a task exists (404) made before the ownership check (401).
- **Account service** (`backend/routes/auth.js`, `backend/routes/profile.js`). These handlers act on a user collection, modelled as a map from user id to user record:
  - register, login and `/me`;
  - reading and updating the caller's profile.
- **Dashboard task list** (`frontend/src/app/dashboard/page.tsx`). This is the client-side component state:
  - the task list and the form inputs;
  - the filtered view, built from a search box and three drop-downs;
  - the add, toggle and delete actions;
  - the completed-task counter and completion percentage.

## How the handlers are modelled

Each backend handler takes the caller's id, which the authentication middleware normally supplies, and the request fields. It returns a `Reply` (status code plus JSON body).

- Handlers that write (create, update, delete, register, profile update) are methods that also return the new store.
- Read-only handlers are functions, except the list handler. `TaskRoutes.ListTasks` changes nothing, but it is a method because the query it runs, `TaskStore.Find`, is a loop.
- A boolean `fault` stands for the database throwing inside the handler's `try`. The `catch` block turns that into 500 "Server error". Validation happens before the `try`, so an invalid body always gets 400.
- Values the database or the clock supplies (new ids, creation times) are parameters.
- Password hashing, password comparison, token signing and the validator's `isEmail` are uninterpreted function values bundled in `UserStore.Env`.

`TaskStore.Find` models `find(query).sort({ createdAt: -1 })`. It is a loop that visits the collection's ids in an arbitrary order and inserts each match newest-first. The order among tasks with the same creation time is therefore left open, as it is in the database. `ListTasks` returns one `Window` of that ranking. `total` and `pages` describe the whole ranking. Two requests against the same store get the same ranking only when no two matching tasks share a creation time (`TaskStore.RankingUnique`, `TaskStore.TiesLeaveRankingOpen`).

The dashboard is a class, `Dashboard.DashboardPage`, whose fields are the component's state variables. Its actions are methods that replace `tasks` and reset the inputs. The filter, the counter and the percentage are functions over a task sequence.

In four places the code does less than the application is meant to do. The model follows the code:

- **Email matching is exact.** Emails are meant to be case-normalised. The handlers call `findOne({ email })` with the text as given, and any normalisation would live in the User schema, which is not part of this model.
- **Non-positive `page` or `limit` is not rejected.** They are meant to be rejected. The list handler has no such check, so the model requires `page >= 1` and `limit >= 1` of its caller.
- **The ownership check is a separate read.** Update and delete are meant to be one atomic conditional write. The handlers read the task, compare the owner and then write. The model keeps this sequence, taken as one sequential step.
- **Changing the owner is possible.** A task's owner is meant never to be reassigned. The update handler does not enforce this (see Findings).

## Model

| member | source | states |
|---|---|---|
| Http.ServerError | backend/routes/tasks.js:45-50 | every `catch` answers 500 with a message and no data |
| Http.Invalid | backend/routes/tasks.js:98-104 | a non-empty validation result is answered with 400 and exactly that error list |
| Http.Check | backend/routes/tasks.js:94-95 | one validator check yields no error exactly when it passes, else one error naming the field and message |
| Text.LowerChar | frontend/src/app/dashboard/page.tsx:57-58 | `toLowerCase` on one character maps A-Z to a-z, keeps every other character, and never yields an upper-case letter |
| Text.Lower | frontend/src/app/dashboard/page.tsx:57-58 | lower-casing keeps the length and maps each character independently |
| Text.Contains | frontend/src/app/dashboard/page.tsx:57-58 | `includes` as the scan it performs: a prefix match at each start position in turn; its meaning is Text.ContainsIffOccurs |
| Text.ContainsIffOccurs | frontend/src/app/dashboard/page.tsx:57-58 | `includes` as a scan holds exactly when the substring occurs at some position |
| Text.ContainsEmpty | frontend/src/app/dashboard/page.tsx:57-58 | every string includes the empty string |
| Text.ContainsIgnoringCaseIsCaseBlind | backend/routes/tasks.js:19-20 | the case-insensitive match does not depend on the case of either the text or the search term |
| Text.LowerIdempotent | frontend/src/app/dashboard/page.tsx:57-58 | lower-casing twice is lower-casing once |
| Text.TrimStart | frontend/src/app/dashboard/page.tsx:70 | the result is the suffix left after removing all leading whitespace; it is empty or starts with a non-whitespace character |
| Text.TrimEnd | frontend/src/app/dashboard/page.tsx:70 | the result is the prefix left after removing all trailing whitespace; it is empty or ends with a non-whitespace character |
| Text.Trim | frontend/src/app/dashboard/page.tsx:70 | `trim()` is no longer than the title and is empty or starts and ends with a non-whitespace character |
| Text.TrimEmptyIffBlank | frontend/src/app/dashboard/page.tsx:70 | `trim()` is empty exactly when the title is blank, i.e. every character is whitespace |
| Paging.CeilDiv | backend/routes/tasks.js:42 | `Math.ceil(n / d)` is the least r with r * d >= n |
| Paging.SkipStep | backend/routes/tasks.js:31 | each page starts `limit` results after the previous one |
| Paging.Window | backend/routes/tasks.js:28-31 | the page holds at most `limit` results, taken in order from position (page-1)*limit; it is empty past the end and otherwise has min(limit, remaining) items |
| Paging.ChunksCount | backend/routes/tasks.js:42 | `pages` equals the number of non-empty runs of `limit` results |
| Paging.ChunksFlatten | backend/routes/tasks.js:28-31 | the runs, read one after another, give back the results |
| Paging.ChunkIsWindow | backend/routes/tasks.js:28-31 | page p of the reply is the p-th run |
| Paging.WindowWithin | backend/routes/tasks.js:28-31 | a page holds only results of the query |
| Paging.WindowPastLastPage | backend/routes/tasks.js:28-42 | every page after `pages` is empty |
| Paging.ScaleMonotone | backend/routes/tasks.js:31 | proof helper: a later page never starts before an earlier one: a <= b gives a*k <= b*k |
| Paging.PagesCoverResults | backend/routes/tasks.js:28-42 | for one ranking, pages 1..pages read in turn give every result exactly once and in order; across requests this holds only when the ranking is the same each time (TaskStore.RankingUnique) |
| TaskStore.Matches | backend/routes/tasks.js:15-26 | what the database does with the filter document: the owner, plus the case-insensitive title-or-description match and the status when present; TaskRoutes.BuildQuery proves it selects exactly TaskRoutes.Selected |
| TaskStore.CountDocuments | backend/routes/tasks.js:33 | `countDocuments(query)` counts the stored ids the filter selects; TaskStore.Find proves it is the length of the ranking |
| TaskStore.InsertionPoint | backend/routes/tasks.js:29 | the new task goes after every task at least as new and before the first older one |
| TaskStore.InsertNewestFirst | backend/routes/tasks.js:29 | inserting keeps the newest-first order, adds exactly that task and grows the list by one |
| TaskStore.PlacedAtSlices | backend/routes/tasks.js:29 | cutting the list at a position and putting the task there places it at that position, shifting the rest by one |
| TaskStore.InsertionKeepsOrder | backend/routes/tasks.js:29 | placing a task at its insertion point keeps the list newest first |
| TaskStore.PlacedKeepsOrder | backend/routes/tasks.js:29 | a task placed after every newer-or-equal task and before the first older one keeps the list newest first |
| TaskStore.PlacedKeepsIdsDistinct | backend/routes/tasks.js:28-29 | placing a task whose id the list lacks keeps the ids distinct |
| TaskStore.InsertKeepsIdsDistinct | backend/routes/tasks.js:28-29 | inserting a task with a new id keeps the ids distinct |
| TaskStore.VisitOne | backend/routes/tasks.js:33 | visiting one more id adds it to the counted matches exactly when the filter selects its task |
| TaskStore.ScanStep | backend/routes/tasks.js:28-33 | visiting one more stored task keeps the ranking newest first, free of repeats, equal to the selected visited tasks and as long as their count |
| TaskStore.Find | backend/routes/tasks.js:28-33 | the ranking holds each stored task that matches the filter exactly once, newest first, and has `countDocuments` entries |
| TaskStore.RankingUnique | backend/routes/tasks.js:28-29 | two newest-first answers without repeated ids and with the same tasks are equal when no two of those tasks share a creation time, so every request then pages through the same ranking |
| TaskStore.FirstsAgree | backend/routes/tasks.js:29 | proof helper: two newest-first answers with the same tasks and no tied creation times start with the same task |
| TaskStore.NewestComesFirst | backend/routes/tasks.js:29 | proof helper: the first task of a newest-first list is at least as new as any task in it |
| TaskStore.RestAfterFirst | backend/routes/tasks.js:28-29 | proof helper: after the first task come exactly the other tasks, still newest first and with distinct ids |
| TaskStore.TiesLeaveRankingOpen | backend/routes/tasks.js:29 | two tasks created at the same instant give two different newest-first answers with the same tasks: the sort has no tie-breaker |
| TaskStore.AddOneMore | backend/routes/tasks.js:109-114 | storing a task under a new id adds exactly one task |
| TaskStore.OwnWriteKeepsOthers | backend/routes/tasks.js:109-114 | adding, replacing or removing one of the caller's own tasks (kept the caller's) leaves every other user's tasks as they were |
| TaskStore.OthersSeeNoChange | backend/routes/tasks.js:159-166 | when a write leaves other users' tasks alone, every other user sees exactly the tasks they saw before |
| TaskRoutes.Selected | backend/routes/tasks.js:15-26 | the selection as the request states it: the caller's task, containing a non-empty search in title or description in any case, with a non-empty status exactly; TaskRoutes.BuildQuery proves the filter document selects exactly this |
| TaskRoutes.BuildQuery | backend/routes/tasks.js:15-26 | the filter always has the owner; the search predicate applies only when a non-empty search is given and the status predicate only when a non-empty status is given; a task matches iff it is the caller's and passes every given predicate |
| TaskRoutes.ListTasks | backend/routes/tasks.js:11-51 | 500 on a database error; otherwise 200 with the requested window of the newest-first ranking of exactly the caller's matching tasks, `total` = all matches, `pages` = ceil(total/limit), defaults page 1 and limit 10; no task of another user is ever returned |
| TaskRoutes.CheckAccess | backend/routes/tasks.js:58-73 | an absent id is Missing, whatever the owner; a present task of another user is Forbidden; otherwise access is granted to the stored task |
| TaskRoutes.Denied | backend/routes/tasks.js:60-73 | Missing is answered 404 "Task not found" and Forbidden 401 "Not authorized" |
| TaskRoutes.GetTask | backend/routes/tasks.js:56-85 | 500 on a database error, then 404 for an absent id, then 401 for another user's task; 200 with the stored task exactly when the caller owns it |
| TaskRoutes.TaskErrors | backend/routes/tasks.js:94-95 | no error exactly when title and description are both non-empty |
| TaskRoutes.CreateTask | backend/routes/tasks.js:90-127 | 400 with the field errors and no change on an empty title or description, then 500 with no change on a database error; otherwise 201, and exactly one task is added, owned by the caller, with status "pending" when none is given; other users' tasks are untouched |
| TaskRoutes.ApplyBodyAsWritten | backend/routes/tasks.js:166 | the unfiltered body sets title, description, the status when given and the owner when given |
| TaskRoutes.ApplyBody | backend/routes/tasks.js:166 | with the owner kept out of the body, only title, description and (when given) status change; id, owner and creation time stay |
| TaskRoutes.AsWrittenUpdateMovesTask | backend/routes/tasks.js:166-169 | as written, an owner's update naming another user moves the task into that user's list and breaks the other-users-untouched property |
| TaskRoutes.UpdateTaskAsWritten | backend/routes/tasks.js:132-182 | the handler as written: 200 exactly when the body is valid, the database works and the caller owns the task, and then the whole body is applied; on any other outcome the store is unchanged |
| TaskRoutes.UpdateTask | backend/routes/tasks.js:132-182 | 400, then 500, then 404, then 401, each with no change; 200 exactly when the caller owns the task, and then only that task changes (title, description, status) and other users' tasks are untouched |
| TaskRoutes.DeleteTask | backend/routes/tasks.js:187-218 | 500, then 404, then 401, each with no change; 200 with empty data exactly when the caller owns the task, and then exactly that task is removed and every other task is unchanged |
| TaskRoutes.DeleteTwice | backend/routes/tasks.js:189-211 | a second delete of the same id answers 404 |
| TaskRoutes.CreateThenGet | backend/routes/tasks.js:109-119 | a task just created is readable by its creator and answers 401 to anyone else |
| TaskRoutes.OnePerPageOfThree | backend/routes/tasks.js:28-42 | with three matches and limit 1, page 2 holds the second one and there are three pages |
| UserStore.FindByEmail | backend/routes/auth.js:33 | `findOne({ email })` returns the one user with exactly this email, or nothing when there is none |
| UserStore.PublicOf | backend/routes/auth.js:53-57 | the reply's user is id, name and email, with no password or hash |
| UserStore.AccountOf | backend/routes/profile.js:16-22 | the profile view is id, name, email and createdAt, with no hash |
| AuthRoutes.RegisterErrors | backend/routes/auth.js:14-19 | no error exactly when the name is non-empty, the email is valid and the password has at least 6 characters |
| AuthRoutes.Register | backend/routes/auth.js:11-66 | 400 with the field errors, then 500, then 400 "User already exists", each with no change; otherwise 201, exactly one user is added (hashed password) and the reply carries a token and id/name/email only; emails stay unique |
| AuthRoutes.LoginErrors | backend/routes/auth.js:74-75 | no error exactly when the email is valid and a password is present |
| AuthRoutes.Login | backend/routes/auth.js:71-127 | 400, then 500; 200 exactly when a user with that email exists and the password matches its hash, and then a token for that user plus id/name/email; every other case is 401 "Invalid credentials" |
| AuthRoutes.UnknownEmailLooksLikeWrongPassword | backend/routes/auth.js:90-107 | an unknown email and a wrong password get the identical 401 reply |
| AuthRoutes.Me | backend/routes/auth.js:132-139 | 200 with the caller's record without its hash, or null when the record is gone |
| AuthRoutes.RegisterThenLogin | backend/routes/auth.js:42-119 | after a successful register, logging in with the same email and password yields a token for the new user |
| AuthRoutes.RegisterTwice | backend/routes/auth.js:33-40 | a second register with the same email answers "User already exists" and adds no user |
| ProfileRoutes.GetProfile | backend/routes/profile.js:11-30 | 200 with exactly id, name, email and createdAt of the caller's record; 500 on a database error or when the record is absent |
| ProfileRoutes.ProfileErrors | backend/routes/profile.js:39-40 | no error exactly when the name is non-empty and the email is valid |
| ProfileRoutes.UpdateProfile | backend/routes/profile.js:35-80 | 400 with no change on invalid input; 500 with no change on a database error, an absent record or an email another user holds; otherwise only name and email of the caller's record change, and the reply shows the updated id, name, email and createdAt |
| Dashboard.Select | frontend/src/app/dashboard/page.tsx:56 | `filter` never yields more tasks than the list had |
| Dashboard.KeptPositions | frontend/src/app/dashboard/page.tsx:56 | the accepted positions, strictly increasing, and all of them |
| Dashboard.SelectMembers | frontend/src/app/dashboard/page.tsx:56 | the filtered list holds exactly the tasks the predicate accepts |
| Dashboard.SelectKeepsOrder | frontend/src/app/dashboard/page.tsx:55-67 | the filtered list is the accepted tasks at their increasing positions: filtering never reorders |
| Dashboard.SelectAll | frontend/src/app/dashboard/page.tsx:56 | a predicate accepting every task keeps the whole list |
| Dashboard.SelectNone | frontend/src/app/dashboard/page.tsx:56 | a predicate accepting no task keeps nothing |
| Dashboard.SelectAgree | frontend/src/app/dashboard/page.tsx:56 | predicates that agree on the list keep the same list |
| Dashboard.Keep | frontend/src/app/dashboard/page.tsx:57-65 | the four conditions of `filteredTasks`, all required; its meaning is Dashboard.FilteredIff and Dashboard.FilteredByStatus |
| Dashboard.Filtered | frontend/src/app/dashboard/page.tsx:55-67 | `filteredTasks` is never longer than the list; which tasks it holds is Dashboard.FilteredIff and that it keeps their order is Dashboard.SelectKeepsOrder |
| Dashboard.FilteredIff | frontend/src/app/dashboard/page.tsx:55-67 | a task is shown exactly when it is in the list and passes search, category, priority and status |
| Dashboard.FilteredUnfiltered | frontend/src/app/dashboard/page.tsx:57-61 | empty search and every drop-down on "All" show all tasks in order |
| Dashboard.FilteredByStatus | frontend/src/app/dashboard/page.tsx:61-63 | "Completed" shows only completed tasks and "Pending" only open ones; any other value besides "All" shows nothing |
| Dashboard.FilteredAppend | frontend/src/app/dashboard/page.tsx:55-83 | a task appended to the list appears at the end of the view exactly when it passes the filters |
| Dashboard.Flip | frontend/src/app/dashboard/page.tsx:90-92 | one task of `toggleTask`: only `completed` may change, and it changes exactly when the task has the id |
| Dashboard.Toggled | frontend/src/app/dashboard/page.tsx:89-93 | tasks with the id flip `completed` and nothing else; every other task, the length and the order stay |
| Dashboard.ToggleTwice | frontend/src/app/dashboard/page.tsx:89-93 | toggling the same id twice restores the list |
| Dashboard.Without | frontend/src/app/dashboard/page.tsx:97 | the remaining tasks are exactly those with another id |
| Dashboard.WithoutKeepsOrder | frontend/src/app/dashboard/page.tsx:97 | the remaining tasks are those with another id at their own increasing positions: deleting keeps the rest in order |
| Dashboard.WithoutAbsent | frontend/src/app/dashboard/page.tsx:97 | deleting an id no task has changes nothing |
| Dashboard.CompletedCount | frontend/src/app/dashboard/page.tsx:110-111 | completedTasks <= totalTasks |
| Dashboard.CompletedCountExtremes | frontend/src/app/dashboard/page.tsx:110 | completedTasks counts the completed tasks: all of them when every task is completed, 0 when none is |
| Dashboard.CompletedViewMatchesCounter | frontend/src/app/dashboard/page.tsx:61-63 | the "Completed" view with no other filter holds exactly completedTasks tasks |
| Dashboard.Rate | frontend/src/app/dashboard/page.tsx:112 | 0 without tasks; otherwise the nearest whole percentage (halves up), between 0 and 100, 100 when all are done and 0 when none are |
| Dashboard.LessAfterScaling | frontend/src/app/dashboard/page.tsx:112 | proof helper: a*d < b*d with d > 0 gives a < b, which pins the rounded percentage between its bounds |
| Dashboard.RoundedDivision | frontend/src/app/dashboard/page.tsx:112 | proof helper: integer division rounds down: q*d <= n < q*d + d |
| Dashboard.CompletionRate | frontend/src/app/dashboard/page.tsx:110-112 | `completionRate` lies in 0..100; 0 without tasks or without completed tasks, 100 when all are completed, otherwise completedTasks/totalTasks to the nearest whole percent |
| Dashboard.DashboardPage.constructor | frontend/src/app/dashboard/page.tsx:21-51 | the two sample tasks, empty inputs, priority "medium", category "Other", all filters "All" |
| Dashboard.DashboardPage.FilteredTasks | frontend/src/app/dashboard/page.tsx:55-67 | the view of the current state shows exactly the tasks passing the current filters |
| Dashboard.DashboardPage.CompletionPercent | frontend/src/app/dashboard/page.tsx:110-112 | the percentage lies in 0..100 and is 0 without tasks |
| Dashboard.DashboardPage.AddTask | frontend/src/app/dashboard/page.tsx:69-87 | a blank title (empty after trimming, by Text.TrimEmptyIffBlank) changes nothing; otherwise exactly one new open task with the selected priority, category and due date is appended, title, description and due date are cleared, and priority, category and filters keep their values |
| Dashboard.DashboardPage.ToggleTask | frontend/src/app/dashboard/page.tsx:89-93 | the task list becomes the toggled list, and no other field changes |
| Dashboard.DashboardPage.DeleteTask | frontend/src/app/dashboard/page.tsx:95-98 | a confirmed delete removes every task with the id and keeps the rest in order; an unconfirmed one changes nothing |

## Left out

- `$regex` semantics: the search is a literal case-insensitive substring test, so regular-expression metacharacters in a search term are not interpreted.
- Case mapping beyond ASCII: `toLowerCase` and the database's case-insensitive match are modelled on the letters A-Z only.
- Text.IsWhitespace follows the ECMAScript whitespace and line-terminator set. No Unicode normalisation is modelled.
- The `protect` middleware, token verification and token expiry: the caller's id is a parameter. The middleware is not part of this model.
- Password hashing, password comparison (`matchPassword`), token signing (`getSignedJwtToken`) and `isEmail`: these are uninterpreted functions. Their code is in the User model and express-validator, which are not part of this model.
- Paging.PagesCoverResults: the sort on `createdAt` alone has no unique tie-breaker such as `_id`, so when matching tasks share a creation time, successive page requests may each see a different order of the tied tasks, and a task can then repeat or be skipped across pages. The model leaves the tie order open and promises complete, non-repeating paging only for one ranking, or when creation times differ (TaskStore.RankingUnique).
- Concurrency: the model is sequential. The race between `findById` and the following write in update and delete is not modelled.
- Query-string coercion (`limit * 1`, `parseInt`): page and limit are naturals, and TaskRoutes.ListTasks requires them to be at least 1 when given. Non-numeric, zero or negative values are not modelled.
- AuthRoutes.Me: the handler has no `try`, so a database error there is left unanswered. That path is not modelled.
- Mongoose details: id casting errors, `runValidators`, the `updatedAt` timestamp, and body fields beyond title, description, status and user on update.
- The default status "pending" and email uniqueness are enforced by schemas that are not part of this model. The model takes the default as a constant and uniqueness as a store invariant.
- ProfileRoutes.UpdateProfile: a profile update to an email held by another user is modelled as the store refusing the write (500).
- Dashboard.Rate: computed with integer rounding. The floating-point `Math.round(completed / total * 100)` may round differently at exact halves because of binary fractions.
- The dashboard's `showCompleted` and `darkMode` flags, `getPriorityColor` and the JSX markup: these only affect rendering, and the filter never reads `showCompleted`.
- `Date.now()` ids and `new Date()` timestamps: these are parameters of Dashboard.DashboardPage.AddTask and of the handlers.
- `confirm(...)` in `deleteTask`: the user's answer is the parameter `confirmed`.
- The landing page (`frontend/src/app/page.tsx`) is static markup with no logic.

## Findings

| source | as written | input that shows it | evidently intended | confidence | as-written member | corrected member |
|---|---|---|---|---|---|---|
| backend/routes/tasks.js:166 | the update passes `req.body` unfiltered, so a body field `user` reassigns the task's owner | the owner of task 7 sends PUT /api/tasks/7 with `{ "title": "a", "description": "b", "user": "<another user's id>" }`; the task then belongs to the other user and leaves the caller's list | the owner is set at creation and never reassigned; only title, description and status change | high, not executed | TaskRoutes.AsWrittenUpdateMovesTask | TaskRoutes.UpdateTask |
