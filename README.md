# SINTT/TODO task manager — a Dafny model of its core

SINTT/TODO is a task manager: a React Native client talking to an express
server that keeps a MySQL `users` table and a `tasks` table. Admins manage
the accounts. Managers create tasks and assign them to plain users. The
assignee moves a task from "к выполнению" (to-do) to "выполняется" (in
progress) and then to "готово" (done).

This project models the logic that server and those screens contain:

- **`server.dfy`** (`ServerStore`): the server as a class `Store` holding the two tables as maps, with one method per route. Each route returns the reply's success or its error message. Like the code, the routes check no caller role and no order of statuses.
- **`task_screen.dfy`** (`TaskScreen`):
  - the status changes the task screen offers for each status;
  - the runs of offered changes;
  - a `TaskView` class that applies the server's reply to the task it shows.
- **`task_sort.dfy`** (`TaskSort`): `Array.prototype.sort` with a `key(a) - key(b)` comparator, which is stable. It is specified as a functional insertion sort `SortBy` and performed in place on an array by `SortInPlace`.
- **`manager_home.dfy`** (`ManagerHome`): the manager's four sort options and the active/archive split of the task list.
- **`admin_home.dfy`** (`AdminHome`):
  - the account list without the admin, and its name search;
  - the role toggle;
  - the list update after a role change, in an `AdminView` class;
  - the task list sorted by due date and filtered by title.
- **`create_task.dfy`** (`CreateTask`) covers the create-task form:
  - the required fields and the due-date rewrite;
  - the `Last F.P.` short names and the priority table;
  - the assignee search and the form reset.
- **`registration.dfy`** (`Registration`) and **`login.dfy`** (`Login`):
  - the checks made before sending;
  - the request built with the SHA-256 digest of the password;
  - the signed-in user kept after login;
  - sign-up followed by sign-in, end to end.
- **`home_screen.dfy`** (`HomeScreen`): which home screen the role selects.
- **`text.dfy`**, **`seqs.dfy`**, **`search.dfy`** and **`records.dfy`** hold what the rest builds on:
  - JavaScript's `toLowerCase`, `includes`, `trim`, `split` and `join`;
  - `filter` and `reverse`;
  - the case-insensitive searches;
  - the records and reply shapes.

The foreign and environmental parts are parameters:

- **bcrypt** is the value `Bcrypt(hash, compare)` held by the store. The only thing assumed of it is `compare(x, hash(x))` (`Sound`), and only where a round trip needs it.
- **SHA-256** is a function parameter `sha`.
- **`new Date(...)`** is a function parameter `parse` from strings to integers.
- **The current moment** is the integer `today`.
- **The database clock** that fills `createdAt` is an argument of `CreateTask`.

The task-id counter starts at 1, like MySQL's AUTO_INCREMENT.

`UPDATE` through node-mysql reports matched rows in `affectedRows`. So
setting a role or a status to the value it already has succeeds, and the
model says so.

### Roles and statuses on the server

The server checks no caller role and no order of statuses. `Store.UpdateRole` accepts any role for any account, asked by anyone. `Store.UpdateStatus` accepts any status string from any status. `Store.CreateTask` stores the status the client sends, and create-task replies without the new id. The order of statuses exists only in the moves the task screen offers, `TaskScreen.OfferedMoves`.

## Model

| member | source | states |
|---|---|---|
| ServerStore.Store.constructor | TODO/Server.js:1-25 | The store starts with no users, no tasks and the id counter at 1 |
| ServerStore.Store.Register | TODO/Server.js:27-54 | An existing nickname fails with "User already exists" and leaves both tables unchanged. Otherwise exactly one row is added: role `user`, password replaced by the bcrypt hash of the supplied password. Tasks are unchanged |
| ServerStore.Store.Login | TODO/Server.js:56-87 | An unknown nickname fails with "User not found". A password that fails `compare` against the stored hash fails with "Incorrect password". Otherwise the reply is the account's public fields. Nothing changes in either case |
| ServerStore.Store.ListUsers | TODO/Server.js:89-98 | Every account appears exactly once, without its password hash, and nothing else appears |
| ServerStore.Store.UpdateRole | TODO/Server.js:100-117 | An absent nickname fails with "User not found" and nothing changes. Otherwise only that account's role changes, to any string; other accounts and all tasks are unchanged |
| ServerStore.Store.DeleteUser | TODO/Server.js:119-137 | An absent nickname fails with "User not found". Otherwise exactly that account is removed, and no task row changes, including the names copied into `createdBy`/`assignedTo` |
| ServerStore.Store.CreateTask | TODO/Server.js:140-155 | Stores the fields verbatim, including the status the client sent, under a fresh id that was not in use. The counter advances and users are unchanged |
| ServerStore.Store.DeleteTask | TODO/Server.js:160-178 | A missing id fails with "Task not found". Otherwise exactly that task is removed and users are unchanged |
| ServerStore.Store.GetTask | TODO/Server.js:181-195 | Returns the stored row for the id, or "Task not found" |
| ServerStore.Store.UpdateStatus | TODO/Server.js:197-216 | A missing id fails with "Task not found". Otherwise only that task's `status` changes, to any value and whatever it was before |
| ServerStore.Store.ListTasks | TODO/Server.js:221-231 | Every task appears exactly once, and nothing else appears |
| ServerStore.RegisterThenLogin | TODO/Server.js:27-87 | Given `compare(x, hash(x))`, registering a new nickname and then logging in with the same password succeeds. The reply has the registered names and role `user` |
| ServerStore.CreateThenGet | TODO/Server.js:140-195 | Reading back a created task returns every field as sent, the id the counter gave, and the supplied `createdAt` |
| ServerStore.DeleteThenGet | TODO/Server.js:160-195 | After a delete, reading the id fails with "Task not found" |
| TaskScreen.OfferedMoves | TODO/TaskScreen.js:41-127 | To-do offers only in-progress. In-progress offers exactly to-do ("Нет") and done ("Да"). Done and any other status offer nothing. Every offered status is one of the three and differs from the current one |
| TaskScreen.RunAlternates | TODO/TaskScreen.js:41-127 | Along any run of offered moves from to-do: every status is one of the three, the task is in progress exactly at the odd steps, and done appears only as the last step |
| TaskScreen.TaskView.constructor | TODO/TaskScreen.js:7-11 | The screen opens with no task and loading |
| TaskScreen.TaskView.Load | TODO/TaskScreen.js:13-28 | Loading ends in every case. An existing id shows the server's row; a missing id shows nothing new |
| TaskScreen.TaskView.HandleStatusChange | TODO/TaskScreen.js:30-39 | On success only the shown task's `status` changes, to the new value. On "Task not found" the shown task is unchanged. A view in sync with the server stays in sync |
| TaskScreen.PressOffered | TODO/TaskScreen.js:41-127 | Pressing an offered button on a synced screen makes one step of a run, on the server and on the screen |
| TaskSort.SortInPlace | TODO/HomeScreenManager.js:47-57 | Sorting the array in place leaves exactly the stable insertion sort of its old contents |
| TaskSort.SortBy | TODO/HomeScreenManager.js:50-57 | `Array.prototype.sort` by a numeric key, as a stable insertion sort; `TaskSort.SortByPermutes`, `TaskSort.SortBySorted` and `TaskSort.SortByStable` state that it is a permutation, in key order and stable |
| TaskSort.SortByPermutes | TODO/HomeScreenManager.js:47-57 | The sort returns a permutation of its input |
| TaskSort.SortBySorted | TODO/HomeScreenManager.js:47-57 | The sort returns its input in non-decreasing key order |
| TaskSort.SortByStable | TODO/HomeScreenManager.js:47-57 | Tasks with equal keys keep their relative input order |
| TaskSort.SortBySortedIsIdentity | TODO/HomeScreenManager.js:47-57 | Input already in key order is returned unchanged |
| ManagerHome.PriorityRank | TODO/HomeScreenManager.js:55-57 | High ranks 1, Medium 2, Low 3, and nothing else takes those ranks |
| ManagerHome.SortKey | TODO/HomeScreenManager.js:47-60 | Exactly the four options `dueSoon`, `newest`, `oldest` and `priority` sort |
| ManagerHome.SortTasks | TODO/HomeScreenManager.js:47-60 | The result is a permutation of the input. An unknown option returns the input unchanged |
| ManagerHome.SortTasksInPlace | TODO/HomeScreenManager.js:47-60 | The array is sorted in place into `SortTasks` of its old contents |
| ManagerHome.DueSoonOrder | TODO/HomeScreenManager.js:49-50 | `dueSoon`: due dates never decrease along the result |
| ManagerHome.NewestOrder | TODO/HomeScreenManager.js:51-52 | `newest`: creation times never increase along the result |
| ManagerHome.OldestOrder | TODO/HomeScreenManager.js:53-54 | `oldest`: creation times never decrease along the result |
| ManagerHome.PriorityOrder | TODO/HomeScreenManager.js:55-57 | `priority`: every High before every Medium, every Medium before every Low |
| ManagerHome.SortTasksStable | TODO/HomeScreenManager.js:47-57 | Every option keeps tasks with equal keys in input order |
| ManagerHome.ActiveTasks | TODO/HomeScreenManager.js:164 | Exactly the tasks that are not done, not yet due, and whose title contains the query case-insensitively |
| ManagerHome.ArchiveTasks | TODO/HomeScreenManager.js:165 | Exactly the tasks that are done, or overdue with a matching title |
| ManagerHome.ActiveArchiveDisjoint | TODO/HomeScreenManager.js:164-165 | No task is in both lists, and each list keeps the order of the task list |
| ManagerHome.DoneAlwaysArchived | TODO/HomeScreenManager.js:165 | The done tasks of the archive are all the done tasks, in order, whatever the query, because `&&` binds tighter than `\|\|`. No active task is done |
| ManagerHome.EmptyQueryPartitions | TODO/HomeScreenManager.js:164-165 | With an empty query every task is in exactly one list, and the two lengths add up to the list's length |
| Search.FullName | TODO/HomeScreenAdmin.js:47-50 | The searched name starts with the last name and a space, and its length is the three names plus two |
| Search.Matches | TODO/HomeScreenAdmin.js:49 | `s.toLowerCase().includes(query.toLowerCase())`; a match implies the query is no longer than the string. `Search.EmptyQueryMatches` and `Search.MatchesIgnoresQueryCase` state the rest |
| Search.EmptyQueryMatches | TODO/HomeScreenAdmin.js:47-50 | An empty query matches every string |
| Search.MatchesIgnoresQueryCase | TODO/HomeScreenAdmin.js:47-50 | Lower-casing the query does not change what it matches |
| AdminHome.ExcludeSelf | TODO/HomeScreenAdmin.js:30 | Exactly the listed accounts other than the signed-in admin's |
| AdminHome.ExcludeSelfKeepsOthers | TODO/HomeScreenAdmin.js:30 | The other accounts keep their order, and a list without the admin is unchanged |
| AdminHome.SearchUsers | TODO/HomeScreenAdmin.js:46-51 | Exactly the accounts whose lower-cased `"last first patronymic"` contains the lower-cased query |
| AdminHome.SearchUsersProperties | TODO/HomeScreenAdmin.js:46-51 | The search keeps the list's order. An empty query keeps every account. The query's case does not matter |
| AdminHome.ToggleRole | TODO/HomeScreenAdmin.js:78-91 | `user` becomes `manager`; every other role, admin included, becomes `user` |
| AdminHome.ToggleRoleInvolution | TODO/HomeScreenAdmin.js:87 | On `user` and `manager` the toggle changes the role and toggling twice restores it |
| AdminHome.UpdateRoleInList | TODO/HomeScreenAdmin.js:63-67 | Same length and order. Accounts with another nickname are unchanged. The matching account differs only in its role, which is the new one |
| AdminHome.UpdateRoleKeepsMirror | TODO/HomeScreenAdmin.js:59-76 | If the list showed the server's rows before a successful update-role, it still does after the same update on both sides |
| AdminHome.TitleFilter | TODO/HomeScreenAdmin.js:223-225 | Exactly the tasks whose title contains the query case-insensitively |
| AdminHome.TitleFilterProperties | TODO/HomeScreenAdmin.js:223-225 | The filter keeps the list's order, and an empty query keeps every task |
| AdminHome.SortTasksByDueDate | TODO/HomeScreenAdmin.js:114-124 | The loaded tasks are sorted in place into a permutation in non-decreasing due-date order |
| AdminHome.AdminView.constructor | TODO/HomeScreenAdmin.js:8-14 | The screen starts with an empty account list for the signed-in admin |
| AdminHome.AdminView.FilteredUsers | TODO/HomeScreenAdmin.js:46-51 | The listed accounts that match the search |
| AdminHome.AdminView.FetchUsers | TODO/HomeScreenAdmin.js:26-40 | The list holds every server account except the admin's own, each once, each as the server's row |
| AdminHome.AdminView.UpdateUserRole | TODO/HomeScreenAdmin.js:59-76 | On success the server and the list change only that account's role. On failure neither changes. A list mirroring the server keeps mirroring it |
| AdminHome.AdminView.HandleLongPress | TODO/HomeScreenAdmin.js:78-91 | Confirming the sheet sets the toggled role on the server and in the list; an unknown account changes neither; tasks and the id counter are unchanged |
| CreateTask.PriorityMapping | TODO/CreateTaskScreen.js:22-26 | Низкий maps to Low, Средний to Medium, Высокий to High, and nothing else maps |
| CreateTask.Initial | TODO/CreateTaskScreen.js:71-73 | `charAt(0)`: the first character, or "" for an empty name |
| CreateTask.DisplayName | TODO/CreateTaskScreen.js:71-73 | `Last F.P.`: starts with the last name and a space, ends with `.`, and is 3 characters longer than the last name plus the initials |
| CreateTask.DisplayNameLastName | TODO/CreateTaskScreen.js:71-73 | A last name without spaces is the first word of the short name |
| CreateTask.FormatDueDate | TODO/CreateTaskScreen.js:69 | `` `${dueDate.split('.').reverse().join('-')}T${dueTime}:00` ``; `CreateTask.FormatDueDateParts` and `CreateTask.FormatMaskedDueDate` state what it gives |
| CreateTask.FormatDueDateParts | TODO/CreateTaskScreen.js:69 | `dd.mm.yyyy` and a time become `yyyy-mm-ddT<time>:00` when the parts contain no dot |
| CreateTask.FormatMaskedDueDate | TODO/CreateTaskScreen.js:146-164 | Input that fills the masks `99.99.9999` and `99:99` is sent as the 19-character `yyyy-mm-ddThh:mm:00` |
| CreateTask.HandleCreateTask | TODO/CreateTaskScreen.js:63-85 | Nothing is sent exactly when title, description, date or time is empty or no assignee is chosen. Otherwise the body carries the typed text, the rewritten due date, the mapped priority, status to-do, the short names of creator and assignee, and the creator's role |
| CreateTask.AfterCreate | TODO/CreateTaskScreen.js:87-99 | Success resets every field to its initial value; failure keeps the form |
| CreateTask.ResetFormRejected | TODO/CreateTaskScreen.js:12-19 | The initial form cannot be sent, and its priority Низкий sends Low |
| CreateTask.SelectUser | TODO/CreateTaskScreen.js:57-61 | Choosing an assignee sets it and puts its short name in the query; nothing else changes |
| CreateTask.AssigneeSearch | TODO/CreateTaskScreen.js:29-55 | A blank trimmed query gives nothing. Otherwise exactly the role-`user` accounts whose full name matches |
| CreateTask.AssigneeSearchProperties | TODO/CreateTaskScreen.js:29-55 | A query of white space only finds nobody, and results keep the server's order |
| CreateTask.SubmitCreateTask | TODO/CreateTaskScreen.js:63-104 | An incomplete form sends nothing and stays. Otherwise the task table gains exactly one row under the counter's id: the request body the form builds (title, description, formatted due date, mapped priority, status to-do, creator's short name and role, assignee's short name) with the given `createdAt`; other rows are unchanged and the form is reset |
| Registration.HandleRegister | TODO/auth/RegistrationScreen.js:16-42 | Any empty field gives "Заполните все поля". Then a differing confirmation gives "Пароли не совпадают". Otherwise the body carries the SHA-256 digest of the password, never the password itself, and role `user` |
| Registration.SubmitRegistration | TODO/auth/RegistrationScreen.js:16-57 | Navigation to login happens exactly when the form is valid and the nickname was free. The account then stores bcrypt of the digest; otherwise no account changes |
| Login.QueryOf | TODO/Server.js:57 | The query of a URL is what follows its first `?`, or nothing when there is none |
| Login.Param | TODO/Server.js:57 | A value read for a key comes from a `key=value` pair of the `&`-separated query |
| Login.LoginUrl | TODO/auth/LoginScreen.js:11-20 | An empty nickname or password gives "Введите имя пользователя и пароль". Otherwise the URL is `ip + "/login?nickname=" + nickname + "&password="` followed by the digest, unescaped |
| Login.LoginQueryRoundTrip | TODO/auth/LoginScreen.js:20 | The server reads the typed nickname and the digest back from the query when neither contains `&`, `+`, `#` or `%` and the address contains no `?` |
| Login.OnLoginReply | TODO/auth/LoginScreen.js:23-34 | An error leaves the signed-in user as it was. Success sets exactly the five fields of the reply |
| Login.SignUpThenSignIn | TODO/auth/LoginScreen.js:11-44 | Given `compare(x, hash(x))`, a valid sign-up with a free nickname and then a sign-in with the same password keeps the new account as the signed-in user, with role `user`, when neither the nickname nor the digest contains `&`, `+`, `#` or `%` and the address contains no `?` |
| HomeScreen.HomeFor | TODO/HomeScreen.js:9-30 | No user gives the loading view. `admin` gives the admin home, `manager` the manager home, and every other role the user home. The dispatch is total |
| HomeScreen.ToggledRoleHome | TODO/HomeScreen.js:22-29 | A role set by the admin's toggle never opens the admin home. It opens the manager home exactly for a promoted user |
| Records.InfoOf | TODO/Server.js:89-90 | The public fields keep the nickname and role of the row and drop the password hash |
| Text.LowerChar | TODO/HomeScreenAdmin.js:49 | Lower-cases Latin A-Z and the basic Cyrillic capitals (U+0400-U+042F) and leaves every other character alone |
| Text.Lower | TODO/HomeScreenAdmin.js:49 | `toLowerCase`: same length, each character lower-cased |
| Text.LowerIdempotent | TODO/HomeScreenAdmin.js:49 | Lower-casing twice is lower-casing once |
| Text.Contains | TODO/HomeScreenAdmin.js:49 | `includes`: true exactly when the query occurs at some position |
| Text.TrimStart | TODO/CreateTaskScreen.js:31 | Removes exactly the leading white space |
| Text.TrimEnd | TODO/CreateTaskScreen.js:31 | Removes exactly the trailing white space |
| Text.TrimEmptyIffBlank | TODO/CreateTaskScreen.js:31 | `trim().length > 0` exactly when some character is not white space |
| Text.Trim | TODO/CreateTaskScreen.js:31 | The result is a slice of the input with only white space cut from either end, and it neither starts nor ends with white space |
| Text.Join | TODO/CreateTaskScreen.js:69 | `parts.join(sep)`; `Text.JoinSplit` and `Text.SplitJoin` state that it is the inverse of `Text.Split` |
| Text.Split | TODO/CreateTaskScreen.js:69 | `split` gives at least one piece, and no piece contains the separator |
| Text.JoinSplit | TODO/CreateTaskScreen.js:69 | Joining the pieces of a split with the same separator restores the string |
| Text.SplitJoin | TODO/CreateTaskScreen.js:69 | Splitting a join of separator-free pieces restores the pieces |
| Seqs.Filter | TODO/HomeScreenManager.js:164-165 | `filter`: exactly the elements that satisfy the predicate |
| Seqs.FilterIsSubsequence | TODO/HomeScreenManager.js:164-165 | A filter keeps the surviving elements in their order |
| Seqs.Reverse | TODO/CreateTaskScreen.js:69 | `reverse`: the element at `i` is the one at `n - 1 - i` |

## Left out

- Database errors (the 500 "Database error" replies), connection set-up, and network failures other than the server's own error replies are not modelled.
- express routing and JSON transport are not modelled. The `:id` path parameter is a string in the server; here it is a natural number.
- bcrypt and SHA-256 are parameters: no salt, cost factor or digest function is fixed. The only assumption is `compare(x, hash(x))`, made where a round trip needs it.
- `new Date(...)` parsing is the parameter `parse`, which is total. Invalid dates, which compare as NaN in JavaScript, are not modelled.
- Text.LowerChar: `toLowerCase` is modelled only for Latin A-Z and basic Cyrillic (U+0400-U+042F). Other scripts are left unchanged.
- Login.LoginQueryRoundTrip: the query is read back only for a nickname and digest without `&`, `+`, `#` or `%` and an address without `?`. Percent-decoding, `+` as a space, `#` as the end of the URL and repeated keys in express's query parser are not modelled. The client escapes nothing, so a nickname with those characters reaches the server changed.
- Login.SignUpThenSignIn: holds only for nicknames and digests without `&`, `+`, `#` or `%`. With such a character the server looks up a different nickname and the sign-in fails with "User not found".
- ManagerHome.PriorityRank: a task whose priority is not High, Medium or Low makes the source comparator return NaN, and JavaScript then leaves the order implementation-defined. The model ranks such tasks after Low.
- CreateTask.HandleCreateTask: requires the priority caption to be one of the three button captions. The form holds no other value, since only the three priority buttons set it.
- TaskScreen.TaskView.HandleStatusChange: requires a shown task. The status buttons are rendered only once the task has loaded.
- React state-update timing, concurrent requests, alerts, navigation, refresh spinners, the bottom sheet and page scrolling are not modelled. The home screen of plain users (`HomeScreenUser.js`) is not part of this model.
- `GET /users` and `GET /tasks` have no `ORDER BY`. Their order is left unspecified, and only membership and uniqueness are stated.
- Strings are sequences of Unicode scalar values, while JavaScript strings are sequences of UTF-16 code units. For text outside the Basic Multilingual Plane every length differs, and `CreateTask.Initial` takes the whole first character where `charAt(0)` takes a lone high surrogate.
- Nicknames are compared exactly, as map keys. The server looks them up with `WHERE nickname = ?`, which compares under the column's collation; the schema is not part of this model, and under a case-insensitive collation "Alice" and "alice" would be one account. Timestamps (`createdAt`, `dueDate`) are stored as the strings sent, with no conversion by the database.
- The settings screen (logout, account deletion), the app shell and the user context are not part of this model. Account deletion is covered by `Store.DeleteUser`.
