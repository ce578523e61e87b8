# Tarefas: a verified model of the task tracker's core

Tarefas is a small PHP to-do application. A task has an id, a title, a
description and a status. The status is meant to be `to-do` or `done`, but the
controller passes any string to the UPDATE. This project models the three files that do the work:

- `TaskAuth` (`task_auth.dfy`) holds the checks shared by the task model and the
  controller. Titles are accepted at 1 to 20 characters and descriptions at
  1 to 500. `SanitizeTaskIDFromGET` turns the raw `id` query parameter into
  an integer. It first applies PHP's `FILTER_VALIDATE_INT`, which trims
  spaces and takes an optional sign followed by `0` or by a run of digits
  without a leading zero. Then it removes every `#` and applies the `(int)`
  cast.
- `TaskStore` (`task_store.dfy`) models the `tasks` table and the DAO. The
  table is a sequence of rows in storage order plus the next
  AUTO_INCREMENT value. The DAO is a class whose methods insert, update and
  delete rows in place. It also has functions for the three queries: does a
  row with this id exist, all rows `ORDER BY status`, and one row by id.
- `TaskControl` (`task_controller.dfy`) models the controller. Each action
  is specified by a pure plan: the one store write it performs, and how the
  request ends (carry on, redirect and maybe exit, or an exception). The
  controller class runs each action against a DAO, and its contracts tie
  the new table to the plan applied to the old one. Its views produce the
  data the HTML shows: the form for one task, and the list of coloured
  cards.

`wrappers.dfy` holds the `Option` and `Result` datatypes.

Highlights of what is proved:

- The `#` removal in `SanitizeTaskIDFromGET` is a no-op. A string the filter
  accepts contains no `#`, and the cast reads back exactly the value the
  filter validated. So the function returns the validated integer, or 0 when
  the filter rejects the string. Every integer's decimal string
  round-trips.
- The table invariant holds after every insert, update and delete. The
  invariant is unique ids, all below the AUTO_INCREMENT counter. Each write
  changes exactly the rows its SQL statement names.
- The listing is sorted by status and is a permutation of the table. When
  every status is known, all green 'done' cards come before the red 'to-do'
  ones.
- An update stores its status unchecked. A status other than `to-do` and
  `done` then makes the colour `match` of the form fail.

## Model

| member | source | states |
|---|---|---|
| TaskAuth.TitleLengthBoundaries | src/Traits/TaskAuth.php:24-28 | a title is accepted exactly when its length is between 1 and 20; "" and 21 characters are rejected, "a" and 20 characters accepted |
| TaskAuth.DescriptionLengthBoundaries | src/Traits/TaskAuth.php:39-43 | a description is accepted exactly when its length is between 1 and 500, with the same boundary cases |
| TaskAuth.ParseUnsignedCanonical | src/Traits/TaskAuth.php:56 | the unsigned part of FILTER_VALIDATE_INT accepts a string with value n exactly when it is n's canonical decimal (no sign, no leading zero) |
| TaskAuth.AuthTitleLength | src/Traits/TaskAuth.php:24-28 | definition: a title is accepted when its `mb_strlen` is between 1 and 20 (TitleLengthBoundaries proves the boundaries) |
| TaskAuth.AuthDescriptionLength | src/Traits/TaskAuth.php:39-43 | definition: a description is accepted when its `mb_strlen` is between 1 and 500 (DescriptionLengthBoundaries proves the boundaries) |
| TaskAuth.ValidateInt | src/Traits/TaskAuth.php:56 | definition of `filter_var(..., FILTER_VALIDATE_INT)`: trim, optional sign, then an unsigned literal; ValidatedTrimmed, AcceptsLiteral and the Rejects lemmas state what it accepts |
| TaskAuth.IntCast | src/Traits/TaskAuth.php:61 | definition of the `(int)` cast: skip leading spaces, optional sign, then the longest run of digits; CastAgreesWithFilter proves it agrees with the filter on accepted strings |
| TaskAuth.SanitizeTaskIDFromGET | src/Traits/TaskAuth.php:54-62 | definition: 0 when the filter rejects or yields 0, otherwise the cast of the `#`-stripped string; SanitizeMeaning and SanitizeRoundTrip state what it returns |
| TaskAuth.ValidatedTrimmed | src/Traits/TaskAuth.php:56 | whatever the filter accepts is, once trimmed, a sign or digit followed by digits, and the filter's value is that literal's signed value |
| TaskAuth.StripHash | src/Traits/TaskAuth.php:60 | `str_replace('#', '', ...)` leaves no '#' and changes nothing in a string without one |
| TaskAuth.LeadingDigits | src/Traits/TaskAuth.php:61 | the `(int)` cast reads a prefix of the string made only of digits |
| TaskAuth.ValidatedHasNoHash | src/Traits/TaskAuth.php:56-60 | a string the filter accepts has no '#', so the `str_replace` is a no-op |
| TaskAuth.CastAgreesWithFilter | src/Traits/TaskAuth.php:56-61 | on every string the filter accepts, the `(int)` cast yields the same integer as the filter |
| TaskAuth.SanitizeMeaning | src/Traits/TaskAuth.php:54-62 | the sanitized id is 0 when the filter rejects the string, and the validated integer otherwise (0 stays 0) |
| TaskAuth.DecimalStringValidates | src/Traits/TaskAuth.php:56 | the filter accepts the decimal string of every integer and returns that integer |
| TaskAuth.SanitizeRoundTrip | src/Traits/TaskAuth.php:54-62 | sanitizing the decimal string of any integer gives that integer back |
| TaskAuth.AcceptsLiteral | src/Traits/TaskAuth.php:56 | an optional '-' followed by digits without a leading zero is accepted with its signed value |
| TaskAuth.RejectsBadLead | src/Traits/TaskAuth.php:56-58 | a trimmed string whose first character is neither sign nor digit is rejected |
| TaskAuth.RejectsNonDigitAfterLead | src/Traits/TaskAuth.php:56-58 | a trimmed string that starts with a digit and has a non-digit later is rejected |
| TaskAuth.SanitizeRejectsExamples | src/Traits/TaskAuth.php:54-62 | "", "abc", "#42" and "12a" all sanitize to 0 |
| TaskAuth.SanitizeZeroExample | src/Traits/TaskAuth.php:56-58 | "0" passes the filter as 0, and the falsy check still returns 0 |
| TaskAuth.SanitizePositiveExample | src/Traits/TaskAuth.php:54-62 | "42" sanitizes to 42 |
| TaskAuth.SanitizeNegativeExample | src/Traits/TaskAuth.php:54-62 | "-7" sanitizes to -7 |
| TaskStore.CountById | src/Database/TaskDAO.php:120-124 | `COUNT(*) ... WHERE id = :i` is 0 exactly when no row has the id, and at most 1 when ids are unique |
| TaskStore.Inserted | src/Database/TaskDAO.php:49-53 | an insert keeps every old row in place and appends one row with the fresh id, the title, the description and status 'to-do' |
| TaskStore.InsertedCounts | src/Database/TaskDAO.php:49-53 | after an insert with an unused id, that id occurs exactly once and every other id as often as before |
| TaskStore.Updated | src/Database/TaskDAO.php:75-80 | an update keeps the row count, and each row with the id gets the new title, description and status while keeping its id; every other row is unchanged |
| TaskStore.UpdateIdempotent | src/Database/TaskDAO.php:75-80 | repeating an update changes nothing more |
| TaskStore.UpdateAbsentIsNoOp | src/Database/TaskDAO.php:75-80 | an update of an id no row has leaves the table as it was |
| TaskStore.UpdateKeepsIds | src/Database/TaskDAO.php:75-80 | an update never changes an id, so unique ids stay unique |
| TaskStore.Deleted | src/Database/TaskDAO.php:99-101 | a delete keeps exactly the rows with another id, removes as many rows as had the id, and leaves no row with it |
| TaskStore.DeleteKeepsOthers | src/Database/TaskDAO.php:99-101 | a delete leaves the count of every other id unchanged, and deleting an absent id changes nothing |
| TaskStore.DeletedKeepsUnique | src/Database/TaskDAO.php:99-101 | a delete keeps ids unique |
| TaskStore.StatusLe | src/Database/TaskDAO.php:144 | definition: code-point string order, the empty string first; StatusLeTotal, StatusLeTransitive and DoneBeforeToDo state its properties |
| TaskStore.StatusLeTotal | src/Database/TaskDAO.php:144 | the order used by `ORDER BY status` compares every two statuses |
| TaskStore.StatusLeTransitive | src/Database/TaskDAO.php:144 | that order is transitive |
| TaskStore.DoneBeforeToDo | src/Database/TaskDAO.php:144 | 'done' sorts strictly before 'to-do' |
| TaskStore.InsertByStatus | src/Database/TaskDAO.php:144 | inserting a row into a listing adds exactly that row |
| TaskStore.InsertKeepsSorted | src/Database/TaskDAO.php:144 | inserting a row into a listing sorted by status keeps it sorted |
| TaskStore.SortByStatus | src/Database/TaskDAO.php:144 | `ORDER BY status ASC` returns the table's rows, each as often as stored, sorted by status |
| TaskStore.DoneRowsFirst | src/Database/TaskDAO.php:144 | in a listing sorted by status, every 'done' row comes before every 'to-do' row |
| TaskStore.FirstWithId | src/Database/TaskDAO.php:167-170 | the fetched row is a row of the table with the requested id |
| TaskStore.FetchedIsTheRow | src/Database/TaskDAO.php:167-170 | when ids are unique, the fetched row is the one stored under the id |
| TaskStore.TaskDAO.constructor | src/Database/TaskDAO.php:30-33 | the DAO starts on a given table that satisfies the invariant |
| TaskStore.TaskDAO.NewTaskDB | src/Database/TaskDAO.php:45-57 | the table becomes the old table with the new 'to-do' row appended under the next AUTO_INCREMENT id; the counter advances and the invariant holds |
| TaskStore.TaskDAO.UpdateTaskDB | src/Database/TaskDAO.php:71-84 | the table becomes the update of the old table; the counter is unchanged and the invariant holds |
| TaskStore.TaskDAO.DeleteTaskDB | src/Database/TaskDAO.php:95-105 | the table becomes the old table without the id's rows; the counter is unchanged and the invariant holds |
| TaskStore.TaskDAO.VerifyByIdTaskExistsDB | src/Database/TaskDAO.php:116-129 | true exactly when some stored row has the id |
| TaskStore.TaskDAO.GetAllTasksDataDB | src/Database/TaskDAO.php:140-151 | all stored rows, each as often as stored, sorted by status |
| TaskStore.TaskDAO.GetAllTaskDataByID | src/Database/TaskDAO.php:163-175 | for an id that exists, a stored row with that id |
| TaskControl.CheckFields | src/Controllers/TaskController.php:55-61 | the checks `newTask` runs here and `updateTask` runs again at src/Controllers/TaskController.php:87-93: the fields pass exactly when title and description are both valid; an invalid title fails with the title error whatever the description; a valid title with an invalid description fails with the description error |
| TaskControl.NewTaskPlan | src/Controllers/TaskController.php:49-67 | an empty record does nothing; otherwise an insert happens exactly when title and description are valid, followed by a redirect to the index and exit; an invalid title fails first, then an invalid description, and a failure writes nothing |
| TaskControl.UpdateTaskPlan | src/Controllers/TaskController.php:81-101 | the same checks, then an update of the sanitized id with the record's title, description and status, and a redirect to the same page without exit |
| TaskControl.DeleteTaskPlan | src/Controllers/TaskController.php:113-126 | a delete of the sanitized id happens exactly on a POST with the delete button, followed by a redirect to the index and exit; otherwise nothing happens |
| TaskControl.StatusColor | src/Controllers/TaskController.php:150-153 | the background colour exists exactly for 'to-do' and 'done' |
| TaskControl.StatusLabel | src/Controllers/TaskController.php:154-157 | the status label exists exactly for 'to-do' and 'done' |
| TaskControl.StatusLookupsTotalOnKnown | src/Controllers/TaskController.php:150-157 | both matches cover the same statuses, give "#ff8181"/"Por Fazer" for 'to-do' and "#60c088"/"Realizado" for 'done', and tell the two apart |
| TaskControl.FormFor | src/Controllers/TaskController.php:149-157 | the form for a row exists exactly when its status is known and shows that row with the colour and label of its status; otherwise it fails with the unhandled match on that status |
| TaskControl.RenderCards | src/Controllers/TaskController.php:197-212 | one card per row in listing order, each with the row's id, title, description and colour, up to the first row with an unknown status, where the listing stops with that error |
| TaskControl.ListingDetermined | src/Controllers/TaskController.php:197-212 | any listing with those properties is the listing |
| TaskControl.ListingOfKnownStatuses | src/Controllers/TaskController.php:195-201 | when every stored status is known, the listing has one card per row, and every green card comes before every red one |
| TaskControl.UnvalidatedStatusReachesStore | src/Controllers/TaskController.php:86-98 | with valid fields, any status string is stored, and an unknown one makes the form for that task fail |
| TaskControl.TaskController.NewTask | src/Controllers/TaskController.php:49-67 | the response is the plan's, the table is the plan's write applied to the old table, and the counter advances only on insert |
| TaskControl.TaskController.UpdateTask | src/Controllers/TaskController.php:81-101 | the response is the plan's, and the table is the plan's write applied to the old table |
| TaskControl.TaskController.DeleteTask | src/Controllers/TaskController.php:113-126 | the response is the plan's, and the table is the plan's write applied to the old table |
| TaskControl.TaskController.ShowUpdateDeleteTaskForm | src/Controllers/TaskController.php:138-181 | fails with "task not found" exactly when no row has the sanitized id; otherwise it is the form for the fetched row |
| TaskControl.TaskController.ShowAllTasks | src/Controllers/TaskController.php:192-213 | the cards and the error emitted are the listing of the rows ordered by status |
| TaskControl.ScenarioListings | src/Controllers/TaskController.php:192-213 | two 'to-do' rows list both red, in either order; once the second is 'done' it lists green and first |
| TaskControl.CreatePlan | src/Controllers/TaskController.php:49-67 | a valid record plans an insert and a redirect, and the insert appends it as task 6 |
| TaskControl.CreateThenListScenario | src/Controllers/TaskController.php:49-67 | creating task 6 beside 'to-do' task 5 lists both, red, in either order |
| TaskControl.ScenarioTables | src/Database/TaskDAO.php:49-53 | both scenario tables have unique ids below the next AUTO_INCREMENT value |
| TaskControl.MarkDonePlan | src/Controllers/TaskController.php:81-101 | the form that marks task 6 done, requested with `?id=6`, plans exactly that update and a redirect to the same page |
| TaskControl.MarkDoneUpdate | src/Database/TaskDAO.php:75-80 | marking task 6 done changes task 6 only |
| TaskControl.MarkDoneThenListScenario | src/Controllers/TaskController.php:81-101 | after task 6 is marked done, the listing shows it green and ahead of the red task 5 |

## Left out

- The database connection (`src/Database/Database.php`) and PDO itself are not part of this model. The table is a value held by the DAO.
- PDO exceptions are not modelled. On a PDO exception each DAO method echoes the message. The three queries then reach the end of the function without a `return`, which PHP turns into a TypeError because of their declared `bool` and `array` return types.
- AUTO_INCREMENT is modelled as a counter that starts above every stored id and grows by one per insert. The database's real id assignment is not visible to the model.
- `ORDER BY status` compares by code point. The database's collation is not modelled. SQL leaves the order of equal statuses unspecified. `SortByStatus` picks one order, and no contract depends on which.
- The record extraction in `src/Models/TaskModel.php` (`filter_input`, `htmlspecialchars`) is not part of this model. The controller receives the record it would return, or an empty record. Lengths are therefore checked on the record as given.
- The controller's `TaskModel` field is not modelled. It only forwards the length checks, which `TaskAuth` defines once.
- `header`, `exit` and `echo` are modelled as data: a `Redirect` with its location and whether it exits, and the form or cards the HTML would show. The HTML markup is not modelled.
- A missing `id` query parameter is not modelled. PHP would warn about the undefined key and pass null, and because `strict_types` is on and `SanitizeTaskIDFromGET` takes a `string`, that call raises a TypeError. The parameter is always a string here.
- The model assumes the `status` column stores any string. If the column allowed only `to-do` and `done`, an UPDATE with another status would raise a PDOException, which is echoed, and the table would stay unchanged. Then the failure `UnvalidatedStatusReachesStore` shows could not happen.
- The `update_date` column is not modelled. Only the database sets it, and only the HTML shows it.
- `mb_strlen` is modelled as the length of a sequence of characters. Invalid UTF-8 byte sequences are not modelled.
- TaskAuth.ValidateInt: does not model the platform's integer range. PHP rejects values beyond it, while the model accepts them.
- TaskAuth.IntCast: does not model the cast's overflow or its reading of exponent and fraction forms. Neither can occur on a string the filter accepted.
- `getAllTaskDataByID` on an absent id is excluded by `TaskStore.TaskDAO.GetAllTaskDataByID`'s precondition. There `fetch` returns `false`, and the declared `array` return type makes PHP raise a TypeError. The only caller, `showUpdateDeleteTaskForm`, checks that the id exists first, so the case cannot arise through the controller.
- The view scripts that call the controller (`src/Views/Task.php` and the index page) are not modelled beyond the two scenarios.
