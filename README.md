# TaskManager task logic in Dafny

This project models the task-tracking core of a small Django to-do
application. It covers the `tasks` app's `Task` record and its two derived
predicates, the dashboard statistics, the dashboard reminders and
notifications, the two task orderings (dashboard and focus list), and the
four task-changing views (create, update, delete, complete) with their
ownership guards. Properties of each are proved.

Representation:

- Dates are proleptic Gregorian day ordinals, as `date.toordinal()` gives
  them. The weekday is `(d - 1) % 7` with Monday as 0.
- Timestamps are whole seconds since 1970-01-01 UTC. The date of a
  timestamp is `ts / 86400 + 719163`, where 719163 is the ordinal of
  1970-01-01.
- Status is a two-valued datatype.
- Priority stays a string, because the focus list compares it as text and
  because `task_create`/`task_update` store whatever priority string is
  posted.
- The database rows a view reads are a sequence `all`.
- A `filter(...)` call is a `Query`: a list of field lookups that must all
  hold. As in SQL, a lookup on a NULL field never holds.
- A `.count()` is the length of the selected rows.
- `sorted(..., key=...)` and `order_by(...)` are one stable insertion sort,
  `Queries.SortBy`, under one of three orders.
- The record store is a class `Store.TaskStore`. It holds the task table and
  the category table as maps from primary key to record. A task's
  many-to-many categories are a set of category ids inside the task record.
- `get_object_or_404(Task, pk=id, user=user)` is the `NotFound` outcome. It
  leaves the store unchanged.

Modules: `Calendar` (date arithmetic), `Text` (decimal numerals and string
order), `Models` (tasks/models.py), `Queries` (filtering and sorting of
fetched rows), `Views` (the read-only views of tasks/views.py), and `Store`
(the task-changing views of tasks/views.py).

Where the behaviour looks unintended, the model keeps it as the code
writes it:

- `is_due_soon` is true for every past due date.
- The focus list orders priorities as strings descending, which gives
  MEDIUM, LOW, HIGH.
- The week count has no upper bound, so a completion time later than today
  still counts for this week.
- `PRIORITY_CHOICES` lists only LOW, MEDIUM and HIGH, but the views never
  validate the posted priority, so on SQLite, which does not enforce
  `max_length`, any string is stored. The dashboard ranks unknown strings 4.
  The model follows the views on SQLite.

## Model

| member | source | states |
|---|---|---|
| `Calendar.DateOf` | tasks/views.py:45 | the date of a timestamp is the day whose 86400-second span contains it |
| `Calendar.Weekday` | tasks/views.py:46 | `date.weekday()` lies in 0..6, is congruent to the ordinal minus one modulo 7, and is 0 (Monday) for day 1 |
| `Calendar.WeekStart` | tasks/views.py:46 | the week start is a Monday, at most six days before today, and exactly `weekday(today)` days before it |
| `Text.DecimalString` | tasks/views.py:111 | a count is written as a canonical decimal numeral, which starts with '0' only for zero |
| `Text.DecimalRoundTrip` | tasks/views.py:113 | reading back the numeral written for a count gives that count |
| `Text.DecimalCanonical` | tasks/views.py:115 | every canonical numeral is the one written for its value, so writing counts is a bijection onto canonical numerals |
| `Text.StrLeTotal` | tasks/views.py:139 | any two priority strings are comparable in the database's text order |
| `Text.StrLeTransitive` | tasks/views.py:139 | the text order on priority strings is transitive |
| `Text.StrLeAntisymmetric` | tasks/views.py:139 | two priority strings that are each at most the other are equal |
| `Models.NewTask` | tasks/models.py:26-36 | a new task has status PENDING, no completion time, notified false and no categories, and the given owner, title, description, due date, priority and creation time |
| `Models.IsDueSoon` | tasks/models.py:41-44 | a task with no due date is never due soon, and one due on any past day always is |
| `Models.IsOverdue` | tasks/models.py:46-49 | an overdue task has a due date and is PENDING, and is also due soon |
| `Models.DueSoonCases` | tasks/models.py:41-44 | `is_due_soon` is false without a due date, true for a due date today, tomorrow or any past day, false from the day after tomorrow |
| `Models.OverdueCases` | tasks/models.py:46-49 | `is_overdue` is false without a due date or once completed, otherwise true exactly when the due date is before today |
| `Models.OverdueImpliesDueSoon` | tasks/models.py:41-49 | an overdue task is also due soon on the same day |
| `Queries.Holds` | tasks/views.py:54-70 | a lookup on the completion time or the due date never holds for a row where that column is NULL |
| `Queries.Matches` | tasks/views.py:49-107 | a row matches a filter exactly when every one of its lookups holds; an empty filter matches every row |
| `Queries.Select` | tasks/views.py:49-70 | a filter keeps every row that satisfies all lookups, as often as it occurs, and no other row |
| `Queries.SelectMonotone` | tasks/views.py:54-64 | a filter whose matches are all matched by another counts no more rows |
| `Queries.SelectSplit` | tasks/views.py:49-51 | two lookups that split a filter's rows in two give counts that add up to the filter's count |
| `Queries.Rank` | tasks/views.py:87-90 | `priority_order.get(p, 4)` gives HIGH 1, MEDIUM 2, LOW 3 and every other string 4 |
| `Queries.EffectiveDue` | tasks/views.py:90 | `t.due_date or today` is the due date when there is one, and today otherwise |
| `Queries.DueLe` | tasks/views.py:100 | ascending order on the due-date column puts NULL before every date, never a date before NULL, and is reflexive |
| `Queries.Le` | tasks/views.py:88-91 | on the dashboard a different priority rank alone decides the order; in the focus order different priority strings are ordered as text descending, and equal ones by due date |
| `Queries.LeTotal` | tasks/views.py:88-91 | any two tasks are comparable in each of the three orders |
| `Queries.LeTransitive` | tasks/views.py:88-91 | each of the three orders is transitive |
| `Queries.Insert` | tasks/views.py:88-91 | inserting into a sorted list gives a sorted list holding the same tasks plus the new one |
| `Queries.SortBy` | tasks/views.py:88-91 | the sort returns a permutation of its input that is sorted in the given order |
| `Queries.SortStable` | tasks/views.py:88-91 | tasks whose keys tie keep their input order after the sort |
| `Views.UserQuery` | tasks/views.py:51 | `filter(user=user)` matches exactly the user's tasks |
| `Views.CompletedQuery` | tasks/views.py:49 | `filter(user=user, status='COMPLETED')` matches exactly the user's completed tasks |
| `Views.PendingQuery` | tasks/views.py:50 | `filter(user=user, status='PENDING')` matches exactly the user's pending tasks |
| `Views.CompletedTodayQuery` | tasks/views.py:54-58 | matches exactly the user's completed tasks whose completion time falls on today |
| `Views.CompletedWeekQuery` | tasks/views.py:60-64 | matches exactly the user's completed tasks completed on or after this week's Monday, with no upper bound |
| `Views.OverdueQuery` | tasks/views.py:66-70 | matches exactly the user's pending tasks that have a due date before today |
| `Views.ReminderQuery` | tasks/views.py:94-99 | matches exactly the user's pending tasks due today or tomorrow |
| `Views.RecentlyCompletedQuery` | tasks/views.py:103-107 | matches exactly the user's completed tasks completed at most 24 hours before now |
| `Views.QuotePool` | tasks/views.py:75-83 | the motivational messages are seven different strings |
| `Views.StatusCountsPartition` | tasks/views.py:49-51 | `completed_count + pending_count == total_tasks` |
| `Views.CompletionCountsNested` | tasks/views.py:54-64 | completed today ≤ completed this week ≤ completed |
| `Views.OverdueQueryAgreesWithIsOverdue` | tasks/views.py:66-70 | the overdue count equals the number of the user's tasks for which `is_overdue` holds, so completed or undated tasks count for nothing |
| `Views.RemindersAreDueSoon` | tasks/views.py:94-100 | every reminder has a due date, is due soon and is not overdue |
| `Views.OverdueMessage` | tasks/views.py:111 | the overdue notification is "You have ", then the canonical decimal numeral of the count (no leading zeros, reads back as the count), then " overdue task(s)."; with `Text.DecimalCanonical` this fixes the text |
| `Views.DueSoonMessage` | tasks/views.py:113 | the due-soon notification is "You have ", then the canonical decimal numeral of the count, then " task(s) due soon." |
| `Views.RecentlyCompletedMessage` | tasks/views.py:115 | the recently-completed notification is "Great job! You completed ", then the canonical decimal numeral of the count, then " task(s) recently!" |
| `Views.MessagesDistinct` | tasks/views.py:110-115 | each notification text determines its count, and texts of different kinds never coincide |
| `Views.NotificationMembership` | tasks/views.py:110-115 | a notification of each kind is in the list exactly when that kind's count is positive, and only with that count |
| `Views.Notifications` | tasks/views.py:108-115 | at most three notifications in the fixed order overdue, due soon, recently completed; each is present exactly when its count is positive, and it carries that count |
| `Views.Reminders` | tasks/views.py:93-100 | reminders are exactly the user's pending tasks due today or tomorrow, each as often as fetched, in ascending due-date order |
| `Views.DashboardTasks` | tasks/views.py:86-91 | the dashboard list is a permutation of the user's tasks, sorted by priority rank, then by due date with a missing date read as today |
| `Views.Dashboard` | tasks/views.py:43-131 | the status counts partition the total; today ≤ week ≤ completed; overdue agrees with `is_overdue`; task list, reminders and notifications as above; the message is the chosen quote |
| `Views.FocusList` | tasks/views.py:137-139 | the focus list holds exactly the user's pending tasks, sorted by priority text descending, then by due date |
| `Views.FocusListPriorityOrder` | tasks/views.py:139 | in the focus list MEDIUM precedes LOW, LOW precedes HIGH, and due dates ascend within one priority |
| `Views.DashboardPriorityDominates` | tasks/views.py:87-91 | on the dashboard a better rank always comes first, whatever the due dates; within one rank an earlier effective due date comes first |
| `Views.DashboardPriorityLevels` | tasks/views.py:87-91 | on the dashboard HIGH precedes MEDIUM, MEDIUM precedes LOW, and LOW precedes any other priority string, whatever the due dates |
| `Views.MondayScenario` | tasks/views.py:86-91 | on Monday 2024-06-10, a HIGH task due the 11th precedes a LOW task due the 10th on the dashboard, and follows it in the focus order |
| `Store.MarkCompleted` | tasks/views.py:216-217 | completion sets status COMPLETED and the completion time to now, and changes no other field |
| `Store.CompletionLastWriteWins` | tasks/views.py:214-218 | completing twice equals completing once at the later time, so completion is not idempotent |
| `Store.CompletedIsNotOverdue` | tasks/views.py:216 | a completed task is never overdue |
| `Store.CompletionClearsOverdue` | tasks/views.py:214-218 | completing one task lowers the overdue count by exactly that task's own contribution |
| `Store.Edited` | tasks/views.py:190-197 | an edit replaces title, description, due date, priority and categories, and keeps owner, status, completion time and creation time |
| `Store.FormValue` | tasks/views.py:152-154 | `request.POST.get(name, default)` is the posted value when there is one, and the default otherwise |
| `Store.TaskStore.Owns` | tasks/views.py:186 | `get_object_or_404(Task, pk=id, user=user)` succeeds exactly for a stored task owned by that user |
| `Store.TaskStore.Named` | tasks/views.py:172-175 | the categories `get_or_create` looks up are exactly the stored categories with that owner and title |
| `Store.TaskStore.Create` | tasks/views.py:147-178 | adds exactly one new PENDING task with the posted fields (description "" and priority MEDIUM by default) and the selected categories; a non-empty new-category title reuses the user's one category of that title or creates one, and the task gets it; several such categories give MultipleObjectsReturned after the task is stored; no category title is duplicated |
| `Store.TaskStore.AttachNamedCategory` | tasks/views.py:171-176 | no match creates the category under the next key and adds it to the task; one match adds that category; several give MultipleObjectsReturned and leave tasks and categories unchanged; other tasks and fields are untouched and category titles stay unique |
| `Store.TaskStore.Update` | tasks/views.py:185-199 | Done exactly when the task is stored and owned by the user; it then gets the posted fields and exactly the selected categories, with status and completion time unchanged; otherwise NotFound and nothing changes |
| `Store.TaskStore.Delete` | tasks/views.py:206-209 | Done exactly when the task is stored and owned by the user; it then removes exactly that task; otherwise NotFound and nothing changes |
| `Store.TaskStore.Complete` | tasks/views.py:214-219 | Done exactly when the task is stored and owned by the user; that task then becomes COMPLETED at now, and nothing else changes; otherwise NotFound |

## Left out

- HTTP handling is not modelled: `render`, `redirect`, `login_required`, the welcome and about pages, registration and `login` (tasks/views.py:13-38). The URL tables in todo_site/urls.py, tasks/urls.py and pages/urls.py are not modelled either. All of this is framework plumbing.
- Query execution is not modelled. A filter is applied to an in-memory sequence of rows, and `Select` keeps the input order. The database returns rows of an unordered query in an unspecified order.
- `order_by` ties: the model breaks ties with the same stable sort as `sorted`. A database may return tied rows in any order.
- `order_by('due_date')` with NULL dates: the model sorts NULL first, as SQLite does. Other backends, PostgreSQL among them, sort NULL last. This affects only the focus list, because reminders always have a due date.
- String order: priorities are compared by code point. A database collation may differ, but for the upper-case ASCII values LOW, MEDIUM and HIGH the order is the same.
- `random.choice(quotes)` is replaced by a caller-supplied index `quoteIndex < 7`.
- The `avg_focus_time = 45` placeholder is not modelled.
- Time zones are not modelled: every date is taken in UTC. The source reads the clock twice; the model uses one `now`.
- Dates are unbounded integers. Python's `date` ends at 9999-12-31, where `today + timedelta(days=1)` (tasks/views.py:94) raises OverflowError; that error is not modelled.
- Timestamps have whole-second resolution; microseconds are not modelled.
- Form parsing is not modelled. Titles, due dates, category ids and the new-category name arrive typed, and the new-category name is already stripped of white space. A missing title, which raises a key error in the source, is not modelled. Absent `description` and `priority` values are modelled, as `None`.
- Store.TaskStore.Create and Store.TaskStore.Update require that the selected category ids exist. The source hands them to the database, whose foreign-key check would reject unknown ids. That rejection is not modelled.
- Store.TaskStore.Create: in the source, the MultipleObjectsReturned case is an exception that propagates out of the view. The model returns it as an outcome, with the task already stored.
- Store.TaskStore.Create and Store.TaskStore.Update accept strings of any length. The `max_length` limits (category title 100, task title 200, priority 10; tasks/models.py:20, 28, 32) are not modelled, nor the error that PostgreSQL or strict MySQL raise for a longer value; SQLite stores it unchecked.
- The `notified` field is carried with default false. No operation reads or changes it.
- A completion time is not proved to be at or after the creation time, because nothing about the clock is modelled. `now` is an input.
- Category deletion by cascade when a user is deleted is not modelled. User accounts are out of scope.
