/** The task record of the `tasks` app (tasks/models.py): its fields, the
    defaults a new record takes, and the two derived predicates
    `is_due_soon` and `is_overdue`. */
module Models {
  import opened Calendar

  type UserId = nat
  type CategoryId = nat
  type TaskId = nat

  datatype Option<T> = None | Some(value: T)

  /** `STATUS_CHOICES`. */
  datatype Status = Pending | Completed

  /** `PRIORITY_CHOICES`. The field itself is a string column, so a record can
      hold any string; the orderings compare the raw strings. */
  const LOW: string := "LOW"
  const MEDIUM: string := "MEDIUM"
  const HIGH: string := "HIGH"

  /** `default='MEDIUM'` on the priority field. */
  const DefaultPriority: string := MEDIUM

  /** A category belongs to one user; titles are not declared unique. */
  datatype Category = Category(user: UserId, title: string)

  /** One task row, with its many-to-many categories held as a set of ids. */
  datatype Task = Task(
    user: UserId,
    title: string,
    description: string,
    dueDate: Option<Date>,
    status: Status,
    priority: string,
    categories: set<CategoryId>,
    createdAt: Timestamp,
    completedAt: Option<Timestamp>,
    notified: bool)

  /** A freshly created task: the given fields, and the model's defaults for
      the rest (status PENDING, no completion time, not notified, no
      categories yet). */
  function NewTask(user: UserId, title: string, description: string, dueDate: Option<Date>,
                   priority: string, createdAt: Timestamp): (t: Task)
    ensures t.status == Pending && t.completedAt == None && !t.notified && t.categories == {}
    ensures t.user == user && t.title == title && t.description == description
    ensures t.dueDate == dueDate && t.priority == priority && t.createdAt == createdAt
  {
    Task(user, title, description, dueDate, Pending, priority, {}, createdAt, None, false)
  }

  /** `Task.is_due_soon`: the due date is at most one day after today. */
  function IsDueSoon(t: Task, today: Date): (r: bool)
    ensures r ==> t.dueDate.Some?
    ensures t.dueDate.Some? && t.dueDate.value < today ==> r
  {
    if t.dueDate.Some? then t.dueDate.value - today <= 1 else false
  }

  /** `Task.is_overdue`: the due date has passed and the task is not
      completed. */
  function IsOverdue(t: Task, today: Date): (r: bool)
    ensures r ==> t.dueDate.Some? && t.status == Pending
    ensures r ==> IsDueSoon(t, today)
  {
    if t.dueDate.Some? then t.dueDate.value < today && t.status != Completed else false
  }

  /** The full behaviour of `is_due_soon`: false without a due date, true for
      a due date today or tomorrow, true for ANY past due date as well, and
      false from the day after tomorrow on. */
  lemma DueSoonCases(t: Task, today: Date)
    ensures t.dueDate.None? ==> !IsDueSoon(t, today)
    ensures t.dueDate.Some? && t.dueDate.value < today ==> IsDueSoon(t, today)
    ensures t.dueDate.Some? && today <= t.dueDate.value <= today + 1 ==> IsDueSoon(t, today)
    ensures t.dueDate.Some? && t.dueDate.value > today + 1 ==> !IsDueSoon(t, today)
  {
  }

  /** The full behaviour of `is_overdue`: false without a due date or once
      completed, otherwise true exactly when the due date is before today. */
  lemma OverdueCases(t: Task, today: Date)
    ensures t.dueDate.None? ==> !IsOverdue(t, today)
    ensures t.status == Completed ==> !IsOverdue(t, today)
    ensures t.dueDate.Some? && t.status == Pending ==> (IsOverdue(t, today) <==> t.dueDate.value < today)
  {
  }

  /** An overdue task is also "due soon" on the same day, because a negative
      day difference is at most one. */
  lemma OverdueImpliesDueSoon(t: Task, today: Date)
    requires IsOverdue(t, today)
    ensures IsDueSoon(t, today)
  {
  }
}
