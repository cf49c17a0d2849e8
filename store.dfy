/** The task-changing views of tasks/views.py (`task_create`,
    `task_update`, `task_delete`, `task_complete`) as operations on the
    record store. `get_object_or_404(Task, pk=id, user=user)` becomes the
    `NotFound` outcome, which leaves the store as it was. */
module Store {
  import opened Calendar
  import opened Models
  import Views

  datatype Outcome =
    | Done
    | NotFound                 // get_object_or_404 found no task with that id owned by the user
    | MultipleObjectsReturned  // get_or_create found several categories with that title

  /** `task.status = 'COMPLETED'` and `task.completed_at = now`. */
  function MarkCompleted(t: Task, now: Timestamp): (c: Task)
    ensures c.status == Completed && c.completedAt == Some(now)
    ensures c.(status := t.status, completedAt := t.completedAt) == t
  {
    t.(status := Completed, completedAt := Some(now))
  }

  /** Completing twice is not the same as completing once: the second call
      overwrites the completion time, and only the last one counts. */
  lemma CompletionLastWriteWins(t: Task, first: Timestamp, second: Timestamp)
    ensures MarkCompleted(MarkCompleted(t, first), second) == MarkCompleted(t, second)
    ensures first != second ==> MarkCompleted(MarkCompleted(t, first), second) != MarkCompleted(t, first)
  {
  }

  /** A completed task is never overdue. */
  lemma CompletedIsNotOverdue(t: Task, now: Timestamp, today: Date)
    ensures !IsOverdue(MarkCompleted(t, now), today)
  {
  }

  /** Completing one task of a list removes exactly its own contribution
      from the overdue count. */
  lemma {:induction false} CompletionClearsOverdue(all: seq<Task>, i: nat, user: UserId, today: Date, now: Timestamp)
    requires i < |all|
    ensures Views.OverdueCount(all[i := MarkCompleted(all[i], now)], user, today) ==
            Views.OverdueCount(all, user, today) - (if all[i].user == user && IsOverdue(all[i], today) then 1 else 0)
    decreases |all|
  {
    var after := all[i := MarkCompleted(all[i], now)];
    if i == 0 {
      assert after[1..] == all[1..];
    } else {
      assert after[1..] == all[1..][i - 1 := MarkCompleted(all[i], now)];
      CompletionClearsOverdue(all[1..], i - 1, user, today, now);
    }
  }

  /** The fields `task_update` writes; status, completion time, owner and
      creation time stay as they were. */
  function Edited(t: Task, title: string, description: string, dueDate: Option<Date>,
                  priority: string, categories: set<CategoryId>): (e: Task)
    ensures e.user == t.user && e.status == t.status && e.completedAt == t.completedAt
    ensures e.createdAt == t.createdAt && e.notified == t.notified
    ensures e.title == title && e.description == description && e.dueDate == dueDate
    ensures e.priority == priority && e.categories == categories
  {
    t.(title := title, description := description, dueDate := dueDate, priority := priority,
       categories := categories)
  }

  /** `request.POST.get(name, default)`. */
  function FormValue(v: Option<string>, default: string): (r: string)
    ensures v.None? ==> r == default
    ensures v.Some? ==> r == v.value
  {
    if v.Some? then v.value else default
  }

  /** The task and category tables, keyed by primary key. */
  class TaskStore {
    var tasks: map<TaskId, Task>
    var categories: map<CategoryId, Category>
    var nextTaskId: TaskId
    var nextCategoryId: CategoryId

    /** Keys are below the next key to hand out, and every category a task
        refers to exists. */
    ghost predicate Valid()
      reads this
    {
      && (forall id :: id in tasks ==> id < nextTaskId)
      && (forall c :: c in categories ==> c < nextCategoryId)
      && (forall id :: id in tasks ==> tasks[id].categories <= categories.Keys)
    }

    /** No user has two categories with the same title. The schema does not
        enforce it, but `task_create` never breaks it. */
    ghost predicate UniqueCategoryTitles()
      reads this
    {
      forall c, d :: c in categories && d in categories && categories[c] == categories[d] ==> c == d
    }

    constructor ()
      ensures Valid() && UniqueCategoryTitles()
      ensures tasks == map[] && categories == map[]
    {
      tasks := map[];
      categories := map[];
      nextTaskId := 0;
      nextCategoryId := 0;
    }

    /** `get_object_or_404(Task, pk=id, user=user)` succeeds. */
    function Owns(user: UserId, id: TaskId): (r: bool)
      reads this`tasks
      ensures r <==> id in tasks && tasks[id].user == user
    {
      id in tasks && tasks[id].user == user
    }

    /** The categories `Category.objects.get(user=user, title=title)` would
        match. */
    function Named(user: UserId, title: string): (r: set<CategoryId>)
      reads this`categories
      ensures r <= categories.Keys
      ensures forall c :: c in categories && categories[c] == Category(user, title) ==> c in r
      ensures forall c :: c in r ==> categories[c] == Category(user, title)
    {
      set c | c in categories && categories[c] == Category(user, title)
    }

    /** `task_create`: adds one PENDING task with the posted fields (description
        "" and priority MEDIUM when absent), gives it the selected categories,
        then attaches the category titled `newCategoryName`, reusing the
        user's category of that title or creating it. When several such
        categories exist, `get_or_create` fails after the task is already
        stored. */
    method Create(user: UserId, title: string, description: Option<string>, dueDate: Option<Date>,
                  priority: Option<string>, selected: set<CategoryId>, newCategoryName: string,
                  now: Timestamp) returns (id: TaskId, outcome: Outcome)
      requires Valid()
      requires selected <= categories.Keys
      modifies this
      ensures Valid()
      ensures old(UniqueCategoryTitles()) ==> UniqueCategoryTitles()
      ensures id == old(nextTaskId) && id !in old(tasks)
      ensures tasks.Keys == old(tasks.Keys) + {id}
      ensures forall k :: k in old(tasks) ==> tasks[k] == old(tasks[k])
      ensures tasks[id] == NewTask(user, title, FormValue(description, ""), dueDate,
                                   FormValue(priority, DefaultPriority), now).(categories := tasks[id].categories)
      ensures newCategoryName == "" ==>
                outcome == Done && categories == old(categories) && tasks[id].categories == selected
      ensures newCategoryName != "" && old(Named(user, newCategoryName)) == {} ==>
                && outcome == Done
                && old(nextCategoryId) !in old(categories)
                && categories == old(categories)[old(nextCategoryId) := Category(user, newCategoryName)]
                && tasks[id].categories == selected + {old(nextCategoryId)}
      ensures newCategoryName != "" && |old(Named(user, newCategoryName))| == 1 ==>
                && outcome == Done
                && categories == old(categories)
                && tasks[id].categories == selected + old(Named(user, newCategoryName))
      ensures newCategoryName != "" && |old(Named(user, newCategoryName))| > 1 ==>
                outcome == MultipleObjectsReturned && categories == old(categories) &&
                tasks[id].categories == selected
      ensures outcome == Done && newCategoryName != "" ==>
                exists c :: c in tasks[id].categories && categories[c] == Category(user, newCategoryName)
    {
      id := nextTaskId;
      var task := NewTask(user, title, FormValue(description, ""), dueDate, FormValue(priority, DefaultPriority), now);
      // `task.categories.set(selected)` runs only when some were selected;
      // a new task has none, so the result is the same either way.
      if selected != {} {
        task := task.(categories := selected);
      }
      tasks := tasks[id := task];
      nextTaskId := nextTaskId + 1;
      outcome := Done;
      if newCategoryName != "" {
        outcome := AttachNamedCategory(user, id, newCategoryName);
      }
    }

    /** The `get_or_create` step of `task_create`: finds the user's category
        titled `name`, or creates it when there is none, and adds it to task
        `id`. Two or more matches raise before anything is added. */
    method AttachNamedCategory(user: UserId, id: TaskId, name: string) returns (outcome: Outcome)
      requires Valid() && id in tasks
      modifies this
      ensures Valid()
      ensures old(UniqueCategoryTitles()) ==> UniqueCategoryTitles()
      ensures tasks.Keys == old(tasks.Keys) && nextTaskId == old(nextTaskId)
      ensures forall k :: k in old(tasks) && k != id ==> tasks[k] == old(tasks[k])
      ensures tasks[id] == old(tasks[id]).(categories := tasks[id].categories)
      ensures old(Named(user, name)) == {} ==>
                && outcome == Done
                && old(nextCategoryId) !in old(categories)
                && categories == old(categories)[old(nextCategoryId) := Category(user, name)]
                && tasks[id].categories == old(tasks[id].categories) + {old(nextCategoryId)}
      ensures |old(Named(user, name))| == 1 ==>
                && outcome == Done
                && categories == old(categories)
                && tasks[id].categories == old(tasks[id].categories) + old(Named(user, name))
      ensures |old(Named(user, name))| > 1 ==>
                outcome == MultipleObjectsReturned && categories == old(categories) && tasks == old(tasks)
      ensures outcome == Done ==>
                exists c :: c in tasks[id].categories && categories[c] == Category(user, name)
    {
      var matches := Named(user, name);
      var cat: CategoryId;
      if matches == {} {
        cat := nextCategoryId;
        categories := categories[cat := Category(user, name)];
        nextCategoryId := nextCategoryId + 1;
      } else if |matches| == 1 {
        cat :| cat in matches;
        SingletonSet(matches, cat);
      } else {
        return MultipleObjectsReturned;
      }
      var task := tasks[id];
      tasks := tasks[id := task.(categories := task.categories + {cat})];
      outcome := Done;
    }

    /** `task_update`: on an owned task, replaces the title, description,
        due date, priority and category set; everything else stays. */
    method Update(user: UserId, id: TaskId, title: string, description: Option<string>,
                  dueDate: Option<Date>, priority: Option<string>, selected: set<CategoryId>)
      returns (outcome: Outcome)
      requires Valid()
      requires selected <= categories.Keys
      modifies this
      ensures Valid()
      ensures outcome == Done <==> old(id in tasks && tasks[id].user == user)
      ensures outcome == NotFound <==> !old(id in tasks && tasks[id].user == user)
      ensures outcome == Done ==>
                tasks == old(tasks)[id := Edited(old(tasks[id]), title, FormValue(description, ""),
                                                 dueDate, FormValue(priority, DefaultPriority), selected)]
      ensures outcome == NotFound ==> tasks == old(tasks)
      ensures categories == old(categories)
      ensures nextTaskId == old(nextTaskId) && nextCategoryId == old(nextCategoryId)
    {
      if !Owns(user, id) {
        return NotFound;
      }
      var task := Edited(tasks[id], title, FormValue(description, ""), dueDate,
                         FormValue(priority, DefaultPriority), selected);
      tasks := tasks[id := task];
      outcome := Done;
    }

    /** `task_delete`: removes an owned task and nothing else. */
    method Delete(user: UserId, id: TaskId) returns (outcome: Outcome)
      requires Valid()
      modifies this
      ensures Valid()
      ensures outcome == Done <==> old(id in tasks && tasks[id].user == user)
      ensures outcome == NotFound <==> !old(id in tasks && tasks[id].user == user)
      ensures outcome == Done ==> tasks == old(tasks) - {id}
      ensures outcome == NotFound ==> tasks == old(tasks)
      ensures categories == old(categories)
      ensures nextTaskId == old(nextTaskId) && nextCategoryId == old(nextCategoryId)
    {
      if !Owns(user, id) {
        return NotFound;
      }
      tasks := tasks - {id};
      outcome := Done;
    }

    /** `task_complete`: marks an owned task completed at `now` and changes
        nothing else; a task already completed gets the new time. */
    method Complete(user: UserId, id: TaskId, now: Timestamp) returns (outcome: Outcome)
      requires Valid()
      modifies this
      ensures Valid()
      ensures outcome == Done <==> old(id in tasks && tasks[id].user == user)
      ensures outcome == NotFound <==> !old(id in tasks && tasks[id].user == user)
      ensures outcome == Done ==> tasks == old(tasks)[id := MarkCompleted(old(tasks[id]), now)]
      ensures outcome == NotFound ==> tasks == old(tasks)
      ensures categories == old(categories)
      ensures nextTaskId == old(nextTaskId) && nextCategoryId == old(nextCategoryId)
    {
      if !Owns(user, id) {
        return NotFound;
      }
      tasks := tasks[id := MarkCompleted(tasks[id], now)];
      outcome := Done;
    }
  }

  lemma SingletonSet(s: set<CategoryId>, c: CategoryId)
    requires |s| == 1 && c in s
    ensures s == {c}
  {
    if d :| d in s && d != c {
      assert {c, d} <= s;
      assert |{c, d}| == 2;
      SubsetCardinality({c, d}, s);
    }
  }

  lemma {:induction false} SubsetCardinality(a: set<CategoryId>, b: set<CategoryId>)
    requires a <= b
    ensures |a| <= |b|
    decreases b
  {
    if a != {} {
      var x :| x in a;
      SubsetCardinality(a - {x}, b - {x});
    }
  }
}
