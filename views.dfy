/** The read-only views of tasks/views.py: the dashboard statistics,
    reminders and notifications, and the "focus mode" list of pending
    tasks. Each works on the task rows as fetched, `all`, and the id of the
    signed-in user. */
module Views {
  import opened Calendar
  import opened Models
  import opened Text
  import opened Queries

  /** The pool the dashboard's motivational message is drawn from. */
  const Quotes: seq<string> := [
    "Keep pushing, you're doing great!",
    "Small steps lead to big results.",
    "Focus on progress, not perfection.",
    "Your future self will thank you for today\U{2019}s effort!",
    "You got this! One task at a time.",
    "Every small victory counts!",
    "Discipline beats motivation \U{2014} keep going!"
  ]

  // The filters the dashboard and the focus list run.

  function UserQuery(user: UserId): (q: Query)
    ensures forall t :: Matches(q, t) <==> t.user == user
  {
    var q: Query := [UserIs(user)];
    assert forall t :: Matches(q, t) <==> Holds(q[0], t);
    q
  }

  function CompletedQuery(user: UserId): (q: Query)
    ensures forall t :: Matches(q, t) <==> t.user == user && t.status == Completed
  {
    var q: Query := [UserIs(user), StatusIs(Completed)];
    assert forall t :: Matches(q, t) <==> Holds(q[0], t) && Holds(q[1], t);
    q
  }

  function PendingQuery(user: UserId): (q: Query)
    ensures forall t :: Matches(q, t) <==> t.user == user && t.status == Pending
  {
    var q: Query := [UserIs(user), StatusIs(Pending)];
    assert forall t :: Matches(q, t) <==> Holds(q[0], t) && Holds(q[1], t);
    q
  }

  function CompletedTodayQuery(user: UserId, today: Date): (q: Query)
    ensures forall t :: Matches(q, t) <==>
              t.user == user && t.status == Completed && t.completedAt.Some? &&
              DateOf(t.completedAt.value) == today
  {
    var q: Query := [UserIs(user), StatusIs(Completed), CompletedDateIs(today)];
    assert forall t :: Matches(q, t) <==> Holds(q[0], t) && Holds(q[1], t) && Holds(q[2], t);
    q
  }

  function CompletedWeekQuery(user: UserId, today: Date): (q: Query)
    ensures forall t :: Matches(q, t) <==>
              t.user == user && t.status == Completed && t.completedAt.Some? &&
              DateOf(t.completedAt.value) >= today - Weekday(today)
  {
    var q: Query := [UserIs(user), StatusIs(Completed), CompletedDateAtLeast(WeekStart(today))];
    assert forall t :: Matches(q, t) <==> Holds(q[0], t) && Holds(q[1], t) && Holds(q[2], t);
    q
  }

  function OverdueQuery(user: UserId, today: Date): (q: Query)
    ensures forall t :: Matches(q, t) <==>
              t.user == user && t.status == Pending && t.dueDate.Some? && t.dueDate.value < today
  {
    var q: Query := [UserIs(user), StatusIs(Pending), DueBefore(today)];
    assert forall t :: Matches(q, t) <==> Holds(q[0], t) && Holds(q[1], t) && Holds(q[2], t);
    q
  }

  function ReminderQuery(user: UserId, today: Date): (q: Query)
    ensures forall t :: Matches(q, t) <==>
              t.user == user && t.status == Pending && t.dueDate.Some? &&
              today <= t.dueDate.value <= today + 1
  {
    var q: Query := [UserIs(user), StatusIs(Pending), DueAtLeast(today), DueAtMost(today + 1)];
    assert forall t :: Matches(q, t) <==> Holds(q[0], t) && Holds(q[1], t) && Holds(q[2], t) && Holds(q[3], t);
    q
  }

  function RecentlyCompletedQuery(user: UserId, now: Timestamp): (q: Query)
    ensures forall t :: Matches(q, t) <==>
              t.user == user && t.status == Completed && t.completedAt.Some? &&
              t.completedAt.value >= now - SecondsPerDay
  {
    var q: Query := [UserIs(user), StatusIs(Completed), CompletedAtLeast(now - SecondsPerDay)];
    assert forall t :: Matches(q, t) <==> Holds(q[0], t) && Holds(q[1], t) && Holds(q[2], t);
    q
  }

  /** The pool holds seven different messages. */
  lemma QuotePool()
    ensures |Quotes| == 7
    ensures forall i, j :: 0 <= i < j < |Quotes| ==> Quotes[i] != Quotes[j]
  {
  }

  /** Sorting keeps exactly the tasks it is given. */
  lemma SortByMembers(s: seq<Task>, o: Ordering, t: Task)
    ensures t in SortBy(s, o) <==> t in s
  {
    var r := SortBy(s, o);
    assert t in r <==> t in multiset(r);
    assert t in s <==> t in multiset(s);
  }

  /** Every task of the user is either completed or pending, so the two
      status counts add up to the total. */
  lemma {:induction false} StatusCountsPartition(all: seq<Task>, user: UserId)
    ensures |Select(all, CompletedQuery(user))| + |Select(all, PendingQuery(user))| == |Select(all, UserQuery(user))|
  {
    assert CompletedQuery(user) == UserQuery(user) + [StatusIs(Completed)];
    assert PendingQuery(user) == UserQuery(user) + [StatusIs(Pending)];
    SelectSplit(all, UserQuery(user), StatusIs(Completed), StatusIs(Pending));
  }

  /** Completed today implies completed this week (the week starts on the
      Monday on or before today), which implies completed. */
  lemma CompletionCountsNested(all: seq<Task>, user: UserId, today: Date)
    ensures |Select(all, CompletedTodayQuery(user, today))| <= |Select(all, CompletedWeekQuery(user, today))|
    ensures |Select(all, CompletedWeekQuery(user, today))| <= |Select(all, CompletedQuery(user))|
  {
    var todayQ, weekQ := CompletedTodayQuery(user, today), CompletedWeekQuery(user, today);
    forall t | Matches(todayQ, t) ensures Matches(weekQ, t) {
      assert Holds(todayQ[2], t);
      assert Holds(todayQ[0], t) && Holds(todayQ[1], t);
    }
    SelectMonotone(all, todayQ, weekQ);
    forall t | Matches(weekQ, t) ensures Matches(CompletedQuery(user), t) {
      assert Holds(weekQ[0], t) && Holds(weekQ[1], t);
    }
    SelectMonotone(all, weekQ, CompletedQuery(user));
  }

  /** The number of the user's tasks for which `Task.is_overdue` holds. */
  function OverdueCount(all: seq<Task>, user: UserId, today: Date): nat
  {
    if all == [] then 0
    else (if all[0].user == user && IsOverdue(all[0], today) then 1 else 0) + OverdueCount(all[1..], user, today)
  }

  /** The dashboard's overdue query (PENDING, due date before today) counts
      exactly the tasks that `Task.is_overdue` reports: a completed task past
      its due date and a task without a due date count for nothing. */
  lemma {:induction false} OverdueQueryAgreesWithIsOverdue(all: seq<Task>, user: UserId, today: Date)
    ensures |Select(all, OverdueQuery(user, today))| == OverdueCount(all, user, today)
    decreases |all|
  {
    if all != [] {
      var t, q := all[0], OverdueQuery(user, today);
      assert Matches(q, t) <==> t.user == user && IsOverdue(t, today) by {
        if Matches(q, t) {
          assert Holds(q[0], t) && Holds(q[1], t) && Holds(q[2], t);
        }
      }
      OverdueQueryAgreesWithIsOverdue(all[1..], user, today);
    }
  }

  /** Every reminder is "due soon" and not overdue, and a task without a
      due date is never a reminder. */
  lemma RemindersAreDueSoon(all: seq<Task>, user: UserId, today: Date, t: Task)
    requires t in Select(all, ReminderQuery(user, today))
    ensures t.dueDate.Some? && IsDueSoon(t, today) && !IsOverdue(t, today)
  {
    var q := ReminderQuery(user, today);
    assert Holds(q[2], t) && Holds(q[3], t);
  }

  // The notifications.

  function OverdueMessage(n: nat): (m: string)
    ensures |m| > 26 && m[..9] == "You have " && m[|m| - 17..] == " overdue task(s)."
    ensures IsCanonicalDecimal(m[9..|m| - 17]) && DecimalValue(m[9..|m| - 17]) == n
  {
    var m := "You have " + DecimalString(n) + " overdue task(s).";
    assert m[9..|m| - 17] == DecimalString(n);
    DecimalRoundTrip(n);
    m
  }

  function DueSoonMessage(n: nat): (m: string)
    ensures |m| > 27 && m[..9] == "You have " && m[|m| - 18..] == " task(s) due soon."
    ensures IsCanonicalDecimal(m[9..|m| - 18]) && DecimalValue(m[9..|m| - 18]) == n
  {
    var m := "You have " + DecimalString(n) + " task(s) due soon.";
    assert m[9..|m| - 18] == DecimalString(n);
    DecimalRoundTrip(n);
    m
  }

  function RecentlyCompletedMessage(n: nat): (m: string)
    ensures |m| > 43 && m[..25] == "Great job! You completed " && m[|m| - 18..] == " task(s) recently!"
    ensures IsCanonicalDecimal(m[25..|m| - 18]) && DecimalValue(m[25..|m| - 18]) == n
  {
    var m := "Great job! You completed " + DecimalString(n) + " task(s) recently!";
    assert m[25..|m| - 18] == DecimalString(n);
    DecimalRoundTrip(n);
    m
  }

  /** Each message carries its count, and messages of different kinds never
      coincide. */
  lemma MessagesDistinct(n: nat, m: nat)
    ensures OverdueMessage(n) == OverdueMessage(m) ==> n == m
    ensures DueSoonMessage(n) == DueSoonMessage(m) ==> n == m
    ensures RecentlyCompletedMessage(n) == RecentlyCompletedMessage(m) ==> n == m
    ensures OverdueMessage(n) != DueSoonMessage(m)
    ensures OverdueMessage(n) != RecentlyCompletedMessage(m)
    ensures DueSoonMessage(n) != RecentlyCompletedMessage(m)
  {
    var a, b, c := OverdueMessage(n), DueSoonMessage(m), RecentlyCompletedMessage(m);
    // Overdue messages end in "(s).", due-soon messages in "soon.".
    assert a[|a| - 2] == a[|a| - 17..][15] == ')';
    assert b[|b| - 2] == b[|b| - 18..][16] == 'n';
    // Recently-completed messages start with 'G', the others with 'Y'.
    assert a[0] == a[..9][0] == 'Y';
    assert b[0] == b[..9][0] == 'Y';
    assert c[0] == c[..25][0] == 'G';
  }

  /** Membership in a list made of up to three optional entries. */
  lemma AtMostThree<T>(notes: seq<T>, x: T, a: T, b: T, c: T, hasA: bool, hasB: bool, hasC: bool)
    requires notes == (if hasA then [a] else []) + (if hasB then [b] else []) + (if hasC then [c] else [])
    ensures x in notes <==> (hasA && x == a) || (hasB && x == b) || (hasC && x == c)
  {
  }

  /** Each kind of message is in a notification list exactly when its count is positive. */
  lemma NotificationMembership(notes: seq<string>, overdue: nat, dueSoon: nat, recentlyCompleted: nat)
    requires notes == (if overdue > 0 then [OverdueMessage(overdue)] else [])
                      + (if dueSoon > 0 then [DueSoonMessage(dueSoon)] else [])
                      + (if recentlyCompleted > 0 then [RecentlyCompletedMessage(recentlyCompleted)] else [])
    ensures forall n :: OverdueMessage(n) in notes <==> overdue > 0 && n == overdue
    ensures forall n :: DueSoonMessage(n) in notes <==> dueSoon > 0 && n == dueSoon
    ensures forall n :: RecentlyCompletedMessage(n) in notes <==> recentlyCompleted > 0 && n == recentlyCompleted
  {
    var o, d, c := OverdueMessage(overdue), DueSoonMessage(dueSoon), RecentlyCompletedMessage(recentlyCompleted);
    forall n: nat ensures OverdueMessage(n) in notes <==> overdue > 0 && n == overdue {
      MessagesDistinct(n, overdue);
      MessagesDistinct(n, dueSoon);
      MessagesDistinct(n, recentlyCompleted);
      AtMostThree(notes, OverdueMessage(n), o, d, c, overdue > 0, dueSoon > 0, recentlyCompleted > 0);
    }
    forall n: nat ensures DueSoonMessage(n) in notes <==> dueSoon > 0 && n == dueSoon {
      MessagesDistinct(overdue, n);
      MessagesDistinct(n, dueSoon);
      MessagesDistinct(n, recentlyCompleted);
      AtMostThree(notes, DueSoonMessage(n), o, d, c, overdue > 0, dueSoon > 0, recentlyCompleted > 0);
    }
    forall n: nat ensures RecentlyCompletedMessage(n) in notes <==> recentlyCompleted > 0 && n == recentlyCompleted {
      MessagesDistinct(overdue, n);
      MessagesDistinct(dueSoon, n);
      MessagesDistinct(n, recentlyCompleted);
      AtMostThree(notes, RecentlyCompletedMessage(n), o, d, c, overdue > 0, dueSoon > 0, recentlyCompleted > 0);
    }
  }

  /** Builds the notifications as the dashboard appends them: the overdue
      message, then the due-soon message, then the recently-completed
      message, each only when its count is positive. */
  method Notifications(overdue: nat, dueSoon: nat, recentlyCompleted: nat) returns (notes: seq<string>)
    ensures |notes| == (if overdue > 0 then 1 else 0) + (if dueSoon > 0 then 1 else 0)
                       + (if recentlyCompleted > 0 then 1 else 0)
    ensures overdue > 0 ==> notes[0] == OverdueMessage(overdue)
    ensures dueSoon > 0 ==> notes[if overdue > 0 then 1 else 0] == DueSoonMessage(dueSoon)
    ensures recentlyCompleted > 0 ==> notes[|notes| - 1] == RecentlyCompletedMessage(recentlyCompleted)
    ensures forall n :: OverdueMessage(n) in notes <==> overdue > 0 && n == overdue
    ensures forall n :: DueSoonMessage(n) in notes <==> dueSoon > 0 && n == dueSoon
    ensures forall n :: RecentlyCompletedMessage(n) in notes <==> recentlyCompleted > 0 && n == recentlyCompleted
  {
    notes := [];
    if overdue > 0 {
      notes := notes + [OverdueMessage(overdue)];
    }
    if dueSoon > 0 {
      notes := notes + [DueSoonMessage(dueSoon)];
    }
    if recentlyCompleted > 0 {
      notes := notes + [RecentlyCompletedMessage(recentlyCompleted)];
    }
    NotificationMembership(notes, overdue, dueSoon, recentlyCompleted);
  }

  /** `reminders`: the user's pending tasks due today or tomorrow, ordered
      by due date. */
  function Reminders(all: seq<Task>, user: UserId, today: Date): (r: seq<Task>)
    ensures multiset(r) == multiset(Select(all, ReminderQuery(user, today)))
    ensures forall t :: t in r <==>
              t in all && t.user == user && t.status == Pending && t.dueDate.Some? &&
              today <= t.dueDate.value <= today + 1
    ensures SortedBy(r, DueDateOrder)
  {
    var r := SortBy(Select(all, ReminderQuery(user, today)), DueDateOrder);
    assert forall t :: t in r <==>
              t in all && t.user == user && t.status == Pending && t.dueDate.Some? &&
              today <= t.dueDate.value <= today + 1 by {
      forall t ensures t in r <==>
              t in all && t.user == user && t.status == Pending && t.dueDate.Some? &&
              today <= t.dueDate.value <= today + 1 {
        SortByMembers(Select(all, ReminderQuery(user, today)), DueDateOrder, t);
      }
    }
    r
  }

  /** The dashboard's `tasks`: every task of the user, once each, ordered by
      (priority rank, due date or today). */
  function DashboardTasks(all: seq<Task>, user: UserId, today: Date): (r: seq<Task>)
    ensures multiset(r) == multiset(Select(all, UserQuery(user)))
    ensures |r| == |Select(all, UserQuery(user))|
    ensures forall t :: t in r <==> t in all && t.user == user
    ensures SortedBy(r, DashboardOrder(today))
  {
    var r := SortBy(Select(all, UserQuery(user)), DashboardOrder(today));
    assert forall t :: t in r <==> t in all && t.user == user by {
      forall t ensures t in r <==> t in all && t.user == user {
        SortByMembers(Select(all, UserQuery(user)), DashboardOrder(today), t);
        assert Matches(UserQuery(user), t) <==> Holds(UserIs(user), t);
      }
    }
    r
  }

  /** What the dashboard page shows (the placeholder `avg_focus_time` is not
      modelled). */
  datatype DashboardView = DashboardView(
    completedCount: nat,
    pendingCount: nat,
    totalTasks: nat,
    tasksCompletedToday: nat,
    tasksCompletedWeek: nat,
    overdueTasks: nat,
    motivationalMessage: string,
    tasks: seq<Task>,
    reminders: seq<Task>,
    notifications: seq<string>)

  /** The dashboard for `user` at time `now`; `quoteIndex` stands for the
      random choice of motivational message. */
  method Dashboard(all: seq<Task>, user: UserId, now: Timestamp, quoteIndex: nat) returns (v: DashboardView)
    requires quoteIndex < |Quotes|
    ensures v.completedCount + v.pendingCount == v.totalTasks
    ensures v.tasksCompletedToday <= v.tasksCompletedWeek <= v.completedCount
    ensures v.completedCount == |Select(all, CompletedQuery(user))|
    ensures v.tasksCompletedToday == |Select(all, CompletedTodayQuery(user, DateOf(now)))|
    ensures v.tasksCompletedWeek == |Select(all, CompletedWeekQuery(user, DateOf(now)))|
    ensures v.overdueTasks == OverdueCount(all, user, DateOf(now))
    ensures v.motivationalMessage == Quotes[quoteIndex]
    ensures v.totalTasks == |v.tasks|
    ensures v.tasks == DashboardTasks(all, user, DateOf(now))
    ensures v.reminders == Reminders(all, user, DateOf(now))
    ensures |v.notifications| ==
              (if v.overdueTasks > 0 then 1 else 0) + (if |v.reminders| > 0 then 1 else 0) +
              (if |Select(all, RecentlyCompletedQuery(user, now))| > 0 then 1 else 0)
    ensures forall n :: OverdueMessage(n) in v.notifications <==> v.overdueTasks > 0 && n == v.overdueTasks
    ensures forall n :: DueSoonMessage(n) in v.notifications <==> |v.reminders| > 0 && n == |v.reminders|
    ensures forall n :: RecentlyCompletedMessage(n) in v.notifications <==>
              n > 0 && n == |Select(all, RecentlyCompletedQuery(user, now))|
    ensures v.overdueTasks > 0 ==> v.notifications[0] == OverdueMessage(v.overdueTasks)
    ensures |v.reminders| > 0 ==>
              v.notifications[if v.overdueTasks > 0 then 1 else 0] == DueSoonMessage(|v.reminders|)
    ensures |Select(all, RecentlyCompletedQuery(user, now))| > 0 ==>
              v.notifications[|v.notifications| - 1] ==
              RecentlyCompletedMessage(|Select(all, RecentlyCompletedQuery(user, now))|)
  {
    var today := DateOf(now);

    var completedCount := |Select(all, CompletedQuery(user))|;
    var pendingCount := |Select(all, PendingQuery(user))|;
    var totalTasks := |Select(all, UserQuery(user))|;
    StatusCountsPartition(all, user);

    var tasksCompletedToday := |Select(all, CompletedTodayQuery(user, today))|;
    var tasksCompletedWeek := |Select(all, CompletedWeekQuery(user, today))|;
    CompletionCountsNested(all, user, today);

    var overdueTasks := |Select(all, OverdueQuery(user, today))|;
    OverdueQueryAgreesWithIsOverdue(all, user, today);

    var tasks := DashboardTasks(all, user, today);
    var reminders := Reminders(all, user, today);
    var recentlyCompleted := |Select(all, RecentlyCompletedQuery(user, now))|;
    var notifications := Notifications(overdueTasks, |reminders|, recentlyCompleted);

    v := DashboardView(completedCount, pendingCount, totalTasks, tasksCompletedToday,
                       tasksCompletedWeek, overdueTasks, Quotes[quoteIndex], tasks,
                       reminders, notifications);
  }

  /** Focus mode: the user's pending tasks by priority string descending,
      then by due date. */
  function FocusList(all: seq<Task>, user: UserId): (r: seq<Task>)
    ensures multiset(r) == multiset(Select(all, PendingQuery(user)))
    ensures forall t :: t in r <==> t in all && t.user == user && t.status == Pending
    ensures SortedBy(r, FocusOrder)
  {
    var r := SortBy(Select(all, PendingQuery(user)), FocusOrder);
    assert forall t :: t in r <==> t in all && t.user == user && t.status == Pending by {
      forall t ensures t in r <==> t in all && t.user == user && t.status == Pending {
        SortByMembers(Select(all, PendingQuery(user)), FocusOrder, t);
      }
    }
    r
  }

  /** Because the focus list compares priorities as strings, MEDIUM comes
      before LOW and LOW before HIGH; within one priority, earlier due dates
      come first. */
  lemma FocusListPriorityOrder(r: seq<Task>, i: nat, j: nat)
    requires SortedBy(r, FocusOrder) && i < |r| && j < |r|
    ensures r[i].priority == MEDIUM && r[j].priority == LOW ==> i < j
    ensures r[i].priority == LOW && r[j].priority == HIGH ==> i < j
    ensures r[i].priority == MEDIUM && r[j].priority == HIGH ==> i < j
    ensures i < j && r[i].priority == r[j].priority && r[i].dueDate.Some? && r[j].dueDate.Some? ==>
              r[i].dueDate.value <= r[j].dueDate.value
  {
  }

  /** On the dashboard the priority rank strictly dominates the due date,
      and a task without a due date sorts as if it were due today. */
  lemma DashboardPriorityDominates(r: seq<Task>, today: Date, i: nat, j: nat)
    requires SortedBy(r, DashboardOrder(today)) && i < |r| && j < |r|
    ensures Rank(r[i].priority) < Rank(r[j].priority) ==> i < j
    ensures Rank(r[i].priority) == Rank(r[j].priority) && EffectiveDue(r[i], today) < EffectiveDue(r[j], today) ==> i < j
  {
  }

  /** On the dashboard HIGH precedes MEDIUM, MEDIUM precedes LOW, and LOW
      precedes any priority outside the three choices, whatever the due dates. */
  lemma DashboardPriorityLevels(r: seq<Task>, today: Date, i: nat, j: nat)
    requires SortedBy(r, DashboardOrder(today)) && i < |r| && j < |r|
    ensures r[i].priority == HIGH && r[j].priority == MEDIUM ==> i < j
    ensures r[i].priority == MEDIUM && r[j].priority == LOW ==> i < j
    ensures r[i].priority == LOW && r[j].priority !in {HIGH, MEDIUM, LOW} ==> i < j
  {
    DashboardPriorityDominates(r, today, i, j);
  }

  /** Monday 10 June 2024: a HIGH task due on the 11th and a LOW task due on
      the 10th. The dashboard lists the HIGH task first; the focus list lists
      the LOW task first. */
  lemma MondayScenario()
    ensures Weekday(739047) == 0
    ensures var a := NewTask(1, "A", "", Some(739048), HIGH, 0);
            var b := NewTask(1, "B", "", Some(739047), LOW, 0);
            SortBy([a, b], DashboardOrder(739047)) == [a, b] &&
            SortBy([a, b], FocusOrder) == [b, a]
  {
    // "LOW" sorts after "HIGH" as text, so descending text order puts LOW first.
    assert !StrLe(LOW, HIGH);
  }
}
