/** The two things the views do with a user's task rows once the database
    has returned them: keep the rows that satisfy a `filter(...)` (a
    conjunction of field lookups, in which a lookup on a NULL field never
    holds, as in SQL), and put rows in order, either with Python's stable
    `sorted(..., key=...)` or with an `order_by(...)`. */
module Queries {
  import opened Calendar
  import opened Models
  import opened Text

  /** One `field=value` or `field__lookup=value` argument of `filter`. */
  datatype Lookup =
    | UserIs(user: UserId)                  // user=
    | StatusIs(status: Status)              // status=
    | CompletedDateIs(date: Date)           // completed_at__date=
    | CompletedDateAtLeast(date: Date)      // completed_at__date__gte=
    | CompletedAtLeast(ts: Timestamp)       // completed_at__gte=
    | DueBefore(date: Date)                 // due_date__lt=
    | DueAtLeast(date: Date)                // due_date__gte=
    | DueAtMost(date: Date)                 // due_date__lte=

  /** The arguments of one `filter` call, all of which must hold. */
  type Query = seq<Lookup>

  function Holds(l: Lookup, t: Task): (r: bool)
    ensures (l.CompletedDateIs? || l.CompletedDateAtLeast? || l.CompletedAtLeast?) && t.completedAt.None? ==> !r
    ensures (l.DueBefore? || l.DueAtLeast? || l.DueAtMost?) && t.dueDate.None? ==> !r
  {
    match l
    case UserIs(u) => t.user == u
    case StatusIs(s) => t.status == s
    case CompletedDateIs(d) => t.completedAt.Some? && DateOf(t.completedAt.value) == d
    case CompletedDateAtLeast(d) => t.completedAt.Some? && DateOf(t.completedAt.value) >= d
    case CompletedAtLeast(ts) => t.completedAt.Some? && t.completedAt.value >= ts
    case DueBefore(d) => t.dueDate.Some? && t.dueDate.value < d
    case DueAtLeast(d) => t.dueDate.Some? && t.dueDate.value >= d
    case DueAtMost(d) => t.dueDate.Some? && t.dueDate.value <= d
  }

  function Matches(q: Query, t: Task): (r: bool)
    ensures r <==> forall i :: 0 <= i < |q| ==> Holds(q[i], t)
    ensures q == [] ==> r
  {
    forall l :: l in q ==> Holds(l, t)
  }

  /** The rows of `s` that `q` selects, each as many times as it occurs. */
  function Select(s: seq<Task>, q: Query): (r: seq<Task>)
    ensures |r| <= |s|
    ensures forall t :: multiset(r)[t] == if Matches(q, t) then multiset(s)[t] else 0
    ensures forall t :: t in r <==> t in s && Matches(q, t)
  {
    if s == [] then []
    else
      assert s == [s[0]] + s[1..];
      (if Matches(q, s[0]) then [s[0]] else []) + Select(s[1..], q)
  }

  /** A query whose matches are all matched by another selects no more rows
      (`.count()` is monotone in the filter). */
  lemma {:induction false} SelectMonotone(s: seq<Task>, q1: Query, q2: Query)
    requires forall t :: Matches(q1, t) ==> Matches(q2, t)
    ensures |Select(s, q1)| <= |Select(s, q2)|
    decreases |s|
  {
    if s != [] {
      SelectMonotone(s[1..], q1, q2);
    }
  }

  /** When two extra lookups split the rows that `q` selects into two disjoint
      parts, the two narrower counts add up to the wider one. */
  lemma {:induction false} SelectSplit(s: seq<Task>, q: Query, a: Lookup, b: Lookup)
    requires forall t :: Matches(q, t) ==> (Holds(a, t) <==> !Holds(b, t))
    ensures |Select(s, q + [a])| + |Select(s, q + [b])| == |Select(s, q)|
    decreases |s|
  {
    if s != [] {
      var t := s[0];
      assert Matches(q + [a], t) <==> Matches(q, t) && Holds(a, t) by {
        assert forall l :: l in q + [a] <==> l in q || l == a;
      }
      assert Matches(q + [b], t) <==> Matches(q, t) && Holds(b, t) by {
        assert forall l :: l in q + [b] <==> l in q || l == b;
      }
      SelectSplit(s[1..], q, a, b);
    }
  }

  /** `priority_order.get(t.priority, 4)` with `{'HIGH': 1, 'MEDIUM': 2, 'LOW': 3}`. */
  function Rank(priority: string): (r: nat)
    ensures priority == HIGH ==> r == 1
    ensures priority == MEDIUM ==> r == 2
    ensures priority == LOW ==> r == 3
    ensures priority !in {HIGH, MEDIUM, LOW} ==> r == 4
  {
    if priority == HIGH then 1 else if priority == MEDIUM then 2 else if priority == LOW then 3 else 4
  }

  /** `t.due_date or today`. */
  function EffectiveDue(t: Task, today: Date): (d: Date)
    ensures t.dueDate.None? ==> d == today
    ensures t.dueDate.Some? ==> d == t.dueDate.value
  {
    if t.dueDate.Some? then t.dueDate.value else today
  }

  /** Ascending order on an optional date column; NULL sorts first. */
  function DueLe(a: Option<Date>, b: Option<Date>): (r: bool)
    ensures a.None? ==> r
    ensures a.Some? && b.None? ==> !r
    ensures a == b ==> r
  {
    a.None? || (b.Some? && a.value <= b.value)
  }

  /** The three orders the views put tasks in. */
  datatype Ordering =
    | DashboardOrder(today: Date)  // sorted(key=lambda t: (rank(t.priority), t.due_date or today))
    | DueDateOrder                 // order_by('due_date')
    | FocusOrder                   // order_by('-priority', 'due_date')

  /** `a` may come before `b` in order `o`. */
  function Le(o: Ordering, a: Task, b: Task): (r: bool)
    ensures o.DashboardOrder? && Rank(a.priority) != Rank(b.priority) ==> (r <==> Rank(a.priority) < Rank(b.priority))
    ensures o.FocusOrder? && a.priority != b.priority ==> (r <==> StrLe(b.priority, a.priority))
    ensures o.FocusOrder? && a.priority == b.priority ==> (r <==> DueLe(a.dueDate, b.dueDate))
  {
    match o
    case DashboardOrder(today) =>
      Rank(a.priority) < Rank(b.priority) ||
      (Rank(a.priority) == Rank(b.priority) && EffectiveDue(a, today) <= EffectiveDue(b, today))
    case DueDateOrder =>
      DueLe(a.dueDate, b.dueDate)
    case FocusOrder =>
      (a.priority != b.priority && StrLe(b.priority, a.priority)) ||
      (a.priority == b.priority && DueLe(a.dueDate, b.dueDate))
  }

  /** Any two tasks are comparable in each order. */
  lemma LeTotal(o: Ordering, a: Task, b: Task)
    ensures Le(o, a, b) || Le(o, b, a)
  {
    if o == FocusOrder {
      StrLeTotal(a.priority, b.priority);
    }
  }

  /** Comparisons chain in each order. */
  lemma LeTransitive(o: Ordering, a: Task, b: Task, c: Task)
    requires Le(o, a, b) && Le(o, b, c)
    ensures Le(o, a, c)
  {
    if o == FocusOrder && a.priority != b.priority && b.priority != c.priority {
      StrLeTransitive(c.priority, b.priority, a.priority);
      if a.priority == c.priority {
        StrLeAntisymmetric(a.priority, b.priority);
      }
    }
  }

  predicate SortedBy(s: seq<Task>, o: Ordering) {
    forall i, j :: 0 <= i < j < |s| ==> Le(o, s[i], s[j])
  }

  lemma PrependSorted(h: Task, r: seq<Task>, o: Ordering)
    requires SortedBy(r, o)
    requires forall y :: y in r ==> Le(o, h, y)
    ensures SortedBy([h] + r, o)
  {
    forall i, j | 0 <= i < j < |r| + 1 ensures Le(o, ([h] + r)[i], ([h] + r)[j]) {
      assert ([h] + r)[j] == r[j - 1];
      if i > 0 {
        assert ([h] + r)[i] == r[i - 1];
      }
    }
  }

  /** The head of a sorted list may precede `x` and every later element, so
      it may precede everything in their insertion. */
  lemma HeadBoundsInsert(x: Task, s: seq<Task>, r: seq<Task>, o: Ordering)
    requires SortedBy(s, o) && s != [] && Le(o, s[0], x)
    requires multiset(r) == multiset(s[1..]) + multiset{x}
    ensures forall y :: y in r ==> Le(o, s[0], y)
  {
    forall y | y in r ensures Le(o, s[0], y) {
      assert y in multiset(r);
      if y != x {
        assert y in s[1..];
      }
    }
  }

  /** An `x` that sorts strictly before the head of a sorted list may
      precede every element of it. */
  lemma BelowHeadBoundsAll(x: Task, s: seq<Task>, o: Ordering)
    requires SortedBy(s, o) && s != [] && !Le(o, s[0], x)
    ensures forall y :: y in s ==> Le(o, x, y)
  {
    forall y | y in s ensures Le(o, x, y) {
      LeTotal(o, s[0], x);
      if y != s[0] {
        var k :| 0 <= k < |s| && s[k] == y;
        LeTransitive(o, x, s[0], y);
      }
    }
  }

  /** Inserts `x` into the sorted `s` after every element that may precede
      it, so that `x` follows the elements it ties with. */
  function Insert(x: Task, s: seq<Task>, o: Ordering): (r: seq<Task>)
    requires SortedBy(s, o)
    ensures |r| == |s| + 1
    ensures multiset(r) == multiset(s) + multiset{x}
    ensures SortedBy(r, o)
  {
    if s == [] then [x]
    else if Le(o, s[0], x) then
      var r := Insert(x, s[1..], o);
      assert s == [s[0]] + s[1..];
      HeadBoundsInsert(x, s, r, o);
      PrependSorted(s[0], r, o);
      [s[0]] + r
    else
      BelowHeadBoundsAll(x, s, o);
      PrependSorted(x, s, o);
      [x] + s
  }

  /** A stable sort: the rows of `s` in order `o`. */
  function SortBy(s: seq<Task>, o: Ordering): (r: seq<Task>)
    ensures |r| == |s|
    ensures multiset(r) == multiset(s)
    ensures SortedBy(r, o)
  {
    if s == [] then []
    else
      assert s == s[..|s| - 1] + [s[|s| - 1]];
      Insert(s[|s| - 1], SortBy(s[..|s| - 1], o), o)
  }

  /** The elements of `s` that tie with `z` in order `o`, in their order in `s`. */
  function Ties(s: seq<Task>, o: Ordering, z: Task): seq<Task>
  {
    if s == [] then []
    else (if Le(o, s[0], z) && Le(o, z, s[0]) then [s[0]] else []) + Ties(s[1..], o, z)
  }

  lemma {:induction false} TiesConcat(a: seq<Task>, b: seq<Task>, o: Ordering, z: Task)
    ensures Ties(a + b, o, z) == Ties(a, o, z) + Ties(b, o, z)
    decreases |a|
  {
    if a == [] {
      assert a + b == b;
    } else {
      assert (a + b)[0] == a[0];
      assert (a + b)[1..] == a[1..] + b;
      TiesConcat(a[1..], b, o, z);
    }
  }

  /** When `x` sorts strictly before the head of the sorted `s`, no element
      of `s` ties with anything `x` ties with. */
  lemma {:induction false} NoTiesAfter(x: Task, s: seq<Task>, o: Ordering, z: Task)
    requires SortedBy(s, o) && s != [] && !Le(o, s[0], x)
    requires Le(o, x, z) && Le(o, z, x)
    ensures Ties(s, o, z) == []
    decreases |s|
  {
    if Le(o, s[0], z) {
      LeTransitive(o, s[0], z, x);
    }
    if |s| > 1 {
      if Le(o, s[1], x) {
        LeTransitive(o, s[0], s[1], x);
      }
      assert SortedBy(s[1..], o);
      NoTiesAfter(x, s[1..], o, z);
    }
  }

  lemma TiesPrepend(h: Task, tail: seq<Task>, rest: seq<Task>, o: Ordering, z: Task, extra: seq<Task>)
    requires Ties(rest, o, z) == Ties(tail, o, z) + Ties(extra, o, z)
    ensures Ties([h] + rest, o, z) == Ties([h] + tail, o, z) + Ties(extra, o, z)
  {
    TiesConcat([h], rest, o, z);
    TiesConcat([h], tail, o, z);
  }

  lemma {:induction false} TiesInsert(x: Task, s: seq<Task>, o: Ordering, z: Task)
    requires SortedBy(s, o)
    ensures Ties(Insert(x, s, o), o, z) == Ties(s, o, z) + Ties([x], o, z)
    decreases |s|
  {
    if s == [] {
    } else if Le(o, s[0], x) {
      var tail := s[1..];
      assert SortedBy(tail, o);
      var rest := Insert(x, tail, o);
      assert Insert(x, s, o) == [s[0]] + rest;
      TiesInsert(x, tail, o, z);
      assert s == [s[0]] + tail;
      TiesPrepend(s[0], tail, rest, o, z, [x]);
    } else {
      assert Insert(x, s, o) == [x] + s;
      TiesFront(x, s, o, z);
    }
  }

  /** Putting `x` in front of a sorted list whose head sorts strictly after
      it adds its own tie, if any, at the end of the ties. */
  lemma TiesFront(x: Task, s: seq<Task>, o: Ordering, z: Task)
    requires SortedBy(s, o) && s != [] && !Le(o, s[0], x)
    ensures Ties([x] + s, o, z) == Ties(s, o, z) + Ties([x], o, z)
  {
    TiesConcat([x], s, o, z);
    if Le(o, x, z) && Le(o, z, x) {
      NoTiesAfter(x, s, o, z);
    }
  }

  lemma TiesSnoc(s: seq<Task>, o: Ordering, z: Task)
    requires s != []
    ensures Ties(s, o, z) == Ties(s[..|s| - 1], o, z) + Ties([s[|s| - 1]], o, z)
  {
    assert s == s[..|s| - 1] + [s[|s| - 1]];
    TiesConcat(s[..|s| - 1], [s[|s| - 1]], o, z);
  }

  /** The sort is stable: the tasks that tie in the key keep the order they
      had in the input. */
  lemma {:induction false} SortStable(s: seq<Task>, o: Ordering, z: Task)
    ensures Ties(SortBy(s, o), o, z) == Ties(s, o, z)
    decreases |s|
  {
    if s != [] {
      var init, last := s[..|s| - 1], s[|s| - 1];
      var sortedInit := SortBy(init, o);
      assert SortBy(s, o) == Insert(last, sortedInit, o);
      SortStable(init, o, z);
      TiesInsert(last, sortedInit, o, z);
      TiesSnoc(s, o, z);
    }
  }
}
