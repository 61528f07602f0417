/** The admin overview: every user and every task fetched in bulk, with statistics and a combined search. */
module AdminPanel {
  import opened Common
  import TaskList

  /** `task.status === 'completed'` and its pending counterpart, as filter predicates. */
  predicate IsCompleted(t: Task) { t.status == Completed }
  predicate IsPending(t: Task) { t.status == Pending }

  /** The admin's overdue test: a due date, not completed, and due strictly before now. */
  predicate IsOverdueAt(t: Task, now: int) {
    t.dueDate.Some? && t.status != Completed && t.dueDate.value.at < now
  }

  datatype Stats = Stats(totalUsers: nat, totalTasks: nat, completedTasks: nat, pendingTasks: nat,
                         completionRate: int, overdueTasks: nat)

  /** `getStats`. */
  function GetStats(users: seq<User>, tasks: seq<Task>, now: int): (s: Stats)
    ensures s.totalUsers == |users| && s.totalTasks == |tasks|
    ensures s.completedTasks == |Filter(tasks, IsCompleted)| && s.pendingTasks == |Filter(tasks, IsPending)|
    ensures s.overdueTasks == |Filter(tasks, (t: Task) => IsOverdueAt(t, now))|
    ensures s.completedTasks + s.pendingTasks <= s.totalTasks
    ensures s.overdueTasks + s.completedTasks <= s.totalTasks
    ensures s.totalTasks == 0 ==> s.completionRate == 0
    ensures s.totalTasks > 0 ==>
      2 * s.totalTasks * s.completionRate <= 200 * s.completedTasks + s.totalTasks < 2 * s.totalTasks * (s.completionRate + 1)
    ensures 0 <= s.completionRate <= 100
  {
    var completed := Filter(tasks, IsCompleted);
    var pending := Filter(tasks, IsPending);
    var overdue := Filter(tasks, (t: Task) => IsOverdueAt(t, now));
    FilterDisjointCount(tasks, IsCompleted, IsPending);
    FilterDisjointCount(tasks, (t: Task) => IsOverdueAt(t, now), IsCompleted);
    var rate :=
      if |tasks| > 0 then
        RoundPercentNearest(|completed|, |tasks|);
        RoundPercentBounds(|completed|, |tasks|);
        RoundPercent(|completed|, |tasks|)
      else 0;
    Stats(|users|, |tasks|, |completed|, |pending|, rate, |overdue|)
  }

  /** The overdue tile counts every occurrence of a task with a due date strictly before now that is not
      completed, and nothing else: a task due exactly now, or a completed one, never counts, and with no such
      task the tile shows 0. */
  lemma OverdueCountsExactly(users: seq<User>, tasks: seq<Task>, now: int)
    ensures var overdue := Filter(tasks, (t: Task) => IsOverdueAt(t, now));
      GetStats(users, tasks, now).overdueTasks == |overdue| &&
      (forall t :: multiset(overdue)[t] ==
        if t.dueDate.Some? && t.status != Completed && t.dueDate.value.at < now then multiset(tasks)[t] else 0)
    ensures (forall i :: 0 <= i < |tasks| ==> !IsOverdueAt(tasks[i], now)) ==> GetStats(users, tasks, now).overdueTasks == 0
  {
    var p := (t: Task) => IsOverdueAt(t, now);
    FilterMultiset(tasks, p);
    if forall i :: 0 <= i < |tasks| ==> !IsOverdueAt(tasks[i], now) {
      FilterNonePass(tasks, p);
    }
  }

  /** As time passes the overdue tile never goes down while the list stays the same. */
  lemma OverdueGrowsWithTime(users: seq<User>, tasks: seq<Task>, now: int, later: int)
    requires now <= later
    ensures GetStats(users, tasks, now).overdueTasks <= GetStats(users, tasks, later).overdueTasks
  {
    FilterWeakerCount(tasks, (t: Task) => IsOverdueAt(t, now), (t: Task) => IsOverdueAt(t, later));
  }

  /** The overdue tile is looser than the task list's overdue badge: every open task the list flags is
      counted, but a task due earlier today is counted here while the list does not flag it. */
  lemma OverdueTileCoversBadge(t: Task, clock: TaskList.Clock)
    ensures TaskList.IsOverdue(t.dueDate, clock) && t.status != Completed ==> IsOverdueAt(t, clock.now)
    ensures var due := Task(0, "", None, Some(Due("1970-01-02T00:00:01.000Z", MsPerDay + 1000)), Pending, "");
      IsOverdueAt(due, MsPerDay + 2000) && !TaskList.IsOverdue(due.dueDate, TaskList.Clock(MsPerDay + 2000, 0))
  {
  }

  /** The percentage on the "Pending Tasks" bar: what the completion rate leaves over. */
  function PendingPercent(s: Stats): (p: int)
    requires 0 <= s.completionRate <= 100
    ensures 0 <= p <= 100 && p + s.completionRate == 100
  {
    100 - s.completionRate
  }

  /** `allTasks.slice(0, 5)`: the "Recent Activity" list. */
  function RecentActivity(tasks: seq<Task>): (r: seq<Task>)
    ensures |r| == if |tasks| < 5 then |tasks| else 5
    ensures forall i :: 0 <= i < |r| ==> r[i] == tasks[i]
  {
    if |tasks| < 5 then tasks else tasks[..5]
  }

  /** The search-and-status test for one task: the lowered term occurs in the lowered title or owner name,
      and the status filter is 'all' or equals the task's status. */
  predicate TaskMatches(t: Task, term: string, filterStatus: string) {
    (Includes(Lower(t.title), Lower(term)) || Includes(Lower(t.ownerName), Lower(term))) &&
    (filterStatus == "all" || t.status == filterStatus)
  }

  /** `filteredTasks`. */
  function FilteredTasks(tasks: seq<Task>, term: string, filterStatus: string): (r: seq<Task>)
    ensures IsSubsequence(r, tasks)
    ensures forall t :: t in r <==> t in tasks && TaskMatches(t, term, filterStatus)
    ensures forall t :: multiset(r)[t] == if TaskMatches(t, term, filterStatus) then multiset(tasks)[t] else 0
  {
    var p := (t: Task) => TaskMatches(t, term, filterStatus);
    FilterMembers(tasks, p);
    FilterMultiset(tasks, p);
    FilterIsSubsequence(tasks, p);
    Filter(tasks, p)
  }

  /** With an empty search term and the 'all' filter, every task is listed in its original order. */
  lemma FilteredTasksNoCriteria(tasks: seq<Task>)
    ensures FilteredTasks(tasks, "", "all") == tasks
  {
    forall i | 0 <= i < |tasks|
      ensures TaskMatches(tasks[i], "", "all")
    {
      IncludesEmpty(Lower(tasks[i].title));
    }
    FilterAllPass(tasks, (t: Task) => TaskMatches(t, "", "all"));
  }

  /** Case does not matter: a search for the term or its lowered form lists the same tasks. */
  lemma FilteredTasksCaseInsensitive(tasks: seq<Task>, term: string, filterStatus: string)
    ensures FilteredTasks(tasks, term, filterStatus) == FilteredTasks(tasks, Lower(term), filterStatus)
  {
    LowerIdempotent(term);
    FilterSamePredicate(tasks, (t: Task) => TaskMatches(t, term, filterStatus),
                               (t: Task) => TaskMatches(t, Lower(term), filterStatus));
  }

  /** The user search: the lowered term occurs in the lowered name or email. */
  predicate UserMatches(u: User, term: string) {
    Includes(Lower(u.name), Lower(term)) || Includes(Lower(u.email), Lower(term))
  }

  /** `filteredUsers`: the same search term, never the status filter. */
  function FilteredUsers(users: seq<User>, term: string): (r: seq<User>)
    ensures IsSubsequence(r, users)
    ensures forall u :: u in r <==> u in users && UserMatches(u, term)
    ensures forall u :: multiset(r)[u] == if UserMatches(u, term) then multiset(users)[u] else 0
  {
    var p := (u: User) => UserMatches(u, term);
    FilterMembers(users, p);
    FilterMultiset(users, p);
    FilterIsSubsequence(users, p);
    Filter(users, p)
  }

  /** An empty search term keeps every user. */
  lemma FilteredUsersEmptyTerm(users: seq<User>)
    ensures FilteredUsers(users, "") == users
  {
    forall i | 0 <= i < |users|
      ensures UserMatches(users[i], "")
    {
      IncludesEmpty(Lower(users[i].name));
    }
    FilterAllPass(users, (u: User) => UserMatches(u, ""));
  }

  class AdminState {
    var users: seq<User>
    var allTasks: seq<Task>
    var loading: bool
    var searchTerm: string
    var filterStatus: string

    constructor ()
      ensures users == [] && allTasks == [] && loading && searchTerm == "" && filterStatus == "all"
    {
      users := [];
      allTasks := [];
      loading := true;
      searchTerm := "";
      filterStatus := "all";
    }

    /** `fetchData`: both lists are replaced only when both requests succeed; loading ends either way. */
    method FetchData(usersResponse: Result<seq<User>>, tasksResponse: Result<seq<Task>>)
      modifies this
      ensures usersResponse.Ok? && tasksResponse.Ok? ==>
        users == usersResponse.value && allTasks == tasksResponse.value
      ensures usersResponse.Err? || tasksResponse.Err? ==> users == old(users) && allTasks == old(allTasks)
      ensures !loading && searchTerm == old(searchTerm) && filterStatus == old(filterStatus)
    {
      if usersResponse.Ok? && tasksResponse.Ok? {
        users := usersResponse.value;
        allTasks := tasksResponse.value;
      }
      loading := false;
    }

    /** The search box. */
    method SetSearchTerm(term: string)
      modifies this`searchTerm
      ensures searchTerm == term
    {
      searchTerm := term;
    }

    /** The status drop-down. */
    method SetFilterStatus(status: string)
      modifies this`filterStatus
      ensures filterStatus == status
    {
      filterStatus := status;
    }
  }
}
