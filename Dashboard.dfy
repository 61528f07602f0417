/** The dashboard's task collection: the list the current user sees, kept in step with the server's replies. */
module Dashboard {
  import opened Common
  import FilterTabs

  // ---------------------------------------------------------------------------------------------
  // The pure list operations the handlers apply

  /** The tasks visible under filter `key`: 'completed' and 'pending' select by status, anything else shows all. */
  function FilterTasks(tasks: seq<Task>, key: string): (r: seq<Task>)
    ensures key != Completed && key != Pending ==> r == tasks
    ensures key == Completed || key == Pending ==>
      IsSubsequence(r, tasks) && forall t :: t in r <==> t in tasks && t.status == key
  {
    if key == Completed || key == Pending then
      var p := (t: Task) => t.status == key;
      FilterMembers(tasks, p);
      FilterIsSubsequence(tasks, p);
      Filter(tasks, p)
    else tasks
  }

  /** A status filter keeps every copy of each task of that status, duplicates included, and no other task. */
  lemma FilterTasksKeepsCopies(tasks: seq<Task>, key: string)
    requires key == Completed || key == Pending
    ensures forall t :: multiset(FilterTasks(tasks, key))[t] == if t.status == key then multiset(tasks)[t] else 0
  {
    FilterMultiset(tasks, (t: Task) => t.status == key);
  }

  /** Filtering the already-filtered view by the same key changes nothing. */
  lemma FilterTasksIdempotent(tasks: seq<Task>, key: string)
    ensures FilterTasks(FilterTasks(tasks, key), key) == FilterTasks(tasks, key)
  {
    if key == Completed || key == Pending {
      FilterIdempotent(tasks, (t: Task) => t.status == key);
    }
  }

  /** `tasks.map(t => t.id === id ? x : t)`. */
  function ReplaceById(tasks: seq<Task>, id: int, x: Task): (r: seq<Task>)
    ensures |r| == |tasks|
    ensures forall i :: 0 <= i < |tasks| ==> r[i] == (if tasks[i].id == id then x else tasks[i])
  {
    if tasks == [] then []
    else [if tasks[0].id == id then x else tasks[0]] + ReplaceById(tasks[1..], id, x)
  }

  /** Replacing an id nobody has leaves the list as it was. */
  lemma ReplaceAbsentId(tasks: seq<Task>, id: int, x: Task)
    requires forall i :: 0 <= i < |tasks| ==> tasks[i].id != id
    ensures ReplaceById(tasks, id, x) == tasks
  {
  }

  /** A replacement that keeps the id can be repeated without further effect, and puts `x` in the list
      whenever some element had that id. */
  lemma ReplaceKeepingId(tasks: seq<Task>, id: int, x: Task)
    requires x.id == id
    ensures ReplaceById(ReplaceById(tasks, id, x), id, x) == ReplaceById(tasks, id, x)
    ensures (exists i :: 0 <= i < |tasks| && tasks[i].id == id) ==> x in ReplaceById(tasks, id, x)
  {
    var once := ReplaceById(tasks, id, x);
    var twice := ReplaceById(once, id, x);
    forall i | 0 <= i < |tasks|
      ensures twice[i] == once[i]
    {
      if tasks[i].id == id {
        assert once[i] == x;
      }
    }
    if exists i :: 0 <= i < |tasks| && tasks[i].id == id {
      var i :| 0 <= i < |tasks| && tasks[i].id == id;
      assert once[i] == x;
    }
  }

  /** `tasks.filter(t => t.id !== id)`. */
  function RemoveById(tasks: seq<Task>, id: int): (r: seq<Task>)
    ensures IsSubsequence(r, tasks)
    ensures forall t :: t in r <==> t in tasks && t.id != id
    ensures forall t :: multiset(r)[t] == if t.id != id then multiset(tasks)[t] else 0
    ensures (forall i :: 0 <= i < |tasks| ==> tasks[i].id != id) ==> r == tasks
  {
    var p := (t: Task) => t.id != id;
    FilterMembers(tasks, p);
    FilterMultiset(tasks, p);
    FilterIsSubsequence(tasks, p);
    assert (forall i :: 0 <= i < |tasks| ==> tasks[i].id != id) ==> Filter(tasks, p) == tasks by {
      if forall i :: 0 <= i < |tasks| ==> tasks[i].id != id {
        FilterAllPass(tasks, p);
      }
    }
    Filter(tasks, p)
  }

  /** Deleting after a replacement that kept the id is the same as deleting straight away. */
  lemma {:induction false} RemoveAfterReplace(tasks: seq<Task>, id: int, x: Task)
    requires x.id == id
    ensures RemoveById(ReplaceById(tasks, id, x), id) == RemoveById(tasks, id)
  {
    if tasks != [] {
      RemoveAfterReplace(tasks[1..], id, x);
      var r := ReplaceById(tasks, id, x);
      assert r == [r[0]] + ReplaceById(tasks[1..], id, x);
      assert r[1..] == ReplaceById(tasks[1..], id, x);
    }
  }

  /** The status a toggle asks for: completed becomes pending, anything else becomes completed. */
  function Flip(status: string): (r: string)
    ensures r == Pending || r == Completed
    ensures r != status || (status != Pending && status != Completed)
  {
    if status == Completed then Pending else Completed
  }

  /** Two toggles restore a pending or completed status; any other status ends up pending. */
  lemma FlipTwice(status: string)
    ensures status == Pending || status == Completed ==> Flip(Flip(status)) == status
    ensures status != Pending && status != Completed ==> Flip(Flip(status)) == Pending
  {
  }

  /** The request body of a toggle: the whole task with only its status flipped. */
  function TogglePayload(task: Task): (r: Task)
    ensures r.status == Flip(task.status)
    ensures r.(status := task.status) == task
  {
    task.(status := Flip(task.status))
  }

  /** The `taskCounts` literal passed to the filter tabs. */
  function CountTasks(tasks: seq<Task>): (c: FilterTabs.Counts)
    ensures c.all == |tasks|
    ensures c.pending == |FilterTasks(tasks, Pending)| && c.completed == |FilterTasks(tasks, Completed)|
    ensures c.pending + c.completed <= c.all
    ensures (forall i :: 0 <= i < |tasks| ==> tasks[i].status in {Pending, Completed}) ==> c.pending + c.completed == c.all
  {
    var isPending := (t: Task) => t.status == Pending;
    var isCompleted := (t: Task) => t.status == Completed;
    FilterDisjointCount(tasks, isPending, isCompleted);
    FilterTabs.Counts(|tasks|, |Filter(tasks, isPending)|, |Filter(tasks, isCompleted)|)
  }

  // ---------------------------------------------------------------------------------------------
  // The component's state and its handlers

  class DashboardState {
    var tasks: seq<Task>
    var filteredTasks: seq<Task>
    var activeFilter: string
    var showTaskForm: bool
    var editingTask: Option<Task>
    var loading: bool

    /** The rendered list is always the active filter applied to the collection. */
    ghost predicate Valid()
      reads this
    {
      filteredTasks == FilterTasks(tasks, activeFilter)
    }

    constructor ()
      ensures Valid()
      ensures tasks == [] && activeFilter == FilterTabs.AllKey
      ensures !showTaskForm && editingTask == None && loading
    {
      tasks := [];
      filteredTasks := [];
      activeFilter := FilterTabs.AllKey;
      showTaskForm := false;
      editingTask := None;
      loading := true;
    }

    /** Re-runs the filtering effect after a change to `tasks` or `activeFilter`. */
    method Refilter()
      modifies this`filteredTasks
      ensures Valid()
    {
      filteredTasks := FilterTasks(tasks, activeFilter);
    }

    /** `fetchTasks`: a reply replaces the whole collection; an error keeps it; loading ends either way. */
    method FetchTasks(response: Result<seq<Task>>)
      requires Valid()
      modifies this
      ensures Valid()
      ensures tasks == (if response.Ok? then response.value else old(tasks))
      ensures !loading
      ensures activeFilter == old(activeFilter) && showTaskForm == old(showTaskForm) && editingTask == old(editingTask)
    {
      if response.Ok? {
        tasks := response.value;
      }
      loading := false;
      Refilter();
    }

    /** `setActiveFilter`: only the view changes, never the collection. */
    method SetFilter(key: string)
      requires Valid()
      modifies this
      ensures Valid()
      ensures activeFilter == key && filteredTasks == FilterTasks(tasks, key)
      ensures tasks == old(tasks) && showTaskForm == old(showTaskForm) && editingTask == old(editingTask)
      ensures loading == old(loading)
    {
      activeFilter := key;
      Refilter();
    }

    /** `handleCreateTask`: the server's record goes to the front and the form closes. */
    method CreateTask(response: Result<Task>)
      requires Valid()
      modifies this
      ensures Valid()
      ensures response.Ok? ==> tasks == [response.value] + old(tasks) && !showTaskForm
      ensures response.Err? ==> tasks == old(tasks) && showTaskForm == old(showTaskForm)
      ensures activeFilter == old(activeFilter) && editingTask == old(editingTask) && loading == old(loading)
    {
      if response.Ok? {
        tasks := [response.value] + tasks;
        showTaskForm := false;
      }
      Refilter();
    }

    /** `handleUpdateTask`: every element with the edited task's id becomes the server's record. Without a
        task being edited, reading its id throws inside the try block and nothing changes. */
    method UpdateTask(response: Result<Task>)
      requires Valid()
      modifies this
      ensures Valid()
      ensures old(editingTask).Some? && response.Ok? ==>
        tasks == ReplaceById(old(tasks), old(editingTask).value.id, response.value) &&
        editingTask == None && !showTaskForm
      ensures old(editingTask).None? || response.Err? ==>
        tasks == old(tasks) && editingTask == old(editingTask) && showTaskForm == old(showTaskForm)
      ensures activeFilter == old(activeFilter) && loading == old(loading)
    {
      if editingTask.Some? && response.Ok? {
        tasks := ReplaceById(tasks, editingTask.value.id, response.value);
        editingTask := None;
        showTaskForm := false;
      }
      Refilter();
    }

    /** `handleDeleteTask`: on success every element with that id goes. */
    method DeleteTask(id: int, response: Result<()>)
      requires Valid()
      modifies this
      ensures Valid()
      ensures tasks == (if response.Ok? then RemoveById(old(tasks), id) else old(tasks))
      ensures activeFilter == old(activeFilter) && showTaskForm == old(showTaskForm)
      ensures editingTask == old(editingTask) && loading == old(loading)
    {
      if response.Ok? {
        tasks := RemoveById(tasks, id);
      }
      Refilter();
    }

    /** `handleToggleStatus`: sends the task with its status flipped and puts the server's record in its place. */
    method ToggleStatus(task: Task, response: Result<Task>) returns (payload: Task)
      requires Valid()
      modifies this
      ensures Valid()
      ensures payload == TogglePayload(task)
      ensures tasks == (if response.Ok? then ReplaceById(old(tasks), task.id, response.value) else old(tasks))
      ensures activeFilter == old(activeFilter) && showTaskForm == old(showTaskForm)
      ensures editingTask == old(editingTask) && loading == old(loading)
    {
      if response.Ok? {
        tasks := ReplaceById(tasks, task.id, response.value);
      }
      Refilter();
      payload := TogglePayload(task);
    }

    /** The form's submit handler: an update while a task is being edited, a create otherwise. */
    method SubmitForm(response: Result<Task>)
      requires Valid()
      modifies this
      ensures Valid()
      ensures old(editingTask).Some? && response.Ok? ==>
        tasks == ReplaceById(old(tasks), old(editingTask).value.id, response.value) && editingTask == None
      ensures old(editingTask).None? && response.Ok? ==> tasks == [response.value] + old(tasks)
      ensures old(editingTask).None? ==> editingTask == None
      ensures response.Ok? ==> !showTaskForm
      ensures response.Err? ==> tasks == old(tasks) && editingTask == old(editingTask) && showTaskForm == old(showTaskForm)
      ensures activeFilter == old(activeFilter) && loading == old(loading)
    {
      if editingTask.Some? {
        UpdateTask(response);
      } else {
        CreateTask(response);
      }
    }

    /** `handleEditTask`: open the form on a copy of `task`. */
    method EditTask(task: Task)
      requires Valid()
      modifies this
      ensures Valid()
      ensures editingTask == Some(task) && showTaskForm
      ensures tasks == old(tasks) && filteredTasks == old(filteredTasks) && activeFilter == old(activeFilter)
      ensures loading == old(loading)
    {
      editingTask := Some(task);
      showTaskForm := true;
    }

    /** The header's "add task" button. */
    method OpenForm()
      requires Valid()
      modifies this
      ensures Valid()
      ensures showTaskForm
      ensures tasks == old(tasks) && filteredTasks == old(filteredTasks) && activeFilter == old(activeFilter)
      ensures editingTask == old(editingTask) && loading == old(loading)
    {
      showTaskForm := true;
    }

    /** `handleCloseForm`: close the form and forget the task being edited. */
    method CloseForm()
      requires Valid()
      modifies this
      ensures Valid()
      ensures !showTaskForm && editingTask == None
      ensures tasks == old(tasks) && filteredTasks == old(filteredTasks) && activeFilter == old(activeFilter)
      ensures loading == old(loading)
    {
      showTaskForm := false;
      editingTask := None;
    }

  }
}
