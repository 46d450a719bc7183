/**
  The task list page: adding a task from the form draft, flipping a task's
  completion flag, and the active/completed counters. Every handler computes the
  next list from the current one and replaces it whole, so each is a function.
 */
module Tasks {
  import opened Common

  datatype Task = Task(
    id: int,
    title: string,
    description: string,
    assignedTo: string,
    dueDate: string,
    points: int,
    completed: bool,
    category: string)

  /**
    The form draft (`Partial<Task>`). `points` is None when the number field
    is undefined or not a number.
   */
  datatype TaskDraft = TaskDraft(
    title: string,
    description: string,
    assignedTo: string,
    dueDate: string,
    points: Option<int>,
    category: string)

  /** The page state the add handler touches. */
  datatype TasksPage = TasksPage(tasks: seq<Task>, modalOpen: bool, draft: TaskDraft)

  /** The draft the form is reset to after a task was added. */
  const EmptyDraft := TaskDraft("", "", "", "", Some(10), "Städning")

  const DefaultPoints := 10
  const DefaultCategory := "Övrigt"

  /** `tasks.map(t => t.id)`. */
  function Ids(tasks: seq<Task>): seq<int>
  {
    Map(tasks, (t: Task) => t.id)
  }

  /** The add handler accepts a draft only when title, assignee and due date are filled in. */
  predicate ValidDraft(d: TaskDraft)
  {
    d.title != "" && d.assignedTo != "" && d.dueDate != ""
  }

  /** `newTask.points || 10`: zero and a missing or non-numeric value fall back to 10. */
  function PointsOrDefault(p: Option<int>): int
  {
    if p.None? || p.value == 0 then DefaultPoints else p.value
  }

  /** The task built from a valid draft. */
  function NewTask(tasks: seq<Task>, d: TaskDraft): (t: Task)
    ensures t.id >= 1 && t.id !in Ids(tasks)
    ensures !t.completed
    ensures t.points != 0
    ensures t.category != ""
    ensures t.title == d.title && t.assignedTo == d.assignedTo && t.dueDate == d.dueDate
    ensures t.description == d.description
  {
    NextIdIsFresh(Ids(tasks));
    Task(NextId(Ids(tasks)), d.title, d.description, d.assignedTo, d.dueDate,
         PointsOrDefault(d.points), false, OrElse(d.category, DefaultCategory))
  }

  /** handleAddTask: a no-op on an incomplete draft; otherwise appends the new task, closes the form and resets it. */
  function HandleAddTask(page: TasksPage): (r: TasksPage)
    ensures !ValidDraft(page.draft) ==> r == page
    ensures ValidDraft(page.draft) ==>
      && |r.tasks| == |page.tasks| + 1
      && r.tasks[..|page.tasks|] == page.tasks
      && r.tasks[|page.tasks|] == NewTask(page.tasks, page.draft)
      && !r.modalOpen
      && r.draft == EmptyDraft
  {
    if !ValidDraft(page.draft) then page
    else TasksPage(page.tasks + [NewTask(page.tasks, page.draft)], false, EmptyDraft)
  }

  /** The defaults a new task receives, stated against the draft it came from. */
  lemma NewTaskDefaults(tasks: seq<Task>, d: TaskDraft)
    ensures NewTask(tasks, d).points == (if d.points == None || d.points == Some(0) then 10 else d.points.value)
    ensures NewTask(tasks, d).category == (if d.category == "" then "Övrigt" else d.category)
    ensures NewTask(tasks, d).id == MaxOrZero(Ids(tasks)) + 1
  {
  }

  /** The task a handler call produces with `completed` flipped when its id matches. */
  function Flip(t: Task, id: int): Task
  {
    if t.id == id then t.(completed := !t.completed) else t
  }

  /** handleToggleCompleted: `tasks.map(task => task.id === id ? {...task, completed: !task.completed} : task)`. */
  function ToggleCompleted(tasks: seq<Task>, id: int): (r: seq<Task>)
    ensures |r| == |tasks|
    ensures forall i :: 0 <= i < |tasks| ==> r[i].id == tasks[i].id && r[i].points == tasks[i].points
  {
    if tasks == [] then [] else [Flip(tasks[0], id)] + ToggleCompleted(tasks[1..], id)
  }

  /**
    Toggling flips `completed` on exactly the tasks with the given id and changes
    nothing else: not the length, not the order, not any other field (no points move).
   */
  lemma {:induction false} ToggleCompletedSpec(tasks: seq<Task>, id: int)
    ensures |ToggleCompleted(tasks, id)| == |tasks|
    ensures forall i :: 0 <= i < |tasks| && tasks[i].id == id ==>
      ToggleCompleted(tasks, id)[i] == tasks[i].(completed := !tasks[i].completed)
    ensures forall i :: 0 <= i < |tasks| && tasks[i].id != id ==>
      ToggleCompleted(tasks, id)[i] == tasks[i]
  {
    if tasks != [] {
      ToggleCompletedSpec(tasks[1..], id);
    }
  }

  /** Toggling the same id twice gives back the original list: toggle is a flip, not a one-way transition. */
  lemma {:induction false} ToggleTwice(tasks: seq<Task>, id: int)
    ensures ToggleCompleted(ToggleCompleted(tasks, id), id) == tasks
  {
    if tasks != [] {
      var once := ToggleCompleted(tasks, id);
      assert once[0] == Flip(tasks[0], id);
      assert once[1..] == ToggleCompleted(tasks[1..], id);
      ToggleTwice(tasks[1..], id);
    }
  }

  /** The "Aktiva uppgifter" counter: `tasks.filter(t => !t.completed).length`. */
  function ActiveCount(tasks: seq<Task>): (r: nat)
    ensures r <= |tasks|
    ensures r == 0 <==> forall i :: 0 <= i < |tasks| ==> tasks[i].completed
  {
    var active := (t: Task) => !t.completed;
    FilterEmpty(tasks, active);
    |Filter(tasks, active)|
  }

  /** The "Avklarade uppgifter" counter: `tasks.filter(t => t.completed).length`. */
  function CompletedCount(tasks: seq<Task>): (r: nat)
    ensures r <= |tasks|
    ensures r == 0 <==> forall i :: 0 <= i < |tasks| ==> !tasks[i].completed
  {
    var completed := (t: Task) => t.completed;
    FilterEmpty(tasks, completed);
    |Filter(tasks, completed)|
  }

  /** Every task is counted by exactly one of the two counters. */
  lemma CountsPartition(tasks: seq<Task>)
    ensures ActiveCount(tasks) + CompletedCount(tasks) == |tasks|
  {
    FilterComplement(tasks, (t: Task) => !t.completed, (t: Task) => t.completed);
  }

  /** Adding a task raises the active counter by one and leaves the completed counter as it was. */
  lemma AddTaskCounts(page: TasksPage)
    requires ValidDraft(page.draft)
    ensures ActiveCount(HandleAddTask(page).tasks) == ActiveCount(page.tasks) + 1
    ensures CompletedCount(HandleAddTask(page).tasks) == CompletedCount(page.tasks)
  {
    var t := NewTask(page.tasks, page.draft);
    FilterConcat(page.tasks, [t], (t: Task) => !t.completed);
    FilterConcat(page.tasks, [t], (t: Task) => t.completed);
  }
}
