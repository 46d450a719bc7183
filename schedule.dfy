/**
  The weekly schedule page: adding a recurring entry, listing the entries of one
  day and deleting by id. The day of the week is an index 0..6; the page's own
  day labels are Monday-first, so index 0 is rendered as Monday.
 */
module Schedule {
  import opened Common

  datatype ScheduledTask = ScheduledTask(
    id: int,
    title: string,
    assignedTo: string,
    dayOfWeek: int,
    points: int,
    category: string,
    startTime: Option<string>,
    endTime: Option<string>,
    isRecurring: bool)

  /**
    The form draft (`Partial<ScheduledTask>`). `dayOfWeek` is None when undefined,
    `points` is None when undefined or not a number, `isRecurring` is None when unset.
   */
  datatype ScheduleDraft = ScheduleDraft(
    title: string,
    assignedTo: string,
    dayOfWeek: Option<int>,
    points: Option<int>,
    category: string,
    startTime: Option<string>,
    endTime: Option<string>,
    isRecurring: Option<bool>)

  datatype SchedulePage = SchedulePage(entries: seq<ScheduledTask>, modalOpen: bool, draft: ScheduleDraft)

  /** The draft the form is reset to after an entry was added. */
  const EmptyDraft := ScheduleDraft("", "", Some(0), Some(10), "Städning", None, None, Some(true))

  /** `scheduledTasks.map(t => t.id)`. */
  function Ids(entries: seq<ScheduledTask>): seq<int>
  {
    Map(entries, (t: ScheduledTask) => t.id)
  }

  /** Title and assignee must be filled in and the day must be defined; day 0 is accepted. */
  predicate ValidDraft(d: ScheduleDraft)
  {
    d.title != "" && d.assignedTo != "" && d.dayOfWeek.Some?
  }

  /** The entry built from a valid draft. Start and end times are copied as given, with no ordering check. */
  function NewEntry(entries: seq<ScheduledTask>, d: ScheduleDraft): (t: ScheduledTask)
    requires ValidDraft(d)
    ensures t.id >= 1 && t.id !in Ids(entries)
    ensures t.dayOfWeek == d.dayOfWeek.value
    ensures t.startTime == d.startTime && t.endTime == d.endTime
    ensures t.title == d.title && t.assignedTo == d.assignedTo
  {
    NextIdIsFresh(Ids(entries));
    ScheduledTask(
      NextId(Ids(entries)),
      d.title,
      d.assignedTo,
      d.dayOfWeek.value,
      if d.points.None? || d.points.value == 0 then 10 else d.points.value,
      OrElse(d.category, "Städning"),
      d.startTime,
      d.endTime,
      d.isRecurring == Some(true))
  }

  /** handleAddTask: a no-op on an incomplete draft; otherwise appends the new entry, closes the form and resets it. */
  function HandleAddTask(page: SchedulePage): (r: SchedulePage)
    ensures !ValidDraft(page.draft) ==> r == page
    ensures ValidDraft(page.draft) ==>
      && |r.entries| == |page.entries| + 1
      && r.entries[..|page.entries|] == page.entries
      && r.entries[|page.entries|] == NewEntry(page.entries, page.draft)
      && !r.modalOpen
      && r.draft == EmptyDraft
  {
    if !ValidDraft(page.draft) then page
    else SchedulePage(page.entries + [NewEntry(page.entries, page.draft)], false, EmptyDraft)
  }

  /** The defaults a new entry receives, stated against the draft. */
  lemma NewEntryDefaults(entries: seq<ScheduledTask>, d: ScheduleDraft)
    requires ValidDraft(d)
    ensures NewEntry(entries, d).id == MaxOrZero(Ids(entries)) + 1
    ensures NewEntry(entries, d).points == (if d.points == None || d.points == Some(0) then 10 else d.points.value)
    ensures NewEntry(entries, d).category == (if d.category == "" then "Städning" else d.category)
    ensures NewEntry(entries, d).isRecurring <==> d.isRecurring == Some(true)
  {
  }

  /** An added entry may end before it starts: the add handler does not compare the two times. */
  lemma AddAcceptsAnyTimes(entries: seq<ScheduledTask>, title: string, who: string, day: int, start: string, end: string)
    requires title != "" && who != ""
    ensures var d := ScheduleDraft(title, who, Some(day), None, "", Some(start), Some(end), None);
      var r := HandleAddTask(SchedulePage(entries, true, d));
      |r.entries| == |entries| + 1 && r.entries[|entries|].startTime == Some(start) &&
      r.entries[|entries|].endTime == Some(end)
  {
  }

  /** getTasksByDay: `scheduledTasks.filter(task => task.dayOfWeek === day)`. */
  function TasksByDay(entries: seq<ScheduledTask>, day: int): (r: seq<ScheduledTask>)
    ensures |r| <= |entries|
    ensures forall t :: t in r ==> t in entries && t.dayOfWeek == day
  {
    Filter(entries, (t: ScheduledTask) => t.dayOfWeek == day)
  }

  /** An entry is listed for a day exactly when it is in the list and scheduled on that day. */
  lemma TasksByDayMembers(entries: seq<ScheduledTask>, day: int, t: ScheduledTask)
    ensures t in TasksByDay(entries, day) <==> t in entries && t.dayOfWeek == day
  {
    if t in entries && t.dayOfWeek == day {
      FilterKeeps(entries, (t: ScheduledTask) => t.dayOfWeek == day, t);
    }
  }

  /** Listing by day keeps list order: the list for a concatenation is the two lists concatenated. */
  lemma TasksByDayOrder(a: seq<ScheduledTask>, b: seq<ScheduledTask>, day: int)
    ensures TasksByDay(a + b, day) == TasksByDay(a, day) + TasksByDay(b, day)
  {
    FilterConcat(a, b, (t: ScheduledTask) => t.dayOfWeek == day);
  }

  predicate DaysInRange(entries: seq<ScheduledTask>)
  {
    forall i :: 0 <= i < |entries| ==> 0 <= entries[i].dayOfWeek < 7
  }

  /** The total size of the lists for the days `from`..6. */
  function SizeFrom(entries: seq<ScheduledTask>, from: nat): nat
    requires from <= 7
    decreases 7 - from
  {
    if from == 7 then 0 else |TasksByDay(entries, from)| + SizeFrom(entries, from + 1)
  }

  lemma {:induction false} SizeFromCons(t: ScheduledTask, rest: seq<ScheduledTask>, from: nat)
    requires from <= 7
    ensures SizeFrom([t] + rest, from) == SizeFrom(rest, from) + (if from <= t.dayOfWeek < 7 then 1 else 0)
    decreases 7 - from
  {
    if from < 7 {
      assert ([t] + rest)[1..] == rest;
      SizeFromCons(t, rest, from + 1);
    }
  }

  /** Over the seven days, the per-day lists partition any list whose days are all in 0..6. */
  lemma {:induction false} TasksByDayPartition(entries: seq<ScheduledTask>)
    requires DaysInRange(entries)
    ensures SizeFrom(entries, 0) == |entries|
  {
    if entries != [] {
      assert entries == [entries[0]] + entries[1..];
      SizeFromCons(entries[0], entries[1..], 0);
      TasksByDayPartition(entries[1..]);
    }
  }

  /** handleDeleteTask: `scheduledTasks.filter(task => task.id !== id)`. */
  function DeleteTask(entries: seq<ScheduledTask>, id: int): (r: seq<ScheduledTask>)
    ensures forall t :: t in r ==> t in entries && t.id != id
  {
    Filter(entries, (t: ScheduledTask) => t.id != id)
  }

  /** Every entry with another id survives a delete. */
  lemma DeleteKeepsOthers(entries: seq<ScheduledTask>, id: int, t: ScheduledTask)
    requires t in entries && t.id != id
    ensures t in DeleteTask(entries, id)
  {
    FilterKeeps(entries, (t: ScheduledTask) => t.id != id, t);
  }

  /** Delete keeps the survivors in their order. */
  lemma DeleteOrder(a: seq<ScheduledTask>, b: seq<ScheduledTask>, id: int)
    ensures DeleteTask(a + b, id) == DeleteTask(a, id) + DeleteTask(b, id)
  {
    FilterConcat(a, b, (t: ScheduledTask) => t.id != id);
  }

  /** Deleting an id that no entry has leaves the list unchanged. */
  lemma DeleteAbsent(entries: seq<ScheduledTask>, id: int)
    requires id !in Ids(entries)
    ensures DeleteTask(entries, id) == entries
  {
    FilterAll(entries, (t: ScheduledTask) => t.id != id);
  }

  /** Deleting the same id twice is deleting it once. */
  lemma DeleteIdempotent(entries: seq<ScheduledTask>, id: int)
    ensures DeleteTask(DeleteTask(entries, id), id) == DeleteTask(entries, id)
  {
    FilterIdempotent(entries, (t: ScheduledTask) => t.id != id);
  }
}
