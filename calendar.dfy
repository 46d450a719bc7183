/**
  The weekly calendar view: grouping events into seven per-day columns and the
  category colour lookup.
 */
module Calendar {
  import opened Common

  datatype CalendarEvent = CalendarEvent(
    id: int,
    title: string,
    assignedTo: string,
    dayOfWeek: int,
    points: int,
    category: string,
    startTime: Option<string>,
    endTime: Option<string>,
    isRecurring: bool,
    color: Option<string>)

  /** The events of one column, in input order. */
  function OnDay(events: seq<CalendarEvent>, day: int): (r: seq<CalendarEvent>)
    ensures |r| <= |events|
    ensures forall e :: e in r ==> e in events && e.dayOfWeek == day
  {
    Filter(events, (e: CalendarEvent) => e.dayOfWeek == day)
  }

  /** The seven columns, index 0 first. */
  function Buckets(events: seq<CalendarEvent>): (r: seq<seq<CalendarEvent>>)
    ensures |r| == 7
    ensures forall d, e :: 0 <= d < 7 && e in r[d] ==> e in events && e.dayOfWeek == d
  {
    seq(7, d => OnDay(events, d))
  }

  predicate DaysInRange(events: seq<CalendarEvent>)
  {
    forall i :: 0 <= i < |events| ==> 0 <= events[i].dayOfWeek < 7
  }

  /**
    eventsByDay: seven empty arrays, then each event pushed onto the array at its
    `dayOfWeek`. A day outside 0..6 indexes a missing array and the push throws,
    which is modelled as None.
   */
  method EventsByDay(events: seq<CalendarEvent>) returns (r: Option<seq<seq<CalendarEvent>>>)
    ensures r.Some? <==> DaysInRange(events)
    ensures r.Some? ==> |r.value| == 7 && r.value == Buckets(events)
  {
    var days: seq<seq<CalendarEvent>> := [[], [], [], [], [], [], []];
    var i := 0;
    while i < |events|
      invariant 0 <= i <= |events|
      invariant DaysInRange(events[..i])
      invariant |days| == 7
      invariant forall d :: 0 <= d < 7 ==> days[d] == OnDay(events[..i], d)
    {
      var e := events[i];
      if !(0 <= e.dayOfWeek < 7) {
        return None;
      }
      assert events[..i + 1] == events[..i] + [e];
      OnDaySnoc(events[..i], e);
      days := days[e.dayOfWeek := days[e.dayOfWeek] + [e]];
      i := i + 1;
    }
    assert events[..i] == events;
    return Some(days);
  }

  /** An event is in a column exactly when it is an input event scheduled on that day. */
  lemma OnDayMembers(events: seq<CalendarEvent>, day: int, e: CalendarEvent)
    ensures e in OnDay(events, day) <==> e in events && e.dayOfWeek == day
  {
    if e in events && e.dayOfWeek == day {
      FilterKeeps(events, (x: CalendarEvent) => x.dayOfWeek == day, e);
    }
  }

  /** Within a column, events keep their relative input order. */
  lemma OnDayOrder(a: seq<CalendarEvent>, b: seq<CalendarEvent>, day: int)
    ensures OnDay(a + b, day) == OnDay(a, day) + OnDay(b, day)
  {
    FilterConcat(a, b, (x: CalendarEvent) => x.dayOfWeek == day);
  }

  /** One more event lands at the end of its own column and nowhere else. */
  lemma OnDaySnoc(events: seq<CalendarEvent>, e: CalendarEvent)
    ensures forall d :: 0 <= d < 7 ==>
      OnDay(events + [e], d) == OnDay(events, d) + (if e.dayOfWeek == d then [e] else [])
  {
    forall d | 0 <= d < 7
      ensures OnDay(events + [e], d) == OnDay(events, d) + (if e.dayOfWeek == d then [e] else [])
    {
      OnDayOrder(events, [e], d);
    }
  }

  function TotalSize(columns: seq<seq<CalendarEvent>>): nat
  {
    if columns == [] then 0 else |columns[0]| + TotalSize(columns[1..])
  }

  lemma {:induction false} TotalSizeEmpty(columns: seq<seq<CalendarEvent>>)
    requires forall d :: 0 <= d < |columns| ==> columns[d] == []
    ensures TotalSize(columns) == 0
  {
    if columns != [] {
      TotalSizeEmpty(columns[1..]);
    }
  }

  lemma {:induction false} TotalSizeBump(before: seq<seq<CalendarEvent>>, after: seq<seq<CalendarEvent>>, k: nat, e: CalendarEvent)
    requires |before| == |after| && k < |before|
    requires after[k] == before[k] + [e]
    requires forall d :: 0 <= d < |before| && d != k ==> after[d] == before[d]
    ensures TotalSize(after) == TotalSize(before) + 1
  {
    if k > 0 {
      TotalSizeBump(before[1..], after[1..], k - 1, e);
    } else {
      assert after[1..] == before[1..];
    }
  }

  /** The column sizes add up to the number of input events. */
  lemma {:induction false} BucketsTotal(events: seq<CalendarEvent>)
    requires DaysInRange(events)
    ensures TotalSize(Buckets(events)) == |events|
    decreases |events|
  {
    if events == [] {
      TotalSizeEmpty(Buckets(events));
    } else {
      var n := |events| - 1;
      var init, e := events[..n], events[n];
      assert events == init + [e];
      assert DaysInRange(init);
      BucketsTotal(init);
      OnDaySnoc(init, e);
      TotalSizeBump(Buckets(init), Buckets(init + [e]), e.dayOfWeek, e);
    }
  }

  const OtherCategory := "Övrigt"

  const CategoryColors: map<string, string> := map[
    "Städning" := "bg-blue-100 border-blue-300 dark:bg-blue-900/30 dark:border-blue-700",
    "Matlagning" := "bg-green-100 border-green-300 dark:bg-green-900/30 dark:border-green-700",
    "Inköp" := "bg-purple-100 border-purple-300 dark:bg-purple-900/30 dark:border-purple-700",
    "Tvätt" := "bg-yellow-100 border-yellow-300 dark:bg-yellow-900/30 dark:border-yellow-700",
    "Underhåll" := "bg-orange-100 border-orange-300 dark:bg-orange-900/30 dark:border-orange-700",
    "Övrigt" := "bg-gray-100 border-gray-300 dark:bg-gray-800 dark:border-gray-600"
  ]

  /** getCategoryColor: `categoryColors[category] || categoryColors['Övrigt']`. */
  function GetCategoryColor(category: string): (r: string)
    ensures category in CategoryColors ==> r == CategoryColors[category]
    ensures category !in CategoryColors ==> r == CategoryColors[OtherCategory]
    ensures r in CategoryColors.Values && r != ""
  {
    if category in CategoryColors && CategoryColors[category] != "" then CategoryColors[category]
    else CategoryColors[OtherCategory]
  }
}
