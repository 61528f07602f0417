/** How the task list classifies each card by its due date: overdue flag, day count, colours and labels. */
module TaskList {
  import opened Common

  /** The moment the list is rendered and the local UTC offset (ms) that decides calendar days. */
  datatype Clock = Clock(now: int, offset: int)

  /** `isOverdue`: due before now, and not on today's calendar day. */
  predicate IsOverdue(due: Option<Due>, clock: Clock) {
    due.Some? && due.value.at < clock.now &&
    CalendarDay(due.value.at, clock.offset) != CalendarDay(clock.now, clock.offset)
  }

  /** Overdue means exactly "due on an earlier calendar day"; a task due earlier today is not overdue. */
  lemma OverdueIffEarlierDay(due: Option<Due>, clock: Clock)
    ensures IsOverdue(due, clock) <==>
      due.Some? && CalendarDay(due.value.at, clock.offset) < CalendarDay(clock.now, clock.offset)
  {
    if due.Some? {
      if due.value.at < clock.now {
        CalendarDayMonotone(due.value.at, clock.now, clock.offset);
      } else {
        CalendarDayMonotone(clock.now, due.value.at, clock.offset);
      }
    }
  }

  /** `getDaysUntilDue`: whole days from now to the due instant, rounded up; none without a due date. */
  function DaysUntilDue(due: Option<Due>, clock: Clock): (r: Option<int>)
    ensures r.None? <==> due.None?
    ensures r.Some? ==> (r.value - 1) * MsPerDay < due.value.at - clock.now <= r.value * MsPerDay
  {
    match due
    case None => None
    case Some(d) => Some(CeilDiv(d.at - clock.now, MsPerDay))
  }

  /** An overdue task never has days left, and a negative day count always means overdue. */
  lemma OverdueAndDayCount(due: Option<Due>, clock: Clock)
    ensures IsOverdue(due, clock) ==> DaysUntilDue(due, clock).value <= 0
    ensures DaysUntilDue(due, clock).Some? && DaysUntilDue(due, clock).value < 0 ==> IsOverdue(due, clock)
  {
    var days := DaysUntilDue(due, clock);
    if days.Some? && days.value < 0 {
      var at := due.value.at;
      assert at - clock.now <= -MsPerDay;
      CalendarDaySpan(at, clock.offset);
      CalendarDaySpan(clock.now, clock.offset);
      OverdueIffEarlierDay(due, clock);
    }
  }

  /** The overdue flag and the day count use different clocks: a task due late yesterday is flagged overdue
      early today while its day count is 0, so its label reads "(Today)". */
  lemma OverdueWithZeroDays()
    ensures var clock := Clock(MsPerDay + 1800000, 0);
      var due := Some(Due("1970-01-01T23:00:00.000Z", MsPerDay - 3600000));
      IsOverdue(due, clock) && DaysUntilDue(due, clock) == Some(0)
  {
  }

  /** The card background tints `getPriorityColor` chooses between. */
  datatype Tint = Green | Blue | Red | Orange | Yellow

  /** `getPriorityColor`: green when completed, otherwise by the day count. */
  function PriorityColor(due: Option<Due>, status: string, clock: Clock): Tint {
    if status == Completed then Green
    else match DaysUntilDue(due, clock)
      case None => Blue
      case Some(d) =>
        if d < 0 then Red
        else if d <= 1 then Orange
        else if d <= 3 then Yellow
        else Blue
  }

  /** The bands in milliseconds: red a full day or more past due, orange up to one day ahead, yellow up to
      three days ahead, blue beyond that or without a due date; completed tasks are always green. */
  lemma PriorityColorBands(due: Option<Due>, status: string, clock: Clock)
    ensures status == Completed ==> PriorityColor(due, status, clock) == Green
    ensures status != Completed && due.None? ==> PriorityColor(due, status, clock) == Blue
    ensures status != Completed && due.Some? ==>
      var delta := due.value.at - clock.now;
      PriorityColor(due, status, clock) ==
        if delta <= -MsPerDay then Red
        else if delta <= MsPerDay then Orange
        else if delta <= 3 * MsPerDay then Yellow
        else Blue
    ensures PriorityColor(due, status, clock) == Red ==> IsOverdue(due, clock)
  {
    OverdueAndDayCount(due, clock);
  }

  /** The red "Overdue" badge on a card. */
  predicate ShowsOverdueBadge(task: Task, clock: Clock) {
    IsOverdue(task.dueDate, clock) && task.status != Completed
  }

  /** The priority dot in the card's corner. */
  datatype Indicator = CompletedDot | High | Medium

  function PriorityIndicator(task: Task, clock: Clock): (r: Indicator)
    ensures r == CompletedDot <==> task.status == Completed
    ensures r == High <==> ShowsOverdueBadge(task, clock)
  {
    if task.status == Completed then CompletedDot
    else if IsOverdue(task.dueDate, clock) then High
    else Medium
  }

  /** The text after the due date: "(n days overdue)", "(Today)" or "(n days left)". */
  datatype DueLabel = DaysOverdue(n: nat) | Today | DaysLeft(n: nat)

  /** The label shown for non-completed tasks that have a due date. */
  function DueLabelOf(task: Task, clock: Clock): (r: Option<DueLabel>)
    ensures r.Some? <==> task.dueDate.Some? && task.status != Completed
    ensures r.Some? ==> match r.value
      case DaysOverdue(n) => n > 0 && DaysUntilDue(task.dueDate, clock) == Some(-(n as int))
      case Today => DaysUntilDue(task.dueDate, clock) == Some(0)
      case DaysLeft(n) => n > 0 && DaysUntilDue(task.dueDate, clock) == Some(n)
  {
    match DaysUntilDue(task.dueDate, clock)
    case None => None
    case Some(d) =>
      if task.status == Completed then None
      else if d < 0 then Some(DaysOverdue(-d))
      else if d == 0 then Some(Today)
      else Some(DaysLeft(d))
  }

  /** A card with the overdue badge never claims days left. */
  lemma OverdueNeverDaysLeft(task: Task, clock: Clock)
    requires ShowsOverdueBadge(task, clock)
    ensures DueLabelOf(task, clock).Some? && !DueLabelOf(task, clock).value.DaysLeft?
  {
    OverdueAndDayCount(task.dueDate, clock);
  }

  /** The tint of the due-date chip, shown only when the task has a due date. */
  function DueChipTint(task: Task, clock: Clock): (r: Option<Tint>)
    ensures r.None? <==> task.dueDate.None?
    ensures r.Some? ==> (r.value == Red <==> ShowsOverdueBadge(task, clock))
    ensures r.Some? ==> (r.value == Green <==> task.status == Completed)
    ensures r.Some? && !ShowsOverdueBadge(task, clock) && task.status != Completed ==>
      r.value == (if DaysUntilDue(task.dueDate, clock).value <= 1 then Orange else Blue)
  {
    match DaysUntilDue(task.dueDate, clock)
    case None => None
    case Some(d) =>
      if ShowsOverdueBadge(task, clock) then Some(Red)
      else if task.status == Completed then Some(Green)
      else if d <= 1 then Some(Orange)
      else Some(Blue)
  }

  /** Everything one card shows that depends on the task's data. */
  datatype Card = Card(id: int, tint: Tint, badge: bool, indicator: Indicator,
                       chip: Option<Tint>, dueLabel: Option<DueLabel>)

  function CardOf(task: Task, clock: Clock): (c: Card)
    ensures c.id == task.id
    ensures c.badge <==> ShowsOverdueBadge(task, clock)
    ensures c.indicator == High <==> c.badge
    ensures c.chip.Some? <==> task.dueDate.Some?
    ensures c.chip.Some? ==> (c.chip.value == Red <==> c.badge)
    ensures c.dueLabel.Some? <==> task.dueDate.Some? && task.status != Completed
    ensures task.status == Completed ==> c.tint == Green && c.indicator == CompletedDot
  {
    Card(task.id, PriorityColor(task.dueDate, task.status, clock), ShowsOverdueBadge(task, clock),
         PriorityIndicator(task, clock), DueChipTint(task, clock), DueLabelOf(task, clock))
  }

  /** What the list renders: the empty state, or one card per task in list order. */
  datatype View = EmptyState | Cards(cards: seq<Card>)

  function Render(tasks: seq<Task>, clock: Clock): (v: View)
    ensures v.EmptyState? <==> |tasks| == 0
    ensures v.Cards? ==> |v.cards| == |tasks| && forall i :: 0 <= i < |tasks| ==> v.cards[i] == CardOf(tasks[i], clock)
  {
    if |tasks| == 0 then EmptyState
    else Cards(seq(|tasks|, i requires 0 <= i < |tasks| => CardOf(tasks[i], clock)))
  }
}
