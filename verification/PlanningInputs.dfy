/**
 What the tables mean for the plan of a day: the snapshot's inputs are judged by what the engine makes of
 them, and the commands that set and clear a constraint by what is due afterwards.
 */
module PlanningInputs {
  import opened Prelude
  import opened Tasks
  import opened Ordering
  import opened Engine
  import opened EngineProofs
  import opened EnginePlans
  import opened EngineRisks
  import opened EngineOrder
  import opened Planning

  // ----- rows and tasks -----

  lemma {:induction false} InputMember(t: Tables, day: Date, rows: seq<TaskRow>, task: Task)
    ensures task in TaskInputs(t, day, rows)
            <==> exists row :: row in rows && Plannable(t, row) && task == TaskInput(t, day, row)
  {
    if rows != [] {
      InputMember(t, day, rows[1..], task);
      assert rows == [rows[0]] + rows[1..];
    }
  }

  lemma {:induction false} InputIds(t: Tables, day: Date, rows: seq<TaskRow>)
    requires forall i, j :: 0 <= i < j < |rows| ==> rows[i].id != rows[j].id
    ensures DistinctTasks(TaskInputs(t, day, rows))
  {
    if rows != [] {
      InputIds(t, day, rows[1..]);
      var rest := TaskInputs(t, day, rows[1..]);
      forall j | 0 <= j < |rest|
        ensures rest[j].id != rows[0].id
      {
        InputMember(t, day, rows[1..], rest[j]);
        var row :| row in rows[1..] && Plannable(t, row) && rest[j] == TaskInput(t, day, row);
        var k :| 0 <= k < |rows[1..]| && rows[1..][k] == row;
        assert rows[k + 1] == row;
      }
    }
  }

  lemma SnapshotIds(t: Tables, day: Date)
    requires TablesSane(t)
    ensures UniqueIds(BuildSnapshot(t, day))
  {
    InputIds(t, day, t.tasks);
  }

  /** What the row and its newest specification say of the task. */
  ghost predicate FromNewest(t: Tables, row: TaskRow, task: Task) {
    exists spec :: spec in t.specs && spec.taskId == row.id
      && (forall other :: other in t.specs && other.taskId == row.id ==> other.specNo <= spec.specNo)
      && Describes(spec, row, task)
  }

  /** Minutes are those of the specification, but for a running task with an estimate of what is left. */
  predicate Describes(spec: SpecRow, row: TaskRow, task: Task) {
    && task.specId == spec.id && task.canSplit == spec.canSplit && task.minimumSession == spec.minimumSession
    && task.earliest == spec.earliest && task.latest == spec.latest
    && (row.execution == InProgress && row.estimate.Some? ==> task.remaining == row.estimate.value)
    && (row.execution == Pending || row.estimate.None? ==> task.remaining == spec.expected)
  }

  /** The tasks of a snapshot are the pending and running rows of active goals that have a specification, each
      once, described by its newest one. */
  lemma SnapshotTasksExactly(t: Tables, day: Date, row: TaskRow)
    requires TablesSane(t) && row in t.tasks
    ensures (exists task :: task in BuildSnapshot(t, day).tasks && task.id == row.id)
            <==> (row.execution == Pending || row.execution == InProgress) && row.goalId in t.activeGoals
                 && exists spec :: spec in t.specs && spec.taskId == row.id
    ensures forall task :: task in BuildSnapshot(t, day).tasks && task.id == row.id ==> CarriesRow(t, row, task)
  {
    SpecListed(t.specs, row.id);
    if Plannable(t, row) {
      InputMember(t, day, t.tasks, TaskInput(t, day, row));
      InputCarriesRow(t, day, row);
    }
    forall task | task in BuildSnapshot(t, day).tasks && task.id == row.id
      ensures Plannable(t, row) && task == TaskInput(t, day, row)
    {
      InputMember(t, day, t.tasks, task);
      var other :| other in t.tasks && Plannable(t, other) && task == TaskInput(t, day, other);
      SameRow(t, other, row);
    }
  }

  /** What the tables say of the task. */
  ghost predicate CarriesRow(t: Tables, row: TaskRow, task: Task) {
    && task.goalId == row.goalId && task.execution == row.execution && FromNewest(t, row, task)
    && task.unscheduledDays == (if row.id in t.unscheduled then t.unscheduled[row.id] else 0)
  }

  lemma InputCarriesRow(t: Tables, day: Date, row: TaskRow)
    requires Plannable(t, row)
    ensures CarriesRow(t, row, TaskInput(t, day, row))
  {
    LatestSpecIsMaximal(t.specs, row.id);
    NewestDescribes(t, day, row);
  }

  lemma SameRow(t: Tables, row: TaskRow, other: TaskRow)
    requires TablesSane(t) && row in t.tasks && other in t.tasks && row.id == other.id
    ensures row == other
  {
  }

  lemma SpecListed(specs: seq<SpecRow>, id: Id)
    ensures LatestSpec(specs, id).Some? <==> exists spec :: spec in specs && spec.taskId == id
  {
    LatestSpecIsMaximal(specs, id);
    if spec :| spec in specs && spec.taskId == id {
      var i :| 0 <= i < |specs| && specs[i] == spec;
    }
  }

  lemma NewestDescribes(t: Tables, day: Date, row: TaskRow)
    requires Plannable(t, row)
    ensures FromNewest(t, row, TaskInput(t, day, row))
  {
    LatestSpecIsMaximal(t.specs, row.id);
    var spec := LatestSpec(t.specs, row.id).value;
    assert Describes(spec, row, TaskInput(t, day, row));
  }

  /** The goals of a snapshot are the active ones, with the user's preference or the last place. */
  lemma SnapshotGoalsExactly(t: Tables, day: Date, id: Id)
    ensures (exists goal :: goal in BuildSnapshot(t, day).goals && goal.id == id) <==> id in t.activeGoals
    ensures forall goal :: goal in BuildSnapshot(t, day).goals && goal.id == id ==>
              (!goal.paused
               && (id in t.preferences ==> goal.focus == t.preferences[id].focus && goal.rank == t.preferences[id].rank)
               && (id !in t.preferences ==> !goal.focus && goal.rank == |t.activeGoals|))
  {
    if id in t.activeGoals {
      var i :| 0 <= i < |t.activeGoals| && t.activeGoals[i] == id;
      assert BuildSnapshot(t, day).goals[i].id == id;
    }
  }

  // ----- dependencies -----

  /** A pending row that nothing forces onto this day and whose dates admit it. */
  predicate OpenOn(t: Tables, day: Date, row: TaskRow) {
    && Plannable(t, row) && row.execution == Pending
    && !ActiveOn(t, row.id, day, Locked) && !ActiveOn(t, row.id, day, MustDoToday)
    && LatestSpec(t.specs, row.id).value.latest > day
    && (LatestSpec(t.specs, row.id).value.earliest.Some? ==> LatestSpec(t.specs, row.id).value.earliest.value <= day)
  }

  lemma OpenClass(t: Tables, day: Date, row: TaskRow)
    requires OpenOn(t, day, row)
    ensures Classify(TaskInput(t, day, row), DayOf(BuildSnapshot(t, day))) == if row.id in t.blocked then Blocked else Flexible
  {
    SnapshotGoals(GoalInput(t), t.activeGoals, row.goalId);
    LockedIds(t, day, row.id, Locked);
    LockedIds(t, day, row.id, MustDoToday);
  }

  /** An open row is put off for its dependencies exactly if it is blocked, and then it gets no item, whichever
      way the plan ends. One that is not blocked is served, or put off for lack of a long enough session. */
  lemma BlockedRowsWait(t: Tables, day: Date, row: TaskRow)
    requires TablesSane(t) && row in t.tasks && OpenOn(t, day, row)
    ensures var plan := Agenda(BuildSnapshot(t, day));
            && (!Overflows(BuildSnapshot(t, day)) ==>
                  (Deferred(row.id, DependencyBlocked) in plan.deferred <==> row.id in t.blocked))
            && (row.id in t.blocked ==> forall item: Item :: item in plan.items ==> item.taskId != row.id)
            && (!Overflows(BuildSnapshot(t, day)) && row.id !in t.blocked ==>
                  || (exists item: Item :: item in plan.items && item.taskId == row.id)
                  || Deferred(row.id, MinimumSessionUnfit) in plan.deferred)
  {
    var s, task := BuildSnapshot(t, day), TaskInput(t, day, row);
    SnapshotIds(t, day);
    InputMember(t, day, t.tasks, task);
    OpenClass(t, day, row);
    if row.id in t.blocked {
      OthersGetNoItem(s, task);
    }
    if !Overflows(s) {
      BlockedExactly(s, task);
      if row.id !in t.blocked {
        SnapshotSane(t, day);
        FlexibleServed(s, task);
        if i :| 0 <= i < |NormalItems(s)| && Serves(NormalItems(s), i, task, StartCapacity(s), FlexiblePacking(s).remaining) {
          assert NormalItems(s)[i] in Agenda(s).items;
        }
      }
    }
  }

  lemma SnapshotSane(t: Tables, day: Date)
    requires TablesSane(t)
    ensures MinutesSane(BuildSnapshot(t, day))
  {
    var s := BuildSnapshot(t, day);
    forall i | 0 <= i < |s.tasks|
      ensures s.tasks[i].remaining >= 0
    {
      InputMember(t, day, t.tasks, s.tasks[i]);
      var row :| row in t.tasks && Plannable(t, row) && s.tasks[i] == TaskInput(t, day, row);
      SpecSane(t.specs, row.id);
    }
  }

  // ----- capacity over several days -----

  /** A day's minutes and how they are meant; none without availability. */
  function MinutesOn(t: Tables, day: Date): int {
    if day in t.capacity then t.capacity[day].1 else 0
  }

  function BasisOn(t: Tables, day: Date): Basis {
    if day in t.capacity then t.capacity[day].0 else Total
  }

  /** The minutes of the days from one to another, both included. */
  function CapacityBetween(t: Tables, first: Date, last: Date): int
    decreases last - first
  {
    if first > last then 0 else CapacityBetween(t, first, last - 1) + MinutesOn(t, last)
  }

  lemma {:induction false} CapacityFirst(t: Tables, first: Date, last: Date)
    requires first <= last
    ensures CapacityBetween(t, first, last) == MinutesOn(t, first) + CapacityBetween(t, first + 1, last)
    decreases last - first
  {
    if first < last {
      CapacityFirst(t, first, last - 1);
    } else {
      assert CapacityBetween(t, first, last - 1) == 0;
    }
  }

  lemma {:induction false} ForecastIsCapacity(t: Tables, day: Date, days: nat, today: Date, latest: Date)
    requires today < day
    ensures ForecastUntil(ForecastDays(t, day, days), today, latest) == CapacityBetween(t, day, Min(latest, day + days - 1))
    decreases days
  {
    if days > 0 {
      ForecastIsCapacity(t, day + 1, days - 1, today, latest);
      var rest := ForecastDays(t, day + 1, days - 1);
      assert ForecastDays(t, day, days) == [(day, MinutesOn(t, day))] + rest;
      assert ForecastDays(t, day, days)[1..] == rest;
      if day <= latest {
        CapacityFirst(t, day, Min(latest, day + days - 1));
      }
    }
  }

  lemma {:induction false} WeekIsCapacity(t: Tables, day: Date, days: nat)
    ensures WeekCapacity(t, day, days) == CapacityBetween(t, day, Min(t.weekStart + 6, day + days - 1))
    decreases days
  {
    if days > 0 {
      WeekIsCapacity(t, day + 1, days - 1);
      if day <= t.weekStart + 6 {
        CapacityFirst(t, day, Min(t.weekStart + 6, day + days - 1));
      }
    }
  }

  /** On any day of the week, what is left of the week is the capacity from today to Sunday. */
  lemma WeekLeft(t: Tables, day: Date)
    ensures BuildSnapshot(t, day).weeklyRemaining
         == MinutesOn(t, day) + CapacityBetween(t, day + 1, Min(t.weekStart + 6, day + 13))
    ensures t.weekStart <= day <= t.weekStart + 6 ==>
              BuildSnapshot(t, day).weeklyRemaining == CapacityBetween(t, day, t.weekStart + 6)
  {
    WeekIsCapacity(t, day + 1, 13);
    if t.weekStart <= day <= t.weekStart + 6 {
      CapacityFirst(t, day, t.weekStart + 6);
    }
  }

  // ----- the week, from the tables -----

  /** What the week still asks of a row: unstarted by its specification if due by Sunday, running by what is left. */
  function NeededThisWeek(t: Tables, row: TaskRow): int {
    if (row.execution != Pending && row.execution != InProgress) || row.goalId !in t.activeGoals
       || LatestSpec(t.specs, row.id).None? then 0
    else
      var spec := LatestSpec(t.specs, row.id).value;
      if row.execution == InProgress then (if row.estimate.Some? then row.estimate.value else spec.expected)
      else if spec.latest <= t.weekStart + 6 then spec.expected
      else 0
  }

  function PlannedThisWeek(t: Tables, row: TaskRow): int {
    if row.goalId in t.activeGoals && row.id in t.planned then t.planned[row.id] else 0
  }

  function NeededTotal(t: Tables, rows: seq<TaskRow>): int {
    if rows == [] then 0 else NeededThisWeek(t, rows[0]) + NeededTotal(t, rows[1..])
  }

  function PlannedTotal(t: Tables, rows: seq<TaskRow>): int {
    if rows == [] then 0 else PlannedThisWeek(t, rows[0]) + PlannedTotal(t, rows[1..])
  }

  function SumOver(f: Id -> int, ids: seq<Id>): int {
    if ids == [] then 0 else f(ids[0]) + SumOver(f, ids[1..])
  }

  lemma {:induction false} SumOverAdds(f: Id -> int, g: Id -> int, h: Id -> int, ids: seq<Id>)
    requires forall id :: h(id) == f(id) + g(id)
    ensures SumOver(h, ids) == SumOver(f, ids) + SumOver(g, ids)
  {
    if ids != [] {
      SumOverAdds(f, g, h, ids[1..]);
    }
  }

  lemma {:induction false} SumOverNone(f: Id -> int, ids: seq<Id>)
    requires forall id :: id in ids ==> f(id) == 0
    ensures SumOver(f, ids) == 0
  {
    if ids != [] {
      SumOverNone(f, ids[1..]);
    }
  }

  /** Only one of the ids counts. */
  lemma {:induction false} SumOverOne(f: Id -> int, ids: seq<Id>, only: Id)
    requires forall i, j :: 0 <= i < j < |ids| ==> ids[i] != ids[j]
    requires forall id :: id != only ==> f(id) == 0
    ensures SumOver(f, ids) == if only in ids then f(only) else 0
  {
    if ids != [] {
      if ids[0] == only {
        SumOverNone(f, ids[1..]);
      } else {
        SumOverOne(f, ids[1..], only);
      }
    }
  }

  function DemandOfGoals(t: Tables, rows: seq<TaskRow>): Id -> int {
    id => WeeklyDemand(t, id, rows)
  }

  function FulfilledOfGoals(t: Tables, rows: seq<TaskRow>): Id -> int {
    id => WeeklyFulfilled(t, id, rows)
  }

  /** Every row counts for its own goal only. */
  lemma {:induction false} DemandByRows(t: Tables, rows: seq<TaskRow>)
    requires forall i, j :: 0 <= i < j < |t.activeGoals| ==> t.activeGoals[i] != t.activeGoals[j]
    ensures SumOver(DemandOfGoals(t, rows), t.activeGoals) == NeededTotal(t, rows)
  {
    if rows == [] {
      SumOverNone(DemandOfGoals(t, rows), t.activeGoals);
    } else {
      DemandByRows(t, rows[1..]);
      var own := (id: Id) => WeeklyDemand(t, id, [rows[0]]);
      forall id
        ensures WeeklyDemand(t, id, rows) == own(id) + WeeklyDemand(t, id, rows[1..])
      {
        assert [rows[0]][1..] == [] && WeeklyDemand(t, id, []) == 0;
      }
      SumOverAdds(own, DemandOfGoals(t, rows[1..]), DemandOfGoals(t, rows), t.activeGoals);
      SumOverOne(own, t.activeGoals, rows[0].goalId);
    }
  }

  lemma {:induction false} FulfilledByRows(t: Tables, rows: seq<TaskRow>)
    requires forall i, j :: 0 <= i < j < |t.activeGoals| ==> t.activeGoals[i] != t.activeGoals[j]
    ensures SumOver(FulfilledOfGoals(t, rows), t.activeGoals) == PlannedTotal(t, rows)
  {
    if rows == [] {
      SumOverNone(FulfilledOfGoals(t, rows), t.activeGoals);
    } else {
      FulfilledByRows(t, rows[1..]);
      var own := (id: Id) => WeeklyFulfilled(t, id, [rows[0]]);
      forall id
        ensures WeeklyFulfilled(t, id, rows) == own(id) + WeeklyFulfilled(t, id, rows[1..])
      {
        assert [rows[0]][1..] == [] && WeeklyFulfilled(t, id, []) == 0;
      }
      SumOverAdds(own, FulfilledOfGoals(t, rows[1..]), FulfilledOfGoals(t, rows), t.activeGoals);
      SumOverOne(own, t.activeGoals, rows[0].goalId);
    }
  }

  lemma {:induction false} GoalsAddUp(t: Tables, ids: seq<Id>)
    ensures UnpausedDemand(Map(GoalInput(t), ids)) == SumOver(DemandOfGoals(t, t.tasks), ids)
    ensures UnpausedFulfilled(Map(GoalInput(t), ids)) == SumOver(FulfilledOfGoals(t, t.tasks), ids)
  {
    if ids != [] {
      GoalsAddUp(t, ids[1..]);
      assert Map(GoalInput(t), ids)[1..] == Map(GoalInput(t), ids[1..]);
    }
  }

  lemma ExcessFromTables(t: Tables, day: Date)
    requires TablesSane(t)
    ensures var s := BuildSnapshot(t, day);
            UnpausedDemand(s.goals) == NeededTotal(t, t.tasks) && UnpausedFulfilled(s.goals) == PlannedTotal(t, t.tasks)
  {
    GoalsAddUp(t, t.activeGoals);
    DemandByRows(t, t.tasks);
    FulfilledByRows(t, t.tasks);
  }

  lemma WeekOfSnapshot(s: Snapshot, excess: int)
    requires UniqueIds(s) && !Overflows(s)
    requires excess == UnpausedDemand(s.goals) - UnpausedFulfilled(s.goals) - s.weeklyRemaining
    ensures WeekReportedAs(s, excess)
  {
    WeeklyConflictExactly(s);
  }

  /** What the open rows of active goals need this week, beyond what is planned for their tasks and what is left
      of it, counted from today to Sunday. */
  function WeekExcess(t: Tables, day: Date): int {
    NeededTotal(t, t.tasks) - PlannedTotal(t, t.tasks)
    - (MinutesOn(t, day) + CapacityBetween(t, day + 1, Min(t.weekStart + 6, day + 13)))
  }

  lemma ExcessIs(t: Tables, day: Date)
    requires TablesSane(t)
    ensures var s := BuildSnapshot(t, day);
            WeekExcess(t, day) == UnpausedDemand(s.goals) - UnpausedFulfilled(s.goals) - s.weeklyRemaining
  {
    ExcessFromTables(t, day);
    WeekLeft(t, day);
  }

  /** The week is reported as too full exactly if the tables show an excess; once, with that gap, and naming the
      tasks left out today. */
  lemma WeekFromTables(t: Tables, day: Date)
    requires TablesSane(t) && !Overflows(BuildSnapshot(t, day))
    ensures WeekReportedAs(BuildSnapshot(t, day), WeekExcess(t, day))
  {
    SnapshotIds(t, day);
    ExcessIs(t, day);
    WeekOfSnapshot(BuildSnapshot(t, day), WeekExcess(t, day));
  }

  // ----- deadlines, from the tables -----

  /** The plan gives the task so many minutes. */
  ghost predicate Gets(items: seq<Item>, id: Id, minutes: int) {
    || (minutes == 0 && forall item: Item :: item in items ==> item.taskId != id)
    || (exists item: Item :: item in items && item.taskId == id && item.minutes == minutes)
  }

  lemma {:induction false} AllocatedNothing(items: seq<Item>, id: Id)
    requires forall item: Item :: item in items ==> item.taskId != id
    ensures AllocatedTo(items, id) == 0
  {
    if items != [] {
      AllocatedNothing(items[..|items| - 1], id);
    }
  }

  lemma {:induction false} AllocatedOnce(items: seq<Item>, item: Item)
    requires item in items && multiset(Map(ItemTask, items))[item.taskId] <= 1
    ensures AllocatedTo(items, item.taskId) == item.minutes
  {
    var n := |items| - 1;
    var front, last := items[..n], items[n];
    assert items == front + [last];
    assert Map(ItemTask, items) == Map(ItemTask, front) + [last.taskId];
    if last.taskId == item.taskId {
      assert multiset(Map(ItemTask, front))[item.taskId] == 0;
      forall other: Item | other in front
        ensures other.taskId != item.taskId
      {
        var i :| 0 <= i < n && front[i] == other;
        assert Map(ItemTask, front)[i] == other.taskId;
      }
      AllocatedNothing(front, item.taskId);
    } else {
      AllocatedOnce(front, item);
    }
  }

  lemma GetsIsAllocated(s: Snapshot, id: Id, minutes: int)
    requires UniqueIds(s) && !Overflows(s) && Gets(Agenda(s).items, id, minutes)
    ensures AllocatedTo(Agenda(s).items, id) == minutes
  {
    OneDecisionPerTask(s, id);
    if item: Item :| item in Agenda(s).items && item.taskId == id && item.minutes == minutes {
      AllocatedOnce(Agenda(s).items, item);
    } else {
      AllocatedNothing(Agenda(s).items, id);
    }
  }

  /** A pending row that nothing forces onto this day is reported as at risk exactly if it is past its last day,
      or free to be planned and what today's plan leaves of it exceeds the capacity of the days from tomorrow
      to its last one, of which the next thirteen are looked at. */
  lemma RiskFromTables(t: Tables, day: Date, row: TaskRow, given: int)
    requires TablesSane(t) && row in t.tasks && !Overflows(BuildSnapshot(t, day))
    requires Plannable(t, row) && row.execution == Pending
    requires !ActiveOn(t, row.id, day, Locked) && !ActiveOn(t, row.id, day, MustDoToday)
    requires Gets(Agenda(BuildSnapshot(t, day)).items, row.id, given)
    ensures var plan, spec := Agenda(BuildSnapshot(t, day)), LatestSpec(t.specs, row.id).value;
            var left := spec.expected - given;
            var atRisk := spec.latest < day
                          || (OpenOn(t, day, row) && row.id !in t.blocked
                              && left > 0 && left > CapacityBetween(t, day + 1, Min(spec.latest, day + 13)));
            && (ReportsRisk(plan.conflicts, row.id) <==> atRisk)
            && (DeadlineExtension(row.id) in plan.proposals <==> atRisk)
  {
    var s, task := BuildSnapshot(t, day), TaskInput(t, day, row);
    SnapshotIds(t, day);
    InputMember(t, day, t.tasks, task);
    DeadlineRiskExactly(s, task);
    GetsIsAllocated(s, row.id, given);
    UnforcedClass(t, day, row);
    CannotFinishFromTables(t, day, row, given);
  }

  /** What the report of a pending row says it lacks: nothing once the date is past, otherwise by how much the
      rest of it exceeds the capacity ahead. */
  lemma RiskGapFromTables(t: Tables, day: Date, row: TaskRow, spec: SpecRow, given: int, ahead: int, c: Conflict)
    requires TablesSane(t) && row in t.tasks && !Overflows(BuildSnapshot(t, day)) && Plannable(t, row)
    requires row.execution == Pending && LatestSpec(t.specs, row.id) == Some(spec)
    requires Gets(Agenda(BuildSnapshot(t, day)).items, row.id, given)
    requires c in Agenda(BuildSnapshot(t, day)).conflicts && c.code == DeadlineRisk && c.taskIds == [row.id]
    requires ahead == CapacityBetween(t, day + 1, Min(spec.latest, day + 13))
    ensures spec.latest < day ==> c.gap == None
    ensures spec.latest >= day ==> c.gap == Some(spec.expected - given - ahead)
  {
    SnapshotIds(t, day);
    InputMember(t, day, t.tasks, TaskInput(t, day, row));
    PendingInput(t, day, row);
    SnapshotForecast(t, day, spec.latest);
    GetsIsAllocated(BuildSnapshot(t, day), row.id, given);
    RiskGapExactly(BuildSnapshot(t, day), TaskInput(t, day, row));
    GapOfReport(BuildSnapshot(t, day), Agenda(BuildSnapshot(t, day)), TaskInput(t, day, row), spec, given, ahead, c);
  }

  lemma PendingInput(t: Tables, day: Date, row: TaskRow)
    requires Plannable(t, row) && row.execution == Pending
    ensures var task, spec := TaskInput(t, day, row), LatestSpec(t.specs, row.id).value;
            task.id == row.id && task.remaining == spec.expected && task.latest == spec.latest
    ensures BuildSnapshot(t, day).localDate == day
  {
  }

  lemma GapOfReport(s: Snapshot, plan: Plan, task: Task, spec: SpecRow, given: int, ahead: int, c: Conflict)
    requires ListsGap(plan.conflicts, task.id, Lacking(s, plan.items, task)) && AllocatedTo(plan.items, task.id) == given
    requires c in plan.conflicts && c.code == DeadlineRisk && c.taskIds == [task.id]
    requires task.latest == spec.latest && task.remaining == spec.expected
    requires ForecastUntil(s.forecast, s.localDate, spec.latest) == ahead
    ensures spec.latest < s.localDate ==> c.gap == None
    ensures spec.latest >= s.localDate ==> c.gap == Some(spec.expected - given - ahead)
  {
  }

  lemma UnforcedInput(t: Tables, day: Date, row: TaskRow)
    requires Plannable(t, row) && row.execution == Pending
    requires !ActiveOn(t, row.id, day, Locked) && !ActiveOn(t, row.id, day, MustDoToday)
    ensures var task, d, spec := TaskInput(t, day, row), DayOf(BuildSnapshot(t, day)), LatestSpec(t.specs, row.id).value;
            && task.goalId in d.goals && !d.goals[task.goalId].paused && d.date == day
            && task.execution == Pending && task.id !in d.mustDo && task.id !in d.locked
            && task.latest == spec.latest && task.earliest == spec.earliest
            && (task.dependencySatisfied <==> row.id !in t.blocked)
  {
    SnapshotGoals(GoalInput(t), t.activeGoals, row.goalId);
    LockedIds(t, day, row.id, Locked);
    LockedIds(t, day, row.id, MustDoToday);
  }

  lemma UnforcedClass(t: Tables, day: Date, row: TaskRow)
    requires Plannable(t, row) && row.execution == Pending
    requires !ActiveOn(t, row.id, day, Locked) && !ActiveOn(t, row.id, day, MustDoToday)
    ensures Classify(TaskInput(t, day, row), DayOf(BuildSnapshot(t, day))) == Overdue
            <==> LatestSpec(t.specs, row.id).value.latest < day
    ensures Classify(TaskInput(t, day, row), DayOf(BuildSnapshot(t, day))) == Flexible
            <==> OpenOn(t, day, row) && row.id !in t.blocked
  {
    UnforcedInput(t, day, row);
    ClassesExactly(TaskInput(t, day, row), DayOf(BuildSnapshot(t, day)));
  }

  lemma CannotFinishFromTables(t: Tables, day: Date, row: TaskRow, given: int)
    requires Plannable(t, row) && row.execution == Pending
    requires AllocatedTo(Agenda(BuildSnapshot(t, day)).items, row.id) == given
    ensures var s, task, spec := BuildSnapshot(t, day), TaskInput(t, day, row), LatestSpec(t.specs, row.id).value;
            var left := spec.expected - given;
            CannotFinish(s, task) <==>
              || Classify(task, DayOf(s)) == Overdue
              || (Classify(task, DayOf(s)) == Flexible && left > 0
                  && left > CapacityBetween(t, day + 1, Min(spec.latest, day + 13)))
  {
    SnapshotForecast(t, day, LatestSpec(t.specs, row.id).value.latest);
  }

  lemma SnapshotForecast(t: Tables, day: Date, latest: Date)
    ensures ForecastUntil(BuildSnapshot(t, day).forecast, BuildSnapshot(t, day).localDate, latest)
         == CapacityBetween(t, day + 1, Min(latest, day + 13))
  {
    ForecastIsCapacity(t, day + 1, 13, day, latest);
  }

  // ----- setting and clearing a constraint -----

  predicate Constrained(t: Tables, id: Id, day: Date) {
    ActiveOn(t, id, day, Locked) || ActiveOn(t, id, day, MustDoToday)
  }

  /** The revision a caller has to name: that of the row, or zero without one. */
  predicate NamesRevision(t: Tables, id: Id, day: Date, expected: nat) {
    if (id, day) in t.constraints then t.constraints[(id, day)].revision == expected else expected == 0
  }

  predicate HasTask(t: Tables, id: Id) {
    exists i :: 0 <= i < |t.tasks| && t.tasks[i].id == id
  }

  lemma {:induction false} FoundIff(rows: seq<TaskRow>, id: Id)
    ensures FindTask(rows, id).Some? <==> exists i :: 0 <= i < |rows| && rows[i].id == id
  {
    if rows != [] {
      FoundIff(rows[1..], id);
      assert forall i :: 0 <= i < |rows[1..]| ==> rows[1..][i] == rows[i + 1];
      if i :| 0 <= i < |rows| && rows[i].id == id {
        assert i > 0 ==> rows[1..][i - 1] == rows[i];
      }
    }
  }

  /** Everything but this task's row for this day is as before; the row is there with the next revision. */
  ghost predicate OnlyThisRow(t: Tables, t': Tables, id: Id, day: Date, expected: nat) {
    && t' == t.(constraints := t'.constraints, revision := t.revision + 1)
    && (id, day) in t'.constraints && t'.constraints[(id, day)].revision == expected + 1
    && (forall key :: key != (id, day) ==> (key in t'.constraints <==> key in t.constraints))
    && (forall key :: key != (id, day) && key in t.constraints ==> t'.constraints[key] == t.constraints[key])
  }

  /** Clearing succeeds exactly if the task exists, the revision matches and a constraint is active. */
  lemma ClearSucceedsIff(t: Tables, id: Id, day: Date, expected: nat)
    ensures Constrain(t, id, day, None, expected).Ok?
            <==> HasTask(t, id) && NamesRevision(t, id, day, expected) && Constrained(t, id, day)
    ensures Constrain(t, id, day, None, expected) == Err(NothingToClear)
            <==> HasTask(t, id) && NamesRevision(t, id, day, expected) && !Constrained(t, id, day)
  {
    FoundIff(t.tasks, id);
  }

  /** The tables without the row for this task and day. */
  function Unconstrained(t: Tables, id: Id, day: Date): Tables {
    t.(constraints := map key | key in t.constraints && key != (id, day) :: t.constraints[key])
  }

  /** After clearing no constraint is in force, nothing else changed, and every row is due what it would be due
      had the constraint never been there. */
  lemma ClearedIsGone(t: Tables, id: Id, day: Date, expected: nat)
    requires Constrain(t, id, day, None, expected).Ok?
    ensures var t' := Constrain(t, id, day, None, expected).value;
            && !Constrained(t', id, day) && OnlyThisRow(t, t', id, day, expected)
            && DueTotal(t', day, t.tasks) == DueTotal(Unconstrained(t, id, day), day, t.tasks)
            && forall row :: DueMinutes(t', day, row) == DueMinutes(Unconstrained(t, id, day), day, row)
  {
    var t' := Constrain(t, id, day, None, expected).value;
    SameConstraintsSameDue(t', Unconstrained(t, id, day), day, t.tasks);
  }

  lemma {:induction false} SameConstraintsSameDue(t: Tables, t': Tables, day: Date, rows: seq<TaskRow>)
    requires t' == t.(constraints := t'.constraints, revision := t'.revision)
    requires forall id, kind :: ActiveOn(t, id, day, kind) <==> ActiveOn(t', id, day, kind)
    ensures DueTotal(t, day, rows) == DueTotal(t', day, rows)
    ensures forall row :: DueMinutes(t, day, row) == DueMinutes(t', day, row)
  {
    if rows != [] {
      SameConstraintsSameDue(t, t', day, rows[1..]);
    }
  }

  /** Setting succeeds exactly if the task exists, the revision matches and what is already mandatory leaves
      room for the task's specification; otherwise it names what is missing. */
  lemma SetSucceedsIff(t: Tables, id: Id, day: Date, kind: ConstraintKind, expected: nat)
    ensures var quota := MinutesOn(t, day);
            var room := if BasisOn(t, day) == Total && quota < 0 then 0 else quota;
            var need := if LatestSpec(t.specs, id).Some? then LatestSpec(t.specs, id).value.expected else 0;
            var missing := CheckedTotal(t, day, t.tasks, id) + need - room;
            && (Constrain(t, id, day, Some(kind), expected).Ok?
                <==> HasTask(t, id) && NamesRevision(t, id, day, expected) && missing <= 0)
            && (Constrain(t, id, day, Some(kind), expected).Err? && HasTask(t, id) && NamesRevision(t, id, day, expected) ==>
                  Constrain(t, id, day, Some(kind), expected).error == BudgetConflict(missing))
  {
    FoundIff(t.tasks, id);
  }

  lemma RefusedFirst(t: Tables, id: Id, day: Date, kind: Option<ConstraintKind>, expected: nat)
    ensures Constrain(t, id, day, kind, expected) == Err(NoSuchTask) <==> !HasTask(t, id)
    ensures Constrain(t, id, day, kind, expected) == Err(RevisionConflict)
            <==> HasTask(t, id) && !NamesRevision(t, id, day, expected)
  {
    FoundIff(t.tasks, id);
  }

  /** After setting exactly this kind is in force for the task that day, and nothing else changed. */
  lemma SetIsInForce(t: Tables, id: Id, day: Date, kind: ConstraintKind, expected: nat)
    requires Constrain(t, id, day, Some(kind), expected).Ok?
    ensures var t' := Constrain(t, id, day, Some(kind), expected).value;
            && OnlyThisRow(t, t', id, day, expected)
            && forall other :: ActiveOn(t', id, day, other) <==> other == kind
  {
  }

  /** Setting a constraint where none was in force and clearing it again restores what is due that day. */
  lemma ClearUndoesSet(t: Tables, id: Id, day: Date, kind: ConstraintKind, expected: nat)
    requires Constrain(t, id, day, Some(kind), expected).Ok? && !Constrained(t, id, day)
    ensures var set_ := Constrain(t, id, day, Some(kind), expected).value;
            && Constrain(set_, id, day, None, expected + 1).Ok?
            && var cleared := Constrain(set_, id, day, None, expected + 1).value;
            && DueTotal(cleared, day, t.tasks) == DueTotal(t, day, t.tasks)
            && cleared.revision == t.revision + 2 && OnlyThisRow(set_, cleared, id, day, expected + 1)
  {
    SetIsInForce(t, id, day, kind, expected);
    var set_ := Constrain(t, id, day, Some(kind), expected).value;
    RefusedFirst(t, id, day, Some(kind), expected);
    ClearSucceedsIff(set_, id, day, expected + 1);
    ClearedIsGone(set_, id, day, expected + 1);
    var cleared := Constrain(set_, id, day, None, expected + 1).value;
    assert forall other, k :: ActiveOn(t, other, day, k) <==> ActiveOn(cleared, other, day, k);
    SameConstraintsSameDue(t, cleared, day, t.tasks);
  }

  /** What the check counts for a row: what is left of a running one; the specification of one that is
      constrained in either way, or on its last day; nothing otherwise. */
  lemma CheckedExactly(t: Tables, day: Date, row: TaskRow)
    ensures !Plannable(t, row) ==> CheckedMinutes(t, day, row) == 0
    ensures Plannable(t, row) && row.execution == InProgress && row.estimate.Some? ==>
              CheckedMinutes(t, day, row) == row.estimate.value
    ensures Plannable(t, row) && !(row.execution == InProgress && row.estimate.Some?) ==>
              var spec := LatestSpec(t.specs, row.id).value;
              CheckedMinutes(t, day, row)
              == if row.execution == InProgress || Constrained(t, row.id, day) || spec.latest == day then spec.expected else 0
  {
    LockedIds(t, day, row.id, Locked);
    LockedIds(t, day, row.id, MustDoToday);
  }
}
