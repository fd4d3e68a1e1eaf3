/**
 The planning tables behind a snapshot, and the budget check that guards a user's must-do constraint
 (scheduling/service.py). The check adds up minutes from the tables on its own; the theorem is that it
 agrees with what the engine will later find mandatory.
 */
module Planning {
  import opened Prelude
  import opened Tasks
  import opened Ordering
  import opened Engine
  import EnginePriority
  import opened EngineRisks

  datatype SpecRow = SpecRow(
    id: Id, taskId: Id, specNo: int, expected: int, canSplit: bool, minimumSession: Option<int>,
    earliest: Option<Date>, latest: Date)

  datatype ConstraintKind = MustDoToday | Locked

  /** One row per task and day; clearing keeps the row. */
  datatype Constraint = Constraint(kind: ConstraintKind, active: bool, revision: nat)

  datatype Preference = Preference(focus: bool, rank: int)

  /**
   What build_snapshot reads, for one owner. `planned` and `unscheduled` summarise this week's agendas,
   `blocked` the dependency edges, `capacity` the availability and override rows of each day.
   */
  datatype Tables = Tables(
    activeGoals: seq<Id>, preferences: map<Id, Preference>, tasks: seq<TaskRow>, specs: seq<SpecRow>,
    constraints: map<(Id, Date), Constraint>, planned: map<Id, int>, unscheduled: map<Id, int>,
    blocked: set<Id>, capacity: map<Date, (Basis, int)>, weekStart: Date, revision: nat)

  // ----- the latest specification of a task -----

  /** The row with the highest number; of equal ones the first read is kept. */
  function LatestSpec(specs: seq<SpecRow>, taskId: Id): Option<SpecRow> {
    if specs == [] then None else
    var last := specs[|specs| - 1];
    var kept := LatestSpec(specs[..|specs| - 1], taskId);
    if last.taskId == taskId && (kept == None || last.specNo > kept.value.specNo) then Some(last) else kept
  }

  lemma {:induction false} LatestSpecIsMaximal(specs: seq<SpecRow>, taskId: Id)
    ensures var kept := LatestSpec(specs, taskId);
            && (kept.Some? <==> exists i :: 0 <= i < |specs| && specs[i].taskId == taskId)
            && (kept.Some? ==> kept.value in specs && kept.value.taskId == taskId
                               && forall i :: 0 <= i < |specs| && specs[i].taskId == taskId ==> specs[i].specNo <= kept.value.specNo)
            && (kept.Some? ==> exists k :: 0 <= k < |specs| && specs[k] == kept.value && FirstOfItsNumber(specs, k))
  {
    if specs != [] {
      var last := |specs| - 1;
      LatestSpecIsMaximal(specs[..last], taskId);
      if i :| 0 <= i < |specs| && specs[i].taskId == taskId && i < last {
        assert specs[..last][i].taskId == taskId;
      }
      if LatestSpec(specs, taskId) == LatestSpec(specs[..last], taskId) {
        if LatestSpec(specs, taskId).Some? {
          var k :| 0 <= k < last && specs[..last][k] == LatestSpec(specs, taskId).value && FirstOfItsNumber(specs[..last], k);
          assert specs[k] == specs[..last][k] && FirstOfItsNumber(specs, k);
        }
      } else {
        assert FirstOfItsNumber(specs, last);
      }
    }
  }

  /** No row read before it is of the same task with the same number. */
  predicate FirstOfItsNumber(specs: seq<SpecRow>, k: nat)
    requires k < |specs|
  {
    forall i :: 0 <= i < k && specs[i].taskId == specs[k].taskId ==> specs[i].specNo != specs[k].specNo
  }

  /** The dictionary the source fills while reading (task, spec) rows. */
  method IndexLatest(specs: seq<SpecRow>) returns (latest: map<Id, SpecRow>)
    ensures forall id :: id in latest <==> LatestSpec(specs, id).Some?
    ensures forall id :: id in latest ==> LatestSpec(specs, id) == Some(latest[id])
  {
    latest := map[];
    for i := 0 to |specs|
      invariant forall id :: id in latest <==> LatestSpec(specs[..i], id).Some?
      invariant forall id :: id in latest ==> LatestSpec(specs[..i], id) == Some(latest[id])
    {
      assert specs[..i + 1][..i] == specs[..i];
      var spec := specs[i];
      if spec.taskId !in latest || spec.specNo > latest[spec.taskId].specNo {
        latest := latest[spec.taskId := spec];
      }
    }
    assert specs[..|specs|] == specs;
  }

  // ----- the snapshot -----

  predicate ActiveOn(t: Tables, id: Id, day: Date, kind: ConstraintKind) {
    (id, day) in t.constraints && t.constraints[(id, day)].active && t.constraints[(id, day)].kind == kind
  }

  function ConstrainedIds(t: Tables, day: Date, kind: ConstraintKind): set<Id> {
    set key | key in t.constraints && key.1 == day && t.constraints[key].active && t.constraints[key].kind == kind :: key.0
  }

  function Capacity(t: Tables, day: Date): (Basis, int) {
    if day in t.capacity then t.capacity[day] else (Total, 0)
  }

  /** Unstarted tasks count their specification, running ones what is estimated to be left. */
  function RemainingMinutes(row: TaskRow, spec: SpecRow): int {
    if row.execution == InProgress && row.estimate.Some? then row.estimate.value else spec.expected
  }

  predicate Plannable(t: Tables, row: TaskRow) {
    && (row.execution == Pending || row.execution == InProgress)
    && row.goalId in t.activeGoals && LatestSpec(t.specs, row.id).Some?
  }

  function TaskInput(t: Tables, day: Date, row: TaskRow): Task
    requires LatestSpec(t.specs, row.id).Some?
  {
    var spec := LatestSpec(t.specs, row.id).value;
    var remaining := RemainingMinutes(row, spec);
    Task(row.id, spec.id, row.goalId, row.execution, remaining, spec.canSplit, spec.minimumSession,
         spec.earliest, spec.latest, row.id !in t.blocked,
         if ActiveOn(t, row.id, day, Locked)
         then Some(if row.id in t.planned then t.planned[row.id] else remaining)
         else None,
         if row.id in t.unscheduled then t.unscheduled[row.id] else 0)
  }

  function TaskInputs(t: Tables, day: Date, rows: seq<TaskRow>): seq<Task> {
    if rows == [] then [] else
    (if Plannable(t, rows[0]) then [TaskInput(t, day, rows[0])] else []) + TaskInputs(t, day, rows[1..])
  }

  /** Minutes this week's plan still asks of a goal: unstarted tasks due by Sunday, and what runs. */
  function WeeklyDemand(t: Tables, goal: Id, rows: seq<TaskRow>): int {
    if rows == [] then 0 else
    (if Plannable(t, rows[0]) && rows[0].goalId == goal
        && (rows[0].execution == InProgress || LatestSpec(t.specs, rows[0].id).value.latest <= t.weekStart + 6)
     then RemainingMinutes(rows[0], LatestSpec(t.specs, rows[0].id).value) else 0)
    + WeeklyDemand(t, goal, rows[1..])
  }

  function WeeklyFulfilled(t: Tables, goal: Id, rows: seq<TaskRow>): int {
    if rows == [] then 0 else
    (if rows[0].goalId == goal && rows[0].id in t.planned then t.planned[rows[0].id] else 0)
    + WeeklyFulfilled(t, goal, rows[1..])
  }

  function GoalInput(t: Tables): Id -> Goal {
    id => var pref := if id in t.preferences then t.preferences[id] else Preference(false, |t.activeGoals|);
          Goal(id, false, pref.focus, pref.rank, WeeklyDemand(t, id, t.tasks), WeeklyFulfilled(t, id, t.tasks))
  }

  function ForecastDays(t: Tables, day: Date, days: nat): seq<(Date, int)>
    decreases days
  {
    if days == 0 then [] else [(day, Capacity(t, day).1)] + ForecastDays(t, day + 1, days - 1)
  }

  function WeekCapacity(t: Tables, day: Date, days: nat): int
    decreases days
  {
    if days == 0 then 0 else
    (if day <= t.weekStart + 6 then Capacity(t, day).1 else 0) + WeekCapacity(t, day + 1, days - 1)
  }

  /** Today counts towards the week in any case; so do the days up to Sunday, two weeks ahead at most. */
  function BuildSnapshot(t: Tables, day: Date): Snapshot {
    Snapshot(day, Capacity(t, day).0, Capacity(t, day).1, 0,
             Capacity(t, day).1 + WeekCapacity(t, day + 1, 13),
             ForecastDays(t, day + 1, 13),
             Map(GoalInput(t), t.activeGoals),
             TaskInputs(t, day, t.tasks),
             ConstrainedIds(t, day, MustDoToday), ConstrainedIds(t, day, Locked))
  }

  // ----- the budget check -----

  /** What the check counts for one task. */
  function CheckedMinutes(t: Tables, day: Date, row: TaskRow): int {
    if !Plannable(t, row) then 0 else
    var spec := LatestSpec(t.specs, row.id).value;
    if row.execution == InProgress then RemainingMinutes(row, spec)
    else if row.id in ConstrainedIds(t, day, MustDoToday) || row.id in ConstrainedIds(t, day, Locked) || spec.latest == day
    then spec.expected
    else 0
  }

  function CheckedTotal(t: Tables, day: Date, rows: seq<TaskRow>, except: Id): int {
    if rows == [] then 0 else
    var last := rows[|rows| - 1];
    CheckedTotal(t, day, rows[..|rows| - 1], except) + if last.id == except then 0 else CheckedMinutes(t, day, last)
  }

  datatype ConstrainError = NoSuchTask | RevisionConflict | NothingToClear | BudgetConflict(gap: int)

  function FindTask(rows: seq<TaskRow>, id: Id): Option<TaskRow> {
    if rows == [] then None else if rows[0].id == id then Some(rows[0]) else FindTask(rows[1..], id)
  }

  function CurrentRevision(t: Tables, id: Id, day: Date): nat {
    if (id, day) in t.constraints then t.constraints[(id, day)].revision else 0
  }

  function Needed(t: Tables, id: Id): int {
    if LatestSpec(t.specs, id).Some? then LatestSpec(t.specs, id).value.expected else 0
  }

  function Available(t: Tables, day: Date): int {
    if Capacity(t, day).0 == Total then Max(0, Capacity(t, day).1) else Capacity(t, day).1
  }

  function SetConstraint(t: Tables, id: Id, day: Date, c: Constraint): Tables {
    t.(constraints := t.constraints[(id, day) := c], revision := t.revision + 1)
  }

  /** constrain_task: `kind` None clears. */
  function Constrain(t: Tables, id: Id, day: Date, kind: Option<ConstraintKind>, expected: nat): Result<Tables,
      ConstrainError> {
    if FindTask(t.tasks, id) == None then Err(NoSuchTask)
    else if CurrentRevision(t, id, day) != expected then Err(RevisionConflict)
    else if kind == None then (
      if (id, day) !in t.constraints || !t.constraints[(id, day)].active then Err(NothingToClear)
      else Ok(SetConstraint(t, id, day, t.constraints[(id, day)].(active := false, revision := expected + 1))))
    else
      var gap := CheckedTotal(t, day, t.tasks, id) + Needed(t, id) - Available(t, day);
      if gap > 0 then Err(BudgetConflict(gap))
      else Ok(SetConstraint(t, id, day, Constraint(kind.value, true, expected + 1)))
  }

  // ----- the command -----

  class PlanningDesk {
    var tables: Tables

    constructor (tables: Tables)
      ensures this.tables == tables
    {
      this.tables := tables;
    }

    method MandatoryMinutesExcluding(day: Date, except: Id) returns (total: int)
      ensures total == CheckedTotal(tables, day, tables.tasks, except)
    {
      var latest := IndexLatest(tables.specs);
      var mustDo, locked := ConstrainedIds(tables, day, MustDoToday), ConstrainedIds(tables, day, Locked);
      total := 0;
      for i := 0 to |tables.tasks|
        invariant total == CheckedTotal(tables, day, tables.tasks[..i], except)
      {
        assert tables.tasks[..i + 1][..i] == tables.tasks[..i];
        var row := tables.tasks[i];
        if row.id == except || !(row.execution == Pending || row.execution == InProgress)
           || row.goalId !in tables.activeGoals || row.id !in latest {
          continue;
        }
        var spec := latest[row.id];
        if row.execution == InProgress {
          total := total + RemainingMinutes(row, spec);
        } else if row.id in mustDo || row.id in locked || spec.latest == day {
          total := total + spec.expected;
        }
      }
      assert tables.tasks[..|tables.tasks|] == tables.tasks;
    }

    method ConstrainTask(id: Id, day: Date, kind: Option<ConstraintKind>,
        expected: nat) returns (r: Option<ConstrainError>)
      modifies this
      ensures r == None <==> Constrain(old(tables), id, day, kind, expected).Ok?
      ensures r == None ==> tables == Constrain(old(tables), id, day, kind, expected).value
      ensures r.Some? ==> r.value == Constrain(old(tables), id, day, kind, expected).error && tables == old(tables)
    {
      if FindTask(tables.tasks, id) == None {
        return Some(NoSuchTask);
      }
      if CurrentRevision(tables, id, day) != expected {
        return Some(RevisionConflict);
      }
      var updated;
      if kind == None {
        if (id, day) !in tables.constraints || !tables.constraints[(id, day)].active {
          return Some(NothingToClear);
        }
        updated := tables.constraints[(id, day)].(active := false, revision := expected + 1);
      } else {
        var need := Needed(tables, id);
        var remaining := Available(tables, day);
        var others := MandatoryMinutesExcluding(day, id);
        if others + need > remaining {
          return Some(BudgetConflict(others + need - remaining));
        }
        updated := Constraint(kind.value, true, expected + 1);
      }
      tables := tables.(constraints := tables.constraints[(id, day) := updated], revision := tables.revision + 1);
      return None;
    }
  }

  // ----- the check agrees with the engine -----

  ghost predicate TablesSane(t: Tables) {
    && (forall i, j :: 0 <= i < j < |t.tasks| ==> t.tasks[i].id != t.tasks[j].id)
    && (forall i, j :: 0 <= i < j < |t.activeGoals| ==> t.activeGoals[i] != t.activeGoals[j])
    && (forall i :: 0 <= i < |t.specs| ==> t.specs[i].expected >= 0)
    && (forall i :: 0 <= i < |t.tasks| ==> t.tasks[i].estimate.Some? ==> t.tasks[i].estimate.value >= 0)
  }

  lemma {:induction false} SpecSane(specs: seq<SpecRow>, id: Id)
    requires forall i :: 0 <= i < |specs| ==> specs[i].expected >= 0
    ensures LatestSpec(specs, id).Some? ==> LatestSpec(specs, id).value.expected >= 0
  {
    LatestSpecIsMaximal(specs, id);
  }

  /** The goals of a snapshot are the active ones, none of them paused. */
  lemma {:induction false} SnapshotGoals(f: Id -> Goal, ids: seq<Id>, id: Id)
    requires forall x :: f(x).id == x && !f(x).paused
    ensures id in GoalMap(Map(f, ids)) <==> id in ids
    ensures id in ids ==> !GoalMap(Map(f, ids))[id].paused
  {
    if ids != [] {
      var front := ids[..|ids| - 1];
      SnapshotGoals(f, front, id);
      assert Map(f, ids)[..|ids| - 1] == Map(f, front);
      assert ids == front + [ids[|ids| - 1]];
    }
  }

  /** Every task the builder puts into a snapshot has its goal there. */
  lemma {:induction false} InputsBelong(t: Tables, day: Date, rows: seq<TaskRow>)
    ensures forall i :: 0 <= i < |TaskInputs(t, day, rows)| ==> TaskInputs(t, day, rows)[i].goalId in t.activeGoals
  {
    if rows != [] {
      InputsBelong(t, day, rows[1..]);
    }
  }

  lemma SnapshotWellFormed(t: Tables, day: Date)
    ensures WellFormed(BuildSnapshot(t, day))
  {
    InputsBelong(t, day, t.tasks);
    forall i | 0 <= i < |TaskInputs(t, day, t.tasks)|
      ensures TaskInputs(t, day, t.tasks)[i].goalId in GoalMap(Map(GoalInput(t), t.activeGoals))
    {
      SnapshotGoals(GoalInput(t), t.activeGoals, TaskInputs(t, day, t.tasks)[i].goalId);
    }
  }

  ghost predicate NoLocks(t: Tables, day: Date) {
    ConstrainedIds(t, day, Locked) == {}
  }

  /** What a row must get on this day, read off the tables: running tasks what is left of them, a lock the
      minutes it was planned with this week, must-do tasks and those due today what they need. */
  function DueMinutes(t: Tables, day: Date, row: TaskRow): nat {
    if !Plannable(t, row) then 0 else
    var remaining := RemainingMinutes(row, LatestSpec(t.specs, row.id).value);
    if row.execution == InProgress then Max(0, remaining)
    else if ActiveOn(t, row.id, day, Locked) then Max(0, if row.id in t.planned then t.planned[row.id] else remaining)
    else if ActiveOn(t, row.id, day, MustDoToday) || LatestSpec(t.specs, row.id).value.latest == day then Max(0, remaining)
    else 0
  }

  function DueTotal(t: Tables, day: Date, rows: seq<TaskRow>): nat {
    if rows == [] then 0 else DueMinutes(t, day, rows[0]) + DueTotal(t, day, rows[1..])
  }

  /** The same for all tasks but one. */
  function DueOthers(t: Tables, day: Date, rows: seq<TaskRow>, except: Id): nat {
    if rows == [] then 0
    else (if rows[0].id == except then 0 else DueMinutes(t, day, rows[0])) + DueOthers(t, day, rows[1..], except)
  }

  /** What the engine will count for one row of the snapshot. */
  ghost function EngineMinutes(t: Tables, day: Date, row: TaskRow): int {
    if !Plannable(t, row) then 0 else
    var input := TaskInput(t, day, row);
    if Classify(input, DayOf(BuildSnapshot(t, day))) == Mandatory then Max(0, Demand(input, DayOf(BuildSnapshot(t, day)))) else 0
  }

  lemma LockedIds(t: Tables, day: Date, id: Id, kind: ConstraintKind)
    ensures id in ConstrainedIds(t, day, kind) <==> ActiveOn(t, id, day, kind)
  {
    if ActiveOn(t, id, day, kind) {
      assert (id, day) in t.constraints;
    }
  }

  /** Locks or not, the engine counts for every row exactly what is due. */
  lemma EngineCountsWhatIsDue(t: Tables, day: Date, row: TaskRow)
    ensures EngineMinutes(t, day, row) == DueMinutes(t, day, row)
  {
    if Plannable(t, row) {
      SnapshotGoals(GoalInput(t), t.activeGoals, row.goalId);
      LockedIds(t, day, row.id, Locked);
      LockedIds(t, day, row.id, MustDoToday);
    }
  }

  /** The check counts exactly what is due for every task that carries no lock that day. */
  lemma CheckedIsDue(t: Tables, day: Date, row: TaskRow)
    requires !ActiveOn(t, row.id, day, Locked) && forall i :: 0 <= i < |t.specs| ==> t.specs[i].expected >= 0
    requires row.estimate.Some? ==> row.estimate.value >= 0
    ensures CheckedMinutes(t, day, row) == DueMinutes(t, day, row)
  {
    SpecSane(t.specs, row.id);
    LockedIds(t, day, row.id, Locked);
    LockedIds(t, day, row.id, MustDoToday);
  }

  /** Without locks, engine and check count the same minutes for every task. */
  lemma EngineCountsWhatIsChecked(t: Tables, day: Date, row: TaskRow)
    requires NoLocks(t, day) && forall i :: 0 <= i < |t.specs| ==> t.specs[i].expected >= 0
    requires row.estimate.Some? ==> row.estimate.value >= 0
    ensures EngineMinutes(t, day, row) == CheckedMinutes(t, day, row)
  {
    LockedIds(t, day, row.id, Locked);
    EngineCountsWhatIsDue(t, day, row);
    CheckedIsDue(t, day, row);
  }

  lemma DemandTotalCons(task: Task, rest: seq<Task>, day: Day)
    ensures DemandTotal(Select([task] + rest, day, Mandatory), day)
            == (if Classify(task, day) == Mandatory then Max(0, Demand(task, day)) else 0) + DemandTotal(Select(rest, day, Mandatory), day)
  {
    var own := if Classify(task, day) == Mandatory then [task] else [];
    EnginePriority.SelectConcat([task], rest, day, Mandatory);
    assert Select([task], day, Mandatory) == own by {
      assert [task][..0] == [] && [] + own == own;
    }
    DemandTotalConcat(own, Select(rest, day, Mandatory), day);
    DemandTotalOfOne(task, day);
  }

  lemma DemandTotalOfOne(task: Task, day: Day)
    ensures DemandTotal([task], day) == Max(0, Demand(task, day)) && DemandTotal([], day) == 0
  {
    var x := Max(0, Demand(task, day));
    assert Map(PositiveDemand(day), [task]) == [x] && [x][1..] == [];
    assert Sum([x]) == x + Sum([]);
  }

  lemma DemandTotalConcat(a: seq<Task>, b: seq<Task>, day: Day)
    ensures DemandTotal(a + b, day) == DemandTotal(a, day) + DemandTotal(b, day)
  {
    assert Map(PositiveDemand(day), a + b) == Map(PositiveDemand(day), a) + Map(PositiveDemand(day), b);
    SumConcat(Map(PositiveDemand(day), a), Map(PositiveDemand(day), b));
  }

  lemma {:induction false} EngineTotalIs(t: Tables, day: Date, rows: seq<TaskRow>)
    ensures DemandTotal(Select(TaskInputs(t, day, rows), DayOf(BuildSnapshot(t, day)), Mandatory), DayOf(BuildSnapshot(t, day)))
            == DueTotal(t, day, rows)
  {
    if rows != [] {
      EngineTotalIs(t, day, rows[1..]);
      EngineCountsWhatIsDue(t, day, rows[0]);
      if Plannable(t, rows[0]) {
        DemandTotalCons(TaskInput(t, day, rows[0]), TaskInputs(t, day, rows[1..]), DayOf(BuildSnapshot(t, day)));
      } else {
        assert [] + TaskInputs(t, day, rows[1..]) == TaskInputs(t, day, rows[1..]);
      }
    }
  }

  lemma SnapshotCapacity(t: Tables, day: Date)
    ensures StartCapacity(BuildSnapshot(t, day)) == Max(0, Available(t, day))
    ensures MandatoryDemand(BuildSnapshot(t, day))
         == DemandTotal(Select(TaskInputs(t, day, t.tasks), DayOf(BuildSnapshot(t, day)), Mandatory), DayOf(BuildSnapshot(t, day)))
  {
  }

  /** For all tables: the engine reports a mandatory overflow exactly if more is due than the day has. */
  lemma OverflowsExactly(t: Tables, day: Date)
    ensures Overflows(BuildSnapshot(t, day)) <==> DueTotal(t, day, t.tasks) > Max(0, Available(t, day))
  {
    EngineTotalIs(t, day, t.tasks);
    SnapshotCapacity(t, day);
  }

  /** The check's total over the rows, excluding one task, in front-to-back form. */
  ghost function CheckedFront(t: Tables, day: Date, rows: seq<TaskRow>, except: Id): int {
    if rows == [] then 0 else
    (if rows[0].id == except then 0 else CheckedMinutes(t, day, rows[0])) + CheckedFront(t, day, rows[1..], except)
  }

  lemma {:induction false} CheckedFrontPush(t: Tables, day: Date, rows: seq<TaskRow>, row: TaskRow, except: Id)
    ensures CheckedFront(t, day, rows + [row], except)
            == CheckedFront(t, day, rows, except) + if row.id == except then 0 else CheckedMinutes(t, day, row)
  {
    if rows == [] {
      assert rows + [row] == [row];
    } else {
      assert (rows + [row])[1..] == rows[1..] + [row];
      CheckedFrontPush(t, day, rows[1..], row, except);
    }
  }

  lemma {:induction false} CheckedFrontIs(t: Tables, day: Date, rows: seq<TaskRow>, except: Id)
    ensures CheckedTotal(t, day, rows, except) == CheckedFront(t, day, rows, except)
  {
    if rows != [] {
      var front, last := rows[..|rows| - 1], rows[|rows| - 1];
      CheckedFrontIs(t, day, front, except);
      CheckedFrontPush(t, day, front, last, except);
      assert rows == front + [last];
    }
  }

  // ----- one constraint -----

  /** Constraining one task changes what is due for no other. */
  lemma {:induction false} OthersStayDue(t: Tables, id: Id, day: Date, c: Constraint, rows: seq<TaskRow>)
    ensures DueOthers(SetConstraint(t, id, day, c), day, rows, id) == DueOthers(t, day, rows, id)
  {
    if rows != [] {
      OthersStayDue(t, id, day, c, rows[1..]);
    }
  }

  lemma {:induction false} DueWithout(t: Tables, day: Date, rows: seq<TaskRow>, id: Id)
    requires forall i :: 0 <= i < |rows| ==> rows[i].id != id
    ensures DueTotal(t, day, rows) == DueOthers(t, day, rows, id)
  {
    if rows != [] {
      DueWithout(t, day, rows[1..], id);
    }
  }

  /** One row and the others make up the total. */
  lemma {:induction false} DueSplits(t: Tables, day: Date, rows: seq<TaskRow>, row: TaskRow)
    requires row in rows && forall i, j :: 0 <= i < j < |rows| ==> rows[i].id != rows[j].id
    ensures DueTotal(t, day, rows) == DueOthers(t, day, rows, row.id) + DueMinutes(t, day, row)
  {
    if rows[0] == row {
      DueWithout(t, day, rows[1..], row.id);
    } else {
      assert row in rows[1..];
      DueSplits(t, day, rows[1..], row);
    }
  }

  lemma {:induction false} FoundTask(rows: seq<TaskRow>, id: Id)
    requires FindTask(rows, id).Some?
    ensures FindTask(rows, id).value in rows && FindTask(rows, id).value.id == id
  {
    if rows[0].id != id {
      FoundTask(rows[1..], id);
    }
  }

  /** What a task will need under a new constraint; a caller can tell before setting it. */
  function NeedUnder(t: Tables, row: TaskRow, kind: ConstraintKind): nat {
    if !Plannable(t, row) then 0 else
    var remaining := RemainingMinutes(row, LatestSpec(t.specs, row.id).value);
    Max(0, if row.execution != InProgress && kind == Locked && row.id in t.planned then t.planned[row.id] else remaining)
  }

  /** An accepted constraint, of either kind, on any task, beside any locks, leads to a mandatory overflow
      exactly if what is due for the others plus what this task needs exceeds the day. */
  lemma AcceptedConflictsExactly(t: Tables, id: Id, day: Date, kind: ConstraintKind, expected: nat)
    requires TablesSane(t) && Constrain(t, id, day, Some(kind), expected).Ok?
    ensures FindTask(t.tasks, id).Some?
    ensures Overflows(BuildSnapshot(Constrain(t, id, day, Some(kind), expected).value, day))
            <==> DueOthers(t, day, t.tasks, id) + NeedUnder(t, FindTask(t.tasks, id).value, kind) > Max(0, Available(t, day))
  {
    AcceptedSets(t, id, day, kind, expected);
    var t' := SetConstraint(t, id, day, Constraint(kind, true, expected + 1));
    OverflowsExactly(t', day);
    DueAfter(t, day, FindTask(t.tasks, id).value, kind, expected);
  }

  lemma AcceptedSets(t: Tables, id: Id, day: Date, kind: ConstraintKind, expected: nat)
    requires Constrain(t, id, day, Some(kind), expected).Ok?
    ensures Constrain(t, id, day, Some(kind), expected).value == SetConstraint(t, id, day, Constraint(kind, true, expected + 1))
    ensures FindTask(t.tasks, id).Some? && FindTask(t.tasks, id).value in t.tasks && FindTask(t.tasks, id).value.id == id
  {
    FoundTask(t.tasks, id);
  }

  lemma DueAfter(t: Tables, day: Date, row: TaskRow, kind: ConstraintKind, expected: nat)
    requires row in t.tasks && forall i, j :: 0 <= i < j < |t.tasks| ==> t.tasks[i].id != t.tasks[j].id
    ensures DueTotal(SetConstraint(t, row.id, day, Constraint(kind, true, expected + 1)), day, t.tasks)
         == DueOthers(t, day, t.tasks, row.id) + NeedUnder(t, row, kind)
  {
    var c := Constraint(kind, true, expected + 1);
    DueSplits(SetConstraint(t, row.id, day, c), day, t.tasks, row);
    OthersStayDue(t, row.id, day, c, t.tasks);
    NeedIsDue(t, day, row, kind, expected);
  }

  lemma NeedIsDue(t: Tables, day: Date, row: TaskRow, kind: ConstraintKind, expected: nat)
    ensures DueMinutes(SetConstraint(t, row.id, day, Constraint(kind, true, expected + 1)), day, row) == NeedUnder(t, row, kind)
  {
  }

  ghost predicate OthersUnlocked(t: Tables, day: Date, id: Id) {
    forall i :: 0 <= i < |t.tasks| && t.tasks[i].id != id ==> !ActiveOn(t, t.tasks[i].id, day, Locked)
  }

  lemma {:induction false} OthersAreChecked(t: Tables, day: Date, rows: seq<TaskRow>, id: Id)
    requires TablesSane(t) && forall i :: 0 <= i < |rows| ==> rows[i] in t.tasks
    requires forall i :: 0 <= i < |rows| && rows[i].id != id ==> !ActiveOn(t, rows[i].id, day, Locked)
    ensures CheckedFront(t, day, rows, id) == DueOthers(t, day, rows, id)
  {
    if rows != [] {
      OthersAreChecked(t, day, rows[1..], id);
      if rows[0].id != id {
        CheckedIsDue(t, day, rows[0]);
      }
    }
  }

  /** No other task locked: then the others are due what the check added up for them. */
  lemma CheckedOthersAreDue(t: Tables, day: Date, id: Id)
    requires TablesSane(t) && OthersUnlocked(t, day, id)
    ensures CheckedTotal(t, day, t.tasks, id) == DueOthers(t, day, t.tasks, id)
  {
    CheckedFrontIs(t, day, t.tasks, id);
    OthersAreChecked(t, day, t.tasks, id);
  }

  /** With no other task locked, an accepted constraint leads to an overflow exactly if the check's own
      total plus what the task will really need exceeds the day: for a must-do on a running task its
      estimate, for a lock the minutes planned this week, else the specification that was checked. */
  lemma UnlockedConflictsExactly(t: Tables, id: Id, day: Date, kind: ConstraintKind, expected: nat)
    requires TablesSane(t) && Constrain(t, id, day, Some(kind), expected).Ok? && OthersUnlocked(t, day, id)
    ensures FindTask(t.tasks, id).Some?
    ensures Overflows(BuildSnapshot(Constrain(t, id, day, Some(kind), expected).value, day))
            <==> CheckedTotal(t, day, t.tasks, id) + NeedUnder(t, FindTask(t.tasks, id).value, kind) > Max(0, Available(t, day))
  {
    AcceptedConflictsExactly(t, id, day, kind, expected);
    CheckedOthersAreDue(t, day, id);
  }

  lemma NoLocksLeft(t: Tables, id: Id, day: Date, c: Constraint)
    requires NoLocks(SetConstraint(t, id, day, c), day)
    ensures OthersUnlocked(t, day, id) && !(c.active && c.kind == Locked)
  {
    var t' := SetConstraint(t, id, day, c);
    LockedIds(t', day, id, Locked);
    forall i | 0 <= i < |t.tasks| && t.tasks[i].id != id
      ensures !ActiveOn(t, t.tasks[i].id, day, Locked)
    {
      LockedIds(t', day, t.tasks[i].id, Locked);
    }
  }

  /** An accepted must-do for a running task, on a day without locks, conflicts exactly if the others
      and its estimate do not fit. */
  lemma RunningConflictsExactly(t: Tables, id: Id, day: Date, row: TaskRow, expected: nat)
    requires TablesSane(t) && Constrain(t, id, day, Some(MustDoToday), expected).Ok?
    requires NoLocks(Constrain(t, id, day, Some(MustDoToday), expected).value, day)
    requires row in t.tasks && row.id == id && row.execution == InProgress && Plannable(t, row)
    ensures Overflows(BuildSnapshot(Constrain(t, id, day, Some(MustDoToday), expected).value, day))
            <==> CheckedTotal(t, day, t.tasks, id) + RemainingMinutes(row, LatestSpec(t.specs, id).value) > Max(0, Available(t, day))
  {
    NoLocksLeft(t, id, day, Constraint(MustDoToday, true, expected + 1));
    UnlockedConflictsExactly(t, id, day, MustDoToday, expected);
    FoundTask(t.tasks, id);
    assert FindTask(t.tasks, id).value == row;
    SpecSane(t.specs, id);
  }

  /** The normal exit reports no mandatory capacity conflict. */
  lemma NormalExitHasNoCapacityConflict(s: Snapshot)
    requires !Overflows(s)
    ensures forall i :: 0 <= i < |Agenda(s).conflicts| ==> Agenda(s).conflicts[i].code != MandatoryCapacityConflict
  {
    RisksAreDeadlines(FlexibleOrder(s), NormalItems(s), s.forecast, s.localDate);
  }

  lemma AcceptedConstraintFits(t: Tables, id: Id, day: Date, kind: ConstraintKind, expected: nat)
    requires TablesSane(t) && Constrain(t, id, day, Some(kind), expected).Ok?
    requires forall i :: 0 <= i < |t.tasks| && t.tasks[i].id == id ==> t.tasks[i].execution != InProgress
    requires NoLocks(Constrain(t, id, day, Some(kind), expected).value, day)
    ensures !Overflows(BuildSnapshot(Constrain(t, id, day, Some(kind), expected).value, day))
  {
    NoLocksLeft(t, id, day, Constraint(kind, true, expected + 1));
    UnlockedConflictsExactly(t, id, day, kind, expected);
    FoundTask(t.tasks, id);
    SpecSane(t.specs, id);
  }

  /** If a must-do constraint is accepted for a task that is not running, and no lock is active that day,
      the engine reports no mandatory capacity conflict for the resulting tables. */
  lemma AcceptedConstraintNeverConflicts(t: Tables, id: Id, day: Date, kind: ConstraintKind, expected: nat)
    requires TablesSane(t) && Constrain(t, id, day, Some(kind), expected).Ok?
    requires forall i :: 0 <= i < |t.tasks| && t.tasks[i].id == id ==> t.tasks[i].execution != InProgress
    requires NoLocks(Constrain(t, id, day, Some(kind), expected).value, day)
    ensures var plan := Agenda(BuildSnapshot(Constrain(t, id, day, Some(kind), expected).value, day));
            forall i :: 0 <= i < |plan.conflicts| ==> plan.conflicts[i].code != MandatoryCapacityConflict
  {
    AcceptedConstraintFits(t, id, day, kind, expected);
    NormalExitHasNoCapacityConflict(BuildSnapshot(Constrain(t, id, day, Some(kind), expected).value, day));
  }

  // ----- both provisos are needed -----

  /** One task of one goal, ten minutes by its specification, on a day of sixty minutes. */
  function OneTask(execution: Execution, estimate: Option<int>, planned: map<Id, int>): Tables {
    Tables(["g"], map[], [TaskRow("t", "g", execution, estimate)], [SpecRow("s", "t", 1, 10, true, None, None, 9)],
           map[], planned, map[], {}, map[0 := (Total, 60)], 0, 0)
  }

  lemma OneTaskAccepted(t: Tables, kind: ConstraintKind)
    requires exists e, m, p :: t == OneTask(e, m, p)
    ensures Constrain(t, "t", 0, Some(kind), 0) == Ok(SetConstraint(t, "t", 0, Constraint(kind, true, 1)))
    ensures LatestSpec(t.specs, "t") == Some(t.specs[0])
    ensures CheckedTotal(t, 0, t.tasks, "t") == 0
  {
    assert t.tasks[..0] == [] && t.specs[..0] == [];
    assert CheckedTotal(t, 0, [], "t") == 0;
  }

  lemma OneTaskConflicts(t: Tables, kind: ConstraintKind)
    requires (exists e, m, p :: t == OneTask(e, m, p) && (m.Some? ==> m.value >= 0)) && NeedUnder(t, t.tasks[0], kind) > 60
    ensures Constrain(t, "t", 0, Some(kind), 0).Ok? && Overflows(BuildSnapshot(Constrain(t, "t", 0, Some(kind), 0).value, 0))
  {
    OneTaskAccepted(t, kind);
    UnlockedConflictsExactly(t, "t", 0, kind, 0);
  }

  /** A running task is checked by its specification but scheduled by its estimate. */
  lemma RunningTaskMayConflict()
    ensures var t := OneTask(InProgress, Some(100), map[]);
            && Constrain(t, "t", 0, Some(MustDoToday), 0).Ok?
            && Overflows(BuildSnapshot(Constrain(t, "t", 0, Some(MustDoToday), 0).value, 0))
  {
    var t := OneTask(InProgress, Some(100), map[]);
    OneTaskAccepted(t, MustDoToday);
    OneTaskConflicts(t, MustDoToday);
  }

  /** A lock is checked by the specification but fixes the minutes planned this week. */
  lemma LockedTaskMayConflict()
    ensures var t := OneTask(Pending, None, map["t" := 100]);
            && Constrain(t, "t", 0, Some(Locked), 0).Ok?
            && Overflows(BuildSnapshot(Constrain(t, "t", 0, Some(Locked), 0).value, 0))
  {
    var t := OneTask(Pending, None, map["t" := 100]);
    OneTaskAccepted(t, Locked);
    OneTaskConflicts(t, Locked);
  }
}
