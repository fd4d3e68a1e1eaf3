/**
 The deterministic scheduler of scheduling/engine.py. Dates are day numbers; messages and details are
 left out. `Agenda` says what a plan is; `CalculateAgenda` computes it with the loops of the source.
 */
module Engine {
  import opened Prelude
  import opened Tasks
  import opened Ordering

  type Date = int

  const URGENT_WITHIN_DAYS: int := 2
  const SOON_WITHIN_DAYS: int := 7
  const WEEKLY_GAP_HIGH_MINUTES: int := 60
  const STARVATION_AFTER_DAYS: int := 3
  const DEFAULT_MINIMUM_SESSION_MINUTES: int := 15

  datatype Basis = Total | Remaining

  datatype Goal = Goal(
    id: Id, paused: bool, focus: bool, rank: int, weeklyDemand: int, weeklyFulfilled: int)

  datatype Task = Task(
    id: Id, specId: Id, goalId: Id, execution: Execution, remaining: int, canSplit: bool,
    minimumSession: Option<int>, earliest: Option<Date>, latest: Date, dependencySatisfied: bool,
    lockedMinutes: Option<int>, unscheduledDays: int)

  datatype Snapshot = Snapshot(
    localDate: Date, basis: Basis, quota: int, spent: int, weeklyRemaining: int,
    forecast: seq<(Date, int)>, goals: seq<Goal>, tasks: seq<Task>, mustDo: set<Id>, locked: set<Id>)

  datatype Reason =
    | MandatoryCapacityConflict | WeeklyCapacityConflict | DeadlineRisk | DependencyBlocked | MinimumSessionUnfit

  datatype Item = Item(taskId: Id, specId: Id, rank: int, minutes: int)
  datatype Deferred = Deferred(taskId: Id, reason: Reason)
  datatype Conflict = Conflict(code: Reason, taskIds: seq<Id>, gap: Option<int>)
  datatype Proposal = DeadlineExtension(taskId: Id)
  datatype Capacity = Capacity(basis: Basis, quota: int, spent: int, reserved: int, remaining: int)
  datatype PlanStatus = Ready | Conflicted

  datatype Plan = Plan(
    status: PlanStatus, capacity: Capacity, items: seq<Item>, deferred: seq<Deferred>,
    conflicts: seq<Conflict>, proposals: seq<Proposal>)

  // ----- looking things up -----

  /** A later goal with the same id wins, as in a dict built in order. */
  function GoalMap(goals: seq<Goal>): map<Id, Goal> {
    if goals == [] then map[] else
    var last := goals[|goals| - 1];
    GoalMap(goals[..|goals| - 1])[last.id := last]
  }

  /** Every task belongs to a goal of the snapshot; looking up any other goal would raise KeyError. */
  predicate WellFormed(s: Snapshot) {
    forall i :: 0 <= i < |s.tasks| ==> s.tasks[i].goalId in GoalMap(s.goals)
  }

  /** What a task's class depends on besides the task itself. */
  datatype Day = Day(date: Date, mustDo: set<Id>, locked: set<Id>, goals: map<Id, Goal>)

  function DayOf(s: Snapshot): Day {
    Day(s.localDate, s.mustDo, s.locked, GoalMap(s.goals))
  }

  // ----- classification -----

  datatype Class = Outside | Mandatory | Overdue | NotYet | Blocked | Flexible

  function Classify(t: Task, day: Day): Class {
    if t.goalId !in day.goals || day.goals[t.goalId].paused then Outside
    else if t.execution == InProgress then Mandatory
    else if t.execution != Pending then Outside
    else if t.id in day.mustDo || t.id in day.locked then Mandatory
    else if t.latest == day.date then Mandatory
    else if t.latest < day.date then Overdue
    else if t.earliest.Some? && t.earliest.value > day.date then NotYet
    else if !t.dependencySatisfied then Blocked
    else Flexible
  }

  /** The minutes a mandatory task asks for: a user lock fixes them, unless the task already runs. */
  function Demand(t: Task, day: Day): int {
    if t.execution != InProgress && (t.id in day.mustDo || t.id in day.locked) && t.lockedMinutes.Some?
    then t.lockedMinutes.value
    else t.remaining
  }

  function Select(ts: seq<Task>, day: Day, class_: Class): seq<Task> {
    if ts == [] then [] else
    var last := ts[|ts| - 1];
    Select(ts[..|ts| - 1], day, class_) + if Classify(last, day) == class_ then [last] else []
  }

  function PositiveDemand(day: Day): Task -> int {
    t => Max(0, Demand(t, day))
  }

  function DemandTotal(ts: seq<Task>, day: Day): int {
    Sum(Map(PositiveDemand(day), ts))
  }

  // ----- the two sort keys -----

  function DemandKey(t: Task, day: Day): Key {
    Key([-Demand(t, day)], "", t.id)
  }

  function Tier(daysLeft: int): int {
    if daysLeft <= URGENT_WITHIN_DAYS then 0 else if daysLeft <= SOON_WITHIN_DAYS then 1 else 2
  }

  function GapTier(gap: int): int {
    if gap >= WEEKLY_GAP_HIGH_MINUTES then 0 else if gap > 0 then 1 else 2
  }

  function UrgencyKey(t: Task, day: Day, start: int): Key {
    if t.goalId !in day.goals then Key([], t.goalId, t.id) else
    var goal := day.goals[t.goalId];
    Key([Tier(t.latest - day.date),
         GapTier(goal.weeklyDemand - goal.weeklyFulfilled),
         if t.unscheduledDays >= STARVATION_AFTER_DAYS then 0 else 1,
         if goal.focus then 0 else 1,
         goal.rank,
         -t.unscheduledDays,
         if t.remaining <= start then 0 else 1],
        goal.id, t.id)
  }

  function KeyedByDemand(day: Day): Task -> Keyed<Task> {
    t => Keyed(DemandKey(t, day), t)
  }

  function KeyedByUrgency(day: Day, start: int): Task -> Keyed<Task> {
    t => Keyed(UrgencyKey(t, day, start), t)
  }

  function SortedMandatory(ts: seq<Task>, day: Day): seq<Keyed<Task>> {
    Sort(Map(KeyedByDemand(day), ts))
  }

  function SortedFlexible(ts: seq<Task>, day: Day, start: int): seq<Keyed<Task>> {
    Sort(Map(KeyedByUrgency(day, start), ts))
  }

  // ----- capacity -----

  function StartCapacity(s: Snapshot): int {
    if s.basis == Total then Max(0, s.quota - s.spent) else Max(0, s.quota)
  }

  function SessionFloor(t: Task): int {
    if t.minimumSession.Some? then t.minimumSession.value else DEFAULT_MINIMUM_SESSION_MINUTES
  }

  /** How many minutes a flexible task gets of what is left, if any. */
  function Grant(t: Task, remaining: int): Option<int> {
    if remaining <= 0 then None
    else if !t.canSplit then (if t.remaining <= remaining then Some(t.remaining) else None)
    else if Min(t.remaining, remaining) < SessionFloor(t) then None
    else Some(Min(t.remaining, remaining))
  }

  function ItemFor(t: Task, rank: int, minutes: int): Item {
    Item(t.id, t.specId, rank, minutes)
  }

  /** Mandatory tasks in order, until one asks for nothing. */
  function PackMandatory(ts: seq<Keyed<Task>>, day: Day, remaining: int, rank: int): seq<Item> {
    if ts == [] then [] else
    var t := ts[0].value;
    var minutes := Min(Demand(t, day), remaining);
    if minutes <= 0 then [] else
    [ItemFor(t, rank, minutes)] + PackMandatory(ts[1..], day, remaining - minutes, rank + 1)
  }

  datatype Packing = Packing(items: seq<Item>, deferred: seq<Deferred>, remaining: int)

  function PackFlexible(ts: seq<Keyed<Task>>, remaining: int, rank: int): Packing {
    if ts == [] then Packing([], [], remaining) else
    var t := ts[0].value;
    match Grant(t, remaining)
    case None =>
      var rest := PackFlexible(ts[1..], remaining, rank);
      rest.(deferred := [Deferred(t.id, MinimumSessionUnfit)] + rest.deferred)
    case Some(minutes) =>
      var rest := PackFlexible(ts[1..], remaining - minutes, rank + 1);
      rest.(items := [ItemFor(t, rank, minutes)] + rest.items)
  }

  function ItemMinutes(i: Item): int {
    i.minutes
  }

  function Reserved(items: seq<Item>): int {
    Sum(Map(ItemMinutes, items))
  }

  // ----- conflicts -----

  function BlockedDeferral(t: Task): Deferred {
    Deferred(t.id, DependencyBlocked)
  }

  function OverflowDeferral(t: Task): Deferred {
    Deferred(t.id, MandatoryCapacityConflict)
  }

  function OverdueConflict(t: Task): Conflict {
    Conflict(DeadlineRisk, [t.id], None)
  }

  function ExtensionFor(t: Task): Proposal {
    DeadlineExtension(t.id)
  }

  function TaskId(t: Task): Id {
    t.id
  }

  function OpenGap(g: Goal): int {
    if g.paused then 0 else g.weeklyDemand - g.weeklyFulfilled
  }

  function WeeklyGap(goals: seq<Goal>): int {
    Sum(Map(OpenGap, goals))
  }

  function ItemIds(items: seq<Item>): set<Id> {
    set i | 0 <= i < |items| :: items[i].taskId
  }

  /** The ids of the tasks, in order, that got no item. */
  function Unscheduled(ts: seq<Keyed<Task>>, scheduled: set<Id>): seq<Id> {
    if ts == [] then [] else
    (if ts[0].value.id !in scheduled then [ts[0].value.id] else []) + Unscheduled(ts[1..], scheduled)
  }

  function WeeklyConflicts(gap: int, capacity: int, unscheduled: seq<Id>): seq<Conflict> {
    if gap > capacity then [Conflict(WeeklyCapacityConflict, unscheduled, Some(gap - capacity))] else []
  }

  /** Minutes of the days after today up to and including `latest` that the forecast covers. */
  function ForecastUntil(forecast: seq<(Date, int)>, today: Date, latest: Date): int {
    if forecast == [] then 0 else
    (if today < forecast[0].0 <= latest then forecast[0].1 else 0) + ForecastUntil(forecast[1..], today, latest)
  }

  /** What the items give a task in all. */
  function AllocatedTo(items: seq<Item>, id: Id): int {
    if items == [] then 0 else
    AllocatedTo(items[..|items| - 1], id) + if items[|items| - 1].taskId == id then items[|items| - 1].minutes else 0
  }

  function RiskGap(t: Task, items: seq<Item>, forecast: seq<(Date, int)>, today: Date): Option<int> {
    var work := t.remaining - AllocatedTo(items, t.id);
    var capacity := ForecastUntil(forecast, today, t.latest);
    if work > 0 && capacity < work then Some(work - capacity) else None
  }

  function Risks(ts: seq<Keyed<Task>>, items: seq<Item>, forecast: seq<(Date, int)>, today: Date): seq<Conflict> {
    if ts == [] then [] else
    var gap := RiskGap(ts[0].value, items, forecast, today);
    (if gap.Some? then [Conflict(DeadlineRisk, [ts[0].value.id], gap)] else []) + Risks(ts[1..], items, forecast, today)
  }

  function ExtensionsOf(risk: Conflict): seq<Proposal> {
    if |risk.taskIds| > 0 then [DeadlineExtension(risk.taskIds[0])] else []
  }

  function RiskProposals(risks: seq<Conflict>): seq<Proposal> {
    if risks == [] then [] else ExtensionsOf(risks[0]) + RiskProposals(risks[1..])
  }

  // ----- the plan -----

  function MandatoryDemand(s: Snapshot): int {
    DemandTotal(Select(s.tasks, DayOf(s), Mandatory), DayOf(s))
  }

  predicate Overflows(s: Snapshot) {
    MandatoryDemand(s) > StartCapacity(s)
  }

  function CapacityConflict(s: Snapshot): Conflict {
    Conflict(MandatoryCapacityConflict, Map(TaskId, Select(s.tasks, DayOf(s), Mandatory)),
             Some(MandatoryDemand(s) - StartCapacity(s)))
  }

  /** Too much is mandatory: everything is kept for the user to choose from, nothing is planned. */
  function OverflowPlan(s: Snapshot): Plan {
    Plan(Conflicted,
         Capacity(s.basis, s.quota, s.spent, 0, StartCapacity(s)),
         [],
         Map(OverflowDeferral, Select(s.tasks, DayOf(s), Flexible)),
         [CapacityConflict(s)],
         [])
  }

  function MandatoryItems(s: Snapshot): seq<Item> {
    PackMandatory(SortedMandatory(Select(s.tasks, DayOf(s), Mandatory), DayOf(s)), DayOf(s), StartCapacity(s), 1)
  }

  function FlexibleOrder(s: Snapshot): seq<Keyed<Task>> {
    SortedFlexible(Select(s.tasks, DayOf(s), Flexible), DayOf(s), StartCapacity(s))
  }

  /** What the mandatory items leave for the flexible tasks, and the rank their first item gets. */
  function FlexibleCapacity(s: Snapshot): int {
    StartCapacity(s) - Reserved(MandatoryItems(s))
  }

  function FlexibleRank(s: Snapshot): int {
    1 + |MandatoryItems(s)|
  }

  function FlexiblePacking(s: Snapshot): Packing {
    PackFlexible(FlexibleOrder(s), FlexibleCapacity(s), FlexibleRank(s))
  }

  function NormalItems(s: Snapshot): seq<Item> {
    MandatoryItems(s) + FlexiblePacking(s).items
  }

  function NormalDeferrals(s: Snapshot): seq<Deferred> {
    Map(BlockedDeferral, Select(s.tasks, DayOf(s), Blocked)) + FlexiblePacking(s).deferred
  }

  function RisksOf(s: Snapshot): seq<Conflict> {
    Risks(FlexibleOrder(s), NormalItems(s), s.forecast, s.localDate)
  }

  function WeeklyConflictsOf(s: Snapshot): seq<Conflict> {
    WeeklyConflicts(WeeklyGap(s.goals), s.weeklyRemaining, Unscheduled(FlexibleOrder(s), ItemIds(NormalItems(s))))
  }

  function NormalConflicts(s: Snapshot): seq<Conflict> {
    WeeklyConflictsOf(s) + Map(OverdueConflict, Select(s.tasks, DayOf(s), Overdue)) + RisksOf(s)
  }

  function NormalPlan(s: Snapshot): Plan {
    Plan(if NormalConflicts(s) != [] then Conflicted else Ready,
         Capacity(s.basis, s.quota, s.spent, Reserved(NormalItems(s)), FlexiblePacking(s).remaining),
         NormalItems(s),
         NormalDeferrals(s),
         NormalConflicts(s),
         Map(ExtensionFor, Select(s.tasks, DayOf(s), Overdue)) + RiskProposals(RisksOf(s)))
  }

  function Agenda(s: Snapshot): Plan {
    if Overflows(s) then OverflowPlan(s) else NormalPlan(s)
  }

  // ----- the loops of the source -----

  lemma SumPush(xs: seq<int>, x: int)
    ensures Sum(xs + [x]) == Sum(xs) + x
  {
    SumConcat(xs, [x]);
  }

  lemma MapPush<A, B>(f: A -> B, xs: seq<A>, x: A)
    ensures Map(f, xs + [x]) == Map(f, xs) + [f(x)]
  {
  }

  method IndexGoals(goals: seq<Goal>) returns (byId: map<Id, Goal>)
    ensures byId == GoalMap(goals)
  {
    byId := map[];
    for i := 0 to |goals|
      invariant byId == GoalMap(goals[..i])
    {
      assert goals[..i + 1][..i] == goals[..i];
      byId := byId[goals[i].id := goals[i]];
    }
    assert goals[..|goals|] == goals;
  }

  lemma SelectNext(ts: seq<Task>, i: nat, day: Day)
    requires i < |ts|
    ensures forall class_ :: Select(ts[..i + 1], day, class_)
                             == Select(ts[..i], day, class_) + if Classify(ts[i], day) == class_ then [ts[i]] else []
  {
    assert ts[..i + 1][..i] == ts[..i];
  }

  method ClassifyAll(s: Snapshot, day: Day)
    returns (mandatory: seq<Task>, overdue: seq<Task>, blocked: seq<Task>, flexible: seq<Task>)
    requires WellFormed(s) && day == DayOf(s)
    ensures mandatory == Select(s.tasks, day, Mandatory) && overdue == Select(s.tasks, day, Overdue)
    ensures blocked == Select(s.tasks, day, Blocked) && flexible == Select(s.tasks, day, Flexible)
  {
    mandatory, overdue, blocked, flexible := [], [], [], [];
    for i := 0 to |s.tasks|
      invariant mandatory == Select(s.tasks[..i], day, Mandatory) && overdue == Select(s.tasks[..i], day, Overdue)
      invariant blocked == Select(s.tasks[..i], day, Blocked) && flexible == Select(s.tasks[..i], day, Flexible)
    {
      SelectNext(s.tasks, i, day);
      var t := s.tasks[i];
      if day.goals[t.goalId].paused {
        continue;
      }
      if t.execution == InProgress {
        mandatory := mandatory + [t];
        continue;
      }
      if t.execution != Pending {
        continue;
      }
      if t.id in day.mustDo || t.id in day.locked || t.latest == day.date {
        mandatory := mandatory + [t];
        continue;
      }
      if t.latest < day.date {
        overdue := overdue + [t];
        continue;
      }
      if t.earliest.Some? && t.earliest.value > day.date {
        continue;
      }
      if !t.dependencySatisfied {
        blocked := blocked + [t];
        continue;
      }
      flexible := flexible + [t];
    }
    assert s.tasks[..|s.tasks|] == s.tasks;
  }

  lemma ReservedPush(items: seq<Item>, item: Item)
    ensures Reserved(items + [item]) == Reserved(items) + item.minutes
  {
    MapPush(ItemMinutes, items, item);
    SumPush(Map(ItemMinutes, items), item.minutes);
  }

  lemma PackMandatoryFrom(ts: seq<Keyed<Task>>, i: nat, day: Day, remaining: int, rank: int)
    requires i < |ts| && Min(Demand(ts[i].value, day), remaining) > 0
    ensures var minutes := Min(Demand(ts[i].value, day), remaining);
            PackMandatory(ts[i..], day, remaining, rank)
            == [ItemFor(ts[i].value, rank, minutes)] + PackMandatory(ts[i + 1..], day, remaining - minutes, rank + 1)
  {
    assert ts[i..][1..] == ts[i + 1..];
  }

  method PlaceMandatory(ordered: seq<Keyed<Task>>, day: Day, start: int)
    returns (items: seq<Item>, remaining: int, rank: int)
    ensures items == PackMandatory(ordered, day, start, 1)
    ensures remaining == start - Reserved(items) && rank == 1 + |items|
  {
    items, remaining, rank := [], start, 1;
    var i := 0;
    while i < |ordered|
      invariant i <= |ordered| && rank == 1 + |items| && remaining == start - Reserved(items)
      invariant items + PackMandatory(ordered[i..], day, remaining, rank) == PackMandatory(ordered, day, start, 1)
    {
      var t := ordered[i].value;
      var minutes := Min(Demand(t, day), remaining);
      if minutes <= 0 {
        break;
      }
      PackMandatoryFrom(ordered, i, day, remaining, rank);
      ReservedPush(items, ItemFor(t, rank, minutes));
      items, rank, remaining := items + [ItemFor(t, rank, minutes)], rank + 1, remaining - minutes;
      i := i + 1;
    }
  }

  method Allocate(t: Task, remaining: int) returns (minutes: Option<int>)
    ensures minutes == Grant(t, remaining)
  {
    if remaining <= 0 {
      return None;
    }
    var need := t.remaining;
    if !t.canSplit {
      return if need <= remaining then Some(need) else None;
    }
    var allocate := Min(need, remaining);
    return if allocate < SessionFloor(t) then None else Some(allocate);
  }

  /** `ahead` comes before what packing the rest yields. */
  function After(ahead: Packing, rest: Packing): Packing {
    Packing(ahead.items + rest.items, ahead.deferred + rest.deferred, rest.remaining)
  }

  method PlaceFlexible(ordered: seq<Keyed<Task>>, start: int, firstRank: int) returns (packing: Packing)
    ensures packing == PackFlexible(ordered, start, firstRank)
  {
    packing := Packing([], [], start);
    var rank := firstRank;
    for i := 0 to |ordered|
      invariant After(packing, PackFlexible(ordered[i..], packing.remaining, rank)) == PackFlexible(ordered, start, firstRank)
    {
      assert ordered[i..][1..] == ordered[i + 1..];
      var t := ordered[i].value;
      var minutes := Allocate(t, packing.remaining);
      if minutes == None {
        packing := packing.(deferred := packing.deferred + [Deferred(t.id, MinimumSessionUnfit)]);
        continue;
      }
      packing := packing.(items := packing.items + [ItemFor(t, rank, minutes.value)],
          remaining := packing.remaining - minutes.value);
      rank := rank + 1;
    }
  }

  /** `allocated_by_task`: minutes per task id over all items. */
  method SumByTask(items: seq<Item>) returns (byTask: map<Id, int>)
    ensures Tallied(byTask, items)
  {
    byTask := map[];
    for i := 0 to |items|
      invariant Tallied(byTask, items[..i])
    {
      assert items[..i + 1][..i] == items[..i];
      var id := items[i].taskId;
      byTask := byTask[id := (if id in byTask then byTask[id] else 0) + items[i].minutes];
    }
    assert items[..|items|] == items;
  }

  /** `byTask` holds what the items give each task. */
  ghost predicate Tallied(byTask: map<Id, int>, items: seq<Item>) {
    forall id :: (if id in byTask then byTask[id] else 0) == AllocatedTo(items, id)
  }

  method RiskOf(t: Task, byTask: map<Id, int>, ghost items: seq<Item>, forecast: seq<(Date, int)>, today: Date)
    returns (risk: seq<Conflict>)
    requires Tallied(byTask, items)
    ensures risk == var gap := RiskGap(t, items, forecast, today);
                    if gap.Some? then [Conflict(DeadlineRisk, [t.id], gap)] else []
  {
    var work := t.remaining - if t.id in byTask then byTask[t.id] else 0;
    if work <= 0 {
      return [];
    }
    var capacity := ForecastUntil(forecast, today, t.latest);
    return if capacity < work then [Conflict(DeadlineRisk, [t.id], Some(work - capacity))] else [];
  }

  method FindRisks(ordered: seq<Keyed<Task>>, items: seq<Item>, forecast: seq<(Date, int)>, today: Date)
    returns (conflicts: seq<Conflict>, proposals: seq<Proposal>)
    ensures conflicts == Risks(ordered, items, forecast, today) && proposals == RiskProposals(conflicts)
  {
    var byTask := SumByTask(items);
    conflicts, proposals := [], [];
    for i := 0 to |ordered|
      invariant conflicts == Risks(ordered[..i], items, forecast, today) && proposals == RiskProposals(conflicts)
    {
      var risk := RiskOf(ordered[i].value, byTask, items, forecast, today);
      assert ordered[..i + 1] == ordered[..i] + [ordered[i]];
      RisksPush(ordered[..i], ordered[i], items, forecast, today);
      RiskProposalsConcat(conflicts, risk);
      conflicts := conflicts + risk;
      if risk != [] {
        proposals := proposals + [DeadlineExtension(ordered[i].value.id)];
      }
    }
    assert ordered[..|ordered|] == ordered;
  }

  lemma {:induction false} RisksPush(ts: seq<Keyed<Task>>, t: Keyed<Task>, items: seq<Item>, forecast: seq<(Date,
      int)>, today: Date)
    ensures Risks(ts + [t], items, forecast, today)
            == Risks(ts, items, forecast, today) + Risks([t], items, forecast, today)
  {
    if ts == [] {
      assert ts + [t] == [t];
    } else {
      RisksPush(ts[1..], t, items, forecast, today);
      assert (ts + [t])[1..] == ts[1..] + [t];
    }
  }

  lemma RiskProposalsCons(c: Conflict, rest: seq<Conflict>)
    ensures RiskProposals([c] + rest) == ExtensionsOf(c) + RiskProposals(rest)
  {
    assert ([c] + rest)[1..] == rest;
  }

  lemma Regroup<T>(a: seq<T>, b: seq<T>, c: seq<T>)
    ensures (a + b) + c == a + (b + c)
  {
  }

  lemma {:induction false} RiskProposalsConcat(a: seq<Conflict>, b: seq<Conflict>)
    ensures RiskProposals(a + b) == RiskProposals(a) + RiskProposals(b)
  {
    if a == [] {
      assert a + b == b;
    } else {
      var c, rest := a[0], a[1..];
      assert a == [c] + rest;
      RiskProposalsConcat(rest, b);
      RiskProposalsCons(c, rest);
      RiskProposalsCons(c, rest + b);
      Regroup([c], rest, b);
      Regroup(ExtensionsOf(c), RiskProposals(rest), RiskProposals(b));
    }
  }

  method PlanNormally(s: Snapshot, day: Day, mandatory: seq<Task>, overdue: seq<Task>, blocked: seq<Task>,
      flexible: seq<Task>)
    returns (plan: Plan)
    requires day == DayOf(s)
    requires mandatory == Select(s.tasks, day, Mandatory) && overdue == Select(s.tasks, day, Overdue)
    requires blocked == Select(s.tasks, day, Blocked) && flexible == Select(s.tasks, day, Flexible)
    ensures plan == NormalPlan(s)
  {
    var fixed, remaining, rank := PlaceMandatory(SortedMandatory(mandatory, day), day, StartCapacity(s));
    var ordered := SortedFlexible(flexible, day, StartCapacity(s));
    var packing := PlaceFlexible(ordered, remaining, rank);
    assert packing == FlexiblePacking(s);
    var items := fixed + packing.items;
    assert items == NormalItems(s);
    var conflicts := WeeklyConflicts(WeeklyGap(s.goals), s.weeklyRemaining, Unscheduled(ordered, ItemIds(items)))
                     + Map(OverdueConflict, overdue);
    var risks, extensions := FindRisks(ordered, items, s.forecast, s.localDate);
    conflicts := conflicts + risks;
    assert conflicts == NormalConflicts(s);
    plan := Plan(if conflicts != [] then Conflicted else Ready,
                 Capacity(s.basis, s.quota, s.spent, Reserved(items), packing.remaining),
                 items, Map(BlockedDeferral, blocked) + packing.deferred, conflicts,
                 Map(ExtensionFor, overdue) + extensions);
  }

  method CalculateAgenda(s: Snapshot) returns (plan: Plan)
    requires WellFormed(s)
    ensures plan == Agenda(s)
  {
    var goals := IndexGoals(s.goals);
    var day := Day(s.localDate, s.mustDo, s.locked, goals);
    var start := StartCapacity(s);
    var mandatory, overdue, blocked, flexible := ClassifyAll(s, day);
    var total := DemandTotal(mandatory, day);
    if total > start {
      return Plan(Conflicted, Capacity(s.basis, s.quota, s.spent, 0, start), [], Map(OverflowDeferral, flexible),
                  [Conflict(MandatoryCapacityConflict, Map(TaskId, mandatory), Some(total - start))], []);
    }
    plan := PlanNormally(s, day, mandatory, overdue, blocked, flexible);
  }
}
