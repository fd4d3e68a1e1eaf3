/** Which tasks the scheduler reports as unable to meet their date, and when it finds the week too full. */
module EngineRisks {
  import opened Prelude
  import opened Tasks
  import opened Ordering
  import opened Engine
  import opened EngineProofs
  import opened EnginePlans
  import opened EnginePriority

  // ----- deadline risk -----

  /** The task is past its date, or what today's plan leaves of it does not fit before its date. */
  predicate CannotFinish(s: Snapshot, t: Task) {
    var left := t.remaining - AllocatedTo(Agenda(s).items, t.id);
    || Classify(t, DayOf(s)) == Overdue
    || (Classify(t, DayOf(s)) == Flexible && left > 0 && left > ForecastUntil(s.forecast, s.localDate, t.latest))
  }

  ghost predicate ReportsRisk(conflicts: seq<Conflict>, id: Id) {
    exists c :: c in conflicts && c.code == DeadlineRisk && c.taskIds == [id]
  }

  lemma {:induction false} RisksReported(ts: seq<Keyed<Task>>, items: seq<Item>, forecast: seq<(Date, int)>,
      today: Date, id: Id)
    ensures ReportsRisk(Risks(ts, items, forecast, today), id)
            <==> exists i :: 0 <= i < |ts| && ts[i].value.id == id && RiskGap(ts[i].value, items, forecast, today).Some?
  {
    if ts != [] {
      var t, rest := ts[0].value, Risks(ts[1..], items, forecast, today);
      RisksReported(ts[1..], items, forecast, today, id);
      var gap := RiskGap(t, items, forecast, today);
      ReportsConcat(if gap.Some? then [Conflict(DeadlineRisk, [t.id], gap)] else [], rest, id);
      if i :| 0 <= i < |ts[1..]| && ts[1..][i].value.id == id && RiskGap(ts[1..][i].value, items, forecast, today).Some? {
        assert ts[i + 1] == ts[1..][i];
      }
      if RiskGap(t, items, forecast, today).Some? && t.id == id {
        assert [t.id] == [id];
        assert Conflict(DeadlineRisk, [t.id], RiskGap(t, items, forecast, today)) in Risks(ts, items, forecast, today);
      }
    }
  }

  lemma ReportsConcat(a: seq<Conflict>, b: seq<Conflict>, id: Id)
    ensures ReportsRisk(a + b, id) <==> ReportsRisk(a, id) || ReportsRisk(b, id)
  {
  }

  lemma OverdueReported(ts: seq<Task>, id: Id)
    ensures ReportsRisk(Map(OverdueConflict, ts), id) <==> exists t :: t in ts && t.id == id
  {
    var cs := Map(OverdueConflict, ts);
    if c :| c in cs && c.code == DeadlineRisk && c.taskIds == [id] {
      var i :| 0 <= i < |cs| && cs[i] == c;
      assert ts[i] in ts && [ts[i].id][0] == [id][0];
    }
    if t :| t in ts && t.id == id {
      var i :| 0 <= i < |ts| && ts[i] == t;
      assert cs[i] in cs;
    }
  }

  lemma FlexibleRisk(s: Snapshot, t: Task)
    requires UniqueIds(s) && t in s.tasks
    ensures ReportsRisk(RisksOf(s), t.id)
            <==> Classify(t, DayOf(s)) == Flexible && RiskGap(t, NormalItems(s), s.forecast, s.localDate).Some?
  {
    var ts := FlexibleOrder(s);
    RisksReported(ts, NormalItems(s), s.forecast, s.localDate, t.id);
    forall i | 0 <= i < |ts| && ts[i].value.id == t.id
      ensures ts[i].value == t && Classify(t, DayOf(s)) == Flexible
    {
      FlexibleOrderMember(s, i);
      SelectMember(s.tasks, DayOf(s), Flexible, ts[i].value);
      SameIdSameTask(s, t, ts[i].value);
    }
    if Classify(t, DayOf(s)) == Flexible {
      SelectMember(s.tasks, DayOf(s), Flexible, t);
      SortedFlexibleIs(Select(s.tasks, DayOf(s), Flexible), DayOf(s), StartCapacity(s));
      assert t in multiset(Map(ValueOf, ts));
      var i := InValues(ts, t);
    }
  }

  /** Extensions are proposed for the tasks at risk and no others. */
  lemma {:induction false} ProposalsFollowRisks(ts: seq<Keyed<Task>>, items: seq<Item>, forecast: seq<(Date, int)>,
      today: Date, id: Id)
    ensures DeadlineExtension(id) in RiskProposals(Risks(ts, items, forecast, today))
            <==> ReportsRisk(Risks(ts, items, forecast, today), id)
  {
    if ts != [] {
      var t, rest := ts[0].value, Risks(ts[1..], items, forecast, today);
      var gap := RiskGap(t, items, forecast, today);
      var head := if gap.Some? then [Conflict(DeadlineRisk, [t.id], gap)] else [];
      ProposalsFollowRisks(ts[1..], items, forecast, today, id);
      ReportsConcat(head, rest, id);
      RiskProposalsConcat(head, rest);
      if head != [] {
        OneRisk(t.id, RiskGap(t, items, forecast, today), id);
      }
    }
  }

  lemma OneRisk(taskId: Id, gap: Option<int>, id: Id)
    ensures DeadlineExtension(id) in RiskProposals([Conflict(DeadlineRisk, [taskId], gap)]) <==> taskId == id
    ensures ReportsRisk([Conflict(DeadlineRisk, [taskId], gap)], id) <==> taskId == id
  {
    var c := Conflict(DeadlineRisk, [taskId], gap);
    assert RiskProposals([c]) == [DeadlineExtension(taskId)] by {
      assert [c][1..] == [];
    }
    assert c in [c] && ([taskId] == [id] <==> [taskId][0] == [id][0]);
  }

  lemma OverdueExtensions(ts: seq<Task>, id: Id)
    ensures DeadlineExtension(id) in Map(ExtensionFor, ts) <==> exists t :: t in ts && t.id == id
  {
    if t :| t in ts && t.id == id {
      var i :| 0 <= i < |ts| && ts[i] == t;
      assert Map(ExtensionFor, ts)[i] == DeadlineExtension(id);
    }
  }

  /** A deadline risk is reported, and an extension proposed, exactly for the tasks that cannot finish. */
  lemma DeadlineRiskExactly(s: Snapshot, t: Task)
    requires UniqueIds(s) && !Overflows(s) && t in s.tasks
    ensures ReportsRisk(Agenda(s).conflicts, t.id) <==> CannotFinish(s, t)
    ensures DeadlineExtension(t.id) in Agenda(s).proposals <==> CannotFinish(s, t)
    ensures CannotFinish(s, t) ==> Agenda(s).status == Conflicted
  {
    var overdue := Select(s.tasks, DayOf(s), Overdue);
    ReportsConcat(WeeklyConflictsOf(s) + Map(OverdueConflict, overdue), RisksOf(s), t.id);
    ReportsConcat(WeeklyConflictsOf(s), Map(OverdueConflict, overdue), t.id);
    OverdueReported(overdue, t.id);
    OverdueExtensions(overdue, t.id);
    ProposalsFollowRisks(FlexibleOrder(s), NormalItems(s), s.forecast, s.localDate, t.id);
    ClassHasId(s, t, Overdue);
    FlexibleRisk(s, t);
  }

  // ----- the week -----

  /** Minutes the week's plan asks of the goals that are not paused, and minutes they have had. */
  function UnpausedDemand(goals: seq<Goal>): int {
    if goals == [] then 0 else (if goals[0].paused then 0 else goals[0].weeklyDemand) + UnpausedDemand(goals[1..])
  }

  function UnpausedFulfilled(goals: seq<Goal>): int {
    if goals == [] then 0 else (if goals[0].paused then 0 else goals[0].weeklyFulfilled) + UnpausedFulfilled(goals[1..])
  }

  lemma {:induction false} GapIsDifference(goals: seq<Goal>)
    ensures WeeklyGap(goals) == UnpausedDemand(goals) - UnpausedFulfilled(goals)
  {
    if goals != [] {
      GapIsDifference(goals[1..]);
      assert Map(OpenGap, goals) == [OpenGap(goals[0])] + Map(OpenGap, goals[1..]);
      SumConcat([OpenGap(goals[0])], Map(OpenGap, goals[1..]));
      assert Sum([OpenGap(goals[0])]) == OpenGap(goals[0]);
    }
  }

  /** A flexible task that today's plan has no item for. */
  ghost predicate LeftOut(s: Snapshot, t: Task) {
    && t in s.tasks && Classify(t, DayOf(s)) == Flexible
    && forall item: Item :: item in Agenda(s).items ==> item.taskId != t.id
  }

  lemma {:induction false} UnscheduledMember(ts: seq<Keyed<Task>>, scheduled: set<Id>, id: Id)
    ensures id in Unscheduled(ts, scheduled) <==> id !in scheduled && exists i :: 0 <= i < |ts| && ts[i].value.id == id
  {
    if ts != [] {
      UnscheduledMember(ts[1..], scheduled, id);
      assert forall i :: 0 <= i < |ts[1..]| ==> ts[1..][i] == ts[i + 1];
      if i :| 0 <= i < |ts| && ts[i].value.id == id {
        assert i > 0 ==> ts[1..][i - 1] == ts[i];
      }
    }
  }

  lemma {:induction false} UnscheduledOnce(ts: seq<Keyed<Task>>, scheduled: set<Id>, id: Id)
    ensures multiset(Unscheduled(ts, scheduled))[id] <= ListingsOf(ts, id)
  {
    if ts != [] {
      UnscheduledOnce(ts[1..], scheduled, id);
      var head := if ts[0].value.id !in scheduled then [ts[0].value.id] else [];
      assert multiset(head + Unscheduled(ts[1..], scheduled)) == multiset(head) + multiset(Unscheduled(ts[1..], scheduled));
    }
  }

  lemma LeftOutIds(s: Snapshot, id: Id)
    requires !Overflows(s)
    ensures id in Unscheduled(FlexibleOrder(s), ItemIds(NormalItems(s))) <==> exists t :: LeftOut(s, t) && t.id == id
  {
    var ts := FlexibleOrder(s);
    UnscheduledMember(ts, ItemIds(NormalItems(s)), id);
    if id !in ItemIds(NormalItems(s)) {
      if i :| 0 <= i < |ts| && ts[i].value.id == id {
        FlexibleOrderMember(s, i);
        assert LeftOut(s, ts[i].value) by {
          NoItemNamed(NormalItems(s), id);
        }
      }
    }
    if t :| LeftOut(s, t) && t.id == id {
      NoItemNamed(NormalItems(s), id);
      var i := PositionOf(s, t);
    }
  }

  lemma NoItemNamed(items: seq<Item>, id: Id)
    ensures id !in ItemIds(items) <==> forall item: Item :: item in items ==> item.taskId != id
  {
    if id in ItemIds(items) {
      var i :| 0 <= i < |items| && items[i].taskId == id;
      assert items[i] in items;
    }
  }

  /** The conflict that reports this much too much for the week, with exactly the tasks left out today. */
  ghost predicate ReportsWeek(s: Snapshot, c: Conflict, excess: int) {
    && c.code == WeeklyCapacityConflict && c.gap == Some(excess)
    && (forall id :: id in c.taskIds <==> exists t :: LeftOut(s, t) && t.id == id)
    && (forall i, j :: 0 <= i < j < |c.taskIds| ==> c.taskIds[i] != c.taskIds[j])
  }

  lemma WeekReported(s: Snapshot, excess: int)
    requires UniqueIds(s) && !Overflows(s)
    ensures var ids := Unscheduled(FlexibleOrder(s), ItemIds(NormalItems(s)));
            ReportsWeek(s, Conflict(WeeklyCapacityConflict, ids, Some(excess)), excess)
  {
    var ids := Unscheduled(FlexibleOrder(s), ItemIds(NormalItems(s)));
    forall id
      ensures id in ids <==> exists t :: LeftOut(s, t) && t.id == id
    {
      LeftOutIds(s, id);
    }
    forall i, j | 0 <= i < j < |ids|
      ensures ids[i] != ids[j]
    {
      UnscheduledOnce(FlexibleOrder(s), ItemIds(NormalItems(s)), ids[j]);
      ListedOnce(s, ids[j]);
      OccursTwice(ids, i, j);
    }
  }

  /** The week is reported as too full exactly if there is an excess: once, first of all, with that gap. */
  ghost predicate WeekReportedAs(s: Snapshot, excess: int) {
    var conflicts := Agenda(s).conflicts;
    && (excess > 0 ==> conflicts != [] && ReportsWeek(s, conflicts[0], excess) && Agenda(s).status == Conflicted)
    && (forall i :: 0 <= i < |conflicts| && conflicts[i].code == WeeklyCapacityConflict ==> i == 0 && excess > 0)
  }

  /** Without a mandatory overflow the week is reported as too full exactly if the goals that are not paused
      still lack more minutes than the week has left: once, with the difference, and naming the tasks left out. */
  lemma WeeklyConflictExactly(s: Snapshot)
    requires UniqueIds(s) && !Overflows(s)
    ensures WeekReportedAs(s, UnpausedDemand(s.goals) - UnpausedFulfilled(s.goals) - s.weeklyRemaining)
  {
    var excess := UnpausedDemand(s.goals) - UnpausedFulfilled(s.goals) - s.weeklyRemaining;
    GapIsDifference(s.goals);
    WeekReported(s, excess);
    RestIsNotWeekly(s);
  }

  lemma RestIsNotWeekly(s: Snapshot)
    ensures var rest := Map(OverdueConflict, Select(s.tasks, DayOf(s), Overdue)) + RisksOf(s);
            && (forall i :: 0 <= i < |rest| ==> rest[i].code == DeadlineRisk)
            && NormalConflicts(s) == WeeklyConflictsOf(s) + rest
  {
    RisksAreDeadlines(FlexibleOrder(s), NormalItems(s), s.forecast, s.localDate);
    var overdue := Map(OverdueConflict, Select(s.tasks, DayOf(s), Overdue));
    Regroup(WeeklyConflictsOf(s), overdue, RisksOf(s));
  }

  lemma {:induction false} RisksAreDeadlines(ts: seq<Keyed<Task>>, items: seq<Item>, forecast: seq<(Date, int)>, today: Date)
    ensures forall i :: 0 <= i < |Risks(ts, items, forecast, today)| ==> Risks(ts, items, forecast, today)[i].code == DeadlineRisk
  {
    if ts != [] {
      RisksAreDeadlines(ts[1..], items, forecast, today);
    }
  }

  // ----- the mandatory tasks do not fit -----

  /** Too much is mandatory: nothing is planned, the one conflict names the mandatory tasks and by how much
      they exceed the day, and every flexible task is put off for that reason. */
  lemma OverflowExit(s: Snapshot, t: Task)
    requires UniqueIds(s) && Overflows(s) && t in s.tasks
    ensures var p := Agenda(s);
            && p.items == [] && p.proposals == [] && p.status == Conflicted
            && p.capacity.reserved == 0 && p.capacity.remaining == StartCapacity(s)
            && |p.conflicts| == 1 && p.conflicts[0].code == MandatoryCapacityConflict
            && p.conflicts[0].gap == Some(MandatoryDemand(s) - StartCapacity(s))
            && (t.id in p.conflicts[0].taskIds <==> Classify(t, DayOf(s)) == Mandatory)
            && (Deferred(t.id, MandatoryCapacityConflict) in p.deferred <==> Classify(t, DayOf(s)) == Flexible)
            && (forall d :: d in p.deferred ==> d.reason == MandatoryCapacityConflict)
  {
    var mandatory, flexible := Select(s.tasks, DayOf(s), Mandatory), Select(s.tasks, DayOf(s), Flexible);
    ClassHasId(s, t, Mandatory);
    ClassHasId(s, t, Flexible);
    IdListed(mandatory, t.id);
    DeferralListed(flexible, t.id);
  }

  lemma IdListed(ts: seq<Task>, id: Id)
    ensures id in Map(TaskId, ts) <==> exists u :: u in ts && u.id == id
  {
    if u :| u in ts && u.id == id {
      var i :| 0 <= i < |ts| && ts[i] == u;
      assert Map(TaskId, ts)[i] == id;
    }
    if id in Map(TaskId, ts) {
      var i :| 0 <= i < |ts| && Map(TaskId, ts)[i] == id;
      assert ts[i] in ts;
    }
  }

  lemma DeferralListed(ts: seq<Task>, id: Id)
    ensures Deferred(id, MandatoryCapacityConflict) in Map(OverflowDeferral, ts) <==> exists u :: u in ts && u.id == id
  {
    if u :| u in ts && u.id == id {
      var i :| 0 <= i < |ts| && ts[i] == u;
      assert Map(OverflowDeferral, ts)[i] == Deferred(id, MandatoryCapacityConflict);
    }
    if Deferred(id, MandatoryCapacityConflict) in Map(OverflowDeferral, ts) {
      var i :| 0 <= i < |ts| && Map(OverflowDeferral, ts)[i] == Deferred(id, MandatoryCapacityConflict);
      assert ts[i] in ts;
    }
  }

  // ----- classes -----

  /** The class of a task, by what a reader of the calendar would check. */
  lemma ClassesExactly(t: Task, day: Day)
    requires t.goalId in day.goals && !day.goals[t.goalId].paused
    ensures Classify(t, day) == Mandatory <==>
      || t.execution == InProgress
      || (t.execution == Pending && (t.id in day.mustDo || t.id in day.locked || t.latest == day.date))
    ensures Classify(t, day) == Overdue <==>
      t.execution == Pending && t.id !in day.mustDo && t.id !in day.locked && t.latest < day.date
    ensures Classify(t, day) == Flexible || Classify(t, day) == Blocked <==>
      t.execution == Pending && t.id !in day.mustDo && t.id !in day.locked && t.latest > day.date
      && (t.earliest.Some? ==> t.earliest.value <= day.date)
    ensures Classify(t, day) == Blocked ==> !t.dependencySatisfied
    ensures Classify(t, day) == Flexible ==> t.dependencySatisfied
  {
  }

  /** Only mandatory and flexible tasks get items. */
  lemma OthersGetNoItem(s: Snapshot, t: Task)
    requires UniqueIds(s) && t in s.tasks && Classify(t, DayOf(s)) != Mandatory && Classify(t, DayOf(s)) != Flexible
    ensures forall item: Item :: item in Agenda(s).items ==> item.taskId != t.id
  {
    if !Overflows(s) {
      ClassTally(s, t, Flexible);
      OnlyFlexiblePacked(s, t.id);
      forall item: Item | item in MandatoryItems(s)
        ensures item.taskId != t.id
      {
        MandatoryItemHasTask(s, item);
        ClassHasId(s, t, Mandatory);
      }
    }
  }

  /** Nothing of a paused goal, and nothing proposed, finished or cancelled, ever gets into a plan. */
  lemma OutsidersAreIgnored(s: Snapshot, t: Task)
    requires UniqueIds(s) && t in s.tasks
    requires t.goalId !in DayOf(s).goals || DayOf(s).goals[t.goalId].paused
             || (t.execution != Pending && t.execution != InProgress)
    ensures forall item: Item :: item in Agenda(s).items ==> item.taskId != t.id
    ensures forall d: Deferred :: d in Agenda(s).deferred ==> d.taskId != t.id
  {
    OthersGetNoItem(s, t);
    forall d: Deferred | d in Agenda(s).deferred
      ensures d.taskId != t.id
    {
      DeferredIsOpen(s, t, d);
    }
  }

  lemma DeferredIsOpen(s: Snapshot, t: Task, d: Deferred)
    requires UniqueIds(s) && t in s.tasks && d in Agenda(s).deferred
    requires Classify(t, DayOf(s)) != Flexible && Classify(t, DayOf(s)) != Blocked
    ensures d.taskId != t.id
  {
    var flexible := Select(s.tasks, DayOf(s), Flexible);
    ClassHasId(s, t, Flexible);
    if Overflows(s) {
      var i :| 0 <= i < |flexible| && Map(OverflowDeferral, flexible)[i] == d;
      assert flexible[i] in flexible;
    } else {
      ClassTally(s, t, Flexible);
      OnlyFlexiblePacked(s, t.id);
      if d in Map(BlockedDeferral, Select(s.tasks, DayOf(s), Blocked)) {
        DeferralHasTask(Select(s.tasks, DayOf(s), Blocked), d);
        ClassHasId(s, t, Blocked);
      }
    }
  }

  lemma {:induction false} PackingDefersAsUnfit(ts: seq<Keyed<Task>>, remaining: int, rank: int)
    ensures forall d :: d in PackFlexible(ts, remaining, rank).deferred ==> d.reason == MinimumSessionUnfit
  {
    if ts != [] {
      match Grant(ts[0].value, remaining) {
        case None => PackingDefersAsUnfit(ts[1..], remaining, rank);
        case Some(minutes) => PackingDefersAsUnfit(ts[1..], remaining - minutes, rank + 1);
      }
    }
  }

  /** Without overflow exactly the blocked tasks are put off for their dependencies. */
  lemma BlockedExactly(s: Snapshot, t: Task)
    requires UniqueIds(s) && t in s.tasks && !Overflows(s)
    ensures Deferred(t.id, DependencyBlocked) in Agenda(s).deferred <==> Classify(t, DayOf(s)) == Blocked
  {
    if Classify(t, DayOf(s)) == Blocked {
      BlockedDeferred(s, t);
    } else {
      PackingDefersAsUnfit(FlexibleOrder(s), FlexibleCapacity(s), FlexibleRank(s));
      NotDeferredAsBlocked(s, t, Deferred(t.id, DependencyBlocked));
    }
  }

  lemma MandatoryItemHasTask(s: Snapshot, item: Item)
    requires !Overflows(s) && item in MandatoryItems(s)
    ensures exists u :: u in Select(s.tasks, DayOf(s), Mandatory) && u.id == item.taskId
  {
    MandatoryFits(s);
    var i :| 0 <= i < |MandatoryItems(s)| && MandatoryItems(s)[i] == item;
    SortedMandatoryIs(Select(s.tasks, DayOf(s), Mandatory), DayOf(s));
    var values := Map(ValueOf, MandatoryOrder(s));
    assert values[i] in multiset(values);
  }
}
