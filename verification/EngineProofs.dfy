/** What the scheduler promises: order independence, sound and maximal packing, priority stability. */
module EngineProofs {
  import opened Prelude
  import opened Tasks
  import opened Ordering
  import opened Engine

  ghost predicate UniqueIds(s: Snapshot) {
    && (forall i, j :: 0 <= i < j < |s.tasks| ==> s.tasks[i].id != s.tasks[j].id)
    && (forall i, j :: 0 <= i < j < |s.goals| ==> s.goals[i].id != s.goals[j].id)
  }

  // ----- selection -----

  lemma {:induction false} SelectCount(ts: seq<Task>, day: Day, class_: Class, t: Task)
    ensures multiset(Select(ts, day, class_))[t] == if Classify(t, day) == class_ then multiset(ts)[t] else 0
  {
    if ts != [] {
      var front, last := ts[..|ts| - 1], ts[|ts| - 1];
      SelectCount(front, day, class_, t);
      assert ts == front + [last];
      assert multiset(ts) == multiset(front) + multiset{last};
      var head := Select(front, day, class_);
      assert multiset(head + [last]) == multiset(head) + multiset{last};
      if Classify(last, day) == class_ {
        assert Select(ts, day, class_) == head + [last];
      } else {
        assert Select(ts, day, class_) == head;
      }
    }
  }

  lemma SelectPermuted(a: seq<Task>, b: seq<Task>, day: Day, class_: Class)
    requires multiset(a) == multiset(b)
    ensures multiset(Select(a, day, class_)) == multiset(Select(b, day, class_))
  {
    forall t: Task
      ensures multiset(Select(a, day, class_))[t] == multiset(Select(b, day, class_))[t]
    {
      SelectCount(a, day, class_, t);
      SelectCount(b, day, class_, t);
    }
  }

  lemma SelectMember(ts: seq<Task>, day: Day, class_: Class, t: Task)
    ensures t in Select(ts, day, class_) <==> t in ts && Classify(t, day) == class_
  {
    SelectCount(ts, day, class_, t);
    assert t in Select(ts, day, class_) <==> t in multiset(Select(ts, day, class_));
    assert t in ts <==> t in multiset(ts);
  }

  ghost predicate DistinctTasks(ts: seq<Task>) {
    forall i, j :: 0 <= i < j < |ts| ==> ts[i].id != ts[j].id
  }

  lemma {:induction false} SelectDistinct(ts: seq<Task>, day: Day, class_: Class)
    requires DistinctTasks(ts)
    ensures DistinctTasks(Select(ts, day, class_))
  {
    if ts != [] {
      var last := |ts| - 1;
      SelectDistinct(ts[..last], day, class_);
      forall i | 0 <= i < |Select(ts[..last], day, class_)|
        ensures Select(ts[..last], day, class_)[i].id != ts[last].id
      {
        SelectMember(ts[..last], day, class_, Select(ts[..last], day, class_)[i]);
      }
    }
  }

  // ----- goals -----

  lemma {:induction false} GoalMapIs(goals: seq<Goal>)
    requires forall i, j :: 0 <= i < j < |goals| ==> goals[i].id != goals[j].id
    ensures forall i :: 0 <= i < |goals| ==> goals[i].id in GoalMap(goals) && GoalMap(goals)[goals[i].id] == goals[i]
    ensures forall id :: id in GoalMap(goals) ==> GoalMap(goals)[id] in goals && GoalMap(goals)[id].id == id
  {
    if goals != [] {
      GoalMapIs(goals[..|goals| - 1]);
    }
  }

  lemma GoalMapPermuted(a: seq<Goal>, b: seq<Goal>)
    requires multiset(a) == multiset(b)
    requires forall i, j :: 0 <= i < j < |a| ==> a[i].id != a[j].id
    requires forall i, j :: 0 <= i < j < |b| ==> b[i].id != b[j].id
    ensures GoalMap(a) == GoalMap(b)
  {
    GoalMapIs(a);
    GoalMapIs(b);
    forall g: Goal
      ensures g in a <==> g in b
    {
      assert g in multiset(a) <==> g in multiset(b);
    }
  }

  // ----- sorting tasks -----

  lemma UrgencyKeysDistinct(ts: seq<Task>, day: Day, start: int)
    requires DistinctTasks(ts)
    ensures DistinctKeys(Map(KeyedByUrgency(day, start), ts))
  {
  }

  lemma DemandKeysDistinct(ts: seq<Task>, day: Day)
    requires DistinctTasks(ts)
    ensures DistinctKeys(Map(KeyedByDemand(day), ts))
  {
  }

  lemma SortedFlexiblePermuted(a: seq<Task>, b: seq<Task>, day: Day, start: int)
    requires multiset(a) == multiset(b) && DistinctTasks(a)
    ensures SortedFlexible(a, day, start) == SortedFlexible(b, day, start)
  {
    MapPermuted(KeyedByUrgency(day, start), a, b);
    UrgencyKeysDistinct(a, day, start);
    SortPermuted(Map(KeyedByUrgency(day, start), a), Map(KeyedByUrgency(day, start), b));
  }

  lemma SortedMandatoryPermuted(a: seq<Task>, b: seq<Task>, day: Day)
    requires multiset(a) == multiset(b) && DistinctTasks(a)
    ensures SortedMandatory(a, day) == SortedMandatory(b, day)
  {
    MapPermuted(KeyedByDemand(day), a, b);
    DemandKeysDistinct(a, day);
    SortPermuted(Map(KeyedByDemand(day), a), Map(KeyedByDemand(day), b));
  }

  lemma DemandTotalPermuted(a: seq<Task>, b: seq<Task>, day: Day)
    requires multiset(a) == multiset(b)
    ensures DemandTotal(a, day) == DemandTotal(b, day)
  {
    MapPermuted(PositiveDemand(day), a, b);
    SumPermuted(Map(PositiveDemand(day), a), Map(PositiveDemand(day), b));
  }

  // ----- the priority rule -----

  /** One value is within a bound that the other exceeds. */
  predicate Within(x: int, y: int, bound: int) {
    x <= bound < y
  }

  predicate SoonerDeadline(t: Task, u: Task, today: Date) {
    Within(t.latest - today, u.latest - today, 2) || Within(t.latest - today, u.latest - today, 7)
  }

  predicate WiderGap(g: Goal, h: Goal) {
    var x, y := g.weeklyDemand - g.weeklyFulfilled, h.weeklyDemand - h.weeklyFulfilled;
    x >= 60 > y || x > 0 >= y
  }

  predicate Starving(t: Task) {
    t.unscheduledDays >= 3
  }

  /** The rule in words: the first criterion that tells two tasks apart decides, the ids last of all. */
  predicate GoesFirst(t: Task, g: Goal, u: Task, h: Goal, today: Date, start: int) {
    if SoonerDeadline(t, u, today) || SoonerDeadline(u, t, today) then SoonerDeadline(t, u, today)
    else if WiderGap(g, h) || WiderGap(h, g) then WiderGap(g, h)
    else if Starving(t) != Starving(u) then Starving(t)
    else if g.focus != h.focus then g.focus
    else if g.rank != h.rank then g.rank < h.rank
    else if t.unscheduledDays != u.unscheduledDays then t.unscheduledDays > u.unscheduledDays
    else if (t.remaining <= start) != (u.remaining <= start) then t.remaining <= start
    else if g.id != h.id then StringLess(g.id, h.id)
    else StringLess(t.id, u.id)
  }

  /** From position i on, the first difference decides. */
  predicate FirstDifference(a: seq<int>, b: seq<int>, i: nat)
    requires |a| == |b| && i <= |a|
    decreases |a| - i
  {
    i < |a| && if a[i] != b[i] then a[i] < b[i] else FirstDifference(a, b, i + 1)
  }

  lemma {:induction false} LexIsFirstDifference(a: seq<int>, b: seq<int>, i: nat)
    requires |a| == |b| && i <= |a|
    ensures LexLess(a[i..], b[i..]) <==> FirstDifference(a, b, i)
    decreases |a| - i
  {
    if i < |a| {
      assert a[i..][1..] == a[i + 1..] && b[i..][1..] == b[i + 1..];
      LexIsFirstDifference(a, b, i + 1);
    }
  }

  lemma SevenNumbers(a: seq<int>, b: seq<int>)
    requires |a| == |b| == 7
    ensures LexLess(a, b) <==>
      if a[0] != b[0] then a[0] < b[0] else if a[1] != b[1] then a[1] < b[1] else if a[2] != b[2] then a[2] < b[2]
      else if a[3] != b[3] then a[3] < b[3] else if a[4] != b[4] then a[4] < b[4] else if a[5] != b[5] then a[5] < b[5]
      else a[6] < b[6]
  {
    LexIsFirstDifference(a, b, 0);
    assert a[0..] == a && b[0..] == b;
    assert !FirstDifference(a, b, 7);
    assert FirstDifference(a, b, 5) <==> if a[5] != b[5] then a[5] < b[5] else a[6] < b[6];
    assert FirstDifference(a, b, 3)
           <==> if a[3] != b[3] then a[3] < b[3] else if a[4] != b[4] then a[4] < b[4] else FirstDifference(a, b, 5);
    assert FirstDifference(a, b, 1)
           <==> if a[1] != b[1] then a[1] < b[1] else if a[2] != b[2] then a[2] < b[2] else FirstDifference(a, b, 3);
  }

  /** The nine-part sort key orders flexible tasks exactly by the rule. */
  lemma UrgencyKeyMeansGoesFirst(t: Task, u: Task, day: Day, start: int)
    requires t.goalId in day.goals && u.goalId in day.goals
    ensures KeyLess(UrgencyKey(t, day, start), UrgencyKey(u, day, start))
            <==> GoesFirst(t, day.goals[t.goalId], u, day.goals[u.goalId], day.date, start)
  {
    var k, l := UrgencyKey(t, day, start), UrgencyKey(u, day, start);
    SevenNumbers(k.nums, l.nums);
    TiersAreBounds(t.latest - day.date, u.latest - day.date);
    GapTiersAreBounds(day.goals[t.goalId], day.goals[u.goalId]);
    LexIrreflexive(Codes(k.goalId));
    assert k.nums == l.nums <==> forall i :: 0 <= i < 7 ==> k.nums[i] == l.nums[i];
  }

  lemma TiersAreBounds(x: int, y: int)
    ensures Tier(x) < Tier(y) <==> Within(x, y, 2) || Within(x, y, 7)
    ensures Tier(y) < Tier(x) <==> Within(y, x, 2) || Within(y, x, 7)
  {
  }

  lemma GapTiersAreBounds(g: Goal, h: Goal)
    ensures GapTier(g.weeklyDemand - g.weeklyFulfilled) < GapTier(h.weeklyDemand - h.weeklyFulfilled) <==> WiderGap(g, h)
    ensures GapTier(h.weeklyDemand - h.weeklyFulfilled) < GapTier(g.weeklyDemand - g.weeklyFulfilled) <==> WiderGap(h, g)
  {
  }

  // ----- order independence -----

  /** The same snapshot with its tasks and its goals listed in some other order. */
  ghost predicate Reordered(s: Snapshot, s': Snapshot) {
    && s' == s.(tasks := s'.tasks, goals := s'.goals)
    && multiset(s'.tasks) == multiset(s.tasks) && multiset(s'.goals) == multiset(s.goals)
    && UniqueIds(s) && UniqueIds(s')
  }

  lemma ReorderedSelections(s: Snapshot, s': Snapshot, class_: Class)
    requires Reordered(s, s')
    ensures DayOf(s') == DayOf(s)
    ensures multiset(Select(s'.tasks, DayOf(s'), class_)) == multiset(Select(s.tasks, DayOf(s), class_))
    ensures DistinctTasks(Select(s.tasks, DayOf(s), class_)) && DistinctTasks(Select(s'.tasks, DayOf(s'), class_))
  {
    GoalMapPermuted(s.goals, s'.goals);
    SelectPermuted(s.tasks, s'.tasks, DayOf(s), class_);
    SelectDistinct(s.tasks, DayOf(s), class_);
    SelectDistinct(s'.tasks, DayOf(s'), class_);
  }

  lemma ReorderedMandatory(s: Snapshot, s': Snapshot)
    requires Reordered(s, s')
    ensures MandatoryItems(s') == MandatoryItems(s)
  {
    ReorderedSelections(s, s', Mandatory);
    var day := DayOf(s);
    SortedMandatoryPermuted(Select(s.tasks, day, Mandatory), Select(s'.tasks, day, Mandatory), day);
  }

  lemma ReorderedDemand(s: Snapshot, s': Snapshot)
    requires Reordered(s, s')
    ensures MandatoryDemand(s') == MandatoryDemand(s) && StartCapacity(s') == StartCapacity(s)
    ensures Overflows(s') <==> Overflows(s)
  {
    ReorderedSelections(s, s', Mandatory);
    SameDemand(s, s');
  }

  lemma SameDemand(s: Snapshot, s': Snapshot)
    requires s' == s.(tasks := s'.tasks, goals := s'.goals) && DayOf(s') == DayOf(s)
    requires multiset(Select(s'.tasks, DayOf(s'), Mandatory)) == multiset(Select(s.tasks, DayOf(s), Mandatory))
    ensures MandatoryDemand(s') == MandatoryDemand(s) && StartCapacity(s') == StartCapacity(s)
    ensures Overflows(s') <==> Overflows(s)
  {
    DemandTotalPermuted(Select(s.tasks, DayOf(s), Mandatory), Select(s'.tasks, DayOf(s'), Mandatory), DayOf(s));
  }

  lemma ReorderedFlexible(s: Snapshot, s': Snapshot)
    requires Reordered(s, s')
    ensures FlexibleOrder(s') == FlexibleOrder(s)
  {
    ReorderedSelections(s, s', Flexible);
    var day := DayOf(s);
    SortedFlexiblePermuted(Select(s.tasks, day, Flexible), Select(s'.tasks, day, Flexible), day, StartCapacity(s));
  }

  lemma WeeklyGapPermuted(a: seq<Goal>, b: seq<Goal>)
    requires multiset(a) == multiset(b)
    ensures WeeklyGap(a) == WeeklyGap(b)
  {
    MapPermuted(OpenGap, a, b);
    SumPermuted(Map(OpenGap, a), Map(OpenGap, b));
  }

  lemma ReorderedItems(s: Snapshot, s': Snapshot)
    requires Reordered(s, s')
    ensures FlexiblePacking(s') == FlexiblePacking(s) && NormalItems(s') == NormalItems(s)
  {
    ReorderedMandatory(s, s');
    ReorderedFlexible(s, s');
    ReorderedDemand(s, s');
    SameItems(s, s');
  }

  lemma SameItems(s: Snapshot, s': Snapshot)
    requires MandatoryItems(s') == MandatoryItems(s) && FlexibleOrder(s') == FlexibleOrder(s) && StartCapacity(s') == StartCapacity(s)
    ensures FlexiblePacking(s') == FlexiblePacking(s) && NormalItems(s') == NormalItems(s)
  {
    assert FlexibleCapacity(s') == FlexibleCapacity(s) && FlexibleRank(s') == FlexibleRank(s);
  }

  lemma ReorderedPacking(s: Snapshot, s': Snapshot)
    requires Reordered(s, s')
    ensures NormalItems(s') == NormalItems(s) && FlexiblePacking(s') == FlexiblePacking(s)
    ensures RisksOf(s') == RisksOf(s)
    ensures WeeklyConflictsOf(s') == WeeklyConflictsOf(s)
  {
    ReorderedItems(s, s');
    ReorderedFlexible(s, s');
    WeeklyGapPermuted(s.goals, s'.goals);
  }

  lemma ReorderedDeferrals(s: Snapshot, s': Snapshot)
    requires Reordered(s, s')
    ensures multiset(NormalDeferrals(s')) == multiset(NormalDeferrals(s))
    ensures multiset(OverflowPlan(s').deferred) == multiset(OverflowPlan(s).deferred)
  {
    ReorderedPacking(s, s');
    ReorderedSelections(s, s', Blocked);
    ReorderedSelections(s, s', Flexible);
    MapPermuted(BlockedDeferral, Select(s.tasks, DayOf(s), Blocked), Select(s'.tasks, DayOf(s'), Blocked));
    MapPermuted(OverflowDeferral, Select(s.tasks, DayOf(s), Flexible), Select(s'.tasks, DayOf(s'), Flexible));
  }

  lemma ReorderedConflicts(s: Snapshot, s': Snapshot)
    requires Reordered(s, s')
    ensures multiset(NormalConflicts(s')) == multiset(NormalConflicts(s))
    ensures NormalConflicts(s') == [] <==> NormalConflicts(s) == []
    ensures multiset(NormalPlan(s').proposals) == multiset(NormalPlan(s).proposals)
  {
    ReorderedPacking(s, s');
    ReorderedSelections(s, s', Overdue);
    var a, b := Select(s.tasks, DayOf(s), Overdue), Select(s'.tasks, DayOf(s'), Overdue);
    MapPermuted(OverdueConflict, a, b);
    MapPermuted(ExtensionFor, a, b);
    assert |NormalConflicts(s')| == |multiset(NormalConflicts(s'))|;
    assert |NormalConflicts(s)| == |multiset(NormalConflicts(s))|;
  }

  /** The order in which tasks and goals are listed decides nothing: same exit, same items with the same
      ranks and minutes, same capacity, and the same deferrals, proposals and (in the normal exit)
      conflicts up to order. */
  lemma PlanIgnoresListingOrder(s: Snapshot, s': Snapshot)
    requires Reordered(s, s')
    ensures var p, p' := Agenda(s), Agenda(s');
            && p'.items == p.items && p'.capacity == p.capacity && p'.status == p.status
            && multiset(p'.deferred) == multiset(p.deferred)
            && multiset(p'.proposals) == multiset(p.proposals)
            && (!Overflows(s) ==> multiset(p'.conflicts) == multiset(p.conflicts))
  {
    ReorderedDemand(s, s');
    ReorderedDeferrals(s, s');
    if !Overflows(s) {
      ReorderedPacking(s, s');
      ReorderedConflicts(s, s');
    }
  }

  lemma {:induction false} SameIdsSameTasks(a: seq<Task>, b: seq<Task>)
    requires DistinctTasks(a) && multiset(a) == multiset(b) && Map(TaskId, a) == Map(TaskId, b)
    ensures a == b
  {
    assert |a| == |Map(TaskId, a)| == |Map(TaskId, b)| == |b|;
    forall i | 0 <= i < |a|
      ensures a[i] == b[i]
    {
      assert b[i] in multiset(a);
      var j :| 0 <= j < |a| && a[j] == b[i];
      assert a[i].id == Map(TaskId, a)[i] == Map(TaskId, b)[i] == a[j].id;
    }
  }

  lemma ReorderedGap(s: Snapshot, s': Snapshot)
    requires Reordered(s, s')
    ensures CapacityConflict(s').gap == CapacityConflict(s).gap
  {
    ReorderedDemand(s, s');
  }

  lemma ReorderedCapacityConflict(s: Snapshot, s': Snapshot)
    requires Reordered(s, s')
    ensures CapacityConflict(s') == CapacityConflict(s)
            <==> Select(s'.tasks, DayOf(s'), Mandatory) == Select(s.tasks, DayOf(s), Mandatory)
    ensures multiset(CapacityConflict(s').taskIds) == multiset(CapacityConflict(s).taskIds)
  {
    ReorderedGap(s, s');
    ReorderedSelections(s, s', Mandatory);
    IdsTellTasksApart(Select(s.tasks, DayOf(s), Mandatory), Select(s'.tasks, DayOf(s'), Mandatory));
    var c, c' := CapacityConflict(s), CapacityConflict(s');
    assert c'.code == c.code && c'.gap == c.gap;
    assert c' == c <==> c'.taskIds == c.taskIds;
  }

  lemma IdsTellTasksApart(a: seq<Task>, b: seq<Task>)
    requires DistinctTasks(a) && multiset(a) == multiset(b)
    ensures Map(TaskId, a) == Map(TaskId, b) <==> a == b
    ensures multiset(Map(TaskId, a)) == multiset(Map(TaskId, b))
  {
    MapPermuted(TaskId, a, b);
    if Map(TaskId, a) == Map(TaskId, b) {
      SameIdsSameTasks(a, b);
    }
  }

  /** The one trace of the listing order: the capacity conflict names the mandatory tasks as listed. So in
      that exit two listings report the same conflicts exactly when they list the mandatory tasks alike. */
  lemma OverflowConflictFollowsListing(s: Snapshot, s': Snapshot)
    requires Reordered(s, s') && Overflows(s)
    ensures multiset(Agenda(s').conflicts) == multiset(Agenda(s).conflicts)
            <==> Select(s'.tasks, DayOf(s'), Mandatory) == Select(s.tasks, DayOf(s), Mandatory)
    ensures Agenda(s).conflicts == [CapacityConflict(s)] && Agenda(s').conflicts == [CapacityConflict(s')]
    ensures CapacityConflict(s').gap == CapacityConflict(s).gap
    ensures multiset(CapacityConflict(s').taskIds) == multiset(CapacityConflict(s).taskIds)
  {
    ReorderedDemand(s, s');
    ReorderedGap(s, s');
    ReorderedCapacityConflict(s, s');
    OneElement(CapacityConflict(s), CapacityConflict(s'));
  }

  lemma OneElement<T>(c: T, c': T)
    ensures multiset([c']) == multiset([c]) <==> c' == c
  {
    assert c in multiset([c]) && c' in multiset([c']);
  }

  lemma SelectTwo(t: Task, u: Task, day: Day, class_: Class)
    requires Classify(t, day) == class_ && Classify(u, day) == class_
    ensures Select([t, u], day, class_) == [t, u]
  {
    assert [t, u][..1] == [t] && [t][..0] == [];
    assert Select([t], day, class_) == [t];
  }

  /** A pending task on its last day. */
  function LastDayTask(id: Id): Task {
    Task(id, "spec", "g", Pending, 30, false, None, None, 0, true, None, 0)
  }

  function Crowded(first: Id, second: Id): Snapshot {
    Snapshot(0, Total, 0, 0, 0, [], [Goal("g", false, false, 1, 0, 0)], [LastDayTask(first), LastDayTask(second)], {}, {})
  }

  lemma CrowdedOverflows(first: Id, second: Id)
    ensures Select(Crowded(first, second).tasks, DayOf(Crowded(first, second)), Mandatory) == [LastDayTask(first), LastDayTask(second)]
    ensures Overflows(Crowded(first, second))
  {
    var s, t, u := Crowded(first, second), LastDayTask(first), LastDayTask(second);
    assert s.goals[..0] == [];
    SelectTwo(t, u, DayOf(s), Mandatory);
    assert Map(PositiveDemand(DayOf(s)), [t, u]) == [30, 30] && [30, 30][1..] == [30];
  }

  lemma CrowdedReordered(first: Id, second: Id)
    requires first != second
    ensures Reordered(Crowded(first, second), Crowded(second, first))
  {
    var t, u := LastDayTask(first), LastDayTask(second);
    assert multiset([u, t]) == multiset([t, u]);
  }

  /** Two tasks on their last day and no time for either: swapping them swaps the ids in the conflict. */
  lemma OverflowConflictFollowsListingExample()
    ensures Reordered(Crowded("a", "b"), Crowded("b", "a"))
    ensures multiset(Agenda(Crowded("b", "a")).conflicts) != multiset(Agenda(Crowded("a", "b")).conflicts)
  {
    CrowdedOverflows("a", "b");
    CrowdedOverflows("b", "a");
    CrowdedReordered("a", "b");
    OverflowConflictFollowsListing(Crowded("a", "b"), Crowded("b", "a"));
    assert LastDayTask("a").id != LastDayTask("b").id;
    assert [LastDayTask("a"), LastDayTask("b")][0] != [LastDayTask("b"), LastDayTask("a")][0];
  }

  // ----- packing -----

  ghost predicate MinutesSane(s: Snapshot) {
    forall i :: 0 <= i < |s.tasks| ==> s.tasks[i].remaining >= 0
  }

  /** Long enough for one session: the task's own minimum, or a quarter of an hour. */
  predicate MeetsFloor(t: Task, minutes: int) {
    minutes >= if t.minimumSession.Some? then t.minimumSession.value else 15
  }

  /** What a task that got nothing would need in order to use `left` minutes. */
  predicate CouldUse(t: Task, left: int) {
    left > 0 && (if t.canSplit then MeetsFloor(t, Min(t.remaining, left)) else t.remaining <= left)
  }

  ghost predicate Ranked(items: seq<Item>, first: int) {
    forall i :: 0 <= i < |items| ==> items[i].rank == first + i
  }

  lemma ReservedConcat(a: seq<Item>, b: seq<Item>)
    ensures Reserved(a + b) == Reserved(a) + Reserved(b)
  {
    assert Map(ItemMinutes, a + b) == Map(ItemMinutes, a) + Map(ItemMinutes, b);
    SumConcat(Map(ItemMinutes, a), Map(ItemMinutes, b));
  }

  /** Packing conserves minutes, never overdraws and ranks consecutively. */
  lemma {:induction false} PackFlexibleSound(ts: seq<Keyed<Task>>, remaining: int, rank: int)
    requires remaining >= 0 && forall i :: 0 <= i < |ts| ==> ts[i].value.remaining >= 0
    ensures var p := PackFlexible(ts, remaining, rank);
            && Ranked(p.items, rank)
            && Reserved(p.items) + p.remaining == remaining
            && 0 <= p.remaining <= remaining
            && |p.items| + |p.deferred| == |ts|
  {
    if ts == [] {
      return;
    }
    var t := ts[0].value;
    match Grant(t, remaining)
    case None => PackFlexibleSound(ts[1..], remaining, rank);
    case Some(minutes) =>
      PackFlexibleSound(ts[1..], remaining - minutes, rank + 1);
      var rest := PackFlexible(ts[1..], remaining - minutes, rank + 1);
      ReservedConcat([ItemFor(t, rank, minutes)], rest.items);
      assert Map(ItemMinutes, [ItemFor(t, rank, minutes)]) == [minutes];
      assert Sum([minutes]) == minutes;
  }

  /** The decision on each task: granted its need, or what is left if it may be split, and then nothing is
      left over; deferred only if even the final leftover would be of no use to it. */
  ghost predicate Decided(t: Task, p: Packing, start: int) {
    || (exists i :: 0 <= i < |p.items| && Serves(p.items, i, t, start, p.remaining))
    || (Deferred(t.id, MinimumSessionUnfit) in p.deferred && !CouldUse(t, p.remaining))
  }

  /** The i-th item gives the task all it may take of what the items before it left of `start`. */
  ghost predicate Serves(items: seq<Item>, i: nat, t: Task, start: int, leftover: int)
    requires i < |items|
  {
    var left := start - Reserved(items[..i]);
    && items[i].taskId == t.id && items[i].specId == t.specId
    && left > 0 && 0 <= items[i].minutes <= left
    && items[i].minutes == (if t.canSplit then Min(t.remaining, left) else t.remaining)
    && (t.canSplit ==> MeetsFloor(t, items[i].minutes))
    && (items[i].minutes < t.remaining ==> leftover == 0)
  }

  lemma {:induction false} PackFlexibleMaximal(ts: seq<Keyed<Task>>, remaining: int, rank: int, i: nat)
    requires remaining >= 0 && forall i :: 0 <= i < |ts| ==> ts[i].value.remaining >= 0
    requires i < |ts|
    ensures Decided(ts[i].value, PackFlexible(ts, remaining, rank), remaining)
  {
    var t := ts[0].value;
    match Grant(t, remaining)
    case None =>
      var rest := PackFlexible(ts[1..], remaining, rank);
      if i > 0 {
        PackFlexibleMaximal(ts[1..], remaining, rank, i - 1);
        DecidedAfterDeferral(ts[i].value, rest, Deferred(t.id, MinimumSessionUnfit), remaining);
      } else {
        PackFlexibleSound(ts[1..], remaining, rank);
        assert PackFlexible(ts, remaining, rank).deferred[0] == Deferred(t.id, MinimumSessionUnfit);
      }
    case Some(minutes) =>
      var rest := PackFlexible(ts[1..], remaining - minutes, rank + 1);
      if i > 0 {
        PackFlexibleMaximal(ts[1..], remaining - minutes, rank + 1, i - 1);
        DecidedAfterItem(ts[i].value, rest, ItemFor(t, rank, minutes), remaining - minutes);
      } else {
        PackFlexibleSound(ts[1..], remaining - minutes, rank + 1);
        assert Serves(PackFlexible(ts, remaining, rank).items, 0, t, remaining, rest.remaining);
      }
  }

  lemma DecidedAfterDeferral(t: Task, rest: Packing, d: Deferred, start: int)
    requires Decided(t, rest, start)
    ensures Decided(t, rest.(deferred := [d] + rest.deferred), start)
  {
  }

  lemma DecidedAfterItem(t: Task, rest: Packing, item: Item, start: int)
    requires Decided(t, rest, start)
    ensures Decided(t, rest.(items := [item] + rest.items), start + item.minutes)
  {
    var items := [item] + rest.items;
    if i :| 0 <= i < |rest.items| && Serves(rest.items, i, t, start, rest.remaining) {
      ServesLater([item], rest.items, i, t, start, rest.remaining);
    }
  }

  /** Putting items in front moves a task's turn and what they take off the start. */
  lemma ServesLater(front: seq<Item>, items: seq<Item>, i: nat, t: Task, start: int, leftover: int)
    requires i < |items| && Serves(items, i, t, start, leftover)
    ensures Serves(front + items, |front| + i, t, start + Reserved(front), leftover)
    ensures |front| == 1 ==> Reserved(front) == front[0].minutes
  {
    assert (front + items)[..|front| + i] == front + items[..i];
    ReservedConcat(front, items[..i]);
    if |front| == 1 {
      assert Map(ItemMinutes, front) == [front[0].minutes];
      assert Sum([front[0].minutes]) == front[0].minutes;
    }
  }

  lemma {:induction false} KeyedDemandTotal(ts: seq<Keyed<Task>>, day: Day) returns (total: int)
    ensures total == DemandOf(ts, day) && total >= 0
    ensures forall i :: 0 <= i < |ts| ==> Demand(ts[i].value, day) <= total
  {
    if ts == [] {
      return 0;
    }
    var rest := KeyedDemandTotal(ts[1..], day);
    total := Max(0, Demand(ts[0].value, day)) + rest;
  }

  ghost function DemandOf(ts: seq<Keyed<Task>>, day: Day): int {
    if ts == [] then 0 else Max(0, Demand(ts[0].value, day)) + DemandOf(ts[1..], day)
  }

  ghost predicate Descending(ts: seq<Keyed<Task>>, day: Day) {
    forall i, j :: 0 <= i < j < |ts| ==> Demand(ts[i].value, day) >= Demand(ts[j].value, day)
  }

  /** If the demands fit, each positive one is granted in full and the others get nothing. */
  lemma {:induction false} PackMandatoryExact(ts: seq<Keyed<Task>>, day: Day, remaining: int, rank: int)
    requires Descending(ts, day) && DemandOf(ts, day) <= remaining
    ensures var items := PackMandatory(ts, day, remaining, rank);
            && |items| <= |ts| && Ranked(items, rank) && Reserved(items) == DemandOf(ts, day)
            && (forall i :: 0 <= i < |items| ==> Demand(ts[i].value, day) > 0)
            && (forall i :: 0 <= i < |items| ==> items[i] == ItemFor(ts[i].value, rank + i, Demand(ts[i].value, day)))
            && (forall i :: |items| <= i < |ts| ==> Demand(ts[i].value, day) <= 0)
  {
    if ts == [] {
      return;
    }
    var d := Demand(ts[0].value, day);
    var rest := KeyedDemandTotal(ts[1..], day);
    if d <= 0 {
      NoDemand(ts, day);
      return;
    }
    PackMandatoryExact(ts[1..], day, remaining - d, rank + 1);
    var items := PackMandatory(ts[1..], day, remaining - d, rank + 1);
    var first := ItemFor(ts[0].value, rank, d);
    assert PackMandatory(ts, day, remaining, rank) == [first] + items;
    ReservedConcat([first], items);
    assert Map(ItemMinutes, [first]) == [d];
    assert Sum([d]) == d;
  }

  lemma {:induction false} NoDemand(ts: seq<Keyed<Task>>, day: Day)
    requires forall i :: 0 <= i < |ts| ==> Demand(ts[i].value, day) <= 0
    ensures DemandOf(ts, day) == 0
  {
    if ts != [] {
      NoDemand(ts[1..], day);
    }
  }
}
