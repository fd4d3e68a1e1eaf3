/** In which order a plan serves its tasks, and what it says of the day's capacity. */
module EngineOrder {
  import opened Prelude
  import opened Tasks
  import opened Ordering
  import opened Engine
  import opened EngineProofs
  import opened EnginePlans
  import opened EnginePriority
  import opened EngineRisks

  // ----- the order of the mandatory tasks -----

  /** The larger demand first, equal ones by their ids. */
  predicate AsksMore(t: Task, u: Task, day: Day) {
    Demand(t, day) > Demand(u, day) || (Demand(t, day) == Demand(u, day) && StringLess(t.id, u.id))
  }

  lemma DemandKeyMeansAsksMore(t: Task, u: Task, day: Day)
    ensures KeyLess(DemandKey(t, day), DemandKey(u, day)) <==> AsksMore(t, u, day)
  {
    var a, b := DemandKey(t, day).nums, DemandKey(u, day).nums;
    LexIrreflexive(Codes(""));
    assert a == b <==> a[0] == b[0];
    assert !LexLess(a[1..], b[1..]);
  }

  lemma MandatoryOrderSorted(s: Snapshot, i: nat, j: nat)
    requires UniqueIds(s) && i < j < |MandatoryOrder(s)|
    ensures AsksMore(MandatoryOrder(s)[i].value, MandatoryOrder(s)[j].value, DayOf(s))
  {
    var mandatory, ts := Select(s.tasks, DayOf(s), Mandatory), MandatoryOrder(s);
    var keyed := Map(KeyedByDemand(DayOf(s)), mandatory);
    SelectDistinct(s.tasks, DayOf(s), Mandatory);
    DemandKeysDistinct(mandatory, DayOf(s));
    SortSorts(keyed);
    DistinctPermuted(keyed, ts);
    assert ts[i] in multiset(keyed) && ts[j] in multiset(keyed);
    KeyTotal(ts[i].key, ts[j].key);
    DemandKeyMeansAsksMore(ts[i].value, ts[j].value, DayOf(s));
  }

  // ----- items stand in the order of their tasks -----

  /** Some of the elements, in the same order. */
  predicate Subsequence(a: seq<Id>, b: seq<Id>)
    decreases |b|
  {
    a == [] || (b != [] && (Subsequence(a, b[1..]) || (a[0] == b[0] && Subsequence(a[1..], b[1..]))))
  }

  lemma {:induction false} Place(a: seq<Id>, b: seq<Id>, i: nat) returns (x: nat)
    requires Subsequence(a, b) && i < |a|
    ensures x < |b| && b[x] == a[i]
    decreases |b|
  {
    if Subsequence(a, b[1..]) {
      x := Place(a, b[1..], i);
      x := x + 1;
    } else if i == 0 {
      x := 0;
    } else {
      x := Place(a[1..], b[1..], i - 1);
      x := x + 1;
    }
  }

  lemma {:induction false} Places(a: seq<Id>, b: seq<Id>, i: nat, j: nat) returns (x: nat, y: nat)
    requires Subsequence(a, b) && i < j < |a|
    ensures x < y < |b| && b[x] == a[i] && b[y] == a[j]
    decreases |b|
  {
    if Subsequence(a, b[1..]) {
      x, y := Places(a, b[1..], i, j);
      x, y := x + 1, y + 1;
    } else if i == 0 {
      y := Place(a[1..], b[1..], j - 1);
      x, y := 0, y + 1;
    } else {
      x, y := Places(a[1..], b[1..], i - 1, j - 1);
      x, y := x + 1, y + 1;
    }
  }

  lemma Both(a: seq<Id>, b: seq<Id>, x: Id)
    requires Subsequence(a, b)
    ensures Subsequence(a, [x] + b) && Subsequence([x] + a, [x] + b)
  {
    assert ([x] + b)[1..] == b && ([x] + a)[1..] == a;
  }

  function Ids(ts: seq<Keyed<Task>>): (ids: seq<Id>)
    ensures |ids| == |ts| && forall i :: 0 <= i < |ts| ==> ids[i] == ts[i].value.id
  {
    Map(KeyedId, ts)
  }

  lemma IdsCons(ts: seq<Keyed<Task>>)
    requires ts != []
    ensures Ids(ts) == [ts[0].value.id] + Ids(ts[1..])
  {
  }

  /** Items and deferrals of a packing keep the order of the list. */
  lemma {:induction false} PackedInOrder(ts: seq<Keyed<Task>>, remaining: int, rank: int)
    ensures Subsequence(Map(ItemTask, PackFlexible(ts, remaining, rank).items), Ids(ts))
    ensures Subsequence(Map(DeferredTask, PackFlexible(ts, remaining, rank).deferred), Ids(ts))
  {
    if ts != [] {
      IdsCons(ts);
      match Grant(ts[0].value, remaining) {
        case None =>
          PackedInOrder(ts[1..], remaining, rank);
          OneMoreDecided(ts[0].value.id, Ids(ts[1..]), PackFlexible(ts[1..], remaining, rank));
          assert Map(DeferredTask, PackFlexible(ts, remaining, rank).deferred)
              == [ts[0].value.id] + Map(DeferredTask, PackFlexible(ts[1..], remaining, rank).deferred);
        case Some(minutes) =>
          PackedInOrder(ts[1..], remaining - minutes, rank + 1);
          OneMoreDecided(ts[0].value.id, Ids(ts[1..]), PackFlexible(ts[1..], remaining - minutes, rank + 1));
          assert Map(ItemTask, PackFlexible(ts, remaining, rank).items)
              == [ts[0].value.id] + Map(ItemTask, PackFlexible(ts[1..], remaining - minutes, rank + 1).items);
      }
    }
  }

  lemma OneMoreDecided(id: Id, ids: seq<Id>, rest: Packing)
    requires Subsequence(Map(ItemTask, rest.items), ids) && Subsequence(Map(DeferredTask, rest.deferred), ids)
    ensures Subsequence(Map(ItemTask, rest.items), [id] + ids) && Subsequence([id] + Map(ItemTask, rest.items), [id] + ids)
    ensures Subsequence(Map(DeferredTask, rest.deferred), [id] + ids)
    ensures Subsequence([id] + Map(DeferredTask, rest.deferred), [id] + ids)
  {
    Both(Map(ItemTask, rest.items), ids, id);
    Both(Map(DeferredTask, rest.deferred), ids, id);
  }

  lemma {:induction false} UnscheduledInOrder(ts: seq<Keyed<Task>>, scheduled: set<Id>)
    ensures Subsequence(Unscheduled(ts, scheduled), Ids(ts))
  {
    if ts != [] {
      UnscheduledInOrder(ts[1..], scheduled);
      IdsCons(ts);
      Both(Unscheduled(ts[1..], scheduled), Ids(ts[1..]), ts[0].value.id);
      assert Unscheduled(ts, scheduled)
          == (if ts[0].value.id !in scheduled then [ts[0].value.id] else []) + Unscheduled(ts[1..], scheduled);
      assert [] + Unscheduled(ts[1..], scheduled) == Unscheduled(ts[1..], scheduled);
    }
  }

  lemma FlexibleOrderSorted(s: Snapshot, i: nat, j: nat)
    requires UniqueIds(s) && i < j < |FlexibleOrder(s)|
    ensures KeyLess(UrgencyKey(FlexibleOrder(s)[i].value, DayOf(s), StartCapacity(s)),
                    UrgencyKey(FlexibleOrder(s)[j].value, DayOf(s), StartCapacity(s)))
  {
    OrderIsSorted(s);
    KeysAreUrgency(s, i);
    KeysAreUrgency(s, j);
    KeyTotal(FlexibleOrder(s)[i].key, FlexibleOrder(s)[j].key);
  }

  /** The first of two tasks comes before the second: a mandatory one before a flexible one, the larger demand
      before the smaller, and flexible ones by the rule of priorities. */
  predicate ComesFirst(s: Snapshot, t: Task, u: Task)
    requires t.goalId in GoalMap(s.goals) && u.goalId in GoalMap(s.goals)
  {
    var day := DayOf(s);
    if Classify(t, day) == Mandatory then Classify(u, day) == Flexible || (Classify(u, day) == Mandatory && AsksMore(t, u, day))
    else && Classify(t, day) == Flexible && Classify(u, day) == Flexible
         && GoesFirst(t, GoalMap(s.goals)[t.goalId], u, GoalMap(s.goals)[u.goalId], s.localDate, TimeLeft(s))
  }

  /** The minutes the day has left: what was spent counts against the whole day, not against a rest of it. */
  function TimeLeft(s: Snapshot): int {
    match s.basis
    case Total => if s.spent < s.quota then s.quota - s.spent else 0
    case Remaining => if 0 < s.quota then s.quota else 0
  }

  lemma MandatoryPlace(s: Snapshot, i: nat, t: Task)
    requires UniqueIds(s) && !Overflows(s) && t in s.tasks && i < |MandatoryItems(s)| && MandatoryItems(s)[i].taskId == t.id
    ensures |MandatoryItems(s)| <= |MandatoryOrder(s)| && MandatoryOrder(s)[i].value == t && Classify(t, DayOf(s)) == Mandatory
  {
    MandatoryFits(s);
    var u := MandatoryOrder(s)[i].value;
    SortedMandatoryIs(Select(s.tasks, DayOf(s), Mandatory), DayOf(s));
    assert Map(ValueOf, MandatoryOrder(s))[i] == u;
    assert u in multiset(Map(ValueOf, MandatoryOrder(s)));
    SelectMember(s.tasks, DayOf(s), Mandatory, u);
    SameIdSameTask(s, t, u);
  }

  lemma FlexiblePlace(s: Snapshot, i: nat, t: Task)
    requires UniqueIds(s) && t in s.tasks && i < |FlexibleOrder(s)| && FlexibleOrder(s)[i].value.id == t.id
    ensures FlexibleOrder(s)[i].value == t && Classify(t, DayOf(s)) == Flexible
  {
    FlexibleOrderMember(s, i);
    SelectMember(s.tasks, DayOf(s), Flexible, FlexibleOrder(s)[i].value);
    SameIdSameTask(s, t, FlexibleOrder(s)[i].value);
  }

  lemma BothMandatory(s: Snapshot, i: nat, j: nat, t: Task, u: Task)
    requires UniqueIds(s) && !Overflows(s) && i < j < |MandatoryItems(s)|
    requires t in s.tasks && MandatoryItems(s)[i].taskId == t.id && u in s.tasks && MandatoryItems(s)[j].taskId == u.id
    ensures Classify(t, DayOf(s)) == Mandatory && Classify(u, DayOf(s)) == Mandatory && AsksMore(t, u, DayOf(s))
  {
    MandatoryPlace(s, i, t);
    MandatoryPlace(s, j, u);
    MandatoryOrderSorted(s, i, j);
  }

  lemma FlexibleListed(s: Snapshot, ids: seq<Id>, j: nat, u: Task)
    requires UniqueIds(s) && Subsequence(ids, Ids(FlexibleOrder(s))) && j < |ids|
    requires u in s.tasks && ids[j] == u.id
    ensures Classify(u, DayOf(s)) == Flexible
  {
    var b := Place(ids, Ids(FlexibleOrder(s)), j);
    FlexiblePlace(s, b, u);
  }

  /** Tasks that keep the order of the flexible ones follow the rule of priorities. */
  lemma FlexibleInOrder(s: Snapshot, ids: seq<Id>, i: nat, j: nat, t: Task, u: Task)
    requires UniqueIds(s) && Subsequence(ids, Ids(FlexibleOrder(s))) && i < j < |ids|
    requires t in s.tasks && ids[i] == t.id && u in s.tasks && ids[j] == u.id
    ensures t.goalId in GoalMap(s.goals) && u.goalId in GoalMap(s.goals) && ComesFirst(s, t, u)
  {
    var a, b := Places(ids, Ids(FlexibleOrder(s)), i, j);
    FlexiblePlace(s, a, t);
    FlexiblePlace(s, b, u);
    FlexibleOrderSorted(s, a, b);
    FlexibleComesFirst(s, t, u);
  }

  lemma FlexibleComesFirst(s: Snapshot, t: Task, u: Task)
    requires Classify(t, DayOf(s)) == Flexible && Classify(u, DayOf(s)) == Flexible
    requires KeyLess(UrgencyKey(t, DayOf(s), StartCapacity(s)), UrgencyKey(u, DayOf(s), StartCapacity(s)))
    ensures t.goalId in GoalMap(s.goals) && u.goalId in GoalMap(s.goals) && ComesFirst(s, t, u)
  {
    UrgencyKeyMeansGoesFirst(t, u, DayOf(s), StartCapacity(s));
  }

  lemma HasGoal(t: Task, s: Snapshot)
    requires Classify(t, DayOf(s)) == Mandatory || Classify(t, DayOf(s)) == Flexible
    ensures t.goalId in GoalMap(s.goals)
  {
  }

  lemma NormalItemsInOrder(s: Snapshot, i: nat, j: nat, t: Task, u: Task)
    requires UniqueIds(s) && !Overflows(s) && i < j < |NormalItems(s)|
    requires t in s.tasks && NormalItems(s)[i].taskId == t.id && u in s.tasks && NormalItems(s)[j].taskId == u.id
    ensures t.goalId in GoalMap(s.goals) && u.goalId in GoalMap(s.goals) && ComesFirst(s, t, u)
  {
    var n, ids := |MandatoryItems(s)|, Map(ItemTask, FlexiblePacking(s).items);
    PackedInOrder(FlexibleOrder(s), FlexibleCapacity(s), FlexibleRank(s));
    if i >= n {
      FlexibleInOrder(s, ids, i - n, j - n, t, u);
      return;
    }
    if j < n {
      BothMandatory(s, i, j, t, u);
    } else {
      MandatoryPlace(s, i, t);
      FlexibleListed(s, ids, j - n, u);
    }
    HasGoal(t, s);
    HasGoal(u, s);
  }

  /** The items of a plan stand, and so are ranked, in the order their tasks come in. */
  lemma ItemsStandInOrder(s: Snapshot, i: nat, j: nat, t: Task, u: Task)
    requires UniqueIds(s) && i < j < |Agenda(s).items|
    requires t in s.tasks && Agenda(s).items[i].taskId == t.id && u in s.tasks && Agenda(s).items[j].taskId == u.id
    ensures t.goalId in GoalMap(s.goals) && u.goalId in GoalMap(s.goals) && ComesFirst(s, t, u)
  {
    NormalItemsInOrder(s, i, j, t, u);
  }

  /** So do the tasks put off for lack of a long enough session. */
  lemma DeferralsStandInOrder(s: Snapshot, i: nat, j: nat, t: Task, u: Task)
    requires UniqueIds(s) && !Overflows(s) && i < j < |Agenda(s).deferred|
    requires t in s.tasks && Agenda(s).deferred[i] == Deferred(t.id, MinimumSessionUnfit)
    requires u in s.tasks && Agenda(s).deferred[j] == Deferred(u.id, MinimumSessionUnfit)
    ensures t.goalId in GoalMap(s.goals) && u.goalId in GoalMap(s.goals) && ComesFirst(s, t, u)
  {
    var blocked := |Select(s.tasks, DayOf(s), Blocked)|;
    UnfitAt(s, i, t.id);
    UnfitAt(s, j, u.id);
    UnfitInOrder(s, i - blocked, j - blocked, t, u);
  }

  lemma UnfitInOrder(s: Snapshot, i: nat, j: nat, t: Task, u: Task)
    requires UniqueIds(s) && i < j < |FlexiblePacking(s).deferred|
    requires t in s.tasks && FlexiblePacking(s).deferred[i].taskId == t.id
    requires u in s.tasks && FlexiblePacking(s).deferred[j].taskId == u.id
    ensures t.goalId in GoalMap(s.goals) && u.goalId in GoalMap(s.goals) && ComesFirst(s, t, u)
  {
    PackedInOrder(FlexibleOrder(s), FlexibleCapacity(s), FlexibleRank(s));
    FlexibleInOrder(s, Map(DeferredTask, FlexiblePacking(s).deferred), i, j, t, u);
  }

  /** Deferrals for want of time come after those for dependencies. */
  lemma UnfitAt(s: Snapshot, i: nat, id: Id)
    requires !Overflows(s) && i < |Agenda(s).deferred| && Agenda(s).deferred[i] == Deferred(id, MinimumSessionUnfit)
    ensures var blocked, deferred := |Select(s.tasks, DayOf(s), Blocked)|, FlexiblePacking(s).deferred;
            && blocked <= i < blocked + |deferred| && deferred[i - blocked].taskId == id
  {
  }

  lemma WeeklyIdsAre(s: Snapshot, c: Conflict)
    requires !Overflows(s) && c in Agenda(s).conflicts && c.code == WeeklyCapacityConflict
    ensures c.taskIds == Unscheduled(FlexibleOrder(s), ItemIds(NormalItems(s)))
  {
    RestIsNotWeekly(s);
  }

  /** And those a too full week is reported for. */
  lemma LeftOutStandInOrder(s: Snapshot, c: Conflict, i: nat, j: nat, t: Task, u: Task)
    requires UniqueIds(s) && !Overflows(s) && c in Agenda(s).conflicts && c.code == WeeklyCapacityConflict
    requires i < j < |c.taskIds| && t in s.tasks && c.taskIds[i] == t.id && u in s.tasks && c.taskIds[j] == u.id
    ensures t.goalId in GoalMap(s.goals) && u.goalId in GoalMap(s.goals) && ComesFirst(s, t, u)
  {
    WeeklyIdsAre(s, c);
    UnscheduledInOrder(FlexibleOrder(s), ItemIds(NormalItems(s)));
    FlexibleInOrder(s, c.taskIds, i, j, t, u);
  }

  // ----- the capacity of the day -----

  ghost function MinutesGiven(items: seq<Item>): int {
    if items == [] then 0 else items[0].minutes + MinutesGiven(items[1..])
  }

  lemma {:induction false} ReservedIsGiven(items: seq<Item>)
    ensures Reserved(items) == MinutesGiven(items)
  {
    if items != [] {
      ReservedIsGiven(items[1..]);
      assert Map(ItemMinutes, items)[1..] == Map(ItemMinutes, items[1..]);
    }
  }

  /** What a plan says of the day, whichever way it ended: where the minutes come from, that what it gives away
      and what it leaves add up to the time left, and that it is conflicted exactly if it lists a conflict. */
  lemma SummaryExactly(s: Snapshot)
    requires MinutesSane(s)
    ensures var p := Agenda(s);
            && p.capacity.basis == s.basis && p.capacity.quota == s.quota && p.capacity.spent == s.spent
            && p.capacity.reserved == MinutesGiven(p.items)
            && p.capacity.reserved + p.capacity.remaining == TimeLeft(s) && p.capacity.remaining >= 0
            && (p.status == Conflicted <==> p.conflicts != [])
  {
    TimeLeftIs(s);
    if !Overflows(s) {
      ReservedIsGiven(NormalItems(s));
      PackingConserves(s);
    }
  }

  lemma TimeLeftIs(s: Snapshot)
    ensures TimeLeft(s) == StartCapacity(s)
  {
  }

  // ----- what a deadline risk lacks -----

  /** By how much the rest of a task exceeds the days up to its date; of one that is past it, nothing is said. */
  function Lacking(s: Snapshot, items: seq<Item>, t: Task): Option<int> {
    if t.latest < s.localDate then None
    else Some(t.remaining - AllocatedTo(items, t.id) - ForecastUntil(s.forecast, s.localDate, t.latest))
  }

  ghost predicate ListsGap(conflicts: seq<Conflict>, id: Id, gap: Option<int>) {
    forall c: Conflict :: c in conflicts && c.code == DeadlineRisk && c.taskIds == [id] ==> c.gap == gap
  }

  lemma {:induction false} RiskGaps(ts: seq<Keyed<Task>>, items: seq<Item>, forecast: seq<(Date, int)>, today: Date, t: Task)
    requires forall i :: 0 <= i < |ts| && ts[i].value.id == t.id ==> ts[i].value == t
    ensures ListsGap(Risks(ts, items, forecast, today), t.id,
                     Some(t.remaining - AllocatedTo(items, t.id) - ForecastUntil(forecast, today, t.latest)))
  {
    if ts != [] {
      RiskGaps(ts[1..], items, forecast, today, t);
      assert forall u: Id :: [u] == [t.id] ==> [u][0] == t.id;
    }
  }

  lemma NoRisks(cs: seq<Conflict>, id: Id, gap: Option<int>)
    requires !ReportsRisk(cs, id)
    ensures ListsGap(cs, id, gap)
  {
  }

  lemma OverdueGaps(ts: seq<Task>, id: Id)
    ensures ListsGap(Map(OverdueConflict, ts), id, None)
  {
  }

  lemma GapsConcat(a: seq<Conflict>, b: seq<Conflict>, id: Id, gap: Option<int>)
    requires ListsGap(a, id, gap) && ListsGap(b, id, gap)
    ensures ListsGap(a + b, id, gap)
  {
  }

  /** A deadline risk says how many minutes the days up to the date lack; that of an overdue task says nothing. */
  lemma RiskGapExactly(s: Snapshot, t: Task)
    requires UniqueIds(s) && !Overflows(s) && t in s.tasks
    ensures ListsGap(Agenda(s).conflicts, t.id, Lacking(s, Agenda(s).items, t))
  {
    NormalGaps(s, t);
  }

  lemma NormalGaps(s: Snapshot, t: Task)
    requires UniqueIds(s) && t in s.tasks
    ensures ListsGap(NormalConflicts(s), t.id, Lacking(s, NormalItems(s), t))
  {
    var overdue, gap := Map(OverdueConflict, Select(s.tasks, DayOf(s), Overdue)), Lacking(s, NormalItems(s), t);
    OverdueReported(Select(s.tasks, DayOf(s), Overdue), t.id);
    ClassHasId(s, t, Overdue);
    if Classify(t, DayOf(s)) == Overdue {
      OverdueGaps(Select(s.tasks, DayOf(s), Overdue), t.id);
    } else {
      NoRisks(overdue, t.id, gap);
    }
    FlexibleGaps(s, t);
    GapsConcat(WeeklyConflictsOf(s), overdue, t.id, gap);
    GapsConcat(WeeklyConflictsOf(s) + overdue, RisksOf(s), t.id, gap);
  }

  lemma OneListing(s: Snapshot, t: Task)
    requires UniqueIds(s) && t in s.tasks
    ensures forall i :: 0 <= i < |FlexibleOrder(s)| && FlexibleOrder(s)[i].value.id == t.id ==> FlexibleOrder(s)[i].value == t
  {
    forall i | 0 <= i < |FlexibleOrder(s)| && FlexibleOrder(s)[i].value.id == t.id
      ensures FlexibleOrder(s)[i].value == t
    {
      FlexiblePlace(s, i, t);
    }
  }

  lemma LackingOfFlexible(s: Snapshot, items: seq<Item>, t: Task)
    requires Classify(t, DayOf(s)) == Flexible
    ensures Lacking(s, items, t)
         == Some(t.remaining - AllocatedTo(items, t.id) - ForecastUntil(s.forecast, s.localDate, t.latest))
  {
  }

  lemma FlexibleGaps(s: Snapshot, t: Task)
    requires UniqueIds(s) && t in s.tasks
    ensures ListsGap(RisksOf(s), t.id, Lacking(s, NormalItems(s), t))
  {
    if Classify(t, DayOf(s)) == Flexible {
      OneListing(s, t);
      LackingOfFlexible(s, NormalItems(s), t);
      RiskGaps(FlexibleOrder(s), NormalItems(s), s.forecast, s.localDate, t);
    } else {
      FlexibleRisk(s, t);
      NoRisks(RisksOf(s), t.id, Lacking(s, NormalItems(s), t));
    }
  }
}
