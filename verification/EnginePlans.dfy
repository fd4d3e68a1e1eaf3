/** The scheduler's promises about whole plans. */
module EnginePlans {
  import opened Prelude
  import opened Tasks
  import opened Ordering
  import opened Engine
  import opened EngineProofs

  // ----- from selections to sorted selections -----

  lemma SortedFlexibleIs(ts: seq<Task>, day: Day, start: int)
    ensures multiset(Map(ValueOf, SortedFlexible(ts, day, start))) == multiset(ts)
    ensures |SortedFlexible(ts, day, start)| == |ts|
  {
    var keyed := Map(KeyedByUrgency(day, start), ts);
    SortSorts(keyed);
    MapPermuted(ValueOf, keyed, Sort(keyed));
    assert Map(ValueOf, keyed) == ts;
    assert |Sort(keyed)| == |multiset(Sort(keyed))| == |multiset(keyed)| == |keyed|;
  }

  lemma SortedMandatoryIs(ts: seq<Task>, day: Day)
    ensures multiset(Map(ValueOf, SortedMandatory(ts, day))) == multiset(ts)
    ensures Descending(SortedMandatory(ts, day), day)
  {
    var keyed := Map(KeyedByDemand(day), ts);
    var sorted := Sort(keyed);
    SortSorts(keyed);
    MapPermuted(ValueOf, keyed, sorted);
    assert Map(ValueOf, keyed) == ts;
    forall i | 0 <= i < |sorted|
      ensures sorted[i].key == DemandKey(sorted[i].value, day)
    {
      assert sorted[i] in multiset(keyed);
    }
    forall i, j | 0 <= i < j < |sorted|
      ensures Demand(sorted[i].value, day) >= Demand(sorted[j].value, day)
    {
      assert KeyAtMost(sorted[i].key, sorted[j].key);
      var a, b := -Demand(sorted[i].value, day), -Demand(sorted[j].value, day);
      assert !LexLess([b], [a]);
    }
  }

  function ValueOf(k: Keyed<Task>): Task {
    k.value
  }

  lemma InValues(ts: seq<Keyed<Task>>, t: Task) returns (i: nat)
    requires t in Map(ValueOf, ts)
    ensures i < |ts| && ts[i].value == t
  {
    i :| 0 <= i < |ts| && Map(ValueOf, ts)[i] == t;
  }

  lemma {:induction false} DemandOfIsTotal(ts: seq<Keyed<Task>>, day: Day)
    ensures DemandOf(ts, day) == Sum(Map(PositiveDemand(day), Map(ValueOf, ts)))
  {
    if ts != [] {
      DemandOfIsTotal(ts[1..], day);
      assert Map(ValueOf, ts) == [ts[0].value] + Map(ValueOf, ts[1..]);
      assert Map(PositiveDemand(day), Map(ValueOf, ts))
          == [Max(0, Demand(ts[0].value, day))] + Map(PositiveDemand(day), Map(ValueOf, ts[1..]));
    }
  }

  // ----- the mandatory part -----

  /** What packing the mandatory tasks of a snapshot that does not overflow amounts to. */
  ghost predicate MandatoryExact(s: Snapshot, ts: seq<Keyed<Task>>, items: seq<Item>) {
    && |items| <= |ts| && Ranked(items, 1) && Reserved(items) == MandatoryDemand(s)
    && (forall i :: 0 <= i < |items| ==> Demand(ts[i].value, DayOf(s)) > 0)
    && (forall i :: 0 <= i < |items| ==> items[i] == ItemFor(ts[i].value, 1 + i, Demand(ts[i].value, DayOf(s))))
    && (forall i :: |items| <= i < |ts| ==> Demand(ts[i].value, DayOf(s)) <= 0)
  }

  function MandatoryOrder(s: Snapshot): seq<Keyed<Task>> {
    SortedMandatory(Select(s.tasks, DayOf(s), Mandatory), DayOf(s))
  }

  lemma MandatoryFits(s: Snapshot)
    requires !Overflows(s)
    ensures MandatoryExact(s, MandatoryOrder(s), MandatoryItems(s))
  {
    var day, ts, mandatory := DayOf(s), MandatoryOrder(s), Select(s.tasks, DayOf(s), Mandatory);
    SortedMandatoryIs(mandatory, day);
    DemandOfIsTotal(ts, day);
    DemandTotalPermuted(mandatory, Map(ValueOf, ts), day);
    PackMandatoryExact(ts, day, StartCapacity(s), 1);
  }

  ghost predicate GrantedInFull(t: Task, day: Day, items: seq<Item>) {
    exists i :: 0 <= i < |items| && items[i].taskId == t.id && items[i].specId == t.specId && items[i].minutes == Demand(t, day)
  }

  lemma MandatoryGranted(s: Snapshot, t: Task)
    requires !Overflows(s) && t in s.tasks && Classify(t, DayOf(s)) == Mandatory && Demand(t, DayOf(s)) > 0
    ensures GrantedInFull(t, DayOf(s), NormalItems(s))
  {
    MandatoryFits(s);
    SortedMandatoryIs(Select(s.tasks, DayOf(s), Mandatory), DayOf(s));
    SelectMember(s.tasks, DayOf(s), Mandatory, t);
    assert t in multiset(Map(ValueOf, MandatoryOrder(s)));
    var i := InValues(MandatoryOrder(s), t);
    assert NormalItems(s)[i] == MandatoryItems(s)[i];
  }

  // ----- the flexible part -----

  lemma FlexibleOrderSane(s: Snapshot)
    requires MinutesSane(s)
    ensures forall i :: 0 <= i < |FlexibleOrder(s)| ==> FlexibleOrder(s)[i].value.remaining >= 0
  {
    var selected := Select(s.tasks, DayOf(s), Flexible);
    SortedFlexibleIs(selected, DayOf(s), StartCapacity(s));
    forall i | 0 <= i < |FlexibleOrder(s)|
      ensures FlexibleOrder(s)[i].value.remaining >= 0
    {
      var t := FlexibleOrder(s)[i].value;
      assert Map(ValueOf, FlexibleOrder(s))[i] == t;
      assert t in multiset(Map(ValueOf, FlexibleOrder(s)));
      SelectMember(s.tasks, DayOf(s), Flexible, t);
    }
  }

  lemma FlexibleDecided(s: Snapshot, t: Task)
    requires MinutesSane(s) && !Overflows(s) && t in s.tasks && Classify(t, DayOf(s)) == Flexible
    ensures Decided(t, FlexiblePacking(s), FlexibleCapacity(s))
  {
    FlexibleOrderSane(s);
    MandatoryFits(s);
    SortedFlexibleIs(Select(s.tasks, DayOf(s), Flexible), DayOf(s), StartCapacity(s));
    SelectMember(s.tasks, DayOf(s), Flexible, t);
    assert t in multiset(Map(ValueOf, FlexibleOrder(s)));
    var i := InValues(FlexibleOrder(s), t);
    PackFlexibleMaximal(FlexibleOrder(s), FlexibleCapacity(s), FlexibleRank(s), i);
  }

  // ----- packing is sound and maximal -----

  /** Ranks run from one, no minute is lost or invented, and the day is never overdrawn. */
  lemma PackingConserves(s: Snapshot)
    requires MinutesSane(s) && !Overflows(s)
    ensures var p := Agenda(s);
            && Ranked(p.items, 1)
            && p.capacity.reserved == Reserved(p.items)
            && p.capacity.reserved + p.capacity.remaining == StartCapacity(s)
            && p.capacity.remaining >= 0
  {
    MandatoryFits(s);
    FlexibleOrderSane(s);
    var fixed := MandatoryItems(s);
    PackFlexibleSound(FlexibleOrder(s), FlexibleCapacity(s), FlexibleRank(s));
    ReservedConcat(fixed, FlexiblePacking(s).items);
  }

  /** Without overflow every positive mandatory demand is granted in full; every flexible task is served its
      need, or all that is left if it may be split and that meets its floor, or deferred although the final
      leftover would be of no use to it; every blocked task is deferred as such. */
  lemma PackingIsMaximal(s: Snapshot, t: Task)
    requires MinutesSane(s) && !Overflows(s) && t in s.tasks
    ensures var p, class_ := Agenda(s), Classify(t, DayOf(s));
            && (class_ == Mandatory && Demand(t, DayOf(s)) > 0 ==> GrantedInFull(t, DayOf(s), p.items))
            && (class_ == Flexible ==>
                  || (exists i :: 0 <= i < |p.items| && Serves(p.items, i, t, StartCapacity(s), p.capacity.remaining))
                  || (Deferred(t.id, MinimumSessionUnfit) in p.deferred && !CouldUse(t, p.capacity.remaining)))
            && (class_ == Blocked ==> Deferred(t.id, DependencyBlocked) in p.deferred)
  {
    match Classify(t, DayOf(s))
    case Mandatory => if Demand(t, DayOf(s)) > 0 { MandatoryGranted(s, t); }
    case Flexible => FlexibleServed(s, t);
    case Blocked => BlockedDeferred(s, t);
    case _ =>
  }

  lemma FlexibleServed(s: Snapshot, t: Task)
    requires MinutesSane(s) && !Overflows(s) && t in s.tasks && Classify(t, DayOf(s)) == Flexible
    ensures || (exists i :: 0 <= i < |NormalItems(s)| && Serves(NormalItems(s), i, t, StartCapacity(s), FlexiblePacking(s).remaining))
            || (Deferred(t.id, MinimumSessionUnfit) in NormalDeferrals(s) && !CouldUse(t, FlexiblePacking(s).remaining))
  {
    FlexibleDecided(s, t);
    var packing := FlexiblePacking(s);
    if i :| 0 <= i < |packing.items| && Serves(packing.items, i, t, FlexibleCapacity(s), packing.remaining) {
      ServedInPlan(s, t, i);
    }
  }

  lemma ServedInPlan(s: Snapshot, t: Task, i: nat)
    requires i < |FlexiblePacking(s).items|
    requires Serves(FlexiblePacking(s).items, i, t, FlexibleCapacity(s), FlexiblePacking(s).remaining)
    ensures |MandatoryItems(s)| + i < |NormalItems(s)|
    ensures Serves(NormalItems(s), |MandatoryItems(s)| + i, t, StartCapacity(s), FlexiblePacking(s).remaining)
  {
    ServesLater(MandatoryItems(s), FlexiblePacking(s).items, i, t, FlexibleCapacity(s), FlexiblePacking(s).remaining);
  }

  lemma BlockedDeferred(s: Snapshot, t: Task)
    requires t in s.tasks && Classify(t, DayOf(s)) == Blocked
    ensures Deferred(t.id, DependencyBlocked) in NormalDeferrals(s)
  {
    SelectMember(s.tasks, DayOf(s), Blocked, t);
    var blocked := Select(s.tasks, DayOf(s), Blocked);
    var i :| 0 <= i < |blocked| && blocked[i] == t;
    assert Map(BlockedDeferral, blocked)[i] == Deferred(t.id, DependencyBlocked);
  }

  // ----- at most one decision per task -----

  function ItemTask(i: Item): Id {
    i.taskId
  }

  function DeferredTask(d: Deferred): Id {
    d.taskId
  }

  function KeyedId(k: Keyed<Task>): Id {
    k.value.id
  }

  lemma MapConcat<A, B>(f: A -> B, a: seq<A>, b: seq<A>)
    ensures Map(f, a + b) == Map(f, a) + Map(f, b)
  {
  }

  lemma ConsIds<A>(f: A -> Id, x: A, xs: seq<A>)
    ensures multiset(Map(f, [x] + xs)) == multiset{f(x)} + multiset(Map(f, xs))
  {
    assert Map(f, [x] + xs) == [f(x)] + Map(f, xs);
  }

  ghost function ItemsOf(items: seq<Item>, id: Id): nat {
    if items == [] then 0 else ItemsOf(items[1..], id) + if items[0].taskId == id then 1 else 0
  }

  ghost function DeferralsOf(deferred: seq<Deferred>, id: Id): nat {
    if deferred == [] then 0 else DeferralsOf(deferred[1..], id) + if deferred[0].taskId == id then 1 else 0
  }

  ghost function ListingsOf(ts: seq<Keyed<Task>>, id: Id): nat {
    if ts == [] then 0 else ListingsOf(ts[1..], id) + if ts[0].value.id == id then 1 else 0
  }

  lemma {:induction false} ItemsOfIs(items: seq<Item>, id: Id)
    ensures ItemsOf(items, id) == multiset(Map(ItemTask, items))[id]
  {
    if items != [] {
      ItemsOfIs(items[1..], id);
      ConsIds(ItemTask, items[0], items[1..]);
      assert items == [items[0]] + items[1..];
    }
  }

  lemma {:induction false} DeferralsOfIs(deferred: seq<Deferred>, id: Id)
    ensures DeferralsOf(deferred, id) == multiset(Map(DeferredTask, deferred))[id]
  {
    if deferred != [] {
      DeferralsOfIs(deferred[1..], id);
      ConsIds(DeferredTask, deferred[0], deferred[1..]);
      assert deferred == [deferred[0]] + deferred[1..];
    }
  }

  lemma {:induction false} ListingsOfIs(ts: seq<Keyed<Task>>, id: Id)
    ensures ListingsOf(ts, id) == multiset(Map(KeyedId, ts))[id]
  {
    if ts != [] {
      ListingsOfIs(ts[1..], id);
      ConsIds(KeyedId, ts[0], ts[1..]);
      assert ts == [ts[0]] + ts[1..];
    }
  }

  lemma {:induction false} EachListingDecided(ts: seq<Keyed<Task>>, remaining: int, rank: int, id: Id)
    ensures var p := PackFlexible(ts, remaining, rank);
            ItemsOf(p.items, id) + DeferralsOf(p.deferred, id) == ListingsOf(ts, id)
  {
    if ts != [] {
      match Grant(ts[0].value, remaining) {
        case None => EachListingDecided(ts[1..], remaining, rank, id);
        case Some(minutes) => EachListingDecided(ts[1..], remaining - minutes, rank + 1, id);
      }
    }
  }

  /** Every listed task gets an item or a deferral, and as often as it is listed. */
  lemma PackFlexiblePartition(ts: seq<Keyed<Task>>, remaining: int, rank: int, id: Id)
    ensures var p := PackFlexible(ts, remaining, rank);
            multiset(Map(ItemTask, p.items))[id] + multiset(Map(DeferredTask, p.deferred))[id] == multiset(Map(KeyedId, ts))[id]
  {
    var p := PackFlexible(ts, remaining, rank);
    EachListingDecided(ts, remaining, rank, id);
    ItemsOfIs(p.items, id);
    DeferralsOfIs(p.deferred, id);
    ListingsOfIs(ts, id);
  }

  ghost function Occurrences(ts: seq<Task>, id: Id): nat {
    if ts == [] then 0 else Occurrences(ts[..|ts| - 1], id) + if ts[|ts| - 1].id == id then 1 else 0
  }

  lemma {:induction false} OccurrencesCount(ts: seq<Task>, id: Id)
    ensures multiset(Map(TaskId, ts))[id] == Occurrences(ts, id)
  {
    if ts != [] {
      var front, last := ts[..|ts| - 1], ts[|ts| - 1];
      OccurrencesCount(front, id);
      assert Map(TaskId, ts) == Map(TaskId, front) + [last.id];
    }
  }

  lemma OccurrencesPush(ts: seq<Task>, t: Task, id: Id)
    ensures Occurrences(ts + [t], id) == Occurrences(ts, id) + if t.id == id then 1 else 0
  {
    assert (ts + [t])[..|ts|] == ts;
  }

  /** How many tasks of this class carry the id. */
  ghost function Tally(ts: seq<Task>, day: Day, class_: Class, id: Id): nat {
    if ts == [] then 0
    else Tally(ts[..|ts| - 1], day, class_, id) + if ts[|ts| - 1].id == id && Classify(ts[|ts| - 1], day) == class_ then 1 else 0
  }

  lemma {:induction false} TallyIsSelected(ts: seq<Task>, day: Day, class_: Class, id: Id)
    ensures Occurrences(Select(ts, day, class_), id) == Tally(ts, day, class_, id)
  {
    if ts != [] {
      var front, last := ts[..|ts| - 1], ts[|ts| - 1];
      TallyIsSelected(front, day, class_, id);
      OccurrencesPush(Select(front, day, class_), last, id);
      assert Select(front, day, class_) + [] == Select(front, day, class_);
    }
  }

  /** A task falls into at most one of the three classes that are decided. */
  lemma {:induction false} ClassesDisjoint(ts: seq<Task>, day: Day, id: Id)
    ensures Tally(ts, day, Mandatory, id) + Tally(ts, day, Flexible, id) + Tally(ts, day, Blocked, id) <= Occurrences(ts, id)
  {
    if ts != [] {
      ClassesDisjoint(ts[..|ts| - 1], day, id);
    }
  }

  lemma {:induction false} UniqueOnce(ts: seq<Task>, id: Id)
    requires DistinctTasks(ts)
    ensures Occurrences(ts, id) <= 1
    ensures (forall i :: 0 <= i < |ts| ==> ts[i].id != id) ==> Occurrences(ts, id) == 0
  {
    if ts != [] {
      UniqueOnce(ts[..|ts| - 1], id);
    }
  }

  lemma MandatoryItemIds(s: Snapshot)
    requires !Overflows(s)
    ensures multiset(Map(ItemTask, MandatoryItems(s))) <= multiset(Map(TaskId, Select(s.tasks, DayOf(s), Mandatory)))
  {
    MandatoryFits(s);
    var ts, items := MandatoryOrder(s), MandatoryItems(s);
    var values := Map(ValueOf, ts);
    SortedMandatoryIs(Select(s.tasks, DayOf(s), Mandatory), DayOf(s));
    MapPermuted(TaskId, Select(s.tasks, DayOf(s), Mandatory), values);
    assert Map(ItemTask, items) == Map(TaskId, values)[..|items|];
    PrefixOccurs(Map(TaskId, values), |items|);
  }

  lemma PrefixOccurs<T>(xs: seq<T>, n: nat)
    requires n <= |xs|
    ensures multiset(xs[..n]) <= multiset(xs)
  {
    assert xs == xs[..n] + xs[n..];
  }

  lemma FlexibleIds(s: Snapshot, id: Id)
    ensures multiset(Map(ItemTask, FlexiblePacking(s).items))[id] + multiset(Map(DeferredTask, FlexiblePacking(s).deferred))[id]
            == multiset(Map(TaskId, Select(s.tasks, DayOf(s), Flexible)))[id]
  {
    var ts := FlexibleOrder(s);
    var values := Map(ValueOf, ts);
    PackFlexiblePartition(ts, FlexibleCapacity(s), FlexibleRank(s), id);
    SortedFlexibleIs(Select(s.tasks, DayOf(s), Flexible), DayOf(s), StartCapacity(s));
    MapPermuted(TaskId, Select(s.tasks, DayOf(s), Flexible), values);
    assert Map(KeyedId, ts) == Map(TaskId, values);
  }

  /** No task is planned twice, deferred twice, or both planned and deferred. */
  lemma OneDecisionPerTask(s: Snapshot, id: Id)
    requires UniqueIds(s) && !Overflows(s)
    ensures multiset(Map(ItemTask, Agenda(s).items))[id] + multiset(Map(DeferredTask, Agenda(s).deferred))[id] <= 1
  {
    DecidedIds(s, id);
    var day := DayOf(s);
    OccurrencesCount(Select(s.tasks, day, Mandatory), id);
    TallyIsSelected(s.tasks, day, Mandatory, id);
    OccurrencesCount(Select(s.tasks, day, Flexible), id);
    TallyIsSelected(s.tasks, day, Flexible, id);
    OccurrencesCount(Select(s.tasks, day, Blocked), id);
    TallyIsSelected(s.tasks, day, Blocked, id);
    ClassesDisjoint(s.tasks, day, id);
    UniqueOnce(s.tasks, id);
  }

  lemma DecidedIds(s: Snapshot, id: Id)
    requires !Overflows(s)
    ensures multiset(Map(ItemTask, NormalItems(s)))[id] + multiset(Map(DeferredTask, NormalDeferrals(s)))[id]
            <= multiset(Map(TaskId, Select(s.tasks, DayOf(s), Mandatory)))[id]
               + multiset(Map(TaskId, Select(s.tasks, DayOf(s), Flexible)))[id]
               + multiset(Map(TaskId, Select(s.tasks, DayOf(s), Blocked)))[id]
  {
    var blocked := Select(s.tasks, DayOf(s), Blocked);
    MapConcat(ItemTask, MandatoryItems(s), FlexiblePacking(s).items);
    MapConcat(DeferredTask, Map(BlockedDeferral, blocked), FlexiblePacking(s).deferred);
    assert Map(DeferredTask, Map(BlockedDeferral, blocked)) == Map(TaskId, blocked);
    MandatoryItemIds(s);
    FlexibleIds(s, id);
  }

  lemma FlexibleOrderMember(s: Snapshot, i: nat)
    requires i < |FlexibleOrder(s)|
    ensures FlexibleOrder(s)[i].value in s.tasks && Classify(FlexibleOrder(s)[i].value, DayOf(s)) == Flexible
  {
    var t := FlexibleOrder(s)[i].value;
    SortedFlexibleIs(Select(s.tasks, DayOf(s), Flexible), DayOf(s), StartCapacity(s));
    assert Map(ValueOf, FlexibleOrder(s))[i] == t;
    assert t in multiset(Map(ValueOf, FlexibleOrder(s)));
    SelectMember(s.tasks, DayOf(s), Flexible, t);
  }

  // ----- one task per id -----

  lemma SameIdSameTask(s: Snapshot, t: Task, u: Task)
    requires UniqueIds(s) && t in s.tasks && u in s.tasks && t.id == u.id
    ensures t == u
  {
  }

  lemma ClassHasId(s: Snapshot, t: Task, class_: Class)
    requires UniqueIds(s) && t in s.tasks
    ensures (exists u :: u in Select(s.tasks, DayOf(s), class_) && u.id == t.id) <==> Classify(t, DayOf(s)) == class_
  {
    SelectMember(s.tasks, DayOf(s), class_, t);
    if u :| u in Select(s.tasks, DayOf(s), class_) && u.id == t.id {
      SelectMember(s.tasks, DayOf(s), class_, u);
      SameIdSameTask(s, t, u);
    }
  }
}
