/**
 What the order of priorities means for a plan: a task's decision depends on the tasks before it only.
 And when, for the same reason, a task that asks for nothing gets an item of no minutes.
 */
module EnginePriority {
  import opened Prelude
  import opened Tasks
  import opened Ordering
  import opened Engine
  import opened EngineProofs
  import opened EnginePlans

  // ----- priority stability -----

  /** Packing decides front to back: what comes later cannot change what came before. */
  lemma {:induction false} PackFlexibleAppend(a: seq<Keyed<Task>>, b: seq<Keyed<Task>>, remaining: int, rank: int)
    ensures var p := PackFlexible(a, remaining, rank);
            PackFlexible(a + b, remaining, rank) == After(p, PackFlexible(b, p.remaining, rank + |p.items|))
  {
    if a == [] {
      assert a + b == b;
      return;
    }
    assert (a + b)[1..] == a[1..] + b;
    match Grant(a[0].value, remaining)
    case None => PackFlexibleAppend(a[1..], b, remaining, rank);
    case Some(minutes) => PackFlexibleAppend(a[1..], b, remaining - minutes, rank + 1);
  }

  /** The flexible tasks of a snapshot with their keys, as listed. */
  function KeyedFlexible(s: Snapshot): seq<Keyed<Task>> {
    Map(KeyedByUrgency(DayOf(s), StartCapacity(s)), Select(s.tasks, DayOf(s), Flexible))
  }

  function HeadPacking(s: Snapshot, k: Key): Packing {
    PackFlexible(Sort(UpTo(KeyedFlexible(s), k)), FlexibleCapacity(s), FlexibleRank(s))
  }

  /** What the plan decides for the mandatory tasks and the flexible ones up to key `k`. */
  function DecisionsUpTo(s: Snapshot, k: Key): Packing {
    var p := HeadPacking(s, k);
    p.(items := MandatoryItems(s) + p.items)
  }

  lemma HeadOfOrder(s: Snapshot, k: Key) returns (tail: seq<Keyed<Task>>)
    ensures FlexibleOrder(s) == Sort(UpTo(KeyedFlexible(s), k)) + tail
  {
    var all := FlexibleOrder(s);
    UpToSort(KeyedFlexible(s), k);
    SortSorts(KeyedFlexible(s));
    UpToIsPrefix(all, k);
    tail := all[|UpTo(all, k)|..];
  }

  lemma HeadPackingIsPrefix(s: Snapshot, k: Key)
    ensures HeadPacking(s, k).items <= FlexiblePacking(s).items
    ensures HeadPacking(s, k).deferred <= FlexiblePacking(s).deferred
  {
    var tail := HeadOfOrder(s, k);
    PackFlexibleAppend(Sort(UpTo(KeyedFlexible(s), k)), tail, FlexibleCapacity(s), FlexibleRank(s));
  }

  /** Those decisions are an initial part of the plan. */
  lemma DecisionsStandInPlan(s: Snapshot, k: Key)
    ensures DecisionsUpTo(s, k).items <= NormalItems(s)
    ensures DecisionsUpTo(s, k).deferred <= FlexiblePacking(s).deferred
  {
    HeadPackingIsPrefix(s, k);
    assert DecisionsUpTo(s, k).items == MandatoryItems(s) + HeadPacking(s, k).items;
  }

  /** Two snapshots that agree on the day, the capacity, the mandatory tasks and the flexible tasks up to
      key `k`; after `k` anything may differ. */
  ghost predicate AgreeUpTo(s: Snapshot, s': Snapshot, k: Key) {
    && DayOf(s') == DayOf(s) && StartCapacity(s') == StartCapacity(s)
    && multiset(Select(s'.tasks, DayOf(s'), Mandatory)) == multiset(Select(s.tasks, DayOf(s), Mandatory))
    && multiset(UpTo(KeyedFlexible(s'), k)) == multiset(UpTo(KeyedFlexible(s), k))
    && DistinctTasks(s.tasks)
  }

  lemma {:induction false} UpToDistinct<T>(xs: seq<Keyed<T>>, k: Key)
    requires DistinctKeys(xs)
    ensures DistinctKeys(UpTo(xs, k))
    ensures forall i :: 0 <= i < |UpTo(xs, k)| ==> UpTo(xs, k)[i] in xs
  {
    if xs != [] {
      UpToDistinct(xs[1..], k);
      forall j | 0 <= j < |UpTo(xs[1..], k)|
        ensures UpTo(xs[1..], k)[j].key != xs[0].key
      {
        assert UpTo(xs[1..], k)[j] in xs[1..];
      }
    }
  }

  lemma SameMandatoryItems(s: Snapshot, s': Snapshot, k: Key)
    requires AgreeUpTo(s, s', k)
    ensures MandatoryItems(s') == MandatoryItems(s)
  {
    SelectDistinct(s.tasks, DayOf(s), Mandatory);
    SortedMandatoryPermuted(Select(s.tasks, DayOf(s), Mandatory), Select(s'.tasks, DayOf(s), Mandatory), DayOf(s));
  }

  lemma SameOverflow(s: Snapshot, s': Snapshot, k: Key)
    requires AgreeUpTo(s, s', k)
    ensures Overflows(s') <==> Overflows(s)
  {
    DemandTotalPermuted(Select(s.tasks, DayOf(s), Mandatory), Select(s'.tasks, DayOf(s), Mandatory), DayOf(s));
  }

  lemma SameHeadOrder(s: Snapshot, s': Snapshot, k: Key)
    requires AgreeUpTo(s, s', k)
    ensures Sort(UpTo(KeyedFlexible(s'), k)) == Sort(UpTo(KeyedFlexible(s), k))
  {
    SelectDistinct(s.tasks, DayOf(s), Flexible);
    UrgencyKeysDistinct(Select(s.tasks, DayOf(s), Flexible), DayOf(s), StartCapacity(s));
    UpToDistinct(KeyedFlexible(s), k);
    SortPermuted(UpTo(KeyedFlexible(s), k), UpTo(KeyedFlexible(s'), k));
  }

  /** Adding, removing or changing flexible tasks that sort after a task leaves the items of that task, of
      everything before it and of every mandatory task exactly as they were, ranks included. */
  lemma LaterTasksChangeNothing(s: Snapshot, s': Snapshot, k: Key)
    requires AgreeUpTo(s, s', k)
    ensures DecisionsUpTo(s', k) == DecisionsUpTo(s, k)
    ensures Overflows(s') <==> Overflows(s)
  {
    SameMandatoryItems(s, s', k);
    SameOverflow(s, s', k);
    SameHeadOrder(s, s', k);
    SameDecisions(s, s', k);
  }

  lemma SameDecisions(s: Snapshot, s': Snapshot, k: Key)
    requires StartCapacity(s') == StartCapacity(s) && MandatoryItems(s') == MandatoryItems(s)
    requires Sort(UpTo(KeyedFlexible(s'), k)) == Sort(UpTo(KeyedFlexible(s), k))
    ensures DecisionsUpTo(s', k) == DecisionsUpTo(s, k)
  {
    assert FlexibleCapacity(s') == FlexibleCapacity(s) && FlexibleRank(s') == FlexibleRank(s);
    assert HeadPacking(s', k) == HeadPacking(s, k);
  }

  // ----- the decisions of one task -----

  lemma {:induction false} ItemsOfConcat(a: seq<Item>, b: seq<Item>, id: Id)
    ensures ItemsOf(a + b, id) == ItemsOf(a, id) + ItemsOf(b, id)
  {
    if a == [] {
      assert a + b == b;
    } else {
      assert (a + b)[1..] == a[1..] + b;
      ItemsOfConcat(a[1..], b, id);
    }
  }

  lemma {:induction false} DeferralsOfConcat(a: seq<Deferred>, b: seq<Deferred>, id: Id)
    ensures DeferralsOf(a + b, id) == DeferralsOf(a, id) + DeferralsOf(b, id)
  {
    if a == [] {
      assert a + b == b;
    } else {
      assert (a + b)[1..] == a[1..] + b;
      DeferralsOfConcat(a[1..], b, id);
    }
  }

  lemma {:induction false} NoItemOf(items: seq<Item>, item: Item)
    requires ItemsOf(items, item.taskId) == 0
    ensures item !in items
  {
    if items != [] {
      NoItemOf(items[1..], item);
    }
  }

  lemma {:induction false} NoDeferralOf(deferred: seq<Deferred>, d: Deferred)
    requires DeferralsOf(deferred, d.taskId) == 0
    ensures d !in deferred
  {
    if deferred != [] {
      NoDeferralOf(deferred[1..], d);
    }
  }

  lemma {:induction false} Listed(ts: seq<Keyed<Task>>, k: Keyed<Task>)
    requires k in ts
    ensures ListingsOf(ts, k.value.id) >= 1
  {
    if ts[0] != k {
      Listed(ts[1..], k);
    }
  }

  /** The sorted flexible list names an id as often as the flexible tasks carry it. */
  lemma ListedInOrder(s: Snapshot, id: Id)
    ensures ListingsOf(FlexibleOrder(s), id) == Tally(s.tasks, DayOf(s), Flexible, id)
  {
    var ts, selected := FlexibleOrder(s), Select(s.tasks, DayOf(s), Flexible);
    ListingsOfIs(ts, id);
    SortedFlexibleIs(selected, DayOf(s), StartCapacity(s));
    MapPermuted(TaskId, selected, Map(ValueOf, ts));
    assert Map(KeyedId, ts) == Map(TaskId, Map(ValueOf, ts));
    OccurrencesCount(selected, id);
    TallyIsSelected(s.tasks, DayOf(s), Flexible, id);
  }

  lemma ListedOnce(s: Snapshot, id: Id)
    requires UniqueIds(s)
    ensures ListingsOf(FlexibleOrder(s), id) <= 1
  {
    ListedInOrder(s, id);
    ClassesDisjoint(s.tasks, DayOf(s), id);
    UniqueOnce(s.tasks, id);
  }

  /** A flexible task up to the key is decided in the head of the packing, and nowhere else. */
  lemma DecidedInHead(s: Snapshot, k: Key, t: Task)
    requires UniqueIds(s) && KeyedByUrgency(DayOf(s), StartCapacity(s))(t) in Sort(UpTo(KeyedFlexible(s), k))
    ensures forall item: Item :: item.taskId == t.id ==> (item in FlexiblePacking(s).items <==> item in HeadPacking(s, k).items)
    ensures forall d: Deferred :: d.taskId == t.id ==> (d in FlexiblePacking(s).deferred <==> d in HeadPacking(s, k).deferred)
  {
    var head, h, p := Sort(UpTo(KeyedFlexible(s), k)), HeadPacking(s, k), FlexiblePacking(s);
    HeadPackingIsPrefix(s, k);
    var items, deferred := p.items[|h.items|..], p.deferred[|h.deferred|..];
    assert p.items == h.items + items && p.deferred == h.deferred + deferred;
    ItemsOfConcat(h.items, items, t.id);
    DeferralsOfConcat(h.deferred, deferred, t.id);
    EachListingDecided(head, FlexibleCapacity(s), FlexibleRank(s), t.id);
    EachListingDecided(FlexibleOrder(s), FlexibleCapacity(s), FlexibleRank(s), t.id);
    Listed(head, KeyedByUrgency(DayOf(s), StartCapacity(s))(t));
    ListedOnce(s, t.id);
    forall item: Item | item.taskId == t.id
      ensures item !in items
    {
      NoItemOf(items, item);
    }
    forall d: Deferred | d.taskId == t.id
      ensures d !in deferred
    {
      NoDeferralOf(deferred, d);
    }
  }

  /** Whatever the packing says of an id is said of a flexible task that carries it. */
  lemma OnlyFlexiblePacked(s: Snapshot, id: Id)
    requires Tally(s.tasks, DayOf(s), Flexible, id) == 0
    ensures forall item: Item :: item.taskId == id ==> item !in FlexiblePacking(s).items
    ensures forall d: Deferred :: d.taskId == id ==> d !in FlexiblePacking(s).deferred
  {
    ListedInOrder(s, id);
    EachListingDecided(FlexibleOrder(s), FlexibleCapacity(s), FlexibleRank(s), id);
    forall item: Item | item.taskId == id
      ensures item !in FlexiblePacking(s).items
    {
      NoItemOf(FlexiblePacking(s).items, item);
    }
    forall d: Deferred | d.taskId == id
      ensures d !in FlexiblePacking(s).deferred
    {
      NoDeferralOf(FlexiblePacking(s).deferred, d);
    }
  }

  lemma ClassTally(s: Snapshot, t: Task, class_: Class)
    requires UniqueIds(s) && t in s.tasks
    ensures Tally(s.tasks, DayOf(s), class_, t.id) > 0 <==> Classify(t, DayOf(s)) == class_
  {
    TallyIsSelected(s.tasks, DayOf(s), class_, t.id);
    OccursIffListed(Select(s.tasks, DayOf(s), class_), t.id);
    ClassHasId(s, t, class_);
  }

  lemma {:induction false} OccursIffListed(ts: seq<Task>, id: Id)
    ensures Occurrences(ts, id) > 0 <==> exists u :: u in ts && u.id == id
  {
    if ts != [] {
      OccursIffListed(ts[..|ts| - 1], id);
    }
  }

  lemma NotDeferredAsBlocked(s: Snapshot, t: Task, d: Deferred)
    requires UniqueIds(s) && t in s.tasks && Classify(t, DayOf(s)) != Blocked && d.taskId == t.id
    ensures d !in Map(BlockedDeferral, Select(s.tasks, DayOf(s), Blocked))
  {
    if d in Map(BlockedDeferral, Select(s.tasks, DayOf(s), Blocked)) {
      DeferralHasTask(Select(s.tasks, DayOf(s), Blocked), d);
      ClassHasId(s, t, Blocked);
    }
  }

  lemma DeferralHasTask(blocked: seq<Task>, d: Deferred)
    requires d in Map(BlockedDeferral, blocked)
    ensures exists u :: u in blocked && u.id == d.taskId
  {
    var i :| 0 <= i < |blocked| && Map(BlockedDeferral, blocked)[i] == d;
    assert blocked[i] in blocked;
  }

  /** Both plans decide the task alike: the same items with the same minutes and ranks, the same deferrals. */
  ghost predicate DecidedAlike(p: Plan, p': Plan, t: Task) {
    && (forall item: Item :: item.taskId == t.id ==> (item in p.items <==> item in p'.items))
    && (forall d: Deferred :: d.taskId == t.id ==> (d in p.deferred <==> d in p'.deferred))
  }

  /** The decision on a flexible task up to the key, in terms of the head. */
  lemma FlexibleDecisionIs(s: Snapshot, k: Key, t: Task)
    requires UniqueIds(s) && t in s.tasks && Classify(t, DayOf(s)) == Flexible
    requires KeyedByUrgency(DayOf(s), StartCapacity(s))(t) in Sort(UpTo(KeyedFlexible(s), k))
    ensures forall item: Item :: item.taskId == t.id ==> (item in NormalItems(s) <==> item in DecisionsUpTo(s, k).items)
    ensures forall d: Deferred :: d.taskId == t.id ==> (d in NormalDeferrals(s) <==> d in DecisionsUpTo(s, k).deferred)
  {
    DecidedInHead(s, k, t);
    forall d: Deferred | d.taskId == t.id
      ensures d in NormalDeferrals(s) <==> d in DecisionsUpTo(s, k).deferred
    {
      NotDeferredAsBlocked(s, t, d);
    }
  }

  /** The decision on a mandatory task. */
  lemma MandatoryDecisionIs(s: Snapshot, t: Task)
    requires UniqueIds(s) && t in s.tasks && Classify(t, DayOf(s)) == Mandatory
    ensures forall item: Item :: item.taskId == t.id ==> (item in NormalItems(s) <==> item in MandatoryItems(s))
    ensures forall d: Deferred :: d.taskId == t.id ==> d !in NormalDeferrals(s)
  {
    ClassTally(s, t, Flexible);
    OnlyFlexiblePacked(s, t.id);
    forall d: Deferred | d.taskId == t.id
      ensures d !in NormalDeferrals(s)
    {
      NotDeferredAsBlocked(s, t, d);
    }
  }

  lemma InHead(s: Snapshot, k: Key, t: Task)
    requires t in s.tasks && Classify(t, DayOf(s)) == Flexible
    requires KeyAtMost(UrgencyKey(t, DayOf(s), StartCapacity(s)), k)
    ensures KeyedByUrgency(DayOf(s), StartCapacity(s))(t) in UpTo(KeyedFlexible(s), k)
  {
    var selected := Select(s.tasks, DayOf(s), Flexible);
    SelectMember(s.tasks, DayOf(s), Flexible, t);
    var i :| 0 <= i < |selected| && selected[i] == t;
    assert KeyedFlexible(s)[i] == KeyedByUrgency(DayOf(s), StartCapacity(s))(t);
    InUpTo(KeyedFlexible(s), k, KeyedByUrgency(DayOf(s), StartCapacity(s))(t));
  }

  lemma {:induction false} InUpTo<T>(xs: seq<Keyed<T>>, k: Key, x: Keyed<T>)
    ensures x in UpTo(xs, k) <==> x in xs && KeyAtMost(x.key, k)
  {
    if xs != [] {
      InUpTo(xs[1..], k, x);
    }
  }

  lemma InBoth(s: Snapshot, s': Snapshot, k: Key, t: Task)
    requires AgreeUpTo(s, s', k) && t in s.tasks
    requires Classify(t, DayOf(s)) == Flexible && KeyAtMost(UrgencyKey(t, DayOf(s), StartCapacity(s)), k)
    ensures t in s'.tasks
    ensures KeyedByUrgency(DayOf(s), StartCapacity(s))(t) in Sort(UpTo(KeyedFlexible(s), k))
    ensures KeyedByUrgency(DayOf(s'), StartCapacity(s'))(t) in Sort(UpTo(KeyedFlexible(s'), k))
  {
    var x := KeyedByUrgency(DayOf(s), StartCapacity(s))(t);
    InHead(s, k, t);
    SortSorts(UpTo(KeyedFlexible(s), k));
    SameHeadOrder(s, s', k);
    assert x in multiset(UpTo(KeyedFlexible(s), k));
    assert x in multiset(Sort(UpTo(KeyedFlexible(s), k)));
    assert x in multiset(UpTo(KeyedFlexible(s'), k));
    InUpTo(KeyedFlexible(s'), k, x);
    var i :| 0 <= i < |KeyedFlexible(s')| && KeyedFlexible(s')[i] == x;
    SelectMember(s'.tasks, DayOf(s'), Flexible, t);
    assert Select(s'.tasks, DayOf(s'), Flexible)[i] == t;
  }

  /** Adding, removing or changing flexible tasks that sort after `k` changes nothing in the plan for any
      task up to `k`: its item, minutes and rank, or its deferral, are in the one plan exactly if in the
      other. The same holds for every mandatory task. */
  lemma PriorityStability(s: Snapshot, s': Snapshot, k: Key, t: Task)
    requires UniqueIds(s) && UniqueIds(s') && !Overflows(s) && AgreeUpTo(s, s', k) && t in s.tasks
    requires || Classify(t, DayOf(s)) == Mandatory
             || (Classify(t, DayOf(s)) == Flexible && KeyAtMost(UrgencyKey(t, DayOf(s), StartCapacity(s)), k))
    ensures DecidedAlike(Agenda(s), Agenda(s'), t) && !Overflows(s')
  {
    LaterTasksChangeNothing(s, s', k);
    if Classify(t, DayOf(s)) == Mandatory {
      SameMandatoryItems(s, s', k);
      SelectMember(s.tasks, DayOf(s), Mandatory, t);
      assert t in multiset(Select(s.tasks, DayOf(s), Mandatory));
      assert t in multiset(Select(s'.tasks, DayOf(s'), Mandatory));
      SelectMember(s'.tasks, DayOf(s'), Mandatory, t);
      MandatoryDecisionIs(s, t);
      MandatoryDecisionIs(s', t);
    } else {
      InBoth(s, s', k, t);
      FlexibleDecisionIs(s, k, t);
      FlexibleDecisionIs(s', k, t);
    }
  }

  lemma {:induction false} SelectConcat(a: seq<Task>, b: seq<Task>, day: Day, class_: Class)
    ensures Select(a + b, day, class_) == Select(a, day, class_) + Select(b, day, class_)
  {
    if b == [] {
      assert a + b == a;
    } else {
      assert (a + b)[..|a + b| - 1] == a + b[..|b| - 1];
      SelectConcat(a, b[..|b| - 1], day, class_);
    }
  }

  lemma {:induction false} UpToConcat<T>(a: seq<Keyed<T>>, b: seq<Keyed<T>>, k: Key)
    ensures UpTo(a + b, k) == UpTo(a, k) + UpTo(b, k)
  {
    if a == [] {
      assert a + b == b;
    } else {
      assert (a + b)[1..] == a[1..] + b;
      UpToConcat(a[1..], b, k);
    }
  }

  /** One more flexible task, anywhere in the listing, that sorts after `k`: nothing up to `k` moves. Read
      the other way round it is the removal of one; a change is a removal and an addition. */
  lemma AddingALaterTask(s: Snapshot, i: nat, u: Task, k: Key)
    requires i <= |s.tasks| && DistinctTasks(s.tasks)
    requires Classify(u, DayOf(s)) == Flexible && KeyLess(k, UrgencyKey(u, DayOf(s), StartCapacity(s)))
    ensures var s' := s.(tasks := s.tasks[..i] + [u] + s.tasks[i..]);
            && AgreeUpTo(s, s', k) && DecisionsUpTo(s', k) == DecisionsUpTo(s, k)
            && (Overflows(s') <==> Overflows(s))
  {
    var s' := s.(tasks := s.tasks[..i] + [u] + s.tasks[i..]);
    var a, b := s.tasks[..i], s.tasks[i..];
    assert s.tasks == a + b;
    assert DayOf(s') == DayOf(s) && StartCapacity(s') == StartCapacity(s);
    SelectAround(a, u, b, DayOf(s), Mandatory);
    SelectAround(a, u, b, DayOf(s), Flexible);
    UpToAround(Select(a, DayOf(s), Flexible), u, Select(b, DayOf(s), Flexible), DayOf(s), StartCapacity(s), k);
    LaterTasksChangeNothing(s, s', k);
  }

  /** So in the plan itself no task up to `k` and no mandatory task is decided differently. */
  lemma ALaterTaskMovesNobody(s: Snapshot, i: nat, u: Task, k: Key, t: Task)
    requires i <= |s.tasks| && UniqueIds(s) && UniqueIds(s.(tasks := s.tasks[..i] + [u] + s.tasks[i..])) && !Overflows(s)
    requires Classify(u, DayOf(s)) == Flexible && KeyLess(k, UrgencyKey(u, DayOf(s), StartCapacity(s)))
    requires t in s.tasks
    requires || Classify(t, DayOf(s)) == Mandatory
             || (Classify(t, DayOf(s)) == Flexible && KeyAtMost(UrgencyKey(t, DayOf(s), StartCapacity(s)), k))
    ensures DecidedAlike(Agenda(s), Agenda(s.(tasks := s.tasks[..i] + [u] + s.tasks[i..])), t)
  {
    AddingALaterTask(s, i, u, k);
    PriorityStability(s, s.(tasks := s.tasks[..i] + [u] + s.tasks[i..]), k, t);
  }

  lemma SelectAround(a: seq<Task>, u: Task, b: seq<Task>, day: Day, class_: Class)
    ensures Select(a + b, day, class_) == Select(a, day, class_) + Select(b, day, class_)
    ensures Select(a + [u] + b, day, class_)
            == Select(a, day, class_) + (if Classify(u, day) == class_ then [u] else []) + Select(b, day, class_)
  {
    SelectConcat(a, b, day, class_);
    SelectConcat(a + [u], b, day, class_);
    assert (a + [u])[..|a|] == a;
  }

  lemma UpToAround(a: seq<Task>, u: Task, b: seq<Task>, day: Day, start: int, k: Key)
    requires KeyLess(k, UrgencyKey(u, day, start))
    ensures UpTo(Map(KeyedByUrgency(day, start), a + [u] + b), k) == UpTo(Map(KeyedByUrgency(day, start), a + b), k)
  {
    var f := KeyedByUrgency(day, start);
    assert Map(f, a + b) == Map(f, a) + Map(f, b);
    assert Map(f, a + [u] + b) == (Map(f, a) + [f(u)]) + Map(f, b);
    UpToConcat(Map(f, a), Map(f, b), k);
    UpToConcat(Map(f, a) + [f(u)], Map(f, b), k);
    UpToConcat(Map(f, a), [f(u)], k);
    UpToNone([f(u)], k);
  }

  // ----- focus and rank never touch mandatory items -----

  ghost predicate SameButForPreference(a: Goal, b: Goal) {
    b == a.(focus := b.focus, rank := b.rank)
  }

  ghost predicate Reprioritised(s: Snapshot, s': Snapshot) {
    && s' == s.(goals := s'.goals)
    && |s'.goals| == |s.goals|
    && forall i :: 0 <= i < |s.goals| ==> SameButForPreference(s.goals[i], s'.goals[i])
  }

  lemma {:induction false} ReprioritisedMap(a: seq<Goal>, b: seq<Goal>)
    requires |a| == |b| && forall i :: 0 <= i < |a| ==> SameButForPreference(a[i], b[i])
    ensures GoalMap(a).Keys == GoalMap(b).Keys
    ensures forall id :: id in GoalMap(a) ==> SameButForPreference(GoalMap(a)[id], GoalMap(b)[id])
  {
    if a != [] {
      ReprioritisedMap(a[..|a| - 1], b[..|b| - 1]);
    }
  }

  /** Days under which tasks fall into the same classes and ask for the same minutes. */
  ghost predicate SameClasses(day: Day, day': Day) {
    forall t: Task :: Classify(t, day') == Classify(t, day) && Demand(t, day') == Demand(t, day)
  }

  lemma {:induction false} SelectSame(ts: seq<Task>, day: Day, day': Day, class_: Class)
    requires SameClasses(day, day')
    ensures Select(ts, day', class_) == Select(ts, day, class_)
  {
    if ts != [] {
      SelectSame(ts[..|ts| - 1], day, day', class_);
    }
  }

  lemma {:induction false} PackMandatorySame(ts: seq<Keyed<Task>>, day: Day, day': Day, remaining: int, rank: int)
    requires SameClasses(day, day')
    ensures PackMandatory(ts, day', remaining, rank) == PackMandatory(ts, day, remaining, rank)
  {
    if ts != [] {
      PackMandatorySame(ts[1..], day, day', remaining - Min(Demand(ts[0].value, day), remaining), rank + 1);
    }
  }

  lemma KeyedByDemandSame(ts: seq<Task>, day: Day, day': Day)
    requires SameClasses(day, day')
    ensures Map(KeyedByDemand(day'), ts) == Map(KeyedByDemand(day), ts)
    ensures Map(PositiveDemand(day'), ts) == Map(PositiveDemand(day), ts)
  {
  }

  /** Whatever the user does to focus and rank, the mandatory items stay the same, and so does what is
      left for the flexible ones. */
  lemma PreferencesNeverMoveMandatory(s: Snapshot, s': Snapshot)
    requires Reprioritised(s, s')
    ensures MandatoryItems(s') == MandatoryItems(s)
    ensures Overflows(s') <==> Overflows(s)
    ensures multiset(Select(s'.tasks, DayOf(s'), Flexible)) == multiset(Select(s.tasks, DayOf(s), Flexible))
  {
    ReprioritisedMap(s.goals, s'.goals);
    var day, day' := DayOf(s), DayOf(s');
    assert SameClasses(day, day');
    SelectSame(s.tasks, day, day', Mandatory);
    SelectSame(s.tasks, day, day', Flexible);
    KeyedByDemandSame(Select(s.tasks, day, Mandatory), day, day');
    PackMandatorySame(MandatoryOrder(s), day, day', StartCapacity(s), 1);
  }

  // ----- zero-minute items -----

  /** A flexible task that asks for nothing and whose rule accepts nothing. */
  predicate AsksForNothing(t: Task) {
    t.remaining == 0 && (!t.canSplit || MeetsFloor(t, 0))
  }

  /** Packing gives only positive minutes exactly if whoever asks for nothing comes too late. */
  lemma {:induction false} PositiveItemsExactly(ts: seq<Keyed<Task>>, remaining: int, rank: int)
    requires forall i :: 0 <= i < |ts| ==> ts[i].value.remaining >= 0
    ensures AllPositive(PackFlexible(ts, remaining, rank).items) <==> NothingAskedInTime(ts, remaining, rank)
  {
    if ts != [] {
      var minutes := Grant(ts[0].value, remaining);
      assert ts[..0] == [];
      var left, next := remaining - (if minutes.Some? then minutes.value else 0),
          rank + (if minutes.Some? then 1 else 0);
      PositiveItemsExactly(ts[1..], left, next);
      TailAskedInTime(ts, remaining, rank);
      var rest := PackFlexible(ts[1..], left, next);
      if minutes.Some? {
        PositiveCons(ItemFor(ts[0].value, rank, minutes.value), rest.items);
      }
    }
  }

  lemma PositiveCons(item: Item, items: seq<Item>)
    ensures AllPositive([item] + items) <==> item.minutes > 0 && AllPositive(items)
  {
    PositiveConcat([item], items);
    assert [item][0].minutes == item.minutes;
  }

  lemma PositiveConcat(a: seq<Item>, b: seq<Item>)
    ensures AllPositive(a + b) <==> AllPositive(a) && AllPositive(b)
  {
    if AllPositive(a + b) {
      assert forall i :: 0 <= i < |a| ==> a[i] == (a + b)[i];
      assert forall i :: 0 <= i < |b| ==> b[i] == (a + b)[|a| + i];
    }
  }

  ghost predicate AllPositive(items: seq<Item>) {
    forall i :: 0 <= i < |items| ==> items[i].minutes > 0
  }

  ghost predicate NothingAskedInTime(ts: seq<Keyed<Task>>, remaining: int, rank: int) {
    forall i :: 0 <= i < |ts| && AsksForNothing(ts[i].value) ==> PackFlexible(ts[..i], remaining, rank).remaining <= 0
  }

  lemma TailAskedInTime(ts: seq<Keyed<Task>>, remaining: int, rank: int)
    requires ts != []
    ensures var minutes := Grant(ts[0].value, remaining);
            var left, next := remaining - (if minutes.Some? then minutes.value else 0),
                rank + (if minutes.Some? then 1 else 0);
            NothingAskedInTime(ts, remaining, rank)
            <==> (AsksForNothing(ts[0].value) ==> remaining <= 0) && NothingAskedInTime(ts[1..], left, next)
  {
    var minutes := Grant(ts[0].value, remaining);
    var left, next := remaining - (if minutes.Some? then minutes.value else 0), rank + (if minutes.Some? then 1 else 0);
    assert ts[..0] == [];
    forall i | 0 < i < |ts|
      ensures PackFlexible(ts[..i], remaining, rank).remaining == PackFlexible(ts[1..][..i - 1], left, next).remaining
    {
      assert ts[..i][1..] == ts[1..][..i - 1];
    }
    if NothingAskedInTime(ts, remaining, rank) {
      forall j | 0 <= j < |ts[1..]| && AsksForNothing(ts[1..][j].value)
        ensures PackFlexible(ts[1..][..j], left, next).remaining <= 0
      {
        assert ts[j + 1] == ts[1..][j];
      }
    }
    if NothingAskedInTime(ts[1..], left, next) {
      forall i | 0 < i < |ts| && AsksForNothing(ts[i].value)
        ensures PackFlexible(ts[..i], remaining, rank).remaining <= 0
      {
        assert ts[i] == ts[1..][i - 1];
      }
    }
  }

  /** Cutting a sorted list at the key of one of its elements keeps the elements up to that one. */
  lemma {:induction false} UpToOwnKey<T>(xs: seq<Keyed<T>>, i: nat)
    requires Sorted(xs) && DistinctKeys(xs) && i < |xs|
    ensures UpTo(xs, xs[i].key) == xs[..i + 1]
  {
    var k := xs[i].key;
    KeyIrreflexive(k);
    if i == 0 {
      forall j | 0 <= j < |xs[1..]|
        ensures !KeyAtMost(xs[1..][j].key, k)
      {
        assert KeyAtMost(xs[0].key, xs[j + 1].key);
        KeyTotal(xs[0].key, xs[j + 1].key);
      }
      UpToNone(xs[1..], k);
      assert UpTo(xs, k) == [xs[0]] + UpTo(xs[1..], k);
    } else {
      UpToOwnKey(xs[1..], i - 1);
      assert KeyAtMost(xs[0].key, k);
      assert xs[..i + 1] == [xs[0]] + xs[1..][..i];
    }
  }

  /** The minutes left when a task's turn has passed; for one that asks for nothing, when it comes. */
  function LeftAt(s: Snapshot, t: Task): int {
    HeadPacking(s, UrgencyKey(t, DayOf(s), StartCapacity(s))).remaining
  }

  lemma LeftAtIs(s: Snapshot, i: nat)
    requires UniqueIds(s) && i < |FlexibleOrder(s)| && AsksForNothing(FlexibleOrder(s)[i].value)
    ensures LeftAt(s, FlexibleOrder(s)[i].value) == PackFlexible(FlexibleOrder(s)[..i], FlexibleCapacity(s), FlexibleRank(s)).remaining
  {
    var ts := FlexibleOrder(s);
    OrderIsSorted(s);
    UpToOwnKey(ts, i);
    UpToSort(KeyedFlexible(s), ts[i].key);
    PackFlexibleAppend(ts[..i], [ts[i]], FlexibleCapacity(s), FlexibleRank(s));
    assert ts[..i + 1] == ts[..i] + [ts[i]];
    var before := PackFlexible(ts[..i], FlexibleCapacity(s), FlexibleRank(s));
    TakesNothing(ts[i], before.remaining, FlexibleRank(s) + |before.items|);
    assert ts[i].key == UrgencyKey(ts[i].value, DayOf(s), StartCapacity(s)) by {
      KeysAreUrgency(s, i);
    }
  }

  lemma TakesNothing(k: Keyed<Task>, remaining: int, rank: int)
    requires AsksForNothing(k.value)
    ensures PackFlexible([k], remaining, rank).remaining == remaining
  {
    assert PackFlexible([k][1..], remaining, rank).remaining == remaining;
  }

  lemma OrderIsSorted(s: Snapshot)
    requires UniqueIds(s)
    ensures Sorted(FlexibleOrder(s)) && DistinctKeys(FlexibleOrder(s))
  {
    SelectDistinct(s.tasks, DayOf(s), Flexible);
    UrgencyKeysDistinct(Select(s.tasks, DayOf(s), Flexible), DayOf(s), StartCapacity(s));
    SortSorts(KeyedFlexible(s));
    DistinctPermuted(KeyedFlexible(s), FlexibleOrder(s));
  }

  lemma KeysAreUrgency(s: Snapshot, i: nat)
    requires i < |FlexibleOrder(s)|
    ensures FlexibleOrder(s)[i].key == UrgencyKey(FlexibleOrder(s)[i].value, DayOf(s), StartCapacity(s))
  {
    SortSorts(KeyedFlexible(s));
    assert FlexibleOrder(s)[i] in multiset(KeyedFlexible(s));
  }

  lemma PositionOf(s: Snapshot, t: Task) returns (i: nat)
    requires t in s.tasks && Classify(t, DayOf(s)) == Flexible
    ensures i < |FlexibleOrder(s)| && FlexibleOrder(s)[i].value == t
  {
    SelectMember(s.tasks, DayOf(s), Flexible, t);
    SortedFlexibleIs(Select(s.tasks, DayOf(s), Flexible), DayOf(s), StartCapacity(s));
    assert t in multiset(Map(ValueOf, FlexibleOrder(s)));
    i := InValues(FlexibleOrder(s), t);
  }

  /** Every flexible task that asks for nothing comes when nothing is left. */
  ghost predicate NothingIsAsked(s: Snapshot) {
    forall t :: t in s.tasks && Classify(t, DayOf(s)) == Flexible && AsksForNothing(t) ==> LeftAt(s, t) <= 0
  }

  lemma NothingIsAskedInOrder(s: Snapshot)
    requires UniqueIds(s)
    ensures NothingIsAsked(s) <==> NothingAskedInTime(FlexibleOrder(s), FlexibleCapacity(s), FlexibleRank(s))
  {
    var ts := FlexibleOrder(s);
    if NothingIsAsked(s) {
      forall i | 0 <= i < |ts| && AsksForNothing(ts[i].value)
        ensures PackFlexible(ts[..i], FlexibleCapacity(s), FlexibleRank(s)).remaining <= 0
      {
        FlexibleOrderMember(s, i);
        LeftAtIs(s, i);
      }
    }
    if NothingAskedInTime(ts, FlexibleCapacity(s), FlexibleRank(s)) {
      forall t | t in s.tasks && Classify(t, DayOf(s)) == Flexible && AsksForNothing(t)
        ensures LeftAt(s, t) <= 0
      {
        var i := PositionOf(s, t);
        LeftAtIs(s, i);
      }
    }
  }

  /** The table of agenda items accepts positive minutes only. A plan meets that exactly if every flexible
      task that asks for nothing comes when no time is left. */
  lemma ItemsPositiveExactly(s: Snapshot)
    requires MinutesSane(s) && UniqueIds(s) && !Overflows(s)
    ensures AllPositive(Agenda(s).items) <==> NothingIsAsked(s)
  {
    MandatoryArePositive(s);
    FlexibleOrderSane(s);
    PositiveItemsExactly(FlexibleOrder(s), FlexibleCapacity(s), FlexibleRank(s));
    NothingIsAskedInOrder(s);
    PositiveConcat(MandatoryItems(s), FlexiblePacking(s).items);
  }

  lemma MandatoryArePositive(s: Snapshot)
    requires !Overflows(s)
    ensures AllPositive(MandatoryItems(s))
  {
    MandatoryFits(s);
  }

  /** One goal, one task of no minutes that may start today, an hour of time. */
  function IdleDay(): Snapshot {
    Snapshot(0, Total, 60, 0, 60, [], [Goal("g", false, false, 0, 0, 0)],
             [Task("t", "s", "g", Pending, 0, false, None, None, 5, true, None, 0)], {}, {})
  }

  lemma IdleSelect(class_: Class)
    ensures Select(IdleDay().tasks, DayOf(IdleDay()), class_) == if class_ == Flexible then IdleDay().tasks else []
  {
    var s := IdleDay();
    assert GoalMap(s.goals)["g"] == s.goals[0];
    assert s.tasks[..0] == [] && Select([], DayOf(s), class_) == [];
  }

  lemma IdleMandatory()
    ensures MandatoryItems(IdleDay()) == [] && MandatoryDemand(IdleDay()) == 0 && StartCapacity(IdleDay()) == 60
  {
    IdleSelect(Mandatory);
  }

  lemma IdleOrder()
    ensures |FlexibleOrder(IdleDay())| == 1 && FlexibleOrder(IdleDay())[0].value == IdleDay().tasks[0]
  {
    IdleSelect(Flexible);
    OneInOrder(IdleDay(), IdleDay().tasks[0]);
  }

  lemma OneInOrder(s: Snapshot, t: Task)
    requires Select(s.tasks, DayOf(s), Flexible) == [t]
    ensures |FlexibleOrder(s)| == 1 && FlexibleOrder(s)[0].value == t
  {
    SortedFlexibleIs([t], DayOf(s), StartCapacity(s));
    var values := Map(ValueOf, FlexibleOrder(s));
    assert values[0] in multiset(values);
  }

  lemma OneZeroMinuteTask(k: Keyed<Task>)
    requires k.value == IdleDay().tasks[0]
    ensures PackFlexible([k], 60, 1).items == [Item("t", "s", 1, 0)]
  {
    assert [k][1..] == [];
    assert PackFlexible([k][1..], 60, 2).items == [];
  }

  /** Such a task gets an item of no minutes, which the table refuses. */
  lemma ZeroMinuteItem()
    ensures Agenda(IdleDay()).items == [Item("t", "s", 1, 0)]
  {
    IdleMandatory();
    IdleOrder();
    OneFlexibleTask(IdleDay(), FlexibleOrder(IdleDay())[0]);
    OneZeroMinuteTask(FlexibleOrder(IdleDay())[0]);
  }

  lemma OneFlexibleTask(s: Snapshot, k: Keyed<Task>)
    requires MandatoryItems(s) == [] && MandatoryDemand(s) == 0 && StartCapacity(s) == 60
    requires |FlexibleOrder(s)| == 1 && FlexibleOrder(s)[0] == k
    ensures Agenda(s).items == PackFlexible([k], 60, 1).items
  {
    assert FlexibleOrder(s) == [k];
    NothingMandatory(s);
  }

  lemma NothingMandatory(s: Snapshot)
    requires MandatoryItems(s) == []
    ensures FlexibleCapacity(s) == StartCapacity(s) && FlexibleRank(s) == 1 && NormalItems(s) == FlexiblePacking(s).items
  {
    assert Reserved([]) == 0;
  }
}
