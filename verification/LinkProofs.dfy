/** What every run of link commands keeps, and exactly when and how each command changes the graph. */
module LinkProofs {
  import opened Prelude
  import opened Tasks
  import opened CycleSearch
  import opened Ordering
  import opened LinkModel

  // ----- the invariant -----

  ghost predicate EdgeOk(s: Links, e: Edge) {
    && e.pred in s.tasks && e.succ in s.tasks
    && (e.link.Some? ==>
          && e.link.value < |s.links|
          && s.links[e.link.value].status == LinkActive
          && Spans(s.tasks, e.pred, e.succ, s.links[e.link.value].goalA, s.links[e.link.value].goalB))
  }

  ghost predicate EdgesOk(s: Links) {
    forall e :: e in s.edges ==> EdgeOk(s, e)
  }

  ghost predicate RowsUnique(edges: seq<Edge>) {
    forall i, j :: 0 <= i < j < |edges| ==> !SameRow(edges[i], edges[j])
  }

  ghost predicate SamePair(l: Link, m: Link) {
    l.goalA == m.goalA && l.goalB == m.goalB
  }

  /** Pairs are stored in one order, and a pair has at most one link that is not removed. */
  ghost predicate LinksOk(links: seq<Link>) {
    && (forall i :: 0 <= i < |links| ==> StringLess(links[i].goalA, links[i].goalB))
    && (forall i, j :: 0 <= i < j < |links| && SamePair(links[i], links[j]) ==> !Enabled(links[i]) || !Enabled(links[j]))
  }

  /** What a pending proposal whose revision is still current tells the user is what stands. */
  ghost predicate ProposalOk(s: Links, p: Proposal) {
    && p.link < |s.links|
    && s.links[p.link].status != LinkProposed
    && p.inputRevision <= s.revision
    && (p.status == ProposalStatus.Pending && p.inputRevision == s.revision ==>
          s.links[p.link].status == LinkActive && p.shown == Under(s.edges, p.link))
    && (p.status == Applied ==> p.inputRevision < s.revision && s.links[p.link].status == LinkRemoved)
  }

  ghost predicate ProposalsOk(s: Links) {
    forall i :: 0 <= i < |s.proposals| ==> ProposalOk(s, s.proposals[i])
  }

  /** The proposals applied so far, in the order in which they were: rising revisions, one per removed link. */
  ghost predicate AppliedOk(s: Links, applied: seq<nat>) {
    && (forall i :: 0 <= i < |applied| ==> applied[i] < |s.proposals|)
    && (forall p :: 0 <= p < |s.proposals| ==> (s.proposals[p].status == Applied <==> p in applied))
    && Rising(s.proposals, applied)
    && RemovalsRecorded(s, applied)
  }

  ghost predicate Rising(ps: seq<Proposal>, applied: seq<nat>)
    requires forall i :: 0 <= i < |applied| ==> applied[i] < |ps|
  {
    forall i, j :: 0 <= i < j < |applied| ==>
      (ps[applied[i]].inputRevision < ps[applied[j]].inputRevision && ps[applied[i]].link != ps[applied[j]].link)
  }

  ghost predicate RemovalsRecorded(s: Links, applied: seq<nat>)
    requires forall i :: 0 <= i < |applied| ==> applied[i] < |s.proposals|
  {
    forall l :: 0 <= l < |s.links| && s.links[l].status == LinkRemoved ==>
      (exists i :: 0 <= i < |applied| && s.proposals[applied[i]].link == l)
  }

  ghost predicate Acyclic(edges: seq<Edge>) {
    !HasCycle(ArcSet(Arcs(edges)))
  }

  ghost predicate Inv(s: Links) {
    Acyclic(s.edges) && EdgesOk(s) && RowsUnique(s.edges) && LinksOk(s.links) && ProposalsOk(s)
  }

  /** Any dependency graph inside the plans, no links yet. */
  ghost predicate Start(s: Links) {
    && s.links == [] && s.proposals == []
    && Acyclic(s.edges) && RowsUnique(s.edges)
    && (forall e :: e in s.edges ==> e.link.None? && e.pred in s.tasks && e.succ in s.tasks)
  }

  /** The proposals a run applies, appended to those applied before. */
  ghost function AppliedBy(s: Links, steps: seq<LinkStep>, applied: seq<nat>): seq<nat>
    decreases |steps|
  {
    if steps == [] then applied
    else AppliedBy(Apply(s, steps[0]), steps[1..], Recorded(s, steps[0], applied))
  }

  ghost function Recorded(s: Links, step: LinkStep, applied: seq<nat>): seq<nat> {
    if step.DoAccept? && Accept(s, step.proposal).Ok? then applied + [step.proposal] else applied
  }

  // ----- lists of edges -----

  lemma {:induction false} InUnder(edges: seq<Edge>, l: nat, e: Edge)
    ensures e in Under(edges, l) <==> e in edges && e.link == Some(l)
  {
    if edges != [] {
      InUnder(edges[1..], l, e);
    }
  }

  lemma {:induction false} InNotUnder(edges: seq<Edge>, l: nat, e: Edge)
    ensures e in NotUnder(edges, l) <==> e in edges && e.link != Some(l)
  {
    if edges != [] {
      InNotUnder(edges[1..], l, e);
    }
  }

  lemma {:induction false} InSplit(tasks: map<Id, TaskRow>, edges: seq<Edge>, satisfied: bool, e: Edge)
    ensures e in Split(tasks, edges, satisfied) <==> e in edges && Satisfied(tasks, e) == satisfied
  {
    if edges != [] {
      InSplit(tasks, edges[1..], satisfied, e);
    }
  }

  lemma {:induction false} NotUnderUnique(edges: seq<Edge>, l: nat)
    requires RowsUnique(edges)
    ensures RowsUnique(NotUnder(edges, l))
  {
    if edges != [] {
      NotUnderUnique(edges[1..], l);
      forall e | e in NotUnder(edges[1..], l)
        ensures !SameRow(edges[0], e)
      {
        InNotUnder(edges[1..], l, e);
        var i :| 0 <= i < |edges[1..]| && edges[1..][i] == e;
        assert edges[i + 1] == e;
      }
    }
  }

  lemma {:induction false} NotUnderConcat(xs: seq<Edge>, ys: seq<Edge>, l: nat)
    ensures NotUnder(xs + ys, l) == NotUnder(xs, l) + NotUnder(ys, l)
  {
    if xs == [] {
      assert xs + ys == ys;
    } else {
      assert (xs + ys)[1..] == xs[1..] + ys;
      NotUnderConcat(xs[1..], ys, l);
    }
  }

  lemma {:induction false} UnderNone(edges: seq<Edge>, l: nat)
    requires forall e :: e in edges ==> e.link != Some(l)
    ensures Under(edges, l) == [] && NotUnder(edges, l) == edges
  {
    if edges != [] {
      UnderNone(edges[1..], l);
    }
  }

  lemma {:induction false} UnderAll(edges: seq<Edge>, l: nat)
    requires forall i :: 0 <= i < |edges| ==> edges[i].link == Some(l)
    ensures Under(edges, l) == edges && NotUnder(edges, l) == []
  {
    if edges != [] {
      assert edges == [edges[0]] + edges[1..];
      UnderAll(edges[1..], l);
    }
  }

  lemma InArcs(edges: seq<Edge>, a: Arc)
    ensures a in ArcSet(Arcs(edges)) <==> exists e :: e in edges && ArcOf(e) == a
  {
    if a in ArcSet(Arcs(edges)) {
      var i :| 0 <= i < |edges| && Arcs(edges)[i] == a;
      assert edges[i] in edges && ArcOf(edges[i]) == a;
    }
    if e :| e in edges && ArcOf(e) == a {
      var i :| 0 <= i < |edges| && edges[i] == e;
      assert Arcs(edges)[i] == a;
    }
  }

  lemma FewerEdges(edges: seq<Edge>, more: seq<Edge>)
    requires Acyclic(more) && forall e :: e in edges ==> e in more
    ensures Acyclic(edges)
  {
    forall a | a in ArcSet(Arcs(edges))
      ensures a in ArcSet(Arcs(more))
    {
      InArcs(edges, a);
      InArcs(more, a);
    }
    FewerArcsFewerCycles(ArcSet(Arcs(edges)), ArcSet(Arcs(more)));
  }

  // ----- inserting the confirmed edges -----

  /** The rows a confirmation inserts, when nothing stops it. */
  function NewEdges(plans: map<Id, Id>, l: nat, deps: seq<EdgeCommand>): (edges: seq<Edge>)
    requires CheckOutcomes(deps) && forall i :: 0 <= i < |deps| ==> deps[i].succ in plans
    ensures |edges| == |deps|
  {
    seq(|deps|, i requires 0 <= i < |deps| => NewEdge(plans, l, deps[i]))
  }

  ghost predicate Insertable(edges: seq<Edge>, plans: map<Id, Id>, l: nat, deps: seq<EdgeCommand>)
    requires CheckOutcomes(deps)
  {
    && (forall i :: 0 <= i < |deps| ==> deps[i].succ in plans)
    && RowsUnique(edges + NewEdges(plans, l, deps))
  }

  lemma {:induction false} AddEdgesExactly(edges: seq<Edge>, plans: map<Id, Id>, l: nat, deps: seq<EdgeCommand>)
    requires CheckOutcomes(deps) && RowsUnique(edges)
    ensures AddEdges(edges, plans, l, deps).Ok? <==> Insertable(edges, plans, l, deps)
    ensures AddEdges(edges, plans, l, deps).Ok? ==> AddEdges(edges, plans, l, deps).value == edges + NewEdges(plans, l, deps)
    decreases |deps|
  {
    if deps == [] {
      assert Insertable(edges, plans, l, deps) by {
        assert edges + NewEdges(plans, l, deps) == edges;
      }
    } else if deps[0].succ in plans {
      var e := NewEdge(plans, l, deps[0]);
      if forall i :: 0 <= i < |edges| ==> !SameRow(edges[i], e) {
        assert RowsUnique(edges + [e]);
        AddEdgesExactly(edges + [e], plans, l, deps[1..]);
        InsertableTail(edges, plans, l, deps);
      } else {
        var i :| 0 <= i < |edges| && SameRow(edges[i], e);
        TakenRow(edges, plans, l, deps, i);
      }
    }
  }

  lemma TakenRow(edges: seq<Edge>, plans: map<Id, Id>, l: nat, deps: seq<EdgeCommand>, i: nat)
    requires CheckOutcomes(deps) && deps != [] && deps[0].succ in plans
    requires i < |edges| && SameRow(edges[i], NewEdge(plans, l, deps[0]))
    ensures !Insertable(edges, plans, l, deps)
  {
    if forall k :: 0 <= k < |deps| ==> deps[k].succ in plans {
      var all := edges + NewEdges(plans, l, deps);
      assert all[i] == edges[i] && all[|edges|] == NewEdge(plans, l, deps[0]);
      assert SameRow(all[i], all[|edges|]);
    }
  }

  lemma InsertableTail(edges: seq<Edge>, plans: map<Id, Id>, l: nat, deps: seq<EdgeCommand>)
    requires CheckOutcomes(deps) && deps != [] && deps[0].succ in plans
    ensures Insertable(edges, plans, l, deps) <==> Insertable(edges + [NewEdge(plans, l, deps[0])], plans, l, deps[1..])
    ensures (forall i :: 0 <= i < |deps| ==> deps[i].succ in plans) ==>
      edges + NewEdges(plans, l, deps) == edges + [NewEdge(plans, l, deps[0])] + NewEdges(plans, l, deps[1..])
  {
    if forall i :: 0 <= i < |deps[1..]| ==> deps[1..][i].succ in plans {
      forall i | 0 <= i < |deps|
        ensures deps[i].succ in plans
      {
        if i > 0 {
          assert deps[1..][i - 1] == deps[i];
        }
      }
      assert edges + NewEdges(plans, l, deps) == edges + [NewEdge(plans, l, deps[0])] + NewEdges(plans, l, deps[1..]);
    } else {
      var i :| 0 <= i < |deps[1..]| && deps[1..][i].succ !in plans;
      assert deps[i + 1].succ !in plans;
    }
  }

  lemma NewArcs(edges: seq<Edge>, plans: map<Id, Id>, l: nat, deps: seq<EdgeCommand>)
    requires CheckOutcomes(deps) && forall i :: 0 <= i < |deps| ==> deps[i].succ in plans
    ensures Arcs(edges + NewEdges(plans, l, deps)) == Arcs(edges) + Candidate(deps)
  {
  }

  lemma {:induction false} NoFaultSpans(tasks: map<Id, TaskRow>, a: Id, b: Id, deps: seq<EdgeCommand>)
    ensures CrossGoalFault(tasks, a, b, deps).None? <==> forall i :: 0 <= i < |deps| ==> Spans(tasks, deps[i].pred, deps[i].succ, a, b)
  {
    if deps != [] {
      NoFaultSpans(tasks, a, b, deps[1..]);
      assert forall i :: 0 < i < |deps| ==> deps[i] == deps[1..][i - 1];
      assert forall i :: 0 <= i < |deps[1..]| ==> deps[1..][i] == deps[i + 1];
    }
  }

  // ----- every step keeps the invariant -----

  lemma StartKeeps(s: Links)
    requires Start(s)
    ensures Inv(s) && AppliedOk(s, [])
  {
    PlanEdgesOk(s);
    NothingApplied(s);
  }

  lemma PlanEdgesOk(s: Links)
    requires forall e :: e in s.edges ==> e.link.None? && e.pred in s.tasks && e.succ in s.tasks
    ensures EdgesOk(s)
  {
  }

  lemma NothingApplied(s: Links)
    requires s.links == [] && s.proposals == []
    ensures LinksOk(s.links) && ProposalsOk(s) && AppliedOk(s, [])
  {
    NothingRecorded(s, []);
  }

  lemma NothingRecorded(s: Links, applied: seq<nat>)
    requires |s.links| == 0 && |s.proposals| == 0 && |applied| == 0
    ensures AppliedOk(s, applied)
  {
  }

  lemma CanonicalIsOrdered(a: Id, b: Id)
    requires a != b
    ensures StringLess(Canonical(a, b).0, Canonical(a, b).1)
    ensures {Canonical(a, b).0, Canonical(a, b).1} == {a, b}
  {
    LexTotal(Codes(a), Codes(b));
    if Codes(a) == Codes(b) {
      CodesInjective(a, b);
    }
  }

  lemma ProposeKeepsInv(s: Links, goal: Id, target: Id, deps: seq<EdgeCommand>)
    requires Inv(s) && Propose(s, goal, target, deps).Ok?
    ensures Inv(Propose(s, goal, target, deps).value)
  {
    CanonicalIsOrdered(goal, target);
    var s' := Propose(s, goal, target, deps).value;
    assert forall e :: e in s'.edges ==> EdgeOk(s, e);
    assert forall i :: 0 <= i < |s'.proposals| ==> ProposalOk(s, s.proposals[i]);
  }

  lemma ConfirmKeepsEdges(s: Links, l: nat, deps: seq<EdgeCommand>)
    requires Inv(s) && Confirm(s, l, deps).Ok?
    ensures EdgesOk(Confirm(s, l, deps).value)
    ensures RowsUnique(Confirm(s, l, deps).value.edges) && Acyclic(Confirm(s, l, deps).value.edges)
  {
    var s' := Confirm(s, l, deps).value;
    AddEdgesExactly(s.edges, s.plans, l, deps);
    NoFaultSpans(s.tasks, s.links[l].goalA, s.links[l].goalB, deps);
    NewArcs(s.edges, s.plans, l, deps);
    forall e | e in s'.edges
      ensures EdgeOk(s', e)
    {
      if e in s.edges {
        assert EdgeOk(s, e);
      } else {
        var i :| 0 <= i < |deps| && NewEdges(s.plans, l, deps)[i] == e;
      }
    }
  }

  lemma ConfirmKeepsInv(s: Links, l: nat, deps: seq<EdgeCommand>)
    requires Inv(s) && Confirm(s, l, deps).Ok?
    ensures Inv(Confirm(s, l, deps).value)
  {
    ConfirmKeepsEdges(s, l, deps);
    var s' := Confirm(s, l, deps).value;
    forall i | 0 <= i < |s'.proposals|
      ensures ProposalOk(s', s'.proposals[i])
    {
      assert ProposalOk(s, s.proposals[i]);
    }
  }

  lemma AcceptKeepsInv(s: Links, p: nat)
    requires Inv(s) && Accept(s, p).Ok?
    ensures Inv(Accept(s, p).value)
  {
    var s' := Accept(s, p).value;
    var l := s.proposals[p].link;
    forall e
      ensures e in s'.edges <==> e in s.edges && e.link != Some(l)
    {
      InNotUnder(s.edges, l, e);
    }
    FewerEdges(s'.edges, s.edges);
    NotUnderUnique(s.edges, l);
    assert forall e :: e in s'.edges ==> EdgeOk(s, e);
    forall i | 0 <= i < |s'.proposals|
      ensures ProposalOk(s', s'.proposals[i])
    {
      assert ProposalOk(s, s.proposals[i]);
    }
  }

  /** Everything that leaves links and edges where they are. */
  lemma QuietKeepsInv(s: Links, step: LinkStep)
    requires Inv(s) && !step.DoPropose? && !step.DoConfirm? && !step.DoAccept?
    ensures Inv(Apply(s, step))
  {
    var s' := Apply(s, step);
    forall e | e in s'.edges
      ensures EdgeOk(s', e)
    {
      assert EdgeOk(s, e);
    }
    forall i | 0 <= i < |s'.proposals|
      ensures ProposalOk(s', s'.proposals[i])
    {
      if i < |s.proposals| {
        assert ProposalOk(s, s.proposals[i]);
      }
    }
  }

  lemma StepKeepsInv(s: Links, step: LinkStep)
    requires Inv(s)
    ensures Inv(Apply(s, step))
  {
    match step
    case DoPropose(goal, target, deps) =>
      if Propose(s, goal, target, deps).Ok? {
        ProposeKeepsInv(s, goal, target, deps);
      }
    case DoConfirm(l, deps) =>
      if Confirm(s, l, deps).Ok? {
        ConfirmKeepsInv(s, l, deps);
      }
    case DoAccept(p) =>
      if Accept(s, p).Ok? {
        AcceptKeepsInv(s, p);
      }
    case _ => QuietKeepsInv(s, step);
  }

  lemma AcceptRecords(s: Links, p: nat, applied: seq<nat>)
    requires Inv(s) && AppliedOk(s, applied) && Accept(s, p).Ok?
    ensures AppliedOk(Accept(s, p).value, applied + [p])
  {
    var s', now := Accept(s, p).value, applied + [p];
    assert forall q :: q in now <==> q in applied || q == p;
    AcceptRises(s, p, applied);
    RemovedRecorded(s, p, applied);
  }

  lemma AcceptRises(s: Links, p: nat, applied: seq<nat>)
    requires Inv(s) && AppliedOk(s, applied) && Accept(s, p).Ok?
    ensures Rising(Accept(s, p).value.proposals, applied + [p])
  {
    forall i | 0 <= i < |applied|
      ensures s.proposals[applied[i]].inputRevision < s.proposals[p].inputRevision
      ensures s.proposals[applied[i]].link != s.proposals[p].link
    {
      assert applied[i] in applied;
      assert ProposalOk(s, s.proposals[applied[i]]);
    }
    var ps := Accept(s, p).value.proposals;
    assert forall q :: 0 <= q < |ps| ==> ps[q].link == s.proposals[q].link && ps[q].inputRevision == s.proposals[q].inputRevision;
  }

  lemma RemovedRecorded(s: Links, p: nat, applied: seq<nat>)
    requires AppliedOk(s, applied) && Accept(s, p).Ok?
    ensures RemovalsRecorded(Accept(s, p).value, applied + [p])
  {
    var s', now := Accept(s, p).value, applied + [p];
    forall k | 0 <= k < |s'.links| && s'.links[k].status == LinkRemoved
      ensures exists i :: 0 <= i < |now| && s'.proposals[now[i]].link == k
    {
      if k == s.proposals[p].link {
        assert now[|applied|] == p;
      } else {
        var i :| 0 <= i < |applied| && s.proposals[applied[i]].link == k;
        assert now[i] == applied[i];
      }
    }
  }

  /** Nothing else applies proposals or removes links. */
  lemma OnlyAcceptApplies(s: Links, step: LinkStep)
    requires !(step.DoAccept? && Accept(s, step.proposal).Ok?)
    ensures var s' := Apply(s, step);
            && |s.proposals| <= |s'.proposals| && |s.links| <= |s'.links|
            && (forall i :: 0 <= i < |s.proposals| ==> s'.proposals[i] == s.proposals[i].(status := s'.proposals[i].status))
            && (forall i :: 0 <= i < |s'.proposals| ==>
                  (s'.proposals[i].status == Applied <==> i < |s.proposals| && s.proposals[i].status == Applied))
            && (forall l :: 0 <= l < |s'.links| && s'.links[l].status == LinkRemoved ==>
                  (l < |s.links| && s.links[l].status == LinkRemoved))
  {
  }

  lemma StepRecords(s: Links, step: LinkStep, applied: seq<nat>)
    requires Inv(s) && AppliedOk(s, applied)
    ensures AppliedOk(Apply(s, step), Recorded(s, step, applied))
  {
    if step.DoAccept? && Accept(s, step.proposal).Ok? {
      AcceptRecords(s, step.proposal, applied);
    } else {
      OnlyAcceptApplies(s, step);
      RecordsCarryOver(s, Apply(s, step), applied);
    }
  }

  lemma RecordsCarryOver(s: Links, s': Links, applied: seq<nat>)
    requires AppliedOk(s, applied)
    requires |s.proposals| <= |s'.proposals| && |s.links| <= |s'.links|
    requires forall i :: 0 <= i < |s.proposals| ==> s'.proposals[i] == s.proposals[i].(status := s'.proposals[i].status)
    requires forall i :: 0 <= i < |s'.proposals| ==>
               (s'.proposals[i].status == Applied <==> i < |s.proposals| && s.proposals[i].status == Applied)
    requires forall l :: 0 <= l < |s'.links| && s'.links[l].status == LinkRemoved ==>
               (l < |s.links| && s.links[l].status == LinkRemoved)
    ensures AppliedOk(s', applied)
  {
    forall l | 0 <= l < |s'.links| && s'.links[l].status == LinkRemoved
      ensures exists i :: 0 <= i < |applied| && s'.proposals[applied[i]].link == l
    {
      var i :| 0 <= i < |applied| && s.proposals[applied[i]].link == l;
      assert s'.proposals[applied[i]].link == l;
    }
  }

  /** Whatever the order of commands, retries and edits: the graph is acyclic and the tables agree. */
  lemma {:induction false} RunKeepsInv(s: Links, steps: seq<LinkStep>, applied: seq<nat>)
    requires Inv(s) && AppliedOk(s, applied)
    ensures Inv(RunLinks(s, steps)) && AppliedOk(RunLinks(s, steps), AppliedBy(s, steps, applied))
    decreases |steps|
  {
    if steps != [] {
      StepKeepsInv(s, steps[0]);
      StepRecords(s, steps[0], applied);
      RunKeepsInv(Apply(s, steps[0]), steps[1..], Recorded(s, steps[0], applied));
    }
  }

  /** No run from plans without cycles ever stores one. */
  lemma GraphStaysAcyclic(s: Links, steps: seq<LinkStep>)
    requires Start(s)
    ensures !HasCycle(ArcSet(Arcs(RunLinks(s, steps).edges)))
  {
    StartKeeps(s);
    RunKeepsInv(s, steps, []);
  }

  /** The proposals a run applies, in the order it applies them, carry strictly increasing revisions and distinct links. */
  lemma AppliedRevisionsRise(s: Links, steps: seq<LinkStep>)
    requires Start(s)
    ensures var end, applied := RunLinks(s, steps), AppliedBy(s, steps, []);
            && (forall i :: 0 <= i < |applied| ==> applied[i] < |end.proposals|)
            && Rising(end.proposals, applied)
  {
    StartKeeps(s);
    RunKeepsInv(s, steps, []);
  }

  /** Every removed link was removed by an applied proposal of its own, and every applied proposal removed its link. */
  lemma RemovedIffApplied(s: Links, steps: seq<LinkStep>, l: nat)
    requires Start(s) && l < |RunLinks(s, steps).links|
    ensures RunLinks(s, steps).links[l].status == LinkRemoved <==>
      exists p :: p in RunLinks(s, steps).proposals && p.link == l && p.status == Applied
  {
    StartKeeps(s);
    RunKeepsInv(s, steps, []);
    RemovedIffRecorded(RunLinks(s, steps), AppliedBy(s, steps, []), l);
  }

  lemma RemovedIffRecorded(s: Links, applied: seq<nat>, l: nat)
    requires Inv(s) && AppliedOk(s, applied) && l < |s.links|
    ensures s.links[l].status == LinkRemoved <==> exists p :: p in s.proposals && p.link == l && p.status == Applied
  {
    if s.links[l].status == LinkRemoved {
      var k :| 0 <= k < |applied| && s.proposals[applied[k]].link == l;
      assert applied[k] in applied;
      assert s.proposals[applied[k]] in s.proposals;
    }
    if p :| p in s.proposals && p.link == l && p.status == Applied {
      var k :| 0 <= k < |s.proposals| && s.proposals[k] == p;
      assert ProposalOk(s, s.proposals[k]);
    }
  }

  // ----- exactly when commands succeed -----

  /** Independently of the order of the checks. */
  lemma ProposeSucceedsIff(s: Links, goal: Id, target: Id, deps: seq<EdgeCommand>)
    requires Inv(s)
    ensures Propose(s, goal, target, deps).Ok? <==>
      && goal in s.goals && target in s.goals && goal != target && deps != []
      && (forall i :: 0 <= i < |deps| ==>
            (ParseOutcome(deps[i].outcome).Some? && Spans(s.tasks, deps[i].pred, deps[i].succ, goal, target)))
      && (forall l :: l in s.links && {l.goalA, l.goalB} == {goal, target} ==> l.status == LinkRemoved)
      && !HasCycle(ArcSet(Arcs(s.edges) + Candidate(deps)))
  {
    NoFaultSpans(s.tasks, goal, target, deps);
    if goal != target {
      CanonicalIsOrdered(goal, target);
      var (a, b) := Canonical(goal, target);
      forall l | l in s.links && {l.goalA, l.goalB} == {goal, target}
        ensures l.goalA == a && l.goalB == b
      {
        PairHasOneOrder(l.goalA, l.goalB, a, b);
      }
      assert forall l :: l in s.links ==> (Enabled(l) <==> l.status != LinkRemoved);
      assert forall l :: l in s.links && l.goalA == a && l.goalB == b ==> {l.goalA, l.goalB} == {goal, target};
    }
  }

  lemma PairHasOneOrder(a: Id, b: Id, c: Id, d: Id)
    requires StringLess(a, b) && StringLess(c, d) && {a, b} == {c, d}
    ensures a == c && b == d
  {
    assert a in {c, d} && b in {c, d} && c in {a, b} && d in {a, b};
    if a == d && b == c {
      LexTransitive(Codes(a), Codes(b), Codes(a));
      LexIrreflexive(Codes(a));
      assert false;
    }
    LexIrreflexive(Codes(a));
  }

  lemma ConfirmSucceedsIff(s: Links, l: nat, deps: seq<EdgeCommand>)
    requires Inv(s)
    ensures Confirm(s, l, deps).Ok? <==>
      && l < |s.links| && s.links[l].status == LinkProposed && deps != []
      && CheckOutcomes(deps)
      && (forall i :: 0 <= i < |deps| ==> Spans(s.tasks, deps[i].pred, deps[i].succ, s.links[l].goalA, s.links[l].goalB))
      && !HasCycle(ArcSet(Arcs(s.edges) + Candidate(deps)))
      && Insertable(s.edges, s.plans, l, deps)
  {
    if l < |s.links| {
      NoFaultSpans(s.tasks, s.links[l].goalA, s.links[l].goalB, deps);
    }
    if CheckOutcomes(deps) {
      AddEdgesExactly(s.edges, s.plans, l, deps);
    }
  }

  /**
   In a reachable state the link checks of accepting never fail: a pending proposal whose revision is
   current is always applicable, and what is deleted is exactly what the proposal shows.
   */
  lemma AcceptSucceedsIff(s: Links, p: nat)
    requires Inv(s)
    ensures Accept(s, p).Ok? <==> IsCurrent(s, p)
    ensures Accept(s, p).Ok? ==> forall e :: (e in s.edges && e !in Accept(s, p).value.edges) <==> e in s.proposals[p].shown
  {
    if p < |s.proposals| {
      assert ProposalOk(s, s.proposals[p]);
      forall e
        ensures e in Under(s.edges, s.proposals[p].link) <==> e in s.edges && e.link == Some(s.proposals[p].link)
        ensures e in NotUnder(s.edges, s.proposals[p].link) <==> e in s.edges && e.link != Some(s.proposals[p].link)
      {
        InUnder(s.edges, s.proposals[p].link, e);
        InNotUnder(s.edges, s.proposals[p].link, e);
      }
    }
  }

  /** An outdated proposal is turned stale by the first transaction and stays refused whatever follows. */
  lemma {:induction false} DeadProposalsStayDead(s: Links, steps: seq<LinkStep>, p: nat)
    requires p < |s.proposals| && s.proposals[p].status != ProposalStatus.Pending
    ensures p < |RunLinks(s, steps).proposals| && RunLinks(s, steps).proposals[p] == s.proposals[p]
    ensures Accept(RunLinks(s, steps), p).Err? && Reject(RunLinks(s, steps), p).Err?
    decreases |steps|
  {
    if steps != [] {
      DeadProposalsStayDead(Apply(s, steps[0]), steps[1..], p);
    }
  }

  /** Once the revision has moved past a proposal, no later run applies it. */
  lemma {:induction false} OutdatedNeverApplied(s: Links, steps: seq<LinkStep>, p: nat)
    requires p < |s.proposals| && s.proposals[p].status == ProposalStatus.Pending && s.proposals[p].inputRevision < s.revision
    ensures p < |RunLinks(s, steps).proposals| && RunLinks(s, steps).proposals[p].status != Applied
    decreases |steps|
  {
    if steps != [] {
      var next := Apply(s, steps[0]);
      if next.proposals[p].status == ProposalStatus.Pending {
        OutdatedNeverApplied(next, steps[1..], p);
      } else {
        DeadProposalsStayDead(next, steps[1..], p);
      }
    }
  }

  // ----- what the scheduler sees of a command -----

  /** In a reachable state every stored dependency is in force: none is dormant. */
  lemma EveryEdgeIsEffective(s: Links, t: Id)
    requires Inv(s)
    ensures Blocked(s, t) <==> exists e :: e in s.edges && e.succ == t && !Satisfied(s.tasks, e)
  {
    assert forall e :: e in s.edges ==> EdgeOk(s, e);
  }

  /** Accepting an unlink frees exactly the tasks that only this link held back. */
  lemma UnlinkFreesExactly(s: Links, p: nat, t: Id)
    requires Inv(s) && Accept(s, p).Ok?
    ensures Blocked(Accept(s, p).value, t) <==>
      Blocked(s, t) && !(forall e :: e in s.edges && e.succ == t && Holds(s, e) ==> e.link == Some(s.proposals[p].link))
  {
    var s' := Accept(s, p).value;
    var l := s.proposals[p].link;
    forall e
      ensures e in s'.edges && Holds(s', e) <==> e in s.edges && e.link != Some(l) && Holds(s, e)
    {
      InNotUnder(s.edges, l, e);
    }
  }

  predicate Finished(tasks: map<Id, TaskRow>, t: Id) {
    t in tasks && tasks[t].execution == Completed
  }

  /** Confirming holds back exactly the successors of its unfinished dependencies, besides those held before. */
  lemma ConfirmBlocksExactly(s: Links, l: nat, deps: seq<EdgeCommand>, t: Id)
    requires Inv(s) && Confirm(s, l, deps).Ok?
    ensures Blocked(Confirm(s, l, deps).value, t) <==>
      || Blocked(s, t)
      || exists i :: (0 <= i < |deps| && deps[i].succ == t
                      && !(deps[i].outcome == "execution_completed" && Finished(s.tasks, deps[i].pred)))
  {
    ConfirmKeepsInv(s, l, deps);
    EveryEdgeIsEffective(s, t);
    EveryEdgeIsEffective(Confirm(s, l, deps).value, t);
    AddEdgesExactly(s.edges, s.plans, l, deps);
    NewEdgesHold(s.tasks, s.plans, l, deps, t);
    var added := NewEdges(s.plans, l, deps);
    assert forall e :: e in s.edges + added <==> e in s.edges || e in added;
  }

  lemma NewEdgesHold(tasks: map<Id, TaskRow>, plans: map<Id, Id>, l: nat, deps: seq<EdgeCommand>, t: Id)
    requires CheckOutcomes(deps) && forall i :: 0 <= i < |deps| ==> deps[i].succ in plans
    ensures (exists e :: e in NewEdges(plans, l, deps) && e.succ == t && !Satisfied(tasks, e)) <==>
      exists i :: 0 <= i < |deps| && deps[i].succ == t && !(deps[i].outcome == "execution_completed" && Finished(tasks, deps[i].pred))
  {
    var added := NewEdges(plans, l, deps);
    if i :| 0 <= i < |deps| && deps[i].succ == t && !(deps[i].outcome == "execution_completed" && Finished(tasks, deps[i].pred)) {
      assert added[i] in added && !Satisfied(tasks, added[i]);
    }
    if e :| e in added && e.succ == t && !Satisfied(tasks, e) {
      var i :| 0 <= i < |deps| && added[i] == e;
      assert deps[i].succ == t;
    }
  }

  /** Proposing, showing an unlink, rejecting and expiring change nothing the scheduler reads. */
  lemma TalkingBlocksNothing(s: Links, step: LinkStep, t: Id)
    requires Inv(s) && (step.DoPropose? || step.DoProposeUnlink? || step.DoReject? || step.DoMarkStale?)
    ensures Blocked(Apply(s, step), t) <==> Blocked(s, t)
    ensures Apply(s, step).revision == s.revision && Apply(s, step).edges == s.edges
  {
    StepKeepsInv(s, step);
    EveryEdgeIsEffective(s, t);
    EveryEdgeIsEffective(Apply(s, step), t);
  }

  /** An unlink proposal sorts the link's edges into those that hold their successor back and those that do not. */
  lemma ProposalSplitsExactly(s: Links, l: nat, e: Edge)
    requires Inv(s) && ProposeUnlink(s, l).Ok?
    ensures var p := ProposalFor(s, l);
            && (e in p.unsatisfied <==> e in s.edges && e.link == Some(l) && Holds(s, e))
            && (e in p.satisfied <==> e in s.edges && e.link == Some(l) && !Holds(s, e))
  {
    var shown := Under(s.edges, l);
    InUnder(s.edges, l, e);
    InSplit(s.tasks, shown, false, e);
    InSplit(s.tasks, shown, true, e);
    if e in s.edges {
      assert EdgeOk(s, e);
    }
  }

  lemma ConfirmedUnder(s: Links, l: nat, deps: seq<EdgeCommand>)
    requires Inv(s) && Confirm(s, l, deps).Ok?
    ensures NotUnder(Confirm(s, l, deps).value.edges, l) == s.edges
  {
    AddEdgesExactly(s.edges, s.plans, l, deps);
    var added := NewEdges(s.plans, l, deps);
    assert forall e :: e in s.edges ==> EdgeOk(s, e);
    UnderNone(s.edges, l);
    UnderAll(added, l);
    NotUnderConcat(s.edges, added, l);
  }

  lemma RemovedPairIsFree(s: Links, l: nat)
    requires LinksOk(s.links) && l < |s.links| && Enabled(s.links[l])
    ensures !AlreadyLinked(WithStatus(s.links, l, LinkRemoved), s.links[l].goalA, s.links[l].goalB)
  {
    var after := WithStatus(s.links, l, LinkRemoved);
    forall i | 0 <= i < |after| && SamePair(after[i], s.links[l])
      ensures !Enabled(after[i])
    {
      if i != l {
        assert SamePair(s.links[i], s.links[l]) && SamePair(s.links[l], s.links[i]);
      }
    }
  }

  /** Confirming and unlinking is a round trip on the graph, and the pair may be linked again. */
  lemma UnlinkUndoesConfirm(s: Links, l: nat, deps: seq<EdgeCommand>)
    requires Inv(s) && Confirm(s, l, deps).Ok?
    ensures var active := Confirm(s, l, deps).value;
            && ProposeUnlink(active, l).Ok?
            && var asked := ProposeUnlink(active, l).value;
            && Accept(asked, |s.proposals|).Ok?
            && var end := Accept(asked, |s.proposals|).value;
            && end.edges == s.edges && end.tasks == s.tasks && end.revision == s.revision + 2
            && !AlreadyLinked(end.links, s.links[l].goalA, s.links[l].goalB)
  {
    ConfirmedUnder(s, l, deps);
    RemovedPairIsFree(s, l);
    var active := Confirm(s, l, deps).value;
    var asked := ProposeUnlink(active, l).value;
    assert asked.proposals[|s.proposals|] == ProposalFor(active, l);
    assert WithStatus(active.links, l, LinkRemoved) == WithStatus(s.links, l, LinkRemoved);
  }

  // ----- how current an unlink proposal's impact is -----

  /** A run changes nothing of a proposal but its status. */
  lemma {:induction false} ProposalsAreFixed(s: Links, steps: seq<LinkStep>, p: nat)
    requires p < |s.proposals|
    ensures p < |RunLinks(s, steps).proposals|
    ensures RunLinks(s, steps).proposals[p] == s.proposals[p].(status := RunLinks(s, steps).proposals[p].status)
    decreases |steps|
  {
    if steps != [] {
      StepFixesProposals(s, steps[0], p);
      ProposalsAreFixed(Apply(s, steps[0]), steps[1..], p);
    }
  }

  lemma StepFixesProposals(s: Links, step: LinkStep, p: nat)
    requires p < |s.proposals|
    ensures p < |Apply(s, step).proposals|
    ensures Apply(s, step).proposals[p] == s.proposals[p].(status := Apply(s, step).proposals[p].status)
  {
  }

  lemma {:induction false} SameSplit(tasks: map<Id, TaskRow>, tasks': map<Id, TaskRow>, edges: seq<Edge>,
      satisfied: bool)
    requires forall e :: e in edges ==> Satisfied(tasks, e) == Satisfied(tasks', e)
    ensures Split(tasks, edges, satisfied) == Split(tasks', edges, satisfied)
  {
    if edges != [] {
      SameSplit(tasks, tasks', edges[1..], satisfied);
    }
  }

  /** Two task tables split a list alike exactly if they satisfy the same of its edges. */
  lemma SplitsAgreeExactly(tasks: map<Id, TaskRow>, tasks': map<Id, TaskRow>, edges: seq<Edge>)
    ensures Split(tasks, edges, true) == Split(tasks', edges, true) && Split(tasks, edges, false) == Split(tasks', edges, false)
            <==> forall e :: e in edges ==> Satisfied(tasks, e) == Satisfied(tasks', e)
  {
    if forall e :: e in edges ==> Satisfied(tasks, e) == Satisfied(tasks', e) {
      SameSplit(tasks, tasks', edges, true);
      SameSplit(tasks, tasks', edges, false);
    } else {
      var e :| e in edges && Satisfied(tasks, e) != Satisfied(tasks', e);
      InSplit(tasks, edges, true, e);
      InSplit(tasks', edges, true, e);
    }
  }

  /** The lists the proposal carries are how the link's edges stand now. */
  predicate SplitIsCurrent(s: Links, p: Proposal) {
    && p.satisfied == Split(s.tasks, Under(s.edges, p.link), true)
    && p.unsatisfied == Split(s.tasks, Under(s.edges, p.link), false)
  }

  /** For each shown edge that waits for a task to be completed: completed now exactly if it was then. */
  ghost predicate SameCompletions(tasks: map<Id, TaskRow>, tasks': map<Id, TaskRow>, shown: seq<Edge>) {
    forall e :: e in shown && e.outcome == ExecutionCompleted ==> (Finished(tasks, e.pred) <==> Finished(tasks', e.pred))
  }

  /**
   After any run that leaves an unlink proposal pending at the current revision, the edges it shows are
   the link's edges, and its split is current exactly if, for each shown edge that waits for a completed
   task, that task is completed now exactly if it was when the proposal was made. Edges that wait for a
   verification never make a difference.
   */
  lemma SplitCurrentExactly(s: Links, l: nat, steps: seq<LinkStep>)
    requires Inv(s) && ProposeUnlink(s, l).Ok?
    requires var end := RunLinks(ProposeUnlink(s, l).value, steps);
             && |s.proposals| < |end.proposals|
             && end.proposals[|s.proposals|].status == ProposalStatus.Pending
             && end.proposals[|s.proposals|].inputRevision == end.revision
    ensures var end := RunLinks(ProposeUnlink(s, l).value, steps);
            && end.proposals[|s.proposals|].shown == Under(end.edges, l)
            && (SplitIsCurrent(end, end.proposals[|s.proposals|]) <==> SameCompletions(s.tasks, end.tasks, Under(s.edges, l)))
  {
    var asked := ProposeUnlink(s, l).value;
    var end := RunLinks(asked, steps);
    QuietKeepsInv(s, DoProposeUnlink(l));
    assert asked.proposals[|s.proposals|] == ProposalFor(s, l);
    ProposalsAreFixed(asked, steps, |s.proposals|);
    RunKeepsTables(asked, steps);
    assert ProposalOk(end, end.proposals[|s.proposals|]);
    SplitsAgreeExactly(s.tasks, end.tasks, Under(s.edges, l));
    CompletionsDecide(s.tasks, end.tasks, Under(s.edges, l));
  }

  lemma CompletionsDecide(tasks: map<Id, TaskRow>, tasks': map<Id, TaskRow>, shown: seq<Edge>)
    ensures SameCompletions(tasks, tasks', shown) <==> forall e :: e in shown ==> Satisfied(tasks, e) == Satisfied(tasks', e)
  {
  }

  lemma {:induction false} RunKeepsTables(s: Links, steps: seq<LinkStep>)
    requires Inv(s)
    ensures Inv(RunLinks(s, steps))
    decreases |steps|
  {
    if steps != [] {
      StepKeepsInv(s, steps[0]);
      RunKeepsTables(Apply(s, steps[0]), steps[1..]);
    }
  }

  /**
   The edges a current proposal shows are exact, but not how they stand: finishing a task does not
   move the revision, so the proposal stays acceptable and calls a satisfied edge unsatisfied.
   */
  lemma ImpactMayBeOld(s: Links, l: nat, e: Edge)
    requires Inv(s) && ProposeUnlink(s, l).Ok? && e in ProposalFor(s, l).unsatisfied && e.outcome == ExecutionCompleted
    ensures var asked := ProposeUnlink(s, l).value;
            var later := Apply(asked, SetExecution(e.pred, Completed));
            && Accept(later, |s.proposals|).Ok?
            && e in later.proposals[|s.proposals|].unsatisfied && Satisfied(later.tasks, e)
  {
    ProposalSplitsExactly(s, l, e);
    assert EdgeOk(s, e);
  }

  // ----- what a confirmation is compared with -----

  /** A proposed link does not remember the dependencies it was proposed with. */
  lemma ProposeForgetsDependencies(s: Links, goal: Id, target: Id, deps: seq<EdgeCommand>, deps': seq<EdgeCommand>)
    requires Propose(s, goal, target, deps).Ok? && Propose(s, goal, target, deps').Ok?
    ensures Propose(s, goal, target, deps) == Propose(s, goal, target, deps')
  {
  }

  /** The stored edges are the requested dependencies, one by one. */
  predicate Realises(edges: seq<Edge>, deps: seq<EdgeCommand>) {
    && |edges| == |deps|
    && forall i :: 0 <= i < |deps| ==>
         edges[i].pred == deps[i].pred && edges[i].succ == deps[i].succ && Some(edges[i].outcome) == ParseOutcome(deps[i].outcome)
  }

  lemma ConfirmedEdges(s: Links, l: nat, deps: seq<EdgeCommand>)
    requires Inv(s) && Confirm(s, l, deps).Ok?
    ensures Realises(Under(Confirm(s, l, deps).value.edges, l), deps)
  {
    AddEdgesExactly(s.edges, s.plans, l, deps);
    var added := NewEdges(s.plans, l, deps);
    assert forall e :: e in s.edges ==> EdgeOk(s, e);
    UnderNone(s.edges, l);
    UnderAll(added, l);
    UnderConcat(s.edges, added, l);
  }

  /** A dependency, wherever it comes from: who waits for whom, and for what. */
  datatype Dependency = Dependency(pred: Id, succ: Id, outcome: DependencyOutcome)

  function StoredDependencies(edges: seq<Edge>): set<Dependency> {
    set e | e in edges :: Dependency(e.pred, e.succ, e.outcome)
  }

  function Requested(d: EdgeCommand): Dependency
    requires ParseOutcome(d.outcome).Some?
  {
    Dependency(d.pred, d.succ, ParseOutcome(d.outcome).value)
  }

  function RequestedDependencies(deps: seq<EdgeCommand>): set<Dependency>
    requires CheckOutcomes(deps)
  {
    set i | 0 <= i < |deps| :: Requested(deps[i])
  }

  /** What is stored under the link is exactly what confirming was given. */
  lemma ConfirmStoresTheGiven(s: Links, l: nat, given: seq<EdgeCommand>)
    requires Inv(s) && Confirm(s, l, given).Ok?
    ensures StoredDependencies(Under(Confirm(s, l, given).value.edges, l)) == RequestedDependencies(given)
  {
    ConfirmedEdges(s, l, given);
    var edges := Under(Confirm(s, l, given).value.edges, l);
    forall i | 0 <= i < |given|
      ensures Dependency(edges[i].pred, edges[i].succ, edges[i].outcome) == Requested(given[i])
      ensures edges[i] in edges
    {
    }
    forall e | e in edges
      ensures Dependency(e.pred, e.succ, e.outcome) in RequestedDependencies(given)
    {
      var i :| 0 <= i < |edges| && edges[i] == e;
    }
  }

  /** Different texts never ask for the same dependency. */
  lemma RequestedSame(given: seq<EdgeCommand>, proposed: seq<EdgeCommand>)
    requires CheckOutcomes(given) && CheckOutcomes(proposed)
    ensures RequestedDependencies(given) == RequestedDependencies(proposed) <==> forall d :: d in given <==> d in proposed
  {
    RequestedMember(given);
    RequestedMember(proposed);
    if RequestedDependencies(given) == RequestedDependencies(proposed) {
      forall d: EdgeCommand
        ensures d in given <==> d in proposed
      {
        if ParseOutcome(d.outcome).Some? {
          assert d in given <==> Requested(d) in RequestedDependencies(given);
          assert d in proposed <==> Requested(d) in RequestedDependencies(proposed);
        }
      }
    }
  }

  lemma RequestedMember(deps: seq<EdgeCommand>)
    requires CheckOutcomes(deps)
    ensures forall d: EdgeCommand :: d in deps ==> ParseOutcome(d.outcome).Some?
    ensures forall d: EdgeCommand :: ParseOutcome(d.outcome).Some? ==> (d in deps <==> Requested(d) in RequestedDependencies(deps))
    ensures forall x :: x in RequestedDependencies(deps) ==>
              (exists d :: d in deps && ParseOutcome(d.outcome).Some? && Requested(d) == x)
  {
    forall x | x in RequestedDependencies(deps)
      ensures exists d :: d in deps && ParseOutcome(d.outcome).Some? && Requested(d) == x
    {
      var i :| 0 <= i < |deps| && Requested(deps[i]) == x;
      assert deps[i] in deps;
    }
    forall d: EdgeCommand | ParseOutcome(d.outcome).Some? && Requested(d) in RequestedDependencies(deps)
      ensures d in deps
    {
      var i :| 0 <= i < |deps| && Requested(deps[i]) == Requested(d);
      assert deps[i] == d;
    }
  }

  /** So the link holds what was proposed exactly if the two lists name the same dependencies, in any order. */
  lemma ConfirmStoresItsOwn(s: Links, l: nat, given: seq<EdgeCommand>, proposed: seq<EdgeCommand>)
    requires Inv(s) && Confirm(s, l, given).Ok? && CheckOutcomes(proposed)
    ensures StoredDependencies(Under(Confirm(s, l, given).value.edges, l)) == RequestedDependencies(proposed)
            <==> forall d :: d in given <==> d in proposed
  {
    ConfirmStoresTheGiven(s, l, given);
    RequestedSame(given, proposed);
  }

  lemma {:induction false} UnderConcat(xs: seq<Edge>, ys: seq<Edge>, l: nat)
    ensures Under(xs + ys, l) == Under(xs, l) + Under(ys, l)
  {
    if xs == [] {
      assert xs + ys == ys;
    } else {
      assert (xs + ys)[1..] == xs[1..] + ys;
      UnderConcat(xs[1..], ys, l);
    }
  }

  /** Two goals, two tasks of the first and one of the second, which is in a plan. */
  function TwoGoals(): Links {
    Links({"a", "b"}, map["x" := PendingTask("x", "a"), "y" := PendingTask("y", "b"), "z" := PendingTask("z", "a")],
          map["y" := "v"], [], [], [], 0)
  }

  function PendingTask(id: Id, goal: Id): TaskRow {
    TaskRow(id, goal, Execution.Pending, None)
  }

  lemma OneArcIsAcyclic(u: Id, v: Id)
    requires u != v
    ensures !HasCycle(ArcSet([(u, v)]))
  {
    FallingMeansAcyclic(ArcSet([(u, v)]), map[u := 1, v := 0]);
  }

  lemma TwoGoalsPropose(pred: Id)
    requires pred == "x" || pred == "z"
    ensures Propose(TwoGoals(), "a", "b", After(pred)) == Ok(TwoGoalsProposed())
  {
    var s, deps := TwoGoals(), After(pred);
    assert Canonical("a", "b") == ("a", "b") by {
      assert Codes("a") == ['a' as int] && Codes("b") == ['b' as int];
    }
    assert Spans(s.tasks, pred, "y", "a", "b");
    assert CheckOutcomes(deps);
    NoFaultSpans(s.tasks, "a", "b", deps);
    assert !AlreadyLinked(s.links, "a", "b");
    assert "a" != "b" && "a" in s.goals && "b" in s.goals;
    assert Arcs(s.edges) + Candidate(deps) == [(pred, "y")];
    OneArcIsAcyclic(pred, "y");
    assert !ClosesLoop(s, deps);
    assert Propose(s, "a", "b", deps).Ok?;
    assert Propose(s, "a", "b", deps).value.links == [Link("a", "b", LinkProposed)];
  }

  function After(pred: Id): seq<EdgeCommand> {
    [EdgeCommand(pred, "y", "execution_completed")]
  }

  function TwoGoalsProposed(): Links {
    TwoGoals().(links := [Link("a", "b", LinkProposed)])
  }

  /** Proposed with one dependency, confirmed with another. */
  lemma ConfirmMayDiffer()
    ensures Propose(TwoGoals(), "a", "b", After("x")) == Ok(TwoGoalsProposed())
    ensures Confirm(TwoGoalsProposed(), 0, After("z")).Ok? && CheckOutcomes(After("x"))
    ensures StoredDependencies(Under(Confirm(TwoGoalsProposed(), 0, After("z")).value.edges, 0)) != RequestedDependencies(After("x"))
  {
    TwoGoalsPropose("x");
    TwoGoalsConfirm();
    assert CheckOutcomes(After("x"));
    ConfirmStoresItsOwn(TwoGoalsProposed(), 0, After("z"), After("x"));
    assert After("z")[0] in After("z") && After("z")[0] !in After("x");
  }

  lemma TwoGoalsLinked()
    ensures Inv(TwoGoalsProposed())
  {
    var proposed := After("x");
    TwoGoalsPropose("x");
    FallingMeansAcyclic({}, map[]);
    assert Start(TwoGoals()) by {
      assert ArcSet(Arcs(TwoGoals().edges)) == {};
    }
    StartKeeps(TwoGoals());
    ProposeKeepsInv(TwoGoals(), "a", "b", proposed);
  }

  lemma TwoGoalsConfirm()
    ensures Inv(TwoGoalsProposed()) && Confirm(TwoGoalsProposed(), 0, After("z")).Ok?
  {
    var s, given := TwoGoalsProposed(), After("z");
    TwoGoalsLinked();
    assert Spans(s.tasks, "z", "y", "a", "b");
    assert Arcs(s.edges) + Candidate(given) == [("z", "y")];
    OneArcIsAcyclic("z", "y");
    OneEdgeInsertable(s.plans, given);
    ConfirmSucceedsIff(s, 0, given);
  }

  lemma OneEdgeInsertable(plans: map<Id, Id>, deps: seq<EdgeCommand>)
    requires |deps| == 1 && CheckOutcomes(deps) && deps[0].succ in plans
    ensures Insertable([], plans, 0, deps)
  {
  }
}
