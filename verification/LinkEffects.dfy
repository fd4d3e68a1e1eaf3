/** Which error each link command gives, and what each one changes when it succeeds. */
module LinkEffects {
  import opened Prelude
  import opened Tasks
  import opened CycleSearch
  import opened Ordering
  import opened LinkModel
  import opened LinkProofs

  // ----- the edges of a request -----

  predicate NamesTasks(tasks: map<Id, TaskRow>, d: EdgeCommand) {
    d.pred in tasks && d.succ in tasks
  }

  /** From a task of the one goal to a task of the other. */
  predicate Crosses(tasks: map<Id, TaskRow>, d: EdgeCommand, a: Id, b: Id) {
    && NamesTasks(tasks, d)
    && ((tasks[d.pred].goalId == a && tasks[d.succ].goalId == b) || (tasks[d.pred].goalId == b && tasks[d.succ].goalId == a))
  }

  predicate KnownOutcome(d: EdgeCommand) {
    d.outcome == "execution_completed" || d.outcome == "verification_passed"
  }

  /** The edges before the i-th are fine. */
  ghost predicate FineBefore(tasks: map<Id, TaskRow>, deps: seq<EdgeCommand>, a: Id, b: Id, i: nat)
    requires i <= |deps|
  {
    forall j :: 0 <= j < i ==> Crosses(tasks, deps[j], a, b)
  }

  /** The first edge that is not fine decides: an unknown task is not found, a wrong pair of goals is invalid. */
  lemma {:induction false} FaultIsFirst(tasks: map<Id, TaskRow>, a: Id, b: Id, deps: seq<EdgeCommand>, i: nat)
    requires a != b && i < |deps| && FineBefore(tasks, deps, a, b, i) && !Crosses(tasks, deps[i], a, b)
    ensures CrossGoalFault(tasks, a, b, deps) == Some(if NamesTasks(tasks, deps[i]) then ValidationFailed else NotFound)
  {
    SpansIsCrosses(tasks, deps[0], a, b);
    if i > 0 {
      assert Crosses(tasks, deps[0], a, b);
      forall j | 0 <= j < i - 1
        ensures Crosses(tasks, deps[1..][j], a, b)
      {
        assert deps[1..][j] == deps[j + 1];
      }
      FaultIsFirst(tasks, a, b, deps[1..], i - 1);
    }
  }

  lemma {:induction false} NoFault(tasks: map<Id, TaskRow>, a: Id, b: Id, deps: seq<EdgeCommand>)
    requires a != b
    ensures CrossGoalFault(tasks, a, b, deps).None? <==> FineBefore(tasks, deps, a, b, |deps|)
  {
    NoFaultSpans(tasks, a, b, deps);
    forall i | 0 <= i < |deps|
      ensures Spans(tasks, deps[i].pred, deps[i].succ, a, b) <==> Crosses(tasks, deps[i], a, b)
    {
      SpansIsCrosses(tasks, deps[i], a, b);
    }
  }

  lemma SpansIsCrosses(tasks: map<Id, TaskRow>, d: EdgeCommand, a: Id, b: Id)
    requires a != b
    ensures Spans(tasks, d.pred, d.succ, a, b) <==> Crosses(tasks, d, a, b)
  {
    if NamesTasks(tasks, d) {
      var x, y := tasks[d.pred].goalId, tasks[d.succ].goalId;
      if {x, y} == {a, b} {
        assert x in {a, b} && y in {a, b} && a in {x, y} && b in {x, y};
      }
    }
  }

  ghost predicate AllKnown(deps: seq<EdgeCommand>) {
    forall d :: d in deps ==> KnownOutcome(d)
  }

  lemma KnownIsChecked(deps: seq<EdgeCommand>)
    ensures CheckOutcomes(deps) <==> AllKnown(deps)
  {
    if AllKnown(deps) {
      forall i | 0 <= i < |deps|
        ensures ParseOutcome(deps[i].outcome).Some?
      {
        assert deps[i] in deps;
      }
    }
  }

  /** An edge from each predecessor to its successor, stored or requested, and one of them closes a cycle. */
  ghost predicate WouldCycle(s: Links, deps: seq<EdgeCommand>) {
    HasCycle((set e | e in s.edges :: (e.pred, e.succ)) + (set d | d in deps :: (d.pred, d.succ)))
  }

  lemma CycleIsOverBoth(s: Links, deps: seq<EdgeCommand>)
    ensures ClosesLoop(s, deps) <==> WouldCycle(s, deps)
  {
    var rows, extra := Arcs(s.edges), Candidate(deps);
    var both := (set e | e in s.edges :: (e.pred, e.succ)) + (set d | d in deps :: (d.pred, d.succ));
    forall a: Arc
      ensures a in ArcSet(rows + extra) <==> a in both
    {
      ArcOfBoth(s, deps, a);
    }
    assert ArcSet(rows + extra) == both;
  }

  lemma ArcOfBoth(s: Links, deps: seq<EdgeCommand>, a: Arc)
    ensures a in ArcSet(Arcs(s.edges) + Candidate(deps))
            <==> (exists e :: e in s.edges && (e.pred, e.succ) == a) || (exists d :: d in deps && (d.pred, d.succ) == a)
  {
    var rows, extra := Arcs(s.edges), Candidate(deps);
    if a in ArcSet(rows + extra) {
      var i :| 0 <= i < |rows + extra| && (rows + extra)[i] == a;
      if i < |rows| {
        assert s.edges[i] in s.edges && rows[i] == a;
      } else {
        assert deps[i - |rows|] in deps && extra[i - |rows|] == a;
      }
    }
    if e :| e in s.edges && (e.pred, e.succ) == a {
      var i :| 0 <= i < |s.edges| && s.edges[i] == e;
      assert (rows + extra)[i] == a;
    }
    if d :| d in deps && (d.pred, d.succ) == a {
      var i :| 0 <= i < |deps| && deps[i] == d;
      assert (rows + extra)[|rows| + i] == a;
    }
  }

  // ----- proposing -----

  /** A link between the two goals that was not removed. */
  ghost predicate LinkedAlready(s: Links, goal: Id, target: Id) {
    exists l :: l in s.links && l.status != LinkRemoved && {l.goalA, l.goalB} == {goal, target}
  }

  lemma LinkedIsFound(s: Links, goal: Id, target: Id)
    requires LinksOk(s.links) && goal != target
    ensures AlreadyLinked(s.links, Canonical(goal, target).0, Canonical(goal, target).1) <==> LinkedAlready(s, goal, target)
  {
    CanonicalIsOrdered(goal, target);
    var (a, b) := Canonical(goal, target);
    if l :| l in s.links && l.status != LinkRemoved && {l.goalA, l.goalB} == {goal, target} {
      PairHasOneOrder(l.goalA, l.goalB, a, b);
      var i :| 0 <= i < |s.links| && s.links[i] == l;
      assert Enabled(s.links[i]);
    }
    if i :| 0 <= i < |s.links| && s.links[i].goalA == a && s.links[i].goalB == b && Enabled(s.links[i]) {
      assert s.links[i] in s.links;
    }
  }

  /** Unknown goals, a malformed request, edges that do not fit, a link that exists, a cycle: in this order. */
  lemma ProposeFailsWith(s: Links, goal: Id, target: Id, deps: seq<EdgeCommand>)
    requires Inv(s)
    ensures var known := goal in s.goals && target in s.goals;
            var formed := goal != target && deps != [] && AllKnown(deps);
            var fits := FineBefore(s.tasks, deps, goal, target, |deps|);
            var outcome := Propose(s, goal, target, deps);
            && (!known ==> outcome == Err(NotFound))
            && (known && !formed ==> outcome == Err(ValidationFailed))
            && (known && formed && !fits ==> outcome == Err(NotFound) || outcome == Err(ValidationFailed))
            && (known && formed && fits && LinkedAlready(s, goal, target) ==> outcome == Err(ValidationFailed))
            && (known && formed && fits && !LinkedAlready(s, goal, target) ==>
                  (WouldCycle(s, deps) ==> outcome == Err(DependencyCycle)) && (!WouldCycle(s, deps) ==> outcome.Ok?))
  {
    KnownIsChecked(deps);
    CycleIsOverBoth(s, deps);
    if goal != target {
      NoFault(s.tasks, goal, target, deps);
      LinkedIsFound(s, goal, target);
      if i :| 0 <= i < |deps| && FineBefore(s.tasks, deps, goal, target, i) && !Crosses(s.tasks, deps[i], goal, target) {
        FaultIsFirst(s.tasks, goal, target, deps, i);
      } else {
        AllFine(s.tasks, deps, goal, target, |deps|);
      }
    }
  }

  lemma {:induction false} AllFine(tasks: map<Id, TaskRow>, deps: seq<EdgeCommand>, a: Id, b: Id, n: nat)
    requires n <= |deps|
    requires forall i :: 0 <= i < |deps| && FineBefore(tasks, deps, a, b, i) ==> Crosses(tasks, deps[i], a, b)
    ensures FineBefore(tasks, deps, a, b, n)
  {
    if n > 0 {
      AllFine(tasks, deps, a, b, n - 1);
    }
  }

  /** Proposing adds one proposed link of the two goals, and changes nothing else. */
  lemma ProposeAdds(s: Links, goal: Id, target: Id, deps: seq<EdgeCommand>)
    requires Inv(s) && Propose(s, goal, target, deps).Ok?
    ensures var s' := Propose(s, goal, target, deps).value;
            && s' == s.(links := s'.links) && |s'.links| == |s.links| + 1 && s.links <= s'.links
            && var l := s'.links[|s.links|];
            && l.status == LinkProposed && {l.goalA, l.goalB} == {goal, target} && StringLess(l.goalA, l.goalB)
  {
    CanonicalIsOrdered(goal, target);
  }

  // ----- confirming -----

  /** Unknown link, wrong status, malformed request, edges that do not fit, a cycle: in this order; then rows that
      cannot be stored. */
  lemma ConfirmFailsWith(s: Links, l: nat, deps: seq<EdgeCommand>)
    requires Inv(s)
    ensures l >= |s.links| ==> Confirm(s, l, deps) == Err(NotFound)
    ensures l < |s.links| && s.links[l].status != LinkProposed ==> Confirm(s, l, deps) == Err(GoalStateConflict)
    ensures l < |s.links| && s.links[l].status == LinkProposed && (deps == [] || !AllKnown(deps)) ==>
              Confirm(s, l, deps) == Err(ValidationFailed)
    ensures l < |s.links| && s.links[l].status == LinkProposed && deps != [] && AllKnown(deps) ==>
              var fits := FineBefore(s.tasks, deps, s.links[l].goalA, s.links[l].goalB, |deps|);
              && (!fits ==> Confirm(s, l, deps) == Err(NotFound) || Confirm(s, l, deps) == Err(ValidationFailed))
              && (fits && WouldCycle(s, deps) ==> Confirm(s, l, deps) == Err(DependencyCycle))
              && (fits && !WouldCycle(s, deps) && Confirm(s, l, deps).Err? ==>
                    Confirm(s, l, deps) == Err(ValidationFailed) || Confirm(s, l, deps) == Err(DuplicateRow))
  {
    KnownIsChecked(deps);
    CycleIsOverBoth(s, deps);
    if l < |s.links| {
      var a, b := s.links[l].goalA, s.links[l].goalB;
      LexIrreflexive(Codes(a));
      NoFault(s.tasks, a, b, deps);
      if i :| 0 <= i < |deps| && FineBefore(s.tasks, deps, a, b, i) && !Crosses(s.tasks, deps[i], a, b) {
        FaultIsFirst(s.tasks, a, b, deps, i);
      } else {
        AllFine(s.tasks, deps, a, b, |deps|);
      }
      if CheckOutcomes(deps) {
        AddEdgesFails(s.edges, s.plans, l, deps);
      }
    }
  }

  /** The requested rows can be stored: every successor is in a plan, where no stored row joins the same tasks, and
      no two requests join the same tasks. */
  ghost predicate Storable(s: Links, deps: seq<EdgeCommand>) {
    && (forall j :: 0 <= j < |deps| ==> deps[j].succ in s.plans)
    && (forall i, j :: 0 <= i < |s.edges| && 0 <= j < |deps| ==> !Joins(s.plans, s.edges[i], deps[j]))
    && (forall i, j :: 0 <= i < j < |deps| ==> !(deps[i].pred == deps[j].pred && deps[i].succ == deps[j].succ))
  }

  predicate Joins(plans: map<Id, Id>, e: Edge, d: EdgeCommand) {
    e.pred == d.pred && e.succ == d.succ && d.succ in plans && e.plan == plans[d.succ]
  }

  lemma InsertableIsStorable(s: Links, l: nat, deps: seq<EdgeCommand>)
    requires RowsUnique(s.edges) && CheckOutcomes(deps)
    ensures Insertable(s.edges, s.plans, l, deps) <==> Storable(s, deps)
  {
    if forall j :: 0 <= j < |deps| ==> deps[j].succ in s.plans {
      var all, n := s.edges + NewEdges(s.plans, l, deps), |s.edges|;
      assert forall i :: 0 <= i < n ==> all[i] == s.edges[i];
      assert forall j :: 0 <= j < |deps| ==> all[n + j] == NewEdge(s.plans, l, deps[j]);
      if RowsUnique(all) {
        forall i, j | 0 <= i < n && 0 <= j < |deps|
          ensures !Joins(s.plans, s.edges[i], deps[j])
        {
          assert !SameRow(all[i], all[n + j]);
        }
        forall i, j | 0 <= i < j < |deps|
          ensures !(deps[i].pred == deps[j].pred && deps[i].succ == deps[j].succ)
        {
          assert !SameRow(all[n + i], all[n + j]);
        }
      }
      if Storable(s, deps) {
        forall i, j | 0 <= i < j < |all|
          ensures !SameRow(all[i], all[j])
        {
          if i < n <= j {
            assert !Joins(s.plans, s.edges[i], deps[j - n]);
          }
        }
      }
    }
  }

  /** Confirming succeeds exactly for a proposed link and a well-formed request whose edges cross between its goals,
      close no cycle and can be stored. */
  lemma ConfirmSucceedsExactly(s: Links, l: nat, deps: seq<EdgeCommand>)
    requires Inv(s)
    ensures Confirm(s, l, deps).Ok? <==>
      && l < |s.links| && s.links[l].status == LinkProposed && deps != [] && AllKnown(deps)
      && FineBefore(s.tasks, deps, s.links[l].goalA, s.links[l].goalB, |deps|)
      && !WouldCycle(s, deps) && Storable(s, deps)
  {
    KnownIsChecked(deps);
    CycleIsOverBoth(s, deps);
    ConfirmSucceedsIff(s, l, deps);
    if l < |s.links| && CheckOutcomes(deps) {
      LexIrreflexive(Codes(s.links[l].goalA));
      NoFault(s.tasks, s.links[l].goalA, s.links[l].goalB, deps);
      NoFaultSpans(s.tasks, s.links[l].goalA, s.links[l].goalB, deps);
      InsertableIsStorable(s, l, deps);
    }
  }

  lemma {:induction false} AddEdgesFails(edges: seq<Edge>, plans: map<Id, Id>, l: nat, deps: seq<EdgeCommand>)
    requires CheckOutcomes(deps)
    ensures AddEdges(edges, plans, l, deps).Err? ==>
              AddEdges(edges, plans, l, deps).error == ValidationFailed || AddEdges(edges, plans, l, deps).error == DuplicateRow
    ensures AddEdges(edges, plans, l, deps) == Err(ValidationFailed) ==> exists d :: d in deps && d.succ !in plans
    decreases |deps|
  {
    if deps != [] && deps[0].succ in plans {
      AddEdgesFails(edges + [NewEdge(plans, l, deps[0])], plans, l, deps[1..]);
    }
  }

  /** The row stored for a request: under the link, in the plan of its successor, waiting for what was asked. */
  predicate StoresRequest(plans: map<Id, Id>, l: nat, e: Edge, d: EdgeCommand) {
    && e.link == Some(l) && e.pred == d.pred && e.succ == d.succ
    && d.succ in plans && e.plan == plans[d.succ]
    && (d.outcome == "execution_completed" ==> e.outcome == ExecutionCompleted)
    && (d.outcome == "verification_passed" ==> e.outcome == VerificationPassed)
  }

  /** Confirming appends one such row for each request, makes the link active and moves the revision by one;
      nothing else changes. */
  lemma ConfirmAdds(s: Links, l: nat, deps: seq<EdgeCommand>)
    requires Inv(s) && Confirm(s, l, deps).Ok?
    ensures var s' := Confirm(s, l, deps).value;
            && s' == s.(edges := s'.edges, links := s'.links, revision := s.revision + 1)
            && |s'.edges| == |s.edges| + |deps| && s.edges <= s'.edges
            && (forall i :: 0 <= i < |deps| ==> StoresRequest(s.plans, l, s'.edges[|s.edges| + i], deps[i]))
            && OnlyStatus(s.links, s'.links, l, LinkActive)
  {
    AddEdgesExactly(s.edges, s.plans, l, deps);
    KnownIsChecked(deps);
    var s' := Confirm(s, l, deps).value;
    forall i | 0 <= i < |deps|
      ensures StoresRequest(s.plans, l, s'.edges[|s.edges| + i], deps[i])
    {
      assert s'.edges[|s.edges| + i] == NewEdges(s.plans, l, deps)[i];
    }
  }

  /** One link has the new status; goals, order and all other links are as before. */
  ghost predicate OnlyStatus(links: seq<Link>, links': seq<Link>, l: nat, status: LinkStatus) {
    && |links'| == |links| && l < |links|
    && (forall i :: 0 <= i < |links| && i != l ==> links'[i] == links[i])
    && links'[l].goalA == links[l].goalA && links'[l].goalB == links[l].goalB && links'[l].status == status
  }

  // ----- waiting -----

  /** In force within one plan or under an active link, and not met: only a completed predecessor meets it, and a
      demanded verification is never met. */
  predicate StillWaits(s: Links, e: Edge)
    requires e.pred in s.tasks && (e.link.Some? ==> e.link.value < |s.links|)
  {
    && (e.link.Some? ==> s.links[e.link.value].status == LinkActive)
    && (e.outcome == VerificationPassed || s.tasks[e.pred].execution != Completed)
  }

  /** A task is blocked exactly if some dependency of it still waits. */
  lemma BlockedIffWaiting(s: Links, t: Id)
    requires forall e :: e in s.edges ==> e.pred in s.tasks && (e.link.Some? ==> e.link.value < |s.links|)
    ensures Blocked(s, t) <==> exists e :: e in s.edges && e.succ == t && StillWaits(s, e)
  {
    forall e | e in s.edges
      ensures StillWaits(s, e) <==> Holds(s, e)
    {
    }
  }

  // ----- unlinking -----

  lemma ProposeUnlinkExactly(s: Links, l: nat)
    ensures l >= |s.links| ==> ProposeUnlink(s, l) == Err(NotFound)
    ensures l < |s.links| && s.links[l].status != LinkActive ==> ProposeUnlink(s, l) == Err(GoalStateConflict)
    ensures l < |s.links| && s.links[l].status == LinkActive ==>
              && ProposeUnlink(s, l).Ok?
              && var s' := ProposeUnlink(s, l).value;
              && s' == s.(proposals := s'.proposals) && |s'.proposals| == |s.proposals| + 1 && s.proposals <= s'.proposals
              && var p := s'.proposals[|s.proposals|];
              && p.link == l && p.status == ProposalStatus.Pending && p.inputRevision == s.revision
              && (forall e :: e in p.shown <==> e in s.edges && e.link == Some(l))
  {
    if l < |s.links| {
      forall e
        ensures e in Under(s.edges, l) <==> e in s.edges && e.link == Some(l)
      {
        InUnder(s.edges, l, e);
      }
    }
  }

  /** One proposal has the new status, and all others are as before. */
  ghost predicate OnlyProposal(ps: seq<Proposal>, ps': seq<Proposal>, p: nat, status: ProposalStatus) {
    && |ps'| == |ps| && p < |ps|
    && (forall i :: 0 <= i < |ps| && i != p ==> ps'[i] == ps[i])
    && ps'[p] == ps[p].(status := status)
  }

  predicate HasStatus(s: Links, p: nat, status: ProposalStatus) {
    p < |s.proposals| && s.proposals[p].status == status
  }

  /** An unknown proposal is not found; a stale or outdated one is refused as stale, an applied or rejected one as
      a conflict; a current one is applied: link removed, its edges gone, revision moved by one. */
  lemma AcceptExactly(s: Links, p: nat)
    requires Inv(s)
    ensures Accept(s, p) == Err(NotFound) <==> p >= |s.proposals|
    ensures Accept(s, p) == Err(InputStale) <==> HasStatus(s, p, Stale) || (IsPending(s, p) && !IsCurrent(s, p))
    ensures Accept(s, p) == Err(GoalStateConflict) <==> HasStatus(s, p, Applied) || HasStatus(s, p, Rejected)
    ensures IsCurrent(s, p) ==>
              && Accept(s, p).Ok?
              && var s' := Accept(s, p).value;
              && s' == s.(links := s'.links, edges := s'.edges, proposals := s'.proposals, revision := s.revision + 1)
              && OnlyStatus(s.links, s'.links, s.proposals[p].link, LinkRemoved)
              && OnlyProposal(s.proposals, s'.proposals, p, Applied)
              && (forall e :: e in s'.edges <==> e in s.edges && e.link != Some(s.proposals[p].link))
  {
    if p < |s.proposals| {
      assert ProposalOk(s, s.proposals[p]);
      forall e
        ensures e in NotUnder(s.edges, s.proposals[p].link) <==> e in s.edges && e.link != Some(s.proposals[p].link)
      {
        InNotUnder(s.edges, s.proposals[p].link, e);
      }
    }
  }

  lemma MarkStaleExactly(s: Links, p: nat)
    ensures MarkStale(s, p) == Err(NotFound) <==> p >= |s.proposals|
    ensures p < |s.proposals| ==>
              && MarkStale(s, p).Ok?
              && var s' := MarkStale(s, p).value;
              && (!IsPending(s, p) || IsCurrent(s, p) ==> s' == s)
              && (IsPending(s, p) && !IsCurrent(s, p) ==>
                    s' == s.(proposals := s'.proposals) && OnlyProposal(s.proposals, s'.proposals, p, Stale))
  {
  }

  lemma RejectExactly(s: Links, p: nat)
    ensures Reject(s, p) == Err(NotFound) <==> p >= |s.proposals|
    ensures Reject(s, p) == Err(GoalStateConflict) <==> p < |s.proposals| && !IsPending(s, p)
    ensures IsPending(s, p) ==>
              && Reject(s, p).Ok?
              && var s' := Reject(s, p).value;
              && s' == s.(proposals := s'.proposals) && OnlyProposal(s.proposals, s'.proposals, p, Rejected)
  {
  }
}
