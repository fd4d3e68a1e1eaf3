/** The commands of links/service.py and the scheduler's dependency check as methods over the tables. */
module LinkCommands {
  import opened Prelude
  import opened Tasks
  import opened CycleSearch
  import opened LinkModel
  import opened LinkProofs

  /** _dependency_blocked_task_ids: which of these tasks wait for a predecessor. */
  method DependencyBlockedTaskIds(s: Links, taskIds: set<Id>) returns (blocked: set<Id>)
    requires forall e :: e in s.edges ==> e.pred in s.tasks
    ensures forall t :: t in blocked <==> t in taskIds && Blocked(s, t)
  {
    blocked := {};
    for i := 0 to |s.edges|
      invariant forall t :: t in blocked ==> t in taskIds && Blocked(s, t)
      invariant forall k :: 0 <= k < i && s.edges[k].succ in taskIds && Holds(s, s.edges[k]) ==> s.edges[k].succ in blocked
    {
      var e := s.edges[i];
      if e.succ in taskIds && Effective(s.links, e) {
        if e.outcome == ExecutionCompleted {
          if s.tasks[e.pred].execution != Completed {
            blocked := blocked + {e.succ};
          }
        } else {
          blocked := blocked + {e.succ};
        }
      }
    }
  }

  /** Either the command's state, or its error with every row as it was. */
  predicate Did(before: Links, outcome: Outcome, after: Links, error: Option<LinkError>) {
    match outcome
    case Ok(next) => error == None && after == next
    case Err(e) => error == Some(e) && after == before
  }

  class LinkDesk {
    var goals: set<Id>
    var tasks: map<Id, TaskRow>
    var plans: map<Id, Id>
    var links: seq<Link>
    var edges: seq<Edge>
    var proposals: seq<Proposal>
    var revision: nat

    function View(): Links
      reads this
    {
      Links(goals, tasks, plans, links, edges, proposals, revision)
    }

    method ValidateEdgesCrossGoal(goal: Id, target: Id, deps: seq<EdgeCommand>) returns (candidate: seq<Arc>,
        error: Option<LinkError>)
      ensures error == CrossGoalFault(tasks, goal, target, deps)
      ensures error.None? ==> candidate == Candidate(deps)
    {
      candidate := [];
      for i := 0 to |deps|
        invariant candidate == Candidate(deps[..i])
        invariant CrossGoalFault(tasks, goal, target, deps) == CrossGoalFault(tasks, goal, target, deps[i..])
      {
        assert deps[i..] == [deps[i]] + deps[i + 1..];
        if deps[i].pred !in tasks || deps[i].succ !in tasks {
          return candidate, Some(NotFound);
        }
        var from, to := tasks[deps[i].pred].goalId, tasks[deps[i].succ].goalId;
        if from == to || {from, to} != {goal, target} {
          return candidate, Some(ValidationFailed);
        }
        candidate := candidate + [(deps[i].pred, deps[i].succ)];
      }
      assert deps[..|deps|] == deps;
      return candidate, None;
    }

    method OutcomesKnown(deps: seq<EdgeCommand>) returns (known: bool)
      ensures known == CheckOutcomes(deps)
    {
      for i := 0 to |deps|
        invariant forall j :: 0 <= j < i ==> ParseOutcome(deps[j].outcome).Some?
      {
        if ParseOutcome(deps[i].outcome).None? {
          return false;
        }
      }
      return true;
    }

    method FindEnabled(a: Id, b: Id) returns (found: bool)
      ensures found == AlreadyLinked(links, a, b)
    {
      for i := 0 to |links|
        invariant forall j :: 0 <= j < i ==> !(links[j].goalA == a && links[j].goalB == b && Enabled(links[j]))
      {
        if links[i].goalA == a && links[i].goalB == b && Enabled(links[i]) {
          return true;
        }
      }
      return false;
    }

    method CandidateClosesCycle(candidate: seq<Arc>) returns (found: bool)
      ensures found <==> HasCycle(ArcSet(Arcs(edges) + candidate))
    {
      found := CycleExists(Arcs(edges), candidate);
    }

    method ProposeGoalLink(goal: Id, target: Id, deps: seq<EdgeCommand>) returns (error: Option<LinkError>)
      modifies this
      ensures Did(old(View()), Propose(old(View()), goal, target, deps), View(), error)
    {
      if goal !in goals || target !in goals {
        return Some(NotFound);
      }
      if goal == target || deps == [] {
        return Some(ValidationFailed);
      }
      var known := OutcomesKnown(deps);
      if !known {
        return Some(ValidationFailed);
      }
      var candidate, fault := ValidateEdgesCrossGoal(goal, target, deps);
      if fault.Some? {
        return fault;
      }
      var (a, b) := Canonical(goal, target);
      var existing := FindEnabled(a, b);
      if existing {
        return Some(ValidationFailed);
      }
      var cycle := CandidateClosesCycle(candidate);
      if cycle {
        return Some(DependencyCycle);
      }
      links := links + [Link(a, b, LinkProposed)];
      return None;
    }

    /** Inserts the edges one by one; nothing is kept when one of them cannot be stored. */
    method InsertEdges(link: nat, deps: seq<EdgeCommand>) returns (rows: seq<Edge>, error: Option<LinkError>)
      requires CheckOutcomes(deps)
      ensures AddEdges(edges, plans, link, deps) == (if error.Some? then Err(error.value) else Ok(rows))
    {
      rows := edges;
      for i := 0 to |deps|
        invariant AddEdges(edges, plans, link, deps) == AddEdges(rows, plans, link, deps[i..])
      {
        assert deps[i..][1..] == deps[i + 1..];
        if deps[i].succ !in plans {
          return rows, Some(ValidationFailed);
        }
        var e := NewEdge(plans, link, deps[i]);
        if exists k :: 0 <= k < |rows| && SameRow(rows[k], e) {
          return rows, Some(DuplicateRow);
        }
        rows := rows + [e];
      }
      return rows, None;
    }

    method ConfirmGoalLink(l: nat, deps: seq<EdgeCommand>) returns (error: Option<LinkError>)
      modifies this
      ensures Did(old(View()), Confirm(old(View()), l, deps), View(), error)
    {
      if l >= |links| {
        return Some(NotFound);
      }
      if links[l].status != LinkProposed {
        return Some(GoalStateConflict);
      }
      if deps == [] {
        return Some(ValidationFailed);
      }
      var known := OutcomesKnown(deps);
      if !known {
        return Some(ValidationFailed);
      }
      var candidate, fault := ValidateEdgesCrossGoal(links[l].goalA, links[l].goalB, deps);
      if fault.Some? {
        return fault;
      }
      var cycle := CandidateClosesCycle(candidate);
      if cycle {
        return Some(DependencyCycle);
      }
      var rows, failure := InsertEdges(l, deps);
      if failure.Some? {
        return failure;
      }
      edges := rows;
      links := WithStatus(links, l, LinkActive);
      revision := revision + 1;
      return None;
    }

    method ProposeUnlinkOf(l: nat) returns (error: Option<LinkError>)
      modifies this
      ensures Did(old(View()), ProposeUnlink(old(View()), l), View(), error)
    {
      if l >= |links| {
        return Some(NotFound);
      }
      if links[l].status != LinkActive {
        return Some(GoalStateConflict);
      }
      var shown := Under(edges, l);
      var unsatisfied: seq<Edge>, satisfied: seq<Edge> := [], [];
      for i := 0 to |shown|
        invariant View() == old(View())
        invariant unsatisfied == Split(tasks, shown[..i], false)
        invariant satisfied == Split(tasks, shown[..i], true)
      {
        SplitAppend(tasks, shown[..i], shown[i], true);
        SplitAppend(tasks, shown[..i], shown[i], false);
        assert shown[..i + 1] == shown[..i] + [shown[i]];
        if Satisfied(tasks, shown[i]) {
          satisfied := satisfied + [shown[i]];
        } else {
          unsatisfied := unsatisfied + [shown[i]];
        }
      }
      assert shown[..|shown|] == shown;
      proposals := proposals + [Proposal(l, shown, unsatisfied, satisfied, revision, ProposalStatus.Pending)];
      return None;
    }

    method MarkProposalStaleIfOutdated(p: nat) returns (error: Option<LinkError>, stale: bool)
      modifies this
      ensures Did(old(View()), MarkStale(old(View()), p), View(), error)
      ensures stale <==> IsPending(old(View()), p) && !IsCurrent(old(View()), p)
    {
      if p >= |proposals| {
        return Some(NotFound), false;
      }
      if proposals[p].status != ProposalStatus.Pending || proposals[p].inputRevision == revision {
        return None, false;
      }
      proposals := WithProposal(proposals, p, Stale);
      return None, true;
    }

    method ApplyProposal(p: nat) returns (error: Option<LinkError>)
      modifies this
      ensures Did(old(View()), Accept(old(View()), p), View(), error)
    {
      if p >= |proposals| {
        return Some(NotFound);
      }
      if proposals[p].status == Stale {
        return Some(InputStale);
      }
      if proposals[p].status != ProposalStatus.Pending {
        return Some(GoalStateConflict);
      }
      if proposals[p].inputRevision != revision {
        return Some(InputStale);
      }
      var l := proposals[p].link;
      if l >= |links| {
        return Some(NotFound);
      }
      if links[l].status != LinkActive {
        return Some(GoalStateConflict);
      }
      links := WithStatus(links, l, LinkRemoved);
      edges := NotUnder(edges, l);
      proposals := WithProposal(proposals, p, Applied);
      revision := revision + 1;
      return None;
    }

    /**
     Both transactions of accepting, with what others do between them. A proposal that is outdated at
     first ends up stale, and that survives the error. A current one is applied if it is still pending
     and current when the second transaction comes; if only the revision has moved by then, the command
     fails and leaves it pending.
     */
    method AcceptChangeProposal(p: nat, between: seq<LinkStep>) returns (error: Option<LinkError>)
      requires Inv(View())
      modifies this
      ensures Inv(View())
      ensures var met := MetBySecond(old(View()), p, between);
              && (error.None? <==> p < |old(proposals)| && IsCurrent(met, p))
              && (error.None? ==> Accept(met, p).Ok? && View() == Accept(met, p).value)
              && (error.Some? ==> View() == if IsCurrentOrClosed(old(View()), p) then met else Apply(old(View()), DoMarkStale(p)))
      ensures p < |proposals| && proposals[p].status == ProposalStatus.Pending <==> Raced(old(View()), p, between)
      ensures between == [] ==> (error.None? <==> IsCurrent(old(View()), p))
      ensures between == [] && p < |proposals| ==> proposals[p].status != ProposalStatus.Pending
    {
      ghost var before := View();
      StepKeepsInv(before, DoMarkStale(p));
      AcceptingEnds(before, p, between);
      var stale;
      error, stale := MarkProposalStaleIfOutdated(p);
      if error.Some? {
        return;
      }
      if stale {
        return Some(InputStale);
      }
      PerformAll(between);
      ghost var met := View();
      RunKeepsTables(before, between);
      AcceptSucceedsIff(met, p);
      StepKeepsInv(met, DoAccept(p));
      error := ApplyProposal(p);
    }

    /** One step of anybody. */
    method Perform(step: LinkStep)
      modifies this
      ensures View() == Apply(old(View()), step)
    {
      var error, stale;
      match step {
        case DoPropose(goal, target, deps) => error := ProposeGoalLink(goal, target, deps);
        case DoConfirm(l, deps) => error := ConfirmGoalLink(l, deps);
        case DoProposeUnlink(l) => error := ProposeUnlinkOf(l);
        case DoMarkStale(p) => error, stale := MarkProposalStaleIfOutdated(p);
        case DoAccept(p) => error := ApplyProposal(p);
        case DoReject(p) => error := RejectChangeProposal(p);
        case AddGoal(goal) => goals := goals + {goal};
        case AddTask(row) => tasks := if row.id in tasks then tasks else tasks[row.id := row];
        case JoinPlan(task, plan) => plans := plans[task := plan];
        case SetExecution(task, execution) =>
          if task in tasks {
            tasks := tasks[task := tasks[task].(execution := execution)];
          }
        case BumpRevision => revision := revision + 1;
      }
    }

    method PerformAll(steps: seq<LinkStep>)
      modifies this
      ensures View() == RunLinks(old(View()), steps)
      decreases |steps|
    {
      if steps != [] {
        Perform(steps[0]);
        PerformAll(steps[1..]);
      }
    }

    method RejectChangeProposal(p: nat) returns (error: Option<LinkError>)
      modifies this
      ensures Did(old(View()), Reject(old(View()), p), View(), error)
    {
      if p >= |proposals| {
        return Some(NotFound);
      }
      if proposals[p].status != ProposalStatus.Pending {
        return Some(GoalStateConflict);
      }
      proposals := WithProposal(proposals, p, Rejected);
      return None;
    }
  }

  // ----- the two transactions of accepting -----

  /** The first transaction finds the proposal and lets the command go on. */
  predicate IsCurrentOrClosed(s: Links, p: nat) {
    p < |s.proposals| && (IsPending(s, p) ==> IsCurrent(s, p))
  }

  /** The state the second transaction meets. */
  ghost function MetBySecond(s: Links, p: nat, between: seq<LinkStep>): Links {
    RunLinks(Apply(s, DoMarkStale(p)), between)
  }

  /** Pending and current for the first transaction, still pending but outdated for the second. */
  ghost predicate Raced(s: Links, p: nat, between: seq<LinkStep>) {
    IsCurrent(s, p) && IsPending(MetBySecond(s, p, between), p) && !IsCurrent(MetBySecond(s, p, between), p)
  }

  /** What accepting leaves of a proposal, by how the two transactions meet it. */
  lemma AcceptingEnds(s: Links, p: nat, between: seq<LinkStep>)
    requires Inv(s)
    ensures IsCurrentOrClosed(s, p) ==> Apply(s, DoMarkStale(p)) == s
    ensures p < |s.proposals| && !IsCurrentOrClosed(s, p) ==>
              !IsPending(Apply(s, DoMarkStale(p)), p) && !IsPending(MetBySecond(s, p, between), p)
    ensures p < |s.proposals| && !IsPending(s, p) ==> !IsPending(MetBySecond(s, p, between), p)
  {
    var first := Apply(s, DoMarkStale(p));
    if p < |s.proposals| && !IsPending(first, p) {
      DeadProposalsStayDead(first, between, p);
    }
  }

  /** The race: the revision moves between the two transactions, and the proposal stays pending. */
  lemma RevisionMovesInBetween(s: Links, p: nat)
    requires Inv(s) && IsCurrent(s, p)
    ensures Raced(s, p, [BumpRevision])
    ensures Accept(MetBySecond(s, p, [BumpRevision]), p) == Err(InputStale)
  {
    var first := Apply(s, DoMarkStale(p));
    assert RunLinks(first, [BumpRevision]) == RunLinks(Apply(first, BumpRevision), []);
  }

  lemma {:induction false} SplitAppend(tasks: map<Id, TaskRow>, edges: seq<Edge>, e: Edge, satisfied: bool)
    ensures Split(tasks, edges + [e], satisfied)
            == Split(tasks, edges, satisfied) + (if Satisfied(tasks, e) == satisfied then [e] else [])
  {
    if edges == [] {
      assert edges + [e] == [e];
    } else {
      assert (edges + [e])[1..] == edges[1..] + [e];
      SplitAppend(tasks, edges[1..], e, satisfied);
    }
  }
}
