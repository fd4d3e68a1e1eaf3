/**
 Goal links, task dependencies and unlink proposals of one user: the tables of links/models.py and
 the commands of links/service.py, each as one atomic step. Link and proposal rows are never
 deleted, so a row's id is its position; a larger number is an unknown id.
 */
module LinkModel {
  import opened Prelude
  import opened Tasks
  import opened CycleSearch
  import opened Ordering

  datatype LinkStatus = LinkProposed | LinkActive | LinkRemoved

  datatype Link = Link(goalA: Id, goalB: Id, status: LinkStatus)

  datatype DependencyOutcome = ExecutionCompleted | VerificationPassed

  /** A dependency row; link is None for an edge inside one plan. */
  datatype Edge = Edge(plan: Id, pred: Id, succ: Id, outcome: DependencyOutcome, link: Option<nat>)

  datatype ProposalStatus = Pending | Applied | Rejected | Stale

  /** An unlink proposal: the edges it shows the user and how they stood when it was made. */
  datatype Proposal =
    Proposal(link: nat, shown: seq<Edge>, unsatisfied: seq<Edge>, satisfied: seq<Edge>, inputRevision: nat, status: ProposalStatus)

  datatype Links = Links(
    goals: set<Id>,
    tasks: map<Id, TaskRow>,
    plans: map<Id, Id>,
    links: seq<Link>,
    edges: seq<Edge>,
    proposals: seq<Proposal>,
    revision: nat
  )

  datatype LinkError = NotFound | ValidationFailed | DependencyCycle | GoalStateConflict | InputStale | DuplicateRow

  /** One requested dependency; the outcome is still text. */
  datatype EdgeCommand = EdgeCommand(pred: Id, succ: Id, outcome: string)

  function ParseOutcome(text: string): Option<DependencyOutcome> {
    if text == "execution_completed" then Some(ExecutionCompleted)
    else if text == "verification_passed" then Some(VerificationPassed)
    else None
  }

  // ----- what the scheduler sees -----

  predicate Satisfied(tasks: map<Id, TaskRow>, e: Edge) {
    e.outcome == ExecutionCompleted && e.pred in tasks && tasks[e.pred].execution == Completed
  }

  predicate Effective(links: seq<Link>, e: Edge) {
    e.link.None? || (e.link.value < |links| && links[e.link.value].status == LinkActive)
  }

  /** The dependency still holds its successor back. */
  predicate Holds(s: Links, e: Edge) {
    e.pred in s.tasks && Effective(s.links, e) && !Satisfied(s.tasks, e)
  }

  ghost predicate Blocked(s: Links, t: Id) {
    exists e :: e in s.edges && e.succ == t && Holds(s, e)
  }

  // ----- edges -----

  function ArcOf(e: Edge): Arc {
    (e.pred, e.succ)
  }

  function Arcs(edges: seq<Edge>): (arcs: seq<Arc>)
    ensures |arcs| == |edges|
  {
    seq(|edges|, i requires 0 <= i < |edges| => ArcOf(edges[i]))
  }

  function Under(edges: seq<Edge>, link: nat): seq<Edge> {
    if edges == [] then []
    else if edges[0].link == Some(link) then [edges[0]] + Under(edges[1..], link)
    else Under(edges[1..], link)
  }

  function NotUnder(edges: seq<Edge>, link: nat): seq<Edge> {
    if edges == [] then []
    else if edges[0].link == Some(link) then NotUnder(edges[1..], link)
    else [edges[0]] + NotUnder(edges[1..], link)
  }

  /** The edges of a list that are satisfied, or those that are not, in order. */
  function Split(tasks: map<Id, TaskRow>, edges: seq<Edge>, satisfied: bool): seq<Edge> {
    if edges == [] then []
    else if Satisfied(tasks, edges[0]) == satisfied then [edges[0]] + Split(tasks, edges[1..], satisfied)
    else Split(tasks, edges[1..], satisfied)
  }

  predicate SameRow(e: Edge, f: Edge) {
    e.plan == f.plan && e.pred == f.pred && e.succ == f.succ
  }

  // ----- checks, in the order they are made -----

  function CheckOutcomes(deps: seq<EdgeCommand>): bool {
    forall i :: 0 <= i < |deps| ==> ParseOutcome(deps[i].outcome).Some?
  }

  predicate Spans(tasks: map<Id, TaskRow>, pred: Id, succ: Id, a: Id, b: Id) {
    && pred in tasks && succ in tasks
    && tasks[pred].goalId != tasks[succ].goalId
    && {tasks[pred].goalId, tasks[succ].goalId} == {a, b}
  }

  /** The first fault of the listed edges, if any. */
  function CrossGoalFault(tasks: map<Id, TaskRow>, a: Id, b: Id, deps: seq<EdgeCommand>): Option<LinkError> {
    if deps == [] then None
    else if deps[0].pred !in tasks || deps[0].succ !in tasks then Some(NotFound)
    else if !Spans(tasks, deps[0].pred, deps[0].succ, a, b) then Some(ValidationFailed)
    else CrossGoalFault(tasks, a, b, deps[1..])
  }

  function Candidate(deps: seq<EdgeCommand>): (arcs: seq<Arc>)
    ensures |arcs| == |deps|
  {
    seq(|deps|, i requires 0 <= i < |deps| => (deps[i].pred, deps[i].succ))
  }

  ghost predicate ClosesLoop(s: Links, deps: seq<EdgeCommand>) {
    HasCycle(ArcSet(Arcs(s.edges) + Candidate(deps)))
  }

  predicate Enabled(l: Link) {
    l.status == LinkProposed || l.status == LinkActive
  }

  function Canonical(a: Id, b: Id): (Id, Id) {
    if StringLess(b, a) then (b, a) else (a, b)
  }

  predicate AlreadyLinked(links: seq<Link>, a: Id, b: Id) {
    exists i :: 0 <= i < |links| && links[i].goalA == a && links[i].goalB == b && Enabled(links[i])
  }

  // ----- commands: the next state, or the error that rolls the transaction back -----

  type Outcome = Result<Links, LinkError>

  ghost function Propose(s: Links, goal: Id, target: Id, deps: seq<EdgeCommand>): Outcome {
    var (a, b) := Canonical(goal, target);
    if goal !in s.goals || target !in s.goals then Err(NotFound)
    else if goal == target || deps == [] || !CheckOutcomes(deps) then Err(ValidationFailed)
    else if CrossGoalFault(s.tasks, goal, target, deps).Some? then Err(CrossGoalFault(s.tasks, goal, target, deps).value)
    else if AlreadyLinked(s.links, a, b) then Err(ValidationFailed)
    else if ClosesLoop(s, deps) then Err(DependencyCycle)
    else Ok(s.(links := s.links + [Link(a, b, LinkProposed)]))
  }

  /** The edges after inserting the confirmed ones one by one: each needs a plan and a free row. */
  function AddEdges(edges: seq<Edge>, plans: map<Id, Id>, link: nat, deps: seq<EdgeCommand>): Result<seq<Edge>,
      LinkError>
    requires CheckOutcomes(deps)
    decreases |deps|
  {
    if deps == [] then Ok(edges)
    else if deps[0].succ !in plans then Err(ValidationFailed)
    else
      var e := NewEdge(plans, link, deps[0]);
      if exists i :: 0 <= i < |edges| && SameRow(edges[i], e) then Err(DuplicateRow)
      else AddEdges(edges + [e], plans, link, deps[1..])
  }

  function NewEdge(plans: map<Id, Id>, link: nat, d: EdgeCommand): Edge
    requires d.succ in plans && ParseOutcome(d.outcome).Some?
  {
    Edge(plans[d.succ], d.pred, d.succ, ParseOutcome(d.outcome).value, Some(link))
  }

  function WithStatus(links: seq<Link>, l: nat, status: LinkStatus): seq<Link>
    requires l < |links|
  {
    links[l := links[l].(status := status)]
  }

  function WithProposal(ps: seq<Proposal>, p: nat, status: ProposalStatus): seq<Proposal>
    requires p < |ps|
  {
    ps[p := ps[p].(status := status)]
  }

  ghost function Confirm(s: Links, l: nat, deps: seq<EdgeCommand>): Outcome {
    if l >= |s.links| then Err(NotFound)
    else if s.links[l].status != LinkProposed then Err(GoalStateConflict)
    else if deps == [] || !CheckOutcomes(deps) then Err(ValidationFailed)
    else
      var fault := CrossGoalFault(s.tasks, s.links[l].goalA, s.links[l].goalB, deps);
      if fault.Some? then Err(fault.value)
      else if ClosesLoop(s, deps) then Err(DependencyCycle)
      else
        match AddEdges(s.edges, s.plans, l, deps)
        case Err(error) => Err(error)
        case Ok(edges) => Ok(s.(edges := edges, links := WithStatus(s.links, l, LinkActive), revision := s.revision + 1))
  }

  function ProposalFor(s: Links, l: nat): Proposal {
    var shown := Under(s.edges, l);
    Proposal(l, shown, Split(s.tasks, shown, false), Split(s.tasks, shown, true), s.revision, ProposalStatus.Pending)
  }

  function ProposeUnlink(s: Links, l: nat): Outcome {
    if l >= |s.links| then Err(NotFound)
    else if s.links[l].status != LinkActive then Err(GoalStateConflict)
    else Ok(s.(proposals := s.proposals + [ProposalFor(s, l)]))
  }

  predicate IsPending(s: Links, p: nat) {
    p < |s.proposals| && s.proposals[p].status == ProposalStatus.Pending
  }

  predicate IsCurrent(s: Links, p: nat) {
    IsPending(s, p) && s.proposals[p].inputRevision == s.revision
  }

  /** The first transaction of accepting: an outdated pending proposal turns stale. */
  function MarkStale(s: Links, p: nat): Outcome {
    if p >= |s.proposals| then Err(NotFound)
    else if s.proposals[p].status != ProposalStatus.Pending || s.proposals[p].inputRevision == s.revision then Ok(s)
    else Ok(s.(proposals := WithProposal(s.proposals, p, Stale)))
  }

  /** The second one, which checks everything again. */
  function Accept(s: Links, p: nat): Outcome {
    if p >= |s.proposals| then Err(NotFound)
    else if s.proposals[p].status == Stale then Err(InputStale)
    else if s.proposals[p].status != ProposalStatus.Pending then Err(GoalStateConflict)
    else if s.proposals[p].inputRevision != s.revision then Err(InputStale)
    else
      var l := s.proposals[p].link;
      if l >= |s.links| then Err(NotFound)
      else if s.links[l].status != LinkActive then Err(GoalStateConflict)
      else Ok(s.(links := WithStatus(s.links, l, LinkRemoved),
                 edges := NotUnder(s.edges, l),
                 proposals := WithProposal(s.proposals, p, Applied),
                 revision := s.revision + 1))
  }

  function Reject(s: Links, p: nat): Outcome {
    if p >= |s.proposals| then Err(NotFound)
    else if s.proposals[p].status != ProposalStatus.Pending then Err(GoalStateConflict)
    else Ok(s.(proposals := WithProposal(s.proposals, p, Rejected)))
  }

  /** Commands, and what other modules may do to the same rows in between. */
  datatype LinkStep =
    | DoPropose(goal: Id, target: Id, deps: seq<EdgeCommand>)
    | DoConfirm(link: nat, deps: seq<EdgeCommand>)
    | DoProposeUnlink(link: nat)
    | DoMarkStale(proposal: nat)
    | DoAccept(proposal: nat)
    | DoReject(proposal: nat)
    | AddGoal(goal: Id)
    | AddTask(row: TaskRow)
    | JoinPlan(task: Id, plan: Id)
    | SetExecution(task: Id, execution: Execution)
    | BumpRevision

  ghost function Attempt(s: Links, step: LinkStep): Outcome {
    match step
    case DoPropose(goal, target, deps) => Propose(s, goal, target, deps)
    case DoConfirm(link, deps) => Confirm(s, link, deps)
    case DoProposeUnlink(link) => ProposeUnlink(s, link)
    case DoMarkStale(p) => MarkStale(s, p)
    case DoAccept(p) => Accept(s, p)
    case DoReject(p) => Reject(s, p)
    case AddGoal(goal) => Ok(s.(goals := s.goals + {goal}))
    case AddTask(row) => Ok(if row.id in s.tasks then s else s.(tasks := s.tasks[row.id := row]))
    case JoinPlan(task, plan) => Ok(s.(plans := s.plans[task := plan]))
    case SetExecution(task, execution) =>
      Ok(if task in s.tasks then s.(tasks := s.tasks[task := s.tasks[task].(execution := execution)]) else s)
    case BumpRevision => Ok(s.(revision := s.revision + 1))
  }

  /** A command that fails is rolled back. */
  ghost function Apply(s: Links, step: LinkStep): Links {
    match Attempt(s, step)
    case Ok(next) => next
    case Err(_) => s
  }

  ghost function RunLinks(s: Links, steps: seq<LinkStep>): Links
    decreases |steps|
  {
    if steps == [] then s else RunLinks(Apply(s, steps[0]), steps[1..])
  }
}
