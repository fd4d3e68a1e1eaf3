/** What one attempt is given, and how it may end. */
module JobOutcome {
  import opened Prelude
  import opened JobModel
  import opened JobInvariant
  import opened JobTheorems
  import opened JobLeases
  import opened JobTables

  /** What the rest of the world does before this run's k-th transaction, what its clock then shows, and
      whether the renewal thread has just found a renewal that matched no row. */
  datatype World = World(steps: nat -> seq<Step>, clock: nat -> Instant, renewalFailed: nat -> bool)

  datatype Plan = Plan(registered: bool, actions: seq<Action>, end: HandlerEnd)

  /** What goes wrong with an attempt by its own doing, if anything does. */
  function FailureOf(plan: Plan): Option<Failure> {
    if !plan.registered then Some(UnexpectedError)
    else match plan.end
         case Fails(failure) => Some(failure)
         case Commits(callback) => RaisedBy(callback)
  }

  predicate Outdated(failure: Failure) {
    failure.InputStale? || (failure.BusinessError? && failure.inputStale)
  }

  predicate MayRetry(failure: Failure) {
    match failure
    case JobInterrupted => true
    case RetryableJobError => true
    case BusinessError(_, retryable) => retryable
    case DatabaseError(busy) => busy
    case _ => false
  }

  /** The status a failed attempt ends in: a cancel request comes first, then outdated inputs, then a retry
      while attempts are left. */
  function EndStatus(failure: Failure, job: Job): Status {
    if job.cancelRequestedAt.Some? then Cancelled
    else if Outdated(failure) then Stale
    else if MayRetry(failure) && job.attempts < MAX_ATTEMPTS then RetryWait
    else Failed
  }

  /** Interrupted, overloaded and explicitly retryable attempts are tried again while attempts are left; outdated
      inputs make the job stale; everything else fails; a cancel request goes before all of it. */
  lemma EndStatusExactly(failure: Failure, job: Job)
    ensures EndStatus(failure, job) == Cancelled <==> job.cancelRequestedAt.Some?
    ensures EndStatus(failure, job) == Stale <==>
      job.cancelRequestedAt.None? && (failure == InputStale || (failure.BusinessError? && failure.inputStale))
    ensures EndStatus(failure, job) == RetryWait <==>
      && job.cancelRequestedAt.None? && job.attempts < 3
      && (failure == JobInterrupted || failure == RetryableJobError || failure == DatabaseError(true)
          || (failure.BusinessError? && !failure.inputStale && failure.retryable))
    ensures EndStatus(failure, job) in {Cancelled, Stale, RetryWait, Failed}
  {
  }

  /** Only transactions of the model lead from one state to the other. */
  ghost predicate Reaches(s: State, s': State) {
    exists steps :: Run(s, steps) == s'
  }

  lemma ReachesFurther(start: State, s: State, steps: seq<Step>)
    requires Reaches(start, s)
    ensures Reaches(start, Run(s, steps))
  {
    var before :| Run(start, before) == s;
    RunConcat(start, before, steps);
  }

  lemma ReachesNext(start: State, s: State, step: Step)
    requires Reaches(start, s)
    ensures Reaches(start, Apply(s, step))
  {
    ReachesFurther(start, s, [step]);
    RunOne(s, step);
  }

  lemma ReachesOne(s: State, step: Step)
    ensures Reaches(s, Apply(s, step))
  {
    RunOne(s, step);
  }

  /** No other process has this run's token, so none commits under it. */
  ghost predicate TokenIsPrivate(world: World, id: JobId, token: Token) {
    forall k: nat, i: nat :: i < |world.steps(k)| ==> !CommitsUnder(world.steps(k)[i], id, token)
  }

  /** Nobody else takes the attempt's lease away before it runs out: no scan comes after its end. */
  ghost predicate Spared(world: World, id: JobId, token: Token, until: Instant) {
    forall k: nat, i: nat :: i < |world.steps(k)| ==> !MayEndLease(world.steps(k)[i], id, token, until)
  }

  lemma SparedKeepsLease(s: State, world: World, k: nat, id: JobId, token: Token, until: Instant)
    requires Inv(s) && id in s.entries && LeasedUntil(s.entries[id].job, token, until)
    requires Spared(world, id, token, until)
    ensures id in Run(s, world.steps(k)).entries && LeasedUntil(Run(s, world.steps(k)).entries[id].job, token, until)
  {
    LeaseIsRespected(s, world.steps(k), id, token, until);
  }

  /** The failure, or without one a cancel request, accounts for the status. */
  predicate Explains(failure: Option<Failure>, status: Status, job: Job) {
    match failure
    case Some(f) => status == EndStatus(f, job)
    case None => status == Cancelled && job.cancelRequestedAt.Some?
  }

  function RaisedBy(callback: CommitCallback): Option<Failure> {
    match callback
    case Returns(_) => None
    case Raises(failure) => Some(failure)
  }

  /** How a run with this failure of its own, or none, may have ended: it does not hold the job, reports the job's
      status, and reports success exactly if business rows were written under its token. */
  ghost predicate Ended(s: State, id: JobId, token: Token, r: Option<Status>, failure: Option<Failure>) {
    && Inv(s) && id in s.entries && !HoldsLease(s.entries[id].job, token)
    && (r.Some? ==> s.entries[id].job.status == r.value)
    && (r == Some(Succeeded) <==> !WroteNothing(s, id, token))
    && (r == Some(Succeeded) ==> failure == None)
    && (r.Some? && r != Some(Succeeded) ==> Explains(failure, r.value, s.entries[id].job))
  }

  predicate IsQueued(s: State, id: JobId) {
    id in s.entries && s.entries[id].job.status == Queued
  }

  /** The token neither holds the job nor wrote anything. */
  ghost predicate NeverHeld(s: State, id: JobId, token: Token) {
    WroteNothing(s, id, token) && (id in s.entries ==> !HoldsLease(s.entries[id].job, token))
  }

  /** When the lease of a run's claim ends. */
  function LeaseEnd(world: World, lease: int): Instant {
    world.clock(0) + lease
  }

  /** One run, from the state it met to the state it left: it made only transactions of the model; if the job was
      queued it ended in one of these ways, and reports something unless somebody took its lease away; otherwise it
      did nothing to the job. */
  ghost predicate OneRun(s: State, s': State, id: JobId, token: Token, r: Option<Status>, plan: Plan, world: World, lease: int) {
    && Inv(s') && Reaches(s, s')
    && (IsQueued(s, id) ==> Ended(s', id, token, r, FailureOf(plan)) && (Spared(world, id, token, LeaseEnd(world, lease)) ==> r.Some?))
    && (!IsQueued(s, id) ==> r == None && NeverHeld(s', id, token))
  }

  lemma RunIsOne(s: State, s': State, id: JobId, token: Token, r: Option<Status>, plan: Plan, world: World, lease: int)
    requires Reaches(s, s')
    requires if IsQueued(s, id) then Ended(s', id, token, r, FailureOf(plan)) && (Spared(world, id, token, LeaseEnd(world, lease)) ==> r.Some?)
             else r == None && Inv(s') && NeverHeld(s', id, token)
    ensures OneRun(s, s', id, token, r, plan, world, lease)
  {
  }
}
