/**
 run_job: one attempt as a chain of transactions, with arbitrary steps of every other process between
 any two of them. However the handler ends and whatever interleaves, the attempt gives its lease back.
 */
module JobRun {
  import opened Prelude
  import opened JobModel
  import opened JobInvariant
  import opened JobTheorems
  import opened JobLeases
  import opened JobTables
  import opened JobOutcome

  /** The context a handler is given for one attempt. */
  class JobContext {
    const db: Database
    const id: JobId
    const token: Token
    const world: World
    ghost const start: State
    ghost const until: Instant
    var tick: nat
    var leaseLost: bool

    /** The worker's view between transactions; the flag is only ever raised on a lease that is gone. */
    ghost predicate Valid()
      reads this, db
    {
      && Attempting(db.View(), id, token)
      && TokenIsPrivate(world, id, token)
      && (leaseLost ==> !HoldsLease(db.entries[id].job, token))
      && Reaches(start, db.View())
    }

    /** At work: an attempt that is spared still has its lease. */
    ghost predicate Working()
      reads this, db
    {
      Valid() && (Spared(world, id, token, until) ==> LeasedUntil(db.entries[id].job, token, until))
    }

    /** The attempt cannot commit any more: its lease is gone or it was asked to cancel. */
    predicate Barred()
      requires id in db.entries
      reads this, db
    {
      !MayFinish(db.entries[id].job, token)
    }

    /** A settled attempt reports the status of its failure; a barred one can only have been cancelled. One that was
        spared reports something. */
    ghost predicate EndsAs(r: Option<Status>, failure: Failure, barred: bool)
      reads this, db
    {
      && Released() && r != Some(Succeeded)
      && (r.Some? ==> db.entries[id].job.status == r.value && r.value == EndStatus(failure, db.entries[id].job))
      && (r.Some? && barred ==> db.entries[id].job.cancelRequestedAt.Some?)
      && (Spared(world, id, token, until) ==> r.Some?)
    }

    ghost predicate Released()
      reads this, db
    {
      Valid() && !HoldsLease(db.entries[id].job, token)
    }

    constructor (db: Database, id: JobId, token: Token, world: World, ghost start: State, ghost until: Instant)
      requires Attempting(db.View(), id, token) && TokenIsPrivate(world, id, token) && Reaches(start, db.View())
      requires LeasedUntil(db.entries[id].job, token, until)
      ensures this.start == start && this.db == db && this.id == id && this.token == token && this.world == world
      ensures this.until == until && Working() && !leaseLost
    {
      this.db, this.id, this.token, this.world, this.start, this.until := db, id, token, world, start, until;
      tick, leaseLost := 1, false;
    }

    function Now(): Instant
      reads this
    {
      world.clock(tick)
    }

    /** Everybody else moves. */
    method Yield()
      requires Working()
      modifies this, db
      ensures Working()
      ensures old(HoldsLease(db.entries[id].job, token)) || !HoldsLease(db.entries[id].job, token)
      ensures old(Barred()) ==> Barred()
    {
      var steps := world.steps(tick);
      ghost var before := db.View();
      var after := Run(db.View(), steps);
      db.entries, db.supply := after.entries, after.supply;
      if Spared(world, id, token, until) {
        SparedKeepsLease(before, world, tick, id, token, until);
      }
      RunKeepsAttempting(before, steps, id, token);
      ReachesFurther(start, before, steps);
      RunEvolves(before, steps, id);
      if !HoldsLease(before.entries[id].job, token) {
        LostLeaseStaysLost(before, steps, id, token);
      }
      tick := tick + 1;
      if world.renewalFailed(tick) && !HoldsLease(db.entries[id].job, token) {
        leaseLost := true;
      }
    }

    /** False where the source raises JobInterrupted. */
    method PassCheckpoint() returns (pass: bool)
      requires Working()
      modifies this`leaseLost
      ensures Working()
      ensures pass <==> MayFinish(db.entries[id].job, token)
    {
      if leaseLost {
        return false;
      }
      var held;
      held, pass := db.PassesCheckpoint(id, token);
      if !held {
        leaseLost := true;
      }
    }

    /** False where the source raises JobInterrupted. */
    method PublishStage() returns (held: bool)
      requires Working()
      modifies this`leaseLost, db
      ensures Working()
      ensures held <==> HoldsLease(db.entries[id].job, token)
    {
      StepKeepsAttempting(db.View(), Stage(id, token, Now()), id, token);
      StageKeepsHolder(db.View(), id, token, Now());
      ReachesNext(start, db.View(), Stage(id, token, Now()));
      held := db.CompleteStage(id, token, Now());
      if !held {
        leaseLost := true;
      }
    }

    /** Runs the handler's calls in order; false if one of them interrupted it. */
    method Handle(actions: seq<Action>) returns (finished: bool)
      requires Working()
      modifies this, db
      ensures Working() && (!finished ==> Barred())
    {
      finished := true;
      var i := 0;
      while i < |actions| && finished
        invariant Working() && (!finished ==> Barred())
      {
        Yield();
        match actions[i] {
          case Checkpoint => finished := PassCheckpoint();
          case StageCompleted => finished := PublishStage();
        }
        i := i + 1;
      }
    }

    method Unfinished() returns (r: Option<Status>)
      requires Working()
      modifies this, db
      ensures EndsAs(r, JobInterrupted, old(Barred()))
    {
      Yield();
      r := SettleInterrupted();
    }

    /** The transaction of _settle_unfinished. */
    method SettleInterrupted() returns (r: Option<Status>)
      requires Working()
      modifies this`leaseLost, db
      ensures EndsAs(r, JobInterrupted, old(Barred()))
    {
      SettleReleases(db.View(), id, token, true, Now());
      ReachesNext(start, db.View(), Settle(id, token, true, Now()));
      r := db.SettleUnfinished(id, token, Now());
      leaseLost := leaseLost || r == None;
    }

    method Error(failure: Failure) returns (r: Option<Status>)
      requires Working() && !Outdated(failure)
      modifies this, db
      ensures EndsAs(r, failure, old(Barred()))
    {
      Yield();
      r := SettleFailed(failure);
    }

    /** The transaction of _settle. */
    method SettleFailed(failure: Failure) returns (r: Option<Status>)
      requires Working() && !Outdated(failure)
      modifies db
      ensures EndsAs(r, failure, old(Barred()))
    {
      SettleReleases(db.View(), id, token, MayRetry(failure), Now());
      ReachesNext(start, db.View(), Settle(id, token, MayRetry(failure), Now()));
      r := db.SettleError(id, token, MayRetry(failure), Now());
    }

    method FinishStaleInput(failure: Failure) returns (r: Option<Status>)
      requires Working() && Outdated(failure)
      modifies this, db
      ensures EndsAs(r, failure, old(Barred()))
    {
      Yield();
      var stale := TryStale(failure);
      if stale {
        return Some(Stale);
      }
      r := Unfinished();
    }

    /** The transaction of _finish_stale: false if the attempt was asked to cancel or has lost its lease. */
    method TryStale(failure: Failure) returns (stale: bool)
      requires Working() && Outdated(failure)
      modifies db
      ensures stale ==> EndsAs(Some(Stale), failure, false)
      ensures stale <==> !old(Barred())
      ensures !stale ==> Working() && Barred()
    {
      StaleReleases(db.View(), id, token, Now());
      ReachesNext(start, db.View(), FinishStale(id, token, Now()));
      stale := db.MarkStale(id, token, Now());
    }

    /** The except clauses of run_job. */
    method Except(failure: Failure) returns (r: Option<Status>)
      requires Working()
      modifies this, db
      ensures EndsAs(r, failure, old(Barred()))
    {
      match failure {
        case JobInterrupted => r := Unfinished();
        case InputStale => r := FinishStaleInput(failure);
        case BusinessError(inputStale, _) =>
          if inputStale { r := FinishStaleInput(failure); } else { r := Error(failure); }
        case _ => r := Error(failure);
      }
    }
  }

  lemma StageKeepsHolder(s: State, id: JobId, token: Token, now: Instant)
    requires id in s.entries
    ensures var s' := Apply(s, Stage(id, token, now));
            id in s'.entries && s'.entries[id].job == s.entries[id].job
  {
  }

  lemma SettleReleases(s: State, id: JobId, token: Token, retryable: bool, now: Instant)
    requires Attempting(s, id, token)
    ensures var s' := Apply(s, Settle(id, token, retryable, now));
            && Attempting(s', id, token) && !HoldsLease(s'.entries[id].job, token)
            && (HoldsLease(s.entries[id].job, token) ==> s'.entries[id].job.status == SettleTarget(s.entries[id].job, retryable))
            && (HoldsLease(s.entries[id].job, token) ==> s'.entries[id].job.status == SettleTarget(s'.entries[id].job, retryable))
            && s'.entries[id].job.cancelRequestedAt == s.entries[id].job.cancelRequestedAt
  {
    StepKeepsAttempting(s, Settle(id, token, retryable, now), id, token);
    SettleLetsGo(s, id, token, retryable, now);
  }

  lemma SettleLetsGo(s: State, id: JobId, token: Token, retryable: bool, now: Instant)
    requires id in s.entries
    ensures var s' := Apply(s, Settle(id, token, retryable, now));
            && id in s'.entries && !HoldsLease(s'.entries[id].job, token)
            && (HoldsLease(s.entries[id].job, token) ==> s'.entries[id].job.status == SettleTarget(s.entries[id].job, retryable))
            && (HoldsLease(s.entries[id].job, token) ==> s'.entries[id].job.status == SettleTarget(s'.entries[id].job, retryable))
            && s'.entries[id].job.cancelRequestedAt == s.entries[id].job.cancelRequestedAt
  {
  }

  lemma StaleReleases(s: State, id: JobId, token: Token, now: Instant)
    requires Attempting(s, id, token)
    ensures var s' := Apply(s, FinishStale(id, token, now));
            && Attempting(s', id, token)
            && (MayFinish(s.entries[id].job, token) ==>
                  s'.entries[id].job.status == Stale && s'.entries[id].job.cancelRequestedAt.None?)
            && (!MayFinish(s.entries[id].job, token) ==> s' == s)
  {
    StepKeepsAttempting(s, FinishStale(id, token, now), id, token);
    StaleOrNothing(s, id, token, now);
  }

  lemma StaleOrNothing(s: State, id: JobId, token: Token, now: Instant)
    requires id in s.entries
    ensures var s' := Apply(s, FinishStale(id, token, now));
            && id in s'.entries
            && (MayFinish(s.entries[id].job, token) ==>
                  s'.entries[id].job.status == Stale && s'.entries[id].job.cancelRequestedAt.None?)
            && (!MayFinish(s.entries[id].job, token) ==> s' == s)
  {
    assert s.entries[id := s.entries[id]] == s.entries;
  }

  lemma CommitReleases(s: State, id: JobId, token: Token, outcome: Outcome, now: Instant)
    requires Attempting(s, id, token) && MayFinish(s.entries[id].job, token)
    ensures var s' := Apply(s, Commit(id, token, outcome, now));
            Inv(s') && id in s'.entries && !HoldsLease(s'.entries[id].job, token) && !WroteNothing(s', id, token)
  {
    var s' := Apply(s, Commit(id, token, outcome, now));
    StepKeepsInv(s, Commit(id, token, outcome, now));
    var effects := s'.entries[id].effects;
    assert effects[|effects| - 1].token == token;
  }

  /** A fresh token has written nothing anywhere. */
  lemma FreshTokenWroteNothing(s: State, id: JobId)
    requires Inv(s)
    ensures WroteNothing(s, id, s.supply)
  {
  }

  lemma ClaimWritesNothing(s: State, id: JobId, token: Token, now: Instant, lease: int)
    requires WroteNothing(s, id, token)
    ensures WroteNothing(Apply(s, Claim(id, now, lease)), id, token)
  {
  }

  lemma ClaimStartsClean(s: State, id: JobId, now: Instant, lease: int)
    requires Inv(s)
    ensures var s' := Apply(s, Claim(id, now, lease));
            && Inv(s') && WroteNothing(s', id, s.supply)
            && (id in s'.entries ==> Attempting(s', id, s.supply))
            && (id in s'.entries && s.entries[id].job.status != Queued ==> !HoldsLease(s'.entries[id].job, s.supply))
  {
    StepKeepsInv(s, Claim(id, now, lease));
    FreshTokenWroteNothing(s, id);
    ClaimWritesNothing(s, id, s.supply, now, lease);
    if id in s.entries && s.entries[id].job.status != Queued {
      UnclaimedHoldsNothing(s, id, now, lease);
    }
  }

  lemma UnclaimedHoldsNothing(s: State, id: JobId, now: Instant, lease: int)
    requires Inv(s) && id in s.entries && s.entries[id].job.status != Queued
    ensures !HoldsLease(Apply(s, Claim(id, now, lease)).entries[id].job, s.supply)
  {
    StepAt(s, Claim(id, now, lease), id);
  }

  /** One attempt at job `id`. Whatever the handler does, however the commit ends and whatever steps
      interleave: only transactions of the model change the tables; when the run returns it does not hold
      the job; what it reports is the job's status; it reports success exactly when business rows were
      written under its token; and any other report is the status its failure leads to. An attempt
      without a failure of its own that reports one was cancelled. An attempt that got the job and whose
      lease nobody took away always reports one. */
  method RunJob(db: Database, id: JobId, plan: Plan, world: World, lease: int) returns (r: Option<Status>, token: Token)
    requires Inv(db.View()) && TokenIsPrivate(world, id, db.supply)
    modifies db
    ensures token == old(db.supply) && OneRun(old(db.View()), db.View(), id, token, r, plan, world, lease)
  {
    ghost var start := db.View();
    var claimed;
    token, claimed := Begin(db, id, world, lease);
    if claimed {
      r := RunFrom(db, id, token, plan, world, start, LeaseEnd(world, lease));
    } else {
      r := None;
    }
    RunIsOne(start, db.View(), id, token, r, plan, world, lease);
  }

  /** The rest of a run that got the job. */
  method RunFrom(db: Database, id: JobId, token: Token, plan: Plan, world: World, ghost start: State, ghost until: Instant)
    returns (r: Option<Status>)
    requires Attempting(db.View(), id, token) && TokenIsPrivate(world, id, token) && Reaches(start, db.View())
    requires LeasedUntil(db.entries[id].job, token, until)
    modifies db
    ensures Ended(db.View(), id, token, r, FailureOf(plan)) && Reaches(start, db.View())
    ensures Spared(world, id, token, until) ==> r.Some?
  {
    var context := new JobContext(db, id, token, world, start, until);
    r := RunClaimed(context, plan);
  }

  /** The claim that begins a run. */
  method Begin(db: Database, id: JobId, world: World, lease: int) returns (token: Token, claimed: bool)
    requires Inv(db.View())
    modifies db
    ensures token == old(db.supply) && Reaches(old(db.View()), db.View())
    ensures claimed <==> IsQueued(old(db.View()), id)
    ensures claimed ==> Attempting(db.View(), id, token) && LeasedUntil(db.entries[id].job, token, LeaseEnd(world, lease))
    ensures !claimed ==> Inv(db.View()) && NeverHeld(db.View(), id, token)
  {
    var now := world.clock(0);
    ClaimStartsAttempt(db.View(), id, now, lease);
    token, claimed := db.ClaimJob(id, now, lease);
  }

  /** What a run relies on after its claim, whether or not it got the job. */
  lemma ClaimStartsAttempt(s: State, id: JobId, now: Instant, lease: int)
    requires Inv(s)
    ensures var s' := Apply(s, Claim(id, now, lease));
            && Inv(s') && WroteNothing(s', id, s.supply) && Reaches(s, s')
            && (id in s'.entries ==> id in s.entries && Attempting(s', id, s.supply))
            && (id in s'.entries && s.entries[id].job.status != Queued ==> !HoldsLease(s'.entries[id].job, s.supply))
            && (id in s'.entries && s.entries[id].job.status == Queued ==> LeasedUntil(s'.entries[id].job, s.supply, now + lease))
  {
    ClaimStartsClean(s, id, now, lease);
    ReachesOne(s, Claim(id, now, lease));
    if id in s.entries && s.entries[id].job.status == Queued {
      ClaimLeases(s, id, now, lease);
    }
  }

  /** A claimed attempt, from looking up its handler to the end. */
  method RunClaimed(context: JobContext, plan: Plan) returns (r: Option<Status>)
    requires context.Working()
    modifies context, context.db
    ensures Concluded(context, r, FailureOf(plan))
  {
    if !plan.registered {
      r := Conclude(context, UnexpectedError, Some(UnexpectedError));
      return;
    }
    var finished := context.Handle(plan.actions);
    if !finished {
      r := Conclude(context, JobInterrupted, FailureOf(plan));
      return;
    }
    context.Yield();
    r := Finish(context, plan.end);
  }

  /** What the handler returned or raised. */
  method Finish(context: JobContext, end: HandlerEnd) returns (r: Option<Status>)
    requires context.Working()
    modifies context, context.db
    ensures Concluded(context, r, FailureOf(Plan(true, [], end)))
  {
    match end {
      case Fails(failure) => r := Conclude(context, failure, Some(failure));
      case Commits(callback) => r := CheckAndCommit(context, callback);
    }
  }

  /** Ends the attempt after a failure: its own, or the interruption of one that can only be cancelled. */
  method Conclude(context: JobContext, failure: Failure, own: Option<Failure>) returns (r: Option<Status>)
    requires context.Working() && (own == Some(failure) || (failure == JobInterrupted && context.Barred()))
    modifies context, context.db
    ensures Concluded(context, r, own)
  {
    r := context.Except(failure);
  }

  /** The checkpoint after the handler, then the commit. */
  method CheckAndCommit(context: JobContext, callback: CommitCallback) returns (r: Option<Status>)
    requires context.Working()
    modifies context, context.db
    ensures Concluded(context, r, RaisedBy(callback))
  {
    var pass := context.PassCheckpoint();
    if pass {
      r := CommitOrSettle(context, callback);
    } else {
      r := Conclude(context, JobInterrupted, RaisedBy(callback));
    }
  }

  ghost predicate Concluded(context: JobContext, r: Option<Status>, failure: Option<Failure>)
    reads context, context.db
  {
    && Ended(context.db.View(), context.id, context.token, r, failure) && Reaches(context.start, context.db.View())
    && (Spared(context.world, context.id, context.token, context.until) ==> r.Some?)
  }

  method CommitOrSettle(context: JobContext, callback: CommitCallback) returns (r: Option<Status>)
    requires context.Working()
    modifies context, context.db
    ensures Concluded(context, r, RaisedBy(callback))
  {
    context.Yield();
    ghost var before := context.db.View();
    var result := context.db.TryCommit(context.id, context.token, callback, context.Now());
    match result {
      case Committed =>
        CommitReleases(before, context.id, context.token, callback.outcome, context.Now());
        ReachesNext(context.start, before, Commit(context.id, context.token, callback.outcome, context.Now()));
        r := Some(Succeeded);
      case NotCommitted => r := Conclude(context, JobInterrupted, RaisedBy(callback));
      case RolledBack(failure) => r := Conclude(context, failure, Some(failure));
    }
  }
}
