/**
 Safety of the job protocol over whole runs: fencing, exactly-once business writes, the event log as
 a refinement of the status, bounded life, sticky cancellation and the recovery scan.
 */
module JobTheorems {
  import opened Prelude
  import opened JobModel
  import opened JobInvariant

  // ----- fencing -----

  /** A worker step under any token but the current one changes nothing at all. */
  lemma ForeignTokenChangesNothing(s: State, step: Step, id: JobId, token: Token)
    requires step.IsWorkerStep(id, token)
    requires id in s.entries ==> !HoldsLease(s.entries[id].job, token)
    ensures Apply(s, step) == s
  {
    if id in s.entries {
      assert EntryStep(s.entries[id], step) == s.entries[id];
      assert s.entries[id := s.entries[id]] == s.entries;
    }
  }

  /** A drawn token that is not current now will never be current again. */
  lemma {:induction false} LostLeaseStaysLost(s: State, steps: seq<Step>, id: JobId, token: Token)
    requires Inv(s) && id in s.entries && token < s.supply && !HoldsLease(s.entries[id].job, token)
    ensures id in Run(s, steps).entries && !HoldsLease(Run(s, steps).entries[id].job, token)
    decreases |steps|
  {
    if steps != [] {
      StepMoves(s, steps[0], id);
      StepKeepsInv(s, steps[0]);
      LostLeaseStaysLost(Apply(s, steps[0]), steps[1..], id, token);
    }
  }

  /** The run with every step of one attempt taken out. */
  ghost function Without(steps: seq<Step>, id: JobId, token: Token): seq<Step> {
    if steps == [] then []
    else if steps[0].IsWorkerStep(id, token) then Without(steps[1..], id, token)
    else [steps[0]] + Without(steps[1..], id, token)
  }

  /** A late worker is invisible: once its lease is lost, whatever it still does, at whatever points of
      whatever run, the tables end up as if it had done nothing. */
  lemma {:induction false} LateWorkerIsInvisible(s: State, steps: seq<Step>, id: JobId, token: Token)
    requires Inv(s) && id in s.entries && token < s.supply && !HoldsLease(s.entries[id].job, token)
    ensures Run(s, steps) == Run(s, Without(steps, id, token))
    decreases |steps|
  {
    if steps == [] {
      return;
    }
    var s1 := Apply(s, steps[0]);
    StepMoves(s, steps[0], id);
    StepKeepsInv(s, steps[0]);
    LateWorkerIsInvisible(s1, steps[1..], id, token);
    if steps[0].IsWorkerStep(id, token) {
      ForeignTokenChangesNothing(s, steps[0], id, token);
    } else {
      var rest := Without(steps[1..], id, token);
      assert ([steps[0]] + rest)[1..] == rest;
    }
  }

  // ----- business writes -----

  /** Business rows of a job change only in a commit by the holder of its lease, with no cancel
      request on record, and exactly when the job turns succeeded. */
  lemma OnlyTheHolderCommits(s: State, step: Step, id: JobId)
    requires Inv(s) && id in s.entries
    ensures id in Apply(s, step).entries
    ensures var e, e' := s.entries[id], Apply(s, step).entries[id];
            && (e'.effects != e.effects <==> e.job.status != Succeeded && e'.job.status == Succeeded)
            && (e'.effects != e.effects ==>
                  && step.Commit? && step.id == id && MayFinish(e.job, step.token)
                  && e.effects == [] && e'.effects == [Effect(step.token, step.outcome.refs)]
                  && e'.job.resultRefs == Some(step.outcome.refs))
  {
    StepAt(s, step, id);
    HolderCommits(s, step, id);
  }

  lemma HolderCommits(s: State, step: Step, id: JobId)
    requires id in s.entries && EntryOk(s.entries[id], s.supply)
    ensures var e, e' := s.entries[id], EntryAfter(s, step, id);
            && (e'.effects != e.effects <==> e.job.status != Succeeded && e'.job.status == Succeeded)
            && (e'.effects != e.effects ==>
                  && step.Commit? && step.id == id && MayFinish(e.job, step.token)
                  && e.effects == [] && e'.effects == [Effect(step.token, step.outcome.refs)]
                  && e'.job.resultRefs == Some(step.outcome.refs))
  {
    if step.Recover? {
      RecoverOk(s.entries[id], s.supply, step.now);
    }
  }

  /** In every reachable state a job has business rows exactly when it succeeded, and then once. */
  lemma BusinessWrittenExactlyOnce(steps: seq<Step>, id: JobId)
    requires id in Run(EMPTY, steps).entries
    ensures var e := Run(EMPTY, steps).entries[id];
            && |e.effects| == (if e.job.status == Succeeded then 1 else 0)
            && (e.job.status == Succeeded ==> e.job.resultRefs == Some(e.effects[0].refs))
  {
    EmptyInv();
    RunKeepsInv(EMPTY, steps);
  }

  // ----- the event log -----

  lemma {:induction false} PrefixAlive(log: seq<Event>, n: nat)
    requires Replay(log) != Broken && n <= |log|
    ensures Replay(log[..n]) != Broken
  {
    if n < |log| {
      PrefixAlive(log[..|log| - 1], n);
      assert log[..|log| - 1][..n] == log[..n];
    } else {
      assert log[..n] == log;
    }
  }

  lemma TwoMoves(p: Phase, a: EventType, b: EventType)
    requires Advance(Advance(p, a), b) != Broken
    ensures !a.Terminal() && (a == EvAwaitingConfirmation ==> b == EvCompleted)
  {
  }

  lemma LastMove(p: Phase, a: EventType)
    requires Advance(p, a) != Broken
    ensures a.Terminal() <==> Advance(p, a).At? && Advance(p, a).status.Terminal()
    ensures a == EvAwaitingConfirmation ==> Advance(p, a) == Confirming
    ensures p == Unborn ==> a == EvQueued
  {
  }

  /** In a log the automaton accepts, birth comes first, a confirmation request is followed at once by
      completion, and nothing follows a terminal event. */
  lemma AcceptedLogShape(log: seq<Event>, i: nat)
    requires Replay(log) != Broken && i < |log|
    ensures i == 0 ==> log[i].kind == EvQueued
    ensures i + 1 < |log| ==> !log[i].kind.Terminal()
    ensures i + 1 < |log| && log[i].kind == EvAwaitingConfirmation ==> log[i + 1].kind == EvCompleted
    ensures i + 1 == |log| ==> (log[i].kind.Terminal() <==> Replay(log).At? && Replay(log).status.Terminal())
    ensures i + 1 == |log| && log[i].kind == EvAwaitingConfirmation ==> Replay(log) == Confirming
  {
    PrefixAlive(log, i + 1);
    assert log[..i + 1][..i] == log[..i];
    LastMove(Replay(log[..i]), log[i].kind);
    if i + 1 < |log| {
      PrefixAlive(log, i + 2);
      assert log[..i + 2][..i + 1] == log[..i + 1];
      TwoMoves(Replay(log[..i]), log[i].kind, log[i + 1].kind);
    } else {
      assert log[..i + 1] == log;
    }
  }

  /** In every reachable state the log tells the job's story: numbers 1..n, replay gives the status,
      one started event per attempt, one outbox row per queueing. */
  lemma LogRefinesStatus(steps: seq<Step>, id: JobId)
    requires id in Run(EMPTY, steps).entries
    ensures var e := Run(EMPTY, steps).entries[id];
            && e.log != []
            && (forall i :: 0 <= i < |e.log| ==> e.log[i].sequence == i + 1 && e.log[i].owner == e.job.owner)
            && Replay(e.log) == At(e.job.status)
            && Count(e.log, EvStarted) == e.job.attempts
            && Count(e.log, EvQueued) <= |e.outbox|
            && e.log[0].kind == EvQueued
            && (e.log[|e.log| - 1].kind.Terminal() <==> e.job.status.Terminal())
            && (forall i :: 0 <= i < |e.log| - 1 ==> !e.log[i].kind.Terminal())
            && (forall i :: 0 <= i < |e.log| && e.log[i].kind == EvAwaitingConfirmation ==>
                  i + 1 < |e.log| && e.log[i + 1].kind == EvCompleted)
  {
    EmptyInv();
    RunKeepsInv(EMPTY, steps);
    var e := Run(EMPTY, steps).entries[id];
    EntryLogShape(e, Run(EMPTY, steps).supply);
  }

  lemma EntryLogShape(e: Entry, supply: nat)
    requires EntryOk(e, supply)
    ensures e.log != [] && e.log[0].kind == EvQueued
    ensures e.log[|e.log| - 1].kind.Terminal() <==> e.job.status.Terminal()
    ensures forall i :: 0 <= i < |e.log| - 1 ==> !e.log[i].kind.Terminal()
    ensures forall i :: 0 <= i < |e.log| && e.log[i].kind == EvAwaitingConfirmation ==>
              i + 1 < |e.log| && e.log[i + 1].kind == EvCompleted
  {
    AcceptedLogShape(e.log, 0);
    AcceptedLogShape(e.log, |e.log| - 1);
    forall i | 0 <= i < |e.log| - 1
      ensures !e.log[i].kind.Terminal()
    {
      AcceptedLogShape(e.log, i);
    }
    forall i | 0 <= i < |e.log| && e.log[i].kind == EvAwaitingConfirmation
      ensures i + 1 < |e.log| && e.log[i + 1].kind == EvCompleted
    {
      AcceptedLogShape(e.log, i);
    }
  }

  // ----- bounded life -----

  /** How many steps of the run changed the status of a job that was already there. */
  ghost function StatusChanges(s: State, steps: seq<Step>, id: JobId): nat
    decreases |steps|
  {
    if steps == [] then 0 else
    var s1 := Apply(s, steps[0]);
    (if id in s.entries && id in s1.entries && s1.entries[id].job.status != s.entries[id].job.status then 1 else 0)
    + StatusChanges(s1, steps[1..], id)
  }

  lemma {:induction false} ChangesCostMoves(s: State, steps: seq<Step>, id: JobId)
    requires Inv(s) && id in s.entries
    ensures id in Run(s, steps).entries
    ensures StatusChanges(s, steps, id) + MovesLeft(Run(s, steps).entries[id].job) <= MovesLeft(s.entries[id].job)
    decreases |steps|
  {
    if steps != [] {
      StepMoves(s, steps[0], id);
      StepKeepsInv(s, steps[0]);
      ChangesCostMoves(Apply(s, steps[0]), steps[1..], id);
    }
  }

  /** After submission a job changes status at most eight times, in at most three attempts. */
  lemma {:induction false} BoundedLife(s: State, steps: seq<Step>, id: JobId)
    requires Inv(s) && id !in s.entries
    ensures StatusChanges(s, steps, id) <= 8
    ensures id in Run(s, steps).entries ==> Run(s, steps).entries[id].job.attempts <= 3
    decreases |steps|
  {
    if steps == [] {
      return;
    }
    var s1 := Apply(s, steps[0]);
    StepKeepsInv(s, steps[0]);
    if id in s1.entries {
      StepAdds(s, steps[0], id);
      ChangesCostMoves(s1, steps[1..], id);
      RunKeepsInv(s1, steps[1..]);
      assert MovesLeft(Run(s, steps).entries[id].job) >= 0;
    } else {
      BoundedLife(s1, steps[1..], id);
    }
  }

  /** A finished job never changes again: neither its row, nor its log, nor its business rows. */
  lemma FinishedIsFinal(s: State, steps: seq<Step>, id: JobId)
    requires Inv(s) && id in s.entries && s.entries[id].job.status.Terminal()
    ensures id in Run(s, steps).entries
    ensures var e, e' := s.entries[id], Run(s, steps).entries[id];
            e'.job == e.job && e'.log == e.log && e'.effects == e.effects
  {
    RunEvolves(s, steps, id);
  }

  lemma SettleBackoff(e: Entry, supply: nat, token: Token, retryable: bool, now: Instant)
    requires EntryOk(e, supply) && SettleEntry(e, token, retryable, now).job.status == RetryWait
    requires e.job.status != RetryWait
    ensures e.job.status == Running && e.job.attempts in {1, 2}
    ensures SettleEntry(e, token, retryable, now).job.nextAttemptAt
            == Some(now + if e.job.attempts == 1 then 30 * SECOND else 120 * SECOND)
  {
  }

  /** The retry wait of a scan is the one its lease-expiry phase set. */
  lemma RecoverRetries(e: Entry, supply: nat, now: Instant)
    requires EntryOk(e, supply) && e.job.status != RetryWait && RecoverEntry(e, now).job.status == RetryWait
    ensures LeaseExpired(e, now) && RecoverEntry(e, now) == SettleEntry(e, e.job.leaseToken.value, true, now)
  {
  }

  lemma OnlySettleRetries(e: Entry, step: Step)
    requires e.job.status != RetryWait && EntryStep(e, step).job.status == RetryWait
    ensures step.Settle?
  {
  }

  lemma OnlySettlingRetries(s: State, step: Step, id: JobId)
    requires id in s.entries && s.entries[id].job.status != RetryWait
    requires EntryAfter(s, step, id).job.status == RetryWait
    ensures step.Recover? || (step.Settle? && step.id == id)
  {
    if !step.Recover? && EntryAfter(s, step, id) == EntryStep(s.entries[id], step) {
      OnlySettleRetries(s.entries[id], step);
    }
  }

  ghost predicate RetryScheduled(job: Job, job': Job, now: Instant) {
    && job.status == Running && job.attempts in {1, 2}
    && job'.nextAttemptAt == Some(now + if job.attempts == 1 then 30 * SECOND else 120 * SECOND)
  }

  lemma BackoffAt(s: State, step: Step, id: JobId)
    requires id in s.entries && EntryOk(s.entries[id], s.supply) && (step.Recover? || (step.Settle? && step.id == id))
    requires s.entries[id].job.status != RetryWait && EntryAfter(s, step, id).job.status == RetryWait
    ensures RetryScheduled(s.entries[id].job, EntryAfter(s, step, id).job, step.now)
  {
    var e := s.entries[id];
    if step.Settle? {
      SettleBackoff(e, s.supply, step.token, step.retryable, step.now);
    } else {
      RecoverRetries(e, s.supply, step.now);
      SettleBackoff(e, s.supply, e.job.leaseToken.value, true, step.now);
    }
  }

  /** A retry is only ever scheduled after the first or the second attempt, 30 s or 120 s ahead. */
  lemma BackoffInRange(s: State, step: Step, id: JobId)
    requires Inv(s) && id in s.entries && id in Apply(s, step).entries
    requires s.entries[id].job.status != RetryWait && Apply(s, step).entries[id].job.status == RetryWait
    ensures step.Settle? || step.Recover?
    ensures RetryScheduled(s.entries[id].job, Apply(s, step).entries[id].job, step.now)
  {
    StepAt(s, step, id);
    OnlySettlingRetries(s, step, id);
    BackoffAt(s, step, id);
  }

  // ----- cancellation -----

  /** From the moment a cancel request is on record the job is running or cancelled, whoever settles it. */
  lemma CancelIsSticky(s: State, steps: seq<Step>, id: JobId)
    requires Inv(s) && id in s.entries && s.entries[id].job.cancelRequestedAt.Some?
    ensures id in Run(s, steps).entries
    ensures var job := Run(s, steps).entries[id].job;
            && job.cancelRequestedAt == s.entries[id].job.cancelRequestedAt
            && (job.status == Running || job.status == Cancelled)
    ensures Run(s, steps).entries[id].effects == []
  {
    RunEvolves(s, steps, id);
    RunKeepsInv(s, steps);
  }

  /** A cancel request that is accepted either ends the job now or dooms the running attempt: after any
      further steps that take the job out of running, it is cancelled and wrote no business rows. */
  lemma AcceptedCancelPreventsResults(s: State, steps: seq<Step>, owner: Owner, id: JobId, revision: nat, now: Instant)
    requires Inv(s) && CancelOutcome(s, owner, id, revision) == CancelResult.Requested
    ensures var s1 := Apply(s, Cancel(owner, id, revision, now));
            && id in Run(s1, steps).entries
            && (Run(s1, steps).entries[id].job.status != Running ==> Run(s1, steps).entries[id].job.status == Cancelled)
            && Run(s1, steps).entries[id].effects == []
  {
    CancelIsRecorded(s, owner, id, revision, now);
    CancelIsSticky(Apply(s, Cancel(owner, id, revision, now)), steps, id);
  }

  lemma CancelIsRecorded(s: State, owner: Owner, id: JobId, revision: nat, now: Instant)
    requires Inv(s) && CancelOutcome(s, owner, id, revision) == CancelResult.Requested
    ensures var s' := Apply(s, Cancel(owner, id, revision, now));
            Inv(s') && id in s'.entries && s'.entries[id].job.cancelRequestedAt.Some?
  {
    StepKeepsInv(s, Cancel(owner, id, revision, now));
    CancelSetsTheRequest(s, owner, id, revision, now);
  }

  lemma CancelSetsTheRequest(s: State, owner: Owner, id: JobId, revision: nat, now: Instant)
    requires id in s.entries && CancelOutcome(s, owner, id, revision) == CancelResult.Requested
    ensures var s' := Apply(s, Cancel(owner, id, revision, now));
            id in s'.entries && s'.entries[id].job.cancelRequestedAt.Some?
  {
  }

  // ----- recovery -----

  datatype RecoveryReport = RecoveryReport(leaseExpired: nat, requeued: nat, redispatched: nat)

  function ExpiredIds(s: State, now: Instant): set<JobId> {
    set id | id in s.entries && LeaseExpired(s.entries[id], now)
  }

  function DueIds(s: State, now: Instant): set<JobId> {
    set id | id in s.entries && RetryDue(s.entries[id], now)
  }

  function ForgottenIds(s: State, now: Instant): set<JobId> {
    set id | id in s.entries && Forgotten(s.entries[id], now)
  }

  /** Each phase counts the rows it moved. */
  function Report(s: State, now: Instant): RecoveryReport {
    RecoveryReport(|ExpiredIds(s, now)|, |DueIds(ExpireAll(s, now), now)|,
                   |ForgottenIds(RequeueAll(ExpireAll(s, now), now), now)|)
  }

  /** Nothing in this state is left for a scan at `now`. */
  ghost predicate NothingStuck(s: State, now: Instant) {
    forall id :: id in s.entries ==>
      var e := s.entries[id];
      && (e.job.status == Running ==> e.job.leaseUntil.Some? && e.job.leaseUntil.value >= now)
      && (e.job.status == RetryWait ==> e.job.nextAttemptAt.Some? && e.job.nextAttemptAt.value > now)
      && (e.job.status == Queued ==> e.job.updatedAt > now - STUCK_QUEUED_AFTER
                                     || RecentOutbox(e.outbox, now - STUCK_QUEUED_AFTER))
  }

  lemma RecoverEntryClears(e: Entry, supply: nat, now: Instant)
    requires EntryOk(e, supply)
    ensures var e' := RecoverEntry(e, now);
            && !LeaseExpired(e', now) && !RetryDue(e', now) && !Forgotten(e', now)
  {
    ExpireOk(e, supply, now);
    var e1 := ExpireEntry(e, now);
    var e2 := RequeueEntry(e1, now);
    if Forgotten(e2, now) {
      var e3 := RedispatchEntry(e2, now);
      assert e3.outbox[|e3.outbox| - 1].createdAt > now - STUCK_QUEUED_AFTER;
    }
  }

  lemma RecoverLeavesNothingStuck(s: State, now: Instant)
    requires Inv(s)
    ensures NothingStuck(RecoverState(s, now), now)
  {
    RecoverStateRows(s, now);
    forall id | id in s.entries
      ensures !LeaseExpired(RecoverEntry(s.entries[id], now), now)
      ensures !RetryDue(RecoverEntry(s.entries[id], now), now)
      ensures !Forgotten(RecoverEntry(s.entries[id], now), now)
      ensures EntryOk(RecoverEntry(s.entries[id], now), s.supply)
    {
      RecoverEntryClears(s.entries[id], s.supply, now);
      RecoverOk(s.entries[id], s.supply, now);
    }
  }

  lemma QuietScanChangesNothing(s: State, now: Instant)
    requires NothingStuck(s, now)
    ensures RecoverState(s, now) == s && Report(s, now) == RecoveryReport(0, 0, 0)
  {
    assert ExpireAll(s, now).entries == s.entries;
    assert RequeueAll(s, now).entries == s.entries;
    assert RedispatchAll(s, now).entries == s.entries;
    assert ExpiredIds(s, now) == {} && DueIds(s, now) == {} && ForgottenIds(s, now) == {};
  }

  /** A second scan at the same instant changes nothing and reports zeros. */
  lemma RecoverTwice(s: State, now: Instant)
    requires Inv(s)
    ensures RecoverState(RecoverState(s, now), now) == RecoverState(s, now)
    ensures Report(RecoverState(s, now), now) == RecoveryReport(0, 0, 0)
  {
    RecoverLeavesNothingStuck(s, now);
    QuietScanChangesNothing(RecoverState(s, now), now);
  }

  // ----- submission -----

  /** Resubmitting creates nothing until the job that occupies the key ends without success. */
  lemma ResubmitReturnsTheSameJob(s: State, steps: seq<Step>, owner: Owner, kind: Kind, key: string,
                                  registry: set<Kind>, now: Instant, id: JobId)
    requires Inv(s) && id in s.entries && id in Run(s, steps).entries
    requires OccupiesKey(s.entries[id], owner, kind, key)
    ensures Run(s, steps).entries[id].job.status.HoldsKey() ==>
              && SubmitState(Run(s, steps), owner, kind, key, registry, now) == Run(s, steps)
              && forall other :: other in Run(s, steps).entries && OccupiesKey(Run(s, steps).entries[other], owner, kind, key)
                   ==> other == id
  {
    RunEvolves(s, steps, id);
    RunKeepsInv(s, steps);
  }

  // ----- outbox backoff -----

  lemma {:induction false} Power2Grows(n: nat)
    ensures Power2(n) >= n + 1
    ensures Power2(n + 1) == 2 * Power2(n)
  {
    if n > 0 {
      Power2Grows(n - 1);
    }
  }

  /** The delay doubles from ten seconds until it reaches ten minutes, and stays there. */
  lemma OutboxBackoffDoublesToTheCap(attempts: nat)
    requires attempts >= 1
    ensures OutboxBackoff(1) == 10 * SECOND
    ensures 10 * SECOND <= OutboxBackoff(attempts) <= 10 * MINUTE
    ensures OutboxBackoff(attempts + 1) == Min(2 * OutboxBackoff(attempts), 10 * MINUTE)
  {
    Power2Grows(attempts - 1);
  }
}
