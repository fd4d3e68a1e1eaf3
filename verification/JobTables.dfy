/**
 The job modules in their own form: methods that update rows in place, one method per write
 transaction, and run_job as a sequence of transactions with everybody else's steps in between.
 Each method is tied to the step function of JobModel, so the theorems about runs are about them.
 */
module JobTables {
  import opened Prelude
  import opened JobModel
  import opened JobInvariant
  import opened JobTheorems

  /** An exception that reaches run_job. */
  datatype Failure =
    | JobInterrupted
    | InputStale
    | RetryableJobError
    | BusinessError(inputStale: bool, retryable: bool)
    | DatabaseError(busy: bool)
    | UnexpectedError

  /** What a handler does before it returns or raises. */
  datatype Action = Checkpoint | StageCompleted

  datatype CommitCallback = Returns(outcome: Outcome) | Raises(failure: Failure)

  datatype HandlerEnd = Commits(callback: CommitCallback) | Fails(failure: Failure)

  datatype CommitResult = Committed | NotCommitted | RolledBack(failure: Failure)

  /** A due outbox row as the dispatcher read it. */
  datatype DueRow = DueRow(id: JobId, row: nat, attempts: nat)

  ghost predicate IsDue(s: State, r: DueRow, now: Instant) {
    && RowOf(s, r).Some?
    && RowOf(s, r).value.status == Pending
    && RowOf(s, r).value.nextAttemptAt <= now
  }

  /** No business rows of this job were written under this token. */
  ghost predicate WroteNothing(s: State, id: JobId, token: Token) {
    id in s.entries ==> forall i :: 0 <= i < |s.entries[id].effects| ==> s.entries[id].effects[i].token != token
  }

  ghost predicate CommitsUnder(step: Step, id: JobId, token: Token) {
    step.Commit? && step.id == id && step.token == token
  }

  /** The state a worker relies on between its transactions, whatever the others do. */
  ghost predicate Attempting(s: State, id: JobId, token: Token) {
    Inv(s) && id in s.entries && token < s.supply && WroteNothing(s, id, token)
  }

  lemma StepKeepsAttempting(s: State, step: Step, id: JobId, token: Token)
    requires Attempting(s, id, token) && !CommitsUnder(step, id, token)
    ensures Attempting(Apply(s, step), id, token)
  {
    StepMoves(s, step, id);
    StepKeepsInv(s, step);
    OnlyTheHolderCommits(s, step, id);
  }

  lemma {:induction false} RunKeepsAttempting(s: State, steps: seq<Step>, id: JobId, token: Token)
    requires Attempting(s, id, token) && forall i :: 0 <= i < |steps| ==> !CommitsUnder(steps[i], id, token)
    ensures Attempting(Run(s, steps), id, token)
    decreases |steps|
  {
    if steps != [] {
      StepKeepsAttempting(s, steps[0], id, token);
      RunKeepsAttempting(Apply(s, steps[0]), steps[1..], id, token);
    }
  }

  class Database {
    var entries: map<JobId, Entry>
    var supply: nat

    function View(): State
      reads this
    {
      State(entries, supply)
    }

    constructor ()
      ensures View() == EMPTY
    {
      entries, supply := map[], 0;
    }

    method NewId() returns (id: nat)
      modifies this`supply
      ensures id == old(supply) && supply == old(supply) + 1
    {
      id := supply;
      supply := supply + 1;
    }

    // ----- the kernel -----

    /** UPDATE jobs SET values, revision + 1, updated_at WHERE id AND where; true iff one row matched. */
    method Transition(id: JobId, where: Job -> bool, values: Job -> Job, now: Instant) returns (changed: bool)
      modifies this`entries
      ensures changed <==> id in old(entries) && where(old(entries)[id].job)
      ensures changed ==> entries == old(entries)[id := old(entries)[id].(job := Touch(values(old(entries)[id].job), now))]
      ensures !changed ==> entries == old(entries)
    {
      changed := id in entries && where(entries[id].job);
      if changed {
        entries := entries[id := entries[id].(job := Touch(values(entries[id].job), now))];
      }
    }

    method AppendTo(id: JobId, kind: EventType, now: Instant)
      requires id in entries
      modifies this`entries
      ensures entries == old(entries)[id := old(entries)[id].(log :=
                AppendEvent(old(entries)[id].log, old(entries)[id].job.owner, kind, now))]
    {
      var e := entries[id];
      var last := MaxSequence(e.log);
      entries := entries[id := e.(log := e.log + [Event(last + 1, e.job.owner, kind, now)])];
    }

    method AddOutbox(id: JobId, now: Instant)
      requires id in entries
      modifies this`entries
      ensures entries == old(entries)[id := old(entries)[id].(outbox := old(entries)[id].outbox + [NewOutboxRow(now)])]
    {
      var e := entries[id];
      entries := entries[id := e.(outbox := e.outbox + [OutboxRow(Pending, 0, now, now, None)])];
    }

    /** The one rule for an attempt that did not commit. `attempts` and `cancelRequested` were read from
        the row in the same transaction. */
    method SettleAttempt(id: JobId, attempts: nat, token: Token, cancelRequested: bool, retryable: bool, now: Instant)
      returns (target: Option<Status>)
      requires id in entries ==>
                 attempts == entries[id].job.attempts && cancelRequested == entries[id].job.cancelRequestedAt.Some?
      modifies this`entries
      ensures View() == Apply(old(View()), Settle(id, token, retryable, now))
      ensures id in old(entries) && HoldsLease(old(entries)[id].job, token)
              ==> target == Some(SettleTarget(old(entries)[id].job, retryable))
      ensures !(id in old(entries) && HoldsLease(old(entries)[id].job, token)) ==> target == None
    {
      var status, event, values;
      if cancelRequested {
        status, event := Cancelled, EvCancelled;
        values := (job: Job) => Release(job).(status := Cancelled, finishedAt := Some(now));
      } else if retryable && attempts < MAX_ATTEMPTS {
        status, event := RetryWait, EvRetrying;
        values := (job: Job) => Release(job).(status := RetryWait, nextAttemptAt := Some(now + RetryBackoff(attempts)));
      } else {
        status, event := Failed, EvFailed;
        values := (job: Job) => Release(job).(status := Failed, finishedAt := Some(now));
      }
      var changed := Transition(id, (job: Job) => HoldsLease(job, token), values, now);
      if !changed {
        assert id in entries ==> entries[id := entries[id]] == entries;
        return None;
      }
      AppendTo(id, event, now);
      return Some(status);
    }

    // ----- submission -----

    method SubmitJob(owner: Owner, kind: Kind, key: string, registry: set<Kind>, now: Instant)
      returns (r: Result<(JobId, bool), SubmitError>)
      modifies this
      ensures View() == Apply(old(View()), Submit(owner, kind, key, registry, now))
      ensures r == Err(UnknownKind) <==> kind !in registry
      ensures r == Err(BadDedupeKey) <==> kind in registry && !(0 < |key| <= MAX_DEDUPE_KEY_LENGTH)
      ensures r.Ok? ==> r.value.0 in entries && OccupiesKey(entries[r.value.0], owner, kind, key)
      ensures r.Ok? ==> (r.value.1 <==> !KeyTaken(old(View()), owner, kind, key))
      ensures r.Ok? && r.value.1 ==> r.value.0 == old(supply)
    {
      if kind !in registry {
        return Err(UnknownKind);
      }
      if !(0 < |key| <= MAX_DEDUPE_KEY_LENGTH) {
        return Err(BadDedupeKey);
      }
      var holding := set id | id in entries && OccupiesKey(entries[id], owner, kind, key);
      if holding != {} {
        var existing :| existing in holding;
        assert KeyTaken(View(), owner, kind, key);
        return Ok((existing, false));
      }
      assert forall id :: id in entries && OccupiesKey(entries[id], owner, kind, key) ==> id in holding;
      r := InsertJob(owner, kind, key, now);
    }

    method InsertJob(owner: Owner, kind: Kind, key: string, now: Instant) returns (r: Result<(JobId, bool),
        SubmitError>)
      modifies this
      ensures View() == State(old(entries)[old(supply) := NewEntry(owner, kind, key, now)], old(supply) + 1)
      ensures r == Ok((old(supply), true))
    {
      var id := NewId();
      var job := Job(owner, kind, key, Queued, 0, None, None, None, None, None, 1, now, now, None);
      entries := entries[id := Entry(job, [], [], [])];
      AddOutbox(id, now);
      AppendTo(id, EvQueued, now);
      assert entries[id] == NewEntry(owner, kind, key, now);
      return Ok((id, true));
    }

    // ----- worker transactions -----

    /** A run draws its token, then tries to take the job. */
    method ClaimJob(id: JobId, now: Instant, lease: int) returns (token: Token, claimed: bool)
      modifies this
      ensures View() == Apply(old(View()), Claim(id, now, lease))
      ensures token == old(supply)
      ensures claimed <==> id in old(entries) && old(entries)[id].job.status == Queued
      ensures claimed ==> id in entries && HoldsLease(entries[id].job, token)
    {
      token := NewId();
      claimed := Transition(id, (job: Job) => job.status == Queued,
        (job: Job) => job.(status := Running, leaseToken := Some(token), leaseUntil := Some(now + lease),
                    attempts := job.attempts + 1, nextAttemptAt := None), now);
      if claimed {
        AppendTo(id, EvStarted, now);
      } else {
        assert id in entries ==> entries[id := entries[id]] == entries;
      }
    }

    method RenewLease(id: JobId, token: Token, now: Instant, lease: int) returns (renewed: bool)
      modifies this`entries
      ensures View() == Apply(old(View()), Renew(id, token, now, lease))
      ensures renewed <==> id in old(entries) && HoldsLease(old(entries)[id].job, token)
    {
      renewed := id in entries && HoldsLease(entries[id].job, token);
      if renewed {
        entries := entries[id := entries[id].(job := entries[id].job.(leaseUntil := Some(now + lease)))];
      } else {
        assert id in entries ==> entries[id := entries[id]] == entries;
      }
    }

    /** False where the source raises JobInterrupted. */
    method CompleteStage(id: JobId, token: Token, now: Instant) returns (held: bool)
      modifies this`entries
      ensures View() == Apply(old(View()), Stage(id, token, now))
      ensures held <==> id in old(entries) && HoldsLease(old(entries)[id].job, token)
    {
      held := id in entries && HoldsLease(entries[id].job, token);
      if held {
        AppendTo(id, EvStageCompleted, now);
      } else {
        assert id in entries ==> entries[id := entries[id]] == entries;
      }
    }

    /** A read transaction: may the attempt go on? */
    method PassesCheckpoint(id: JobId, token: Token) returns (held: bool, pass: bool)
      ensures held <==> id in entries && HoldsLease(entries[id].job, token)
      ensures pass <==> id in entries && MayFinish(entries[id].job, token)
    {
      held := id in entries && entries[id].job.status == Running && entries[id].job.leaseToken == Some(token);
      pass := held && entries[id].job.cancelRequestedAt.None?;
    }

    /** The conditional update first, then the callback inside the same transaction. If the callback
        raises, the whole transaction is rolled back. */
    method TryCommit(id: JobId, token: Token, callback: CommitCallback, now: Instant) returns (r: CommitResult)
      modifies this`entries
      ensures r.NotCommitted? <==> !(id in old(entries) && MayFinish(old(entries)[id].job, token))
      ensures r.Committed? ==> callback.Returns? && View() == Apply(old(View()), Commit(id, token, callback.outcome, now))
      ensures r.Committed? ==> id in entries && entries[id].job.status == Succeeded
                               && |entries[id].effects| > 0 && entries[id].effects[|entries[id].effects| - 1].token == token
      ensures !r.Committed? ==> View() == old(View())
      ensures r.RolledBack? ==> callback == Raises(r.failure)
    {
      var before := entries;
      var changed := Transition(id, (job: Job) => MayFinish(job, token),
        (job: Job) => Release(job).(status := Succeeded, finishedAt := Some(now)), now);
      if !changed {
        return NotCommitted;
      }
      match callback
      case Raises(failure) =>
        entries := before;
        return RolledBack(failure);
      case Returns(outcome) =>
        PublishResults(id, token, outcome, now);
        return Committed;
    }

    /** The callback's business rows, the result references and the closing events. */
    method PublishResults(id: JobId, token: Token, outcome: Outcome, now: Instant)
      requires id in entries
      modifies this`entries
      ensures entries == old(entries)[id :=
                Entry(old(entries)[id].job.(resultRefs := Some(outcome.refs)),
                      CompletionLog(old(entries)[id].log, old(entries)[id].job.owner, outcome.awaitingConfirmation, now),
                      old(entries)[id].outbox,
                      old(entries)[id].effects + [Effect(token, outcome.refs)])]
    {
      var e := entries[id];
      entries := entries[id := e.(effects := e.effects + [Effect(token, outcome.refs)],
                                  job := e.job.(resultRefs := Some(outcome.refs)))];
      if outcome.awaitingConfirmation {
        AppendTo(id, EvAwaitingConfirmation, now);
      }
      AppendTo(id, EvCompleted, now);
    }

    /** Not committed: cancelled, or interrupted and retryable, or the lease is gone and nothing is done. */
    method SettleUnfinished(id: JobId, token: Token, now: Instant) returns (r: Option<Status>)
      requires id in entries
      modifies this`entries
      ensures View() == Apply(old(View()), Settle(id, token, true, now))
      ensures HoldsLease(old(entries)[id].job, token) ==> r == Some(SettleTarget(old(entries)[id].job, true))
      ensures !HoldsLease(old(entries)[id].job, token) ==> r == None
    {
      var job := entries[id].job;
      if job.status != Running || job.leaseToken != Some(token) {
        assert entries[id := entries[id]] == entries;
        return None;
      }
      r := SettleAttempt(id, job.attempts, token, job.cancelRequestedAt.Some?, true, now);
    }

    method SettleError(id: JobId, token: Token, retryable: bool, now: Instant) returns (r: Option<Status>)
      requires id in entries
      modifies this`entries
      ensures View() == Apply(old(View()), Settle(id, token, retryable, now))
      ensures HoldsLease(old(entries)[id].job, token) ==> r == Some(SettleTarget(old(entries)[id].job, retryable))
      ensures !HoldsLease(old(entries)[id].job, token) ==> r == None
    {
      var job := entries[id].job;
      r := SettleAttempt(id, job.attempts, token, job.cancelRequestedAt.Some?, retryable, now);
    }

    method MarkStale(id: JobId, token: Token, now: Instant) returns (stale: bool)
      modifies this`entries
      ensures View() == Apply(old(View()), FinishStale(id, token, now))
      ensures stale <==> id in old(entries) && MayFinish(old(entries)[id].job, token)
    {
      stale := Transition(id, (job: Job) => MayFinish(job, token),
        (job: Job) => Release(job).(status := Stale, finishedAt := Some(now)), now);
      if stale {
        AppendTo(id, EvStale, now);
      } else {
        assert id in entries ==> entries[id := entries[id]] == entries;
      }
    }

    // ----- users -----

    method RequestCancellation(owner: Owner, id: JobId, expectedRevision: nat, now: Instant) returns (r: CancelResult)
      modifies this`entries
      ensures r == CancelOutcome(old(View()), owner, id, expectedRevision)
      ensures View() == Apply(old(View()), Cancel(owner, id, expectedRevision, now))
    {
      if id !in entries || entries[id].job.owner != owner {
        return NotFound;
      }
      var job := entries[id].job;
      if job.status.Terminal() || (job.status == Running && job.cancelRequestedAt.Some?) {
        return Unchanged;
      }
      if job.revision != expectedRevision {
        return Conflict(job.revision);
      }
      var asRead := (j: Job) => j.status == job.status && j.revision == expectedRevision;
      var changed;
      if job.status == Running {
        changed := Transition(id, asRead, (j: Job) => j.(cancelRequestedAt := Some(now)), now);
      } else {
        changed := Transition(id, asRead,
          (j: Job) => j.(status := Cancelled, cancelRequestedAt := Some(now), nextAttemptAt := None,
              finishedAt := Some(now)), now);
        AppendTo(id, EvCancelled, now);
      }
      assert changed;
      return Requested;
    }

    // ----- the recovery scan -----

    /** The scan, in any reachable state: afterwards nothing is left for another one at this instant. */
    method RecoverScan(now: Instant) returns (report: RecoveryReport)
      requires Inv(View())
      modifies this`entries
      ensures View() == Apply(old(View()), Recover(now))
      ensures report == Report(old(View()), now)
      ensures Inv(View()) && NothingStuck(View(), now)
    {
      LeasesAlwaysCarryTokens(View());
      StepKeepsInv(View(), Recover(now));
      RecoverLeavesNothingStuck(View(), now);
      report := RecoverPhases(now);
    }

    method RecoverPhases(now: Instant) returns (report: RecoveryReport)
      requires LeasesCarryTokens(View())
      modifies this`entries
      ensures View() == Apply(old(View()), Recover(now))
      ensures report == Report(old(View()), now)
    {
      var leaseExpired := SettleExpired(now);
      var requeued := RequeueDue(now);
      var redispatched := RedispatchForgotten(now);
      return RecoveryReport(leaseExpired, requeued, redispatched);
    }

    method SettleExpired(now: Instant) returns (count: nat)
      requires LeasesCarryTokens(View())
      modifies this`entries
      ensures View() == ExpireAll(old(View()), now)
      ensures count == |ExpiredIds(old(View()), now)|
    {
      var expired := ExpiredIds(View(), now);
      ghost var after := ExpireAll(View(), now).entries;
      var todo := expired;
      count := 0;
      while todo != {}
        invariant todo <= expired && count + |todo| == |expired|
        invariant PartlySwept(entries, old(entries), after, todo)
      {
        var id :| id in todo;
        SweepStep(entries, old(entries), after, todo, id);
        var settled := SettleExpiredOne(id, now);
        if settled {
          count := count + 1;
        }
        todo := todo - {id};
      }
      SweepEnd(entries, old(entries), after);
    }

    method SettleExpiredOne(id: JobId, now: Instant) returns (settled: bool)
      requires id in entries && LeaseExpired(entries[id], now) && entries[id].job.leaseToken.Some?
      modifies this`entries
      ensures entries == old(entries)[id := ExpireEntry(old(entries)[id], now)]
      ensures settled
    {
      var job := entries[id].job;
      var target := SettleAttempt(id, job.attempts, job.leaseToken.value, job.cancelRequestedAt.Some?, true, now);
      settled := target.Some?;
    }

    method RequeueDue(now: Instant) returns (count: nat)
      modifies this`entries
      ensures View() == RequeueAll(old(View()), now)
      ensures count == |DueIds(old(View()), now)|
    {
      var due := DueIds(View(), now);
      ghost var after := RequeueAll(View(), now).entries;
      var todo := due;
      count := 0;
      while todo != {}
        invariant todo <= due && count + |todo| == |due|
        invariant PartlySwept(entries, old(entries), after, todo)
      {
        var id :| id in todo;
        SweepStep(entries, old(entries), after, todo, id);
        var requeued := RequeueOne(id, now);
        if requeued {
          count := count + 1;
        }
        todo := todo - {id};
      }
      SweepEnd(entries, old(entries), after);
    }

    method RequeueOne(id: JobId, now: Instant) returns (requeued: bool)
      requires id in entries && RetryDue(entries[id], now)
      modifies this`entries
      ensures entries == old(entries)[id := RequeueEntry(old(entries)[id], now)]
      ensures requeued
    {
      requeued := Transition(id, (job: Job) => job.status == RetryWait,
        (job: Job) => job.(status := Queued, nextAttemptAt := None), now);
      if requeued {
        AddOutbox(id, now);
        AppendTo(id, EvQueued, now);
      }
    }

    method RedispatchForgotten(now: Instant) returns (count: nat)
      modifies this`entries
      ensures View() == RedispatchAll(old(View()), now)
      ensures count == |ForgottenIds(old(View()), now)|
    {
      var stuck := ForgottenIds(View(), now);
      ghost var after := RedispatchAll(View(), now).entries;
      var todo := stuck;
      count := |stuck|;
      while todo != {}
        invariant todo <= stuck
        invariant PartlySwept(entries, old(entries), after, todo)
      {
        var id :| id in todo;
        SweepStep(entries, old(entries), after, todo, id);
        AddOutbox(id, now);
        todo := todo - {id};
      }
      assert entries == RedispatchAll(old(View()), now).entries;
    }

    // ----- the outbox dispatcher -----

    method WriteBack(r: DueRow, delivered: bool, now: Instant)
      modifies this`entries
      ensures View() == Apply(old(View()), MarkOutbox(r.id, r.row, delivered, r.attempts, now))
    {
      if r.id in entries {
        var e := entries[r.id];
        if r.row < |e.outbox| && e.outbox[r.row].status == Pending {
          var row := e.outbox[r.row];
          row := if delivered then row.(status := Sent, sentAt := Some(now), attempts := row.attempts + 1)
                 else row.(attempts := row.attempts + 1, nextAttemptAt := now + OutboxBackoff(r.attempts + 1));
          entries := entries[r.id := e.(outbox := e.outbox[r.row := row])];
        } else {
          assert entries[r.id := e] == entries;
        }
      }
    }

    /** Publishes a batch of rows as they were read and writes each result back, while `others` do what they
        like in between. `publishes(i)` says whether the queue took the i-th, `written(i)` whether the store
        then took the write-back. The tables go through exactly these transactions, and a row that was
        published and written back is sent, whoever else dispatched it. */
    method DispatchOutbox(rows: seq<DueRow>, publishes: nat -> bool, written: nat -> bool, others: nat -> seq<Step>,
        now: Instant)
      returns (sent: nat)
      requires Inv(View()) && RowsThere(View(), rows)
      modifies this
      ensures Inv(View()) && View() == Run(old(View()), Transactions(rows, publishes, written, others, now, |rows|))
      ensures sent == |set i: nat | i < |rows| && publishes(i)|
      ensures SentSoFar(View(), rows, publishes, written, |rows|)
    {
      sent := 0;
      ghost var start := View();
      for n := 0 to |rows|
        invariant Inv(View()) && View() == Run(start, Transactions(rows, publishes, written, others, now, n))
        invariant sent == Successes(publishes, n)
        invariant RowsThere(View(), rows) && SentSoFar(View(), rows, publishes, written, n)
      {
        var delivered := DispatchOne(start, rows, publishes, written, others, now, n);
        sent := sent + if delivered then 1 else 0;
      }
      SuccessesAreTaken(publishes, |rows|);
    }

    /** Publishing one row, whatever happens meanwhile, and writing the result back if the store is there. */
    method DispatchOne(ghost start: State, rows: seq<DueRow>, publishes: nat -> bool, written: nat -> bool,
        others: nat -> seq<Step>, now: Instant, n: nat)
      returns (delivered: bool)
      requires n < |rows| && Inv(View()) && View() == Run(start, Transactions(rows, publishes, written, others, now, n))
      requires RowsThere(View(), rows) && SentSoFar(View(), rows, publishes, written, n)
      modifies this
      ensures delivered == publishes(n)
      ensures Inv(View()) && View() == Run(start, Transactions(rows, publishes, written, others, now, n + 1))
      ensures RowsThere(View(), rows) && SentSoFar(View(), rows, publishes, written, n + 1)
    {
      ghost var before := View();
      OneRowStates(start, before, rows, publishes, written, others, now, n);
      OneRowKeeps(before, rows, publishes, written, others, now, n);
      var after := Run(View(), others(n));
      entries, supply := after.entries, after.supply;
      delivered := publishes(n);
      if written(n) {
        WriteBack(rows[n], delivered, now);
      }
    }
  }

  /** A scan phase under way: the rows in `todo` are still to be moved from `before` to `after`. */
  ghost predicate PartlySwept(rows: map<JobId, Entry>, before: map<JobId, Entry>, after: map<JobId, Entry>,
      todo: set<JobId>) {
    rows.Keys == before.Keys == after.Keys
    && forall id :: id in rows ==> rows[id] == if id in todo then before[id] else after[id]
  }

  lemma SweepStep(rows: map<JobId, Entry>, before: map<JobId, Entry>, after: map<JobId, Entry>, todo: set<JobId>,
      id: JobId)
    requires PartlySwept(rows, before, after, todo) && id in todo && id in rows
    ensures rows[id] == before[id]
    ensures PartlySwept(rows[id := after[id]], before, after, todo - {id})
  {
  }

  lemma SweepEnd(rows: map<JobId, Entry>, before: map<JobId, Entry>, after: map<JobId, Entry>)
    requires PartlySwept(rows, before, after, {})
    ensures rows == after
  {
  }

  ghost predicate LeasesCarryTokens(s: State) {
    forall id :: id in s.entries && s.entries[id].job.status == Running ==> s.entries[id].job.leaseToken.Some?
  }

  /** As in every reachable state. */
  lemma LeasesAlwaysCarryTokens(s: State)
    requires Inv(s)
    ensures LeasesCarryTokens(s)
  {
  }

  /** How many of the first `n` publish attempts succeeded. */
  function Successes(publishes: nat -> bool, n: nat): nat {
    if n == 0 then 0 else Successes(publishes, n - 1) + if publishes(n - 1) then 1 else 0
  }

  /** In other words, how many of the first rows the queue took. */
  lemma {:induction false} SuccessesAreTaken(publishes: nat -> bool, n: nat)
    ensures Successes(publishes, n) == |set i: nat | i < n && publishes(i)|
  {
    if n > 0 {
      SuccessesAreTaken(publishes, n - 1);
      var before, now := set i: nat | i < n - 1 && publishes(i), set i: nat | i < n && publishes(i);
      assert now == if publishes(n - 1) then before + {n - 1} else before;
    }
  }

  ghost predicate SameRow(a: DueRow, b: DueRow) {
    a.id == b.id && a.row == b.row
  }

  ghost function RowOf(s: State, r: DueRow): Option<OutboxRow> {
    if r.id in s.entries && r.row < |s.entries[r.id].outbox| then Some(s.entries[r.id].outbox[r.row]) else None
  }

  /** The row was written back: sent exactly if published, and in no case due again at once. */
  ghost predicate Dispatched(s: State, r: DueRow, delivered: bool, now: Instant) {
    && RowOf(s, r).Some?
    && (RowOf(s, r).value.status == Sent <==> delivered)
    && (RowOf(s, r).value.status == Pending ==> RowOf(s, r).value.nextAttemptAt > now)
  }

  ghost predicate SameJobs(s: State, s': State) {
    s'.entries.Keys == s.entries.Keys
    && forall id :: id in s.entries ==> s'.entries[id].job == s.entries[id].job && s'.entries[id].log == s.entries[id].log
  }

  /** The transactions of a batch, with everybody else's before each write-back. */
  function Transactions(rows: seq<DueRow>, publishes: nat -> bool, written: nat -> bool, others: nat -> seq<Step>,
      now: Instant, n: nat): seq<Step>
    requires n <= |rows|
  {
    if n == 0 then []
    else Transactions(rows, publishes, written, others, now, n - 1)
         + RowTransactions(rows[n - 1], publishes(n - 1), written(n - 1), others(n - 1), now)
  }

  function RowTransactions(r: DueRow, delivered: bool, written: bool, others: seq<Step>, now: Instant): seq<Step> {
    others + if written then [MarkOutbox(r.id, r.row, delivered, r.attempts, now)] else []
  }

  ghost predicate IsSent(s: State, r: DueRow) {
    RowOf(s, r).Some? && RowOf(s, r).value.status == Sent
  }

  lemma {:induction false} RunConcat(s: State, a: seq<Step>, b: seq<Step>)
    ensures Run(s, a + b) == Run(Run(s, a), b)
    decreases |a|
  {
    if a == [] {
      assert a + b == b;
    } else {
      assert (a + b)[1..] == a[1..] + b;
      RunConcat(Apply(s, a[0]), a[1..], b);
    }
  }

  /** Outbox rows are never deleted, and what was sent stays sent. */
  lemma RowsStay(s: State, step: Step, r: DueRow)
    requires Inv(s) && RowOf(s, r).Some?
    ensures RowOf(Apply(s, step), r).Some? && (IsSent(s, r) ==> IsSent(Apply(s, step), r))
  {
    StepAt(s, step, r.id);
    EntryKeepsRow(s, step, r.id, r.row);
  }

  lemma EntryKeepsRow(s: State, step: Step, id: JobId, row: nat)
    requires id in s.entries && row < |s.entries[id].outbox|
    ensures row < |EntryAfter(s, step, id).outbox|
    ensures s.entries[id].outbox[row].status == Sent ==> EntryAfter(s, step, id).outbox[row].status == Sent
  {
  }

  lemma {:induction false} RowsStayOverRuns(s: State, steps: seq<Step>, r: DueRow)
    requires Inv(s) && RowOf(s, r).Some?
    ensures RowOf(Run(s, steps), r).Some? && (IsSent(s, r) ==> IsSent(Run(s, steps), r))
    decreases |steps|
  {
    if steps != [] {
      RowsStay(s, steps[0], r);
      StepKeepsInv(s, steps[0]);
      RowsStayOverRuns(Apply(s, steps[0]), steps[1..], r);
    }
  }

  /** A published row that is written back is sent, whether it was pending still or sent by somebody else. */
  lemma PublishedIsSent(s: State, r: DueRow, now: Instant)
    requires RowOf(s, r).Some?
    ensures IsSent(Apply(s, MarkOutbox(r.id, r.row, true, r.attempts, now)), r)
  {
  }

  ghost predicate RowsThere(s: State, rows: seq<DueRow>) {
    forall i :: 0 <= i < |rows| ==> RowOf(s, rows[i]).Some?
  }

  /** Of the first `n` rows, those published and written back are sent. */
  ghost predicate SentSoFar(s: State, rows: seq<DueRow>, publishes: nat -> bool, written: nat -> bool, n: nat)
    requires n <= |rows|
  {
    forall i :: 0 <= i < n && publishes(i) && written(i) ==> IsSent(s, rows[i])
  }

  /** The table after the n-th row's transactions. */
  function AfterRow(s: State, r: DueRow, delivered: bool, written: bool, others: seq<Step>, now: Instant): State {
    if written then Apply(Run(s, others), MarkOutbox(r.id, r.row, delivered, r.attempts, now)) else Run(s, others)
  }

  lemma AfterRowIs(s: State, r: DueRow, delivered: bool, written: bool, others: seq<Step>, now: Instant)
    ensures AfterRow(s, r, delivered, written, others, now) == Run(s, RowTransactions(r, delivered, written, others, now))
  {
    var mark := MarkOutbox(r.id, r.row, delivered, r.attempts, now);
    if written {
      RunConcat(s, others, [mark]);
      RunOne(Run(s, others), mark);
    } else {
      assert others + [] == others;
    }
  }

  lemma RunOne(s: State, step: Step)
    ensures Run(s, [step]) == Apply(s, step)
  {
    assert [step][1..] == [];
  }

  lemma OneRowStates(start: State, s: State, rows: seq<DueRow>, publishes: nat -> bool, written: nat -> bool,
      others: nat -> seq<Step>, now: Instant, n: nat)
    requires n < |rows| && s == Run(start, Transactions(rows, publishes, written, others, now, n))
    ensures AfterRow(s, rows[n], publishes(n), written(n), others(n), now)
            == Run(start, Transactions(rows, publishes, written, others, now, n + 1))
  {
    RunConcat(start, Transactions(rows, publishes, written, others, now, n), RowTransactions(rows[n], publishes(n),
        written(n), others(n), now));
    AfterRowIs(s, rows[n], publishes(n), written(n), others(n), now);
  }

  lemma OneRowKeeps(s: State, rows: seq<DueRow>, publishes: nat -> bool, written: nat -> bool,
      others: nat -> seq<Step>, now: Instant, n: nat)
    requires n < |rows| && Inv(s) && RowsThere(s, rows) && SentSoFar(s, rows, publishes, written, n)
    ensures var s' := AfterRow(s, rows[n], publishes(n), written(n), others(n), now);
            Inv(s') && RowsThere(s', rows) && SentSoFar(s', rows, publishes, written, n + 1)
  {
    var one := RowTransactions(rows[n], publishes(n), written(n), others(n), now);
    AfterRowIs(s, rows[n], publishes(n), written(n), others(n), now);
    RunKeepsInv(s, one);
    AllRowsStay(s, one, rows);
    LastRowSent(s, rows[n], publishes(n), written(n), others(n), now);
    SentGrows(s, Run(s, one), rows, publishes, written, n);
  }

  lemma LastRowSent(s: State, r: DueRow, delivered: bool, written: bool, others: seq<Step>, now: Instant)
    requires Inv(s) && RowOf(s, r).Some?
    ensures delivered && written ==> IsSent(AfterRow(s, r, delivered, written, others, now), r)
  {
    RowsStayOverRuns(s, others, r);
    PublishedIsSent(Run(s, others), r, now);
  }

  lemma SentGrows(s: State, s': State, rows: seq<DueRow>, publishes: nat -> bool, written: nat -> bool, n: nat)
    requires n < |rows| && SentSoFar(s, rows, publishes, written, n)
    requires forall i :: 0 <= i < |rows| && IsSent(s, rows[i]) ==> IsSent(s', rows[i])
    requires publishes(n) && written(n) ==> IsSent(s', rows[n])
    ensures SentSoFar(s', rows, publishes, written, n + 1)
  {
  }

  lemma AllRowsStay(s: State, steps: seq<Step>, rows: seq<DueRow>)
    requires Inv(s) && RowsThere(s, rows)
    ensures RowsThere(Run(s, steps), rows)
    ensures forall i :: 0 <= i < |rows| && IsSent(s, rows[i]) ==> IsSent(Run(s, steps), rows[i])
  {
    forall i | 0 <= i < |rows|
      ensures RowOf(Run(s, steps), rows[i]).Some? && (IsSent(s, rows[i]) ==> IsSent(Run(s, steps), rows[i]))
    {
      RowsStayOverRuns(s, steps, rows[i]);
    }
  }

  predicate Always(i: nat) {
    true
  }

  function Nobody(i: nat): seq<Step> {
    []
  }

  /** How far an undisturbed batch has come. */
  ghost predicate QuietProgress(start: State, s: State, rows: seq<DueRow>, publishes: nat -> bool, now: Instant, n: nat)
    requires n <= |rows|
  {
    && SameJobs(start, s)
    && (forall i :: 0 <= i < n ==> Dispatched(s, rows[i], publishes(i), now))
    && (forall i :: n <= i < |rows| ==> IsDue(s, rows[i], now))
  }

  /** The table after `n` rows of an undisturbed batch. */
  function QuietState(s: State, rows: seq<DueRow>, publishes: nat -> bool, now: Instant, n: nat): State
    requires n <= |rows|
  {
    if n == 0 then s
    else AfterRow(QuietState(s, rows, publishes, now, n - 1), rows[n - 1], publishes(n - 1), Always(n - 1), Nobody(n - 1), now)
  }

  lemma {:induction false} QuietStateIs(s: State, rows: seq<DueRow>, publishes: nat -> bool, now: Instant, n: nat)
    requires n <= |rows|
    ensures QuietState(s, rows, publishes, now, n) == Run(s, Transactions(rows, publishes, Always, Nobody, now, n))
  {
    if n > 0 {
      QuietStateIs(s, rows, publishes, now, n - 1);
      OneRowStates(s, QuietState(s, rows, publishes, now, n - 1), rows, publishes, Always, Nobody, now, n - 1);
    }
  }

  /** Distinct rows, all of them due. */
  ghost predicate FreshBatch(s: State, rows: seq<DueRow>, now: Instant) {
    && (forall i :: 0 <= i < |rows| ==> IsDue(s, rows[i], now))
    && (forall i, j :: 0 <= i < j < |rows| ==> !SameRow(rows[i], rows[j]))
  }

  lemma QuietStart(s: State, rows: seq<DueRow>, publishes: nat -> bool, now: Instant)
    requires FreshBatch(s, rows, now)
    ensures QuietSoFar(s, rows, publishes, now, 0)
  {
  }

  ghost predicate QuietSoFar(s: State, rows: seq<DueRow>, publishes: nat -> bool, now: Instant, n: nat)
    requires n <= |rows|
  {
    QuietProgress(s, QuietState(s, rows, publishes, now, n), rows, publishes, now, n)
  }

  lemma {:induction false} QuietStateProgress(s: State, rows: seq<DueRow>, publishes: nat -> bool, now: Instant, n: nat)
    requires n <= |rows| && FreshBatch(s, rows, now)
    ensures QuietSoFar(s, rows, publishes, now, n)
  {
    if n == 0 {
      QuietStart(s, rows, publishes, now);
    } else {
      QuietStateProgress(s, rows, publishes, now, n - 1);
      QuietNext(s, rows, publishes, now, n);
    }
  }

  /** With nobody in between, distinct rows that are due and a store that takes every write-back: each row is
      sent exactly if it was published, none of them is due any more, and no job row or log moved. */
  lemma QuietBatch(s: State, rows: seq<DueRow>, publishes: nat -> bool, now: Instant)
    requires FreshBatch(s, rows, now)
    ensures var s' := Run(s, Transactions(rows, publishes, Always, Nobody, now, |rows|));
            SameJobs(s, s') && forall i :: 0 <= i < |rows| ==> Dispatched(s', rows[i], publishes(i), now)
  {
    QuietStateIs(s, rows, publishes, now, |rows|);
    QuietStateProgress(s, rows, publishes, now, |rows|);
  }

  lemma QuietNext(s: State, rows: seq<DueRow>, publishes: nat -> bool, now: Instant, n: nat)
    requires 0 < n <= |rows| && FreshBatch(s, rows, now)
    requires QuietSoFar(s, rows, publishes, now, n - 1)
    ensures QuietSoFar(s, rows, publishes, now, n)
  {
    QuietStep(s, QuietState(s, rows, publishes, now, n - 1), QuietState(s, rows, publishes, now, n), rows, publishes,
        now, n);
  }

  lemma QuietStep(start: State, s: State, s': State, rows: seq<DueRow>, publishes: nat -> bool, now: Instant, n: nat)
    requires 0 < n <= |rows| && QuietProgress(start, s, rows, publishes, now, n - 1)
    requires FreshBatch(start, rows, now)
    requires s' == AfterRow(s, rows[n - 1], publishes(n - 1), Always(n - 1), Nobody(n - 1), now)
    ensures QuietProgress(start, s', rows, publishes, now, n)
  {
    WriteBackOne(s, rows[n - 1], publishes(n - 1), now);
  }

  lemma WriteBackOne(s: State, r: DueRow, delivered: bool, now: Instant)
    requires IsDue(s, r, now)
    ensures var s' := Apply(s, MarkOutbox(r.id, r.row, delivered, r.attempts, now));
            && Dispatched(s', r, delivered, now) && SameJobs(s, s')
            && forall r' :: !SameRow(r', r) ==> RowOf(s', r') == RowOf(s, r')
  {
    OutboxBackoffDoublesToTheCap(r.attempts + 1);
  }
}
