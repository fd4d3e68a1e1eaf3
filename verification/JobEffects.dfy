/** What each transaction does to a job, in the terms of whoever asked for it. */
module JobEffects {
  import opened Prelude
  import opened JobModel
  import opened JobInvariant
  import opened JobTheorems
  import opened JobLeases

  // ----- stamps -----

  /** The row or the request changed: one revision more and a new time of change. */
  predicate RowMoved(job: Job, job': Job) {
    job'.status != job.status || job'.cancelRequestedAt != job.cancelRequestedAt
  }

  /** What is new carries the owner and the time of the step. */
  ghost predicate Stamped(e: Entry, e': Entry, now: Instant) {
    && (RowMoved(e.job, e'.job) ==> e'.job.revision == e.job.revision + 1 && e'.job.updatedAt == now)
    && (!RowMoved(e.job, e'.job) ==> e'.job.revision == e.job.revision && e'.job.updatedAt == e.job.updatedAt)
    && (forall i :: |e.log| <= i < |e'.log| ==> e'.log[i].createdAt == now && e'.log[i].owner == e.job.owner)
    && (e'.job.finishedAt != e.job.finishedAt ==> e'.job.finishedAt == Some(now))
    && (e'.job.cancelRequestedAt != e.job.cancelRequestedAt ==> e'.job.cancelRequestedAt == Some(now))
  }

  lemma EntryIsStamped(s: State, step: Step, id: JobId)
    requires RowOk(s, id)
    ensures Stamped(s.entries[id], EntryAfter(s, step, id), step.now)
  {
    var e := s.entries[id];
    match step
    case Recover(now) => RecoverIsStamped(e, s.supply, now);
    case Submit(_, _, _, _, _) =>
    case Claim(_, _, _) =>
    case Cancel(_, _, _, _) =>
    case _ => if step.id == id { NamedIsStamped(e, step); }
  }

  lemma NamedIsStamped(e: Entry, step: Step)
    requires !step.Recover? && !step.Submit? && !step.Claim? && !step.Cancel?
    requires forall t :: HoldsLease(e.job, t) ==> e.job.finishedAt == None
    ensures Stamped(e, EntryStep(e, step), step.now)
  {
  }

  lemma RecoverIsStamped(e: Entry, supply: nat, now: Instant)
    requires EntryOk(e, supply)
    ensures Stamped(e, RecoverEntry(e, now), now)
  {
    OneScanPhase(e, supply, now);
    match e.job.status
    case Running => ExpireIsStamped(e, now);
    case RetryWait => RequeueIsStamped(e, now);
    case _ =>
  }

  lemma ExpireIsStamped(e: Entry, now: Instant)
    requires e.job.finishedAt == None
    ensures Stamped(e, ExpireEntry(e, now), now)
  {
  }

  lemma RequeueIsStamped(e: Entry, now: Instant)
    ensures Stamped(e, RequeueEntry(e, now), now)
  {
  }

  /** Whatever a step changes of a job is stamped: the revision and the time of change move exactly when the
      status or the cancel request does, and new events carry the owner and the time. */
  lemma ChangesAreStamped(s: State, step: Step, id: JobId)
    requires Inv(s) && id in s.entries
    ensures id in Apply(s, step).entries && Stamped(s.entries[id], Apply(s, step).entries[id], step.now)
  {
    RowStaysOk(s, step, id);
    StepAt(s, step, id);
    EntryIsStamped(s, step, id);
  }

  // ----- submitting -----

  /** A job of this owner, kind and key that is waiting, running or has succeeded. */
  ghost predicate Holds(s: State, owner: Owner, kind: Kind, key: string, id: JobId) {
    && id in s.entries
    && s.entries[id].job.owner == owner && s.entries[id].job.kind == kind && s.entries[id].job.dedupeKey == key
    && (var status := s.entries[id].job.status; status == Queued || status == Running || status == RetryWait || status == Succeeded)
  }

  /** A job as it is submitted: queued, untouched, its first event logged and a worker called. */
  ghost predicate Newborn(e: Entry, owner: Owner, kind: Kind, key: string, now: Instant) {
    && e.job.owner == owner && e.job.kind == kind && e.job.dedupeKey == key
    && e.job.status == Queued && e.job.attempts == 0 && e.job.revision == 1
    && e.job.createdAt == now && e.job.updatedAt == now
    && e.job.leaseToken == None && e.job.leaseUntil == None && e.job.nextAttemptAt == None
    && e.job.finishedAt == None && e.job.cancelRequestedAt == None && e.job.resultRefs == None
    && e.log == [Event(1, owner, EvQueued, now)] && |e.outbox| == 1 && Wakes(e.outbox[0], now) && e.effects == []
  }

  lemma TakenMeansHeld(s: State, owner: Owner, kind: Kind, key: string)
    ensures KeyTaken(s, owner, kind, key) <==> exists id :: Holds(s, owner, kind, key, id)
  {
    forall id
      ensures id in s.entries && OccupiesKey(s.entries[id], owner, kind, key) <==> Holds(s, owner, kind, key, id)
    {
    }
  }

  lemma NewEntryIsNewborn(owner: Owner, kind: Kind, key: string, now: Instant)
    ensures Newborn(NewEntry(owner, kind, key, now), owner, kind, key, now)
  {
    assert NewEntry(owner, kind, key, now).log == [Event(1, owner, EvQueued, now)];
  }

  /** One more job, and nothing else. */
  ghost predicate Adds(s: State, s': State, owner: Owner, kind: Kind, key: string, now: Instant) {
    && s.supply !in s.entries && s'.supply == s.supply + 1
    && s'.entries.Keys == s.entries.Keys + {s.supply}
    && (forall id :: id in s.entries ==> s'.entries[id] == s.entries[id])
    && Newborn(s'.entries[s.supply], owner, kind, key, now)
  }

  /** Submitting a known kind with a key of 1 to 200 characters that nobody holds creates one job; anything else
      changes nothing. */
  lemma SubmitExactly(s: State, owner: Owner, kind: Kind, key: string, registry: set<Kind>, now: Instant)
    requires Inv(s)
    ensures var s' := Apply(s, Submit(owner, kind, key, registry, now));
            if kind in registry && 1 <= |key| <= 200 && (forall id :: !Holds(s, owner, kind, key, id))
            then Adds(s, s', owner, kind, key, now)
            else s' == s
  {
    TakenMeansHeld(s, owner, kind, key);
    NewEntryIsNewborn(owner, kind, key, now);
  }

  // ----- cancelling -----

  predicate Finished(job: Job) {
    job.status == Succeeded || job.status == Failed || job.status == Cancelled || job.status == Stale
  }

  predicate Found(s: State, owner: Owner, id: JobId) {
    id in s.entries && s.entries[id].job.owner == owner
  }

  /** There is nothing left to cancel: the job is over, or is running and was asked to stop already. */
  predicate NothingToCancel(job: Job) {
    Finished(job) || (job.status == Running && job.cancelRequestedAt.Some?)
  }

  /** Somebody else's job is not found; one with nothing left to cancel stays as it is; an outdated revision is a
      conflict that names the current one; otherwise the request is taken. */
  lemma CancelAnswersExactly(s: State, owner: Owner, id: JobId, expected: nat)
    ensures CancelOutcome(s, owner, id, expected) == CancelResult.NotFound <==> !Found(s, owner, id)
    ensures CancelOutcome(s, owner, id, expected) == CancelResult.Unchanged
            <==> Found(s, owner, id) && NothingToCancel(s.entries[id].job)
    ensures forall revision :: CancelOutcome(s, owner, id, expected) == CancelResult.Conflict(revision)
              <==> (Found(s, owner, id) && !NothingToCancel(s.entries[id].job)
                    && s.entries[id].job.revision == revision && revision != expected)
    ensures CancelOutcome(s, owner, id, expected) == CancelResult.Requested
            <==> Found(s, owner, id) && !NothingToCancel(s.entries[id].job) && s.entries[id].job.revision == expected
  {
  }

  /** A running job only remembers the request; a waiting one is over at once, and its log says so. */
  ghost predicate CancelTaken(e: Entry, e': Entry, now: Instant) {
    && e'.job.cancelRequestedAt == Some(now) && e'.outbox == e.outbox && e'.effects == e.effects
    && (e.job.status == Running ==> e'.job.status == Running && e'.job.leaseToken == e.job.leaseToken
                                    && e'.job.leaseUntil == e.job.leaseUntil && e'.log == e.log)
    && (e.job.status != Running ==> e'.job.status == Cancelled && e'.job.finishedAt == Some(now) && e'.job.nextAttemptAt == None
                                    && |e'.log| == |e.log| + 1 && e.log <= e'.log && e'.log[|e.log|].kind == EvCancelled)
  }

  ghost predicate OnlyCancels(s: State, s': State, id: JobId, now: Instant)
    requires id in s.entries
  {
    && s'.entries.Keys == s.entries.Keys && s'.supply == s.supply
    && CancelTaken(s.entries[id], s'.entries[id], now)
    && forall other :: other in s.entries && other != id ==> s'.entries[other] == s.entries[other]
  }

  lemma CancelExactly(s: State, owner: Owner, id: JobId, expected: nat, now: Instant)
    requires Inv(s)
    ensures var s' := Apply(s, Cancel(owner, id, expected, now));
            if CancelOutcome(s, owner, id, expected) == CancelResult.Requested then OnlyCancels(s, s', id, now) else s' == s
  {
    if CancelOutcome(s, owner, id, expected) == CancelResult.Requested {
      CancelIsTaken(s.entries[id], now);
      UpdateCancels(s, id, CancelEntry(s.entries[id], now), now);
    }
  }

  lemma UpdateCancels(s: State, id: JobId, e: Entry, now: Instant)
    requires id in s.entries && CancelTaken(s.entries[id], e, now)
    ensures OnlyCancels(s, Update(s, id, e), id, now)
  {
  }

  lemma CancelIsTaken(e: Entry, now: Instant)
    ensures CancelTaken(e, CancelEntry(e, now), now)
  {
  }

  // ----- the worker's own events -----

  /** A stage is logged exactly while the worker holds the job, and changes nothing else. */
  lemma StageExactly(s: State, id: JobId, token: Token, now: Instant)
    requires Inv(s) && id in s.entries
    ensures var e, e' := s.entries[id], Apply(s, Stage(id, token, now)).entries[id];
            && e'.job == e.job && e'.outbox == e.outbox && e'.effects == e.effects
            && e'.log == if HoldsLease(e.job, token) then e.log + [Event(|e.log| + 1, e.job.owner, EvStageCompleted, now)]
                         else e.log
  {
    NumberedMax(s.entries[id].log);
  }

  /** A commit logs the end, with the wait for a confirmation before it exactly if the result asks for one. */
  lemma CommitLogsExactly(s: State, id: JobId, token: Token, outcome: Outcome, now: Instant)
    requires Inv(s) && id in s.entries && MayFinish(s.entries[id].job, token)
    ensures var e, e' := s.entries[id], Apply(s, Commit(id, token, outcome, now)).entries[id];
            && e'.job.status == Succeeded && e'.job.resultRefs == Some(outcome.refs) && e'.job.finishedAt == Some(now)
            && e'.effects == [Effect(token, outcome.refs)] && e'.outbox == e.outbox
            && e.log <= e'.log
            && (outcome.awaitingConfirmation ==> |e'.log| == |e.log| + 2 && e'.log[|e.log|].kind == EvAwaitingConfirmation
                                                 && e'.log[|e.log| + 1].kind == EvCompleted)
            && (!outcome.awaitingConfirmation ==> |e'.log| == |e.log| + 1 && e'.log[|e.log|].kind == EvCompleted)
  {
  }

  /** What ends an attempt without a commit: the lease is let go, the end is logged, nothing is published. */
  ghost predicate Ends(e: Entry, e': Entry, status: Status, kind: EventType, now: Instant) {
    && e'.job.status == status && e'.job.leaseToken == None && e'.job.leaseUntil == None
    && e'.job.attempts == e.job.attempts && e'.outbox == e.outbox && e'.effects == e.effects
    && |e'.log| == |e.log| + 1 && e.log <= e'.log && e'.log[|e.log|].kind == kind
    && (status != RetryWait ==> e'.job.finishedAt == Some(now))
  }

  /** An attempt under its own token that did not commit is cancelled if that was asked for, waits half a minute
      or two minutes for the next one if it may be tried again and fewer than three were, and fails otherwise. */
  lemma SettleExactly(s: State, id: JobId, token: Token, retryable: bool, now: Instant)
    requires id in s.entries && HoldsLease(s.entries[id].job, token)
    ensures id in Apply(s, Settle(id, token, retryable, now)).entries
    ensures var e, e' := s.entries[id], Apply(s, Settle(id, token, retryable, now)).entries[id];
            if e.job.cancelRequestedAt.Some? then Ends(e, e', Cancelled, EvCancelled, now)
            else if retryable && e.job.attempts < 3 then
              && Ends(e, e', RetryWait, EvRetrying, now)
              && (e.job.attempts == 1 ==> e'.job.nextAttemptAt == Some(now + 30 * SECOND))
              && (e.job.attempts == 2 ==> e'.job.nextAttemptAt == Some(now + 120 * SECOND))
            else Ends(e, e', Failed, EvFailed, now)
  {
  }

  /** Outdated inputs end the attempt as stale, unless it was asked to stop or has lost the job: then nothing happens. */
  lemma StaleExactly(s: State, id: JobId, token: Token, now: Instant)
    requires id in s.entries
    ensures id in Apply(s, FinishStale(id, token, now)).entries
    ensures var e, e' := s.entries[id], Apply(s, FinishStale(id, token, now)).entries[id];
            if HoldsLease(e.job, token) && e.job.cancelRequestedAt.None? then Ends(e, e', Stale, EvStale, now) else e' == e
  {
  }

  // ----- the outbox -----

  /** The write-back touches a pending row only: published it is sent, now; otherwise it waits for the delay that
      follows from how often it had been tried when it was read. */
  lemma WriteBackExactly(s: State, id: JobId, row: nat, delivered: bool, readAttempts: nat, now: Instant)
    requires id in s.entries
    ensures var s' := Apply(s, MarkOutbox(id, row, delivered, readAttempts, now));
            var before := s.entries[id].outbox;
            && id in s'.entries && s'.entries[id].job == s.entries[id].job && s'.entries[id].log == s.entries[id].log
            && |s'.entries[id].outbox| == |before|
            && (forall i :: 0 <= i < |before| && (i != row || before[i].status == Sent) ==> s'.entries[id].outbox[i] == before[i])
            && (row < |before| && before[row].status == Pending ==>
                  var after := s'.entries[id].outbox[row];
                  && after.attempts == before[row].attempts + 1 && after.createdAt == before[row].createdAt
                  && (delivered ==> after.status == Sent && after.sentAt == Some(now))
                  && (!delivered ==> after.status == Pending && after.sentAt == before[row].sentAt
                                     && after.nextAttemptAt == now + OutboxBackoff(readAttempts + 1)))
  {
  }

  /** A status change, or a step on another job, never touches rows of the outbox that are there. */
  lemma OnlyWriteBacksTouchRows(s: State, step: Step, id: JobId)
    requires Inv(s) && id in s.entries && !(step.MarkOutbox? && step.id == id)
    ensures id in Apply(s, step).entries && KeepsRows(s.entries[id], Apply(s, step).entries[id])
  {
    RowStaysOk(s, step, id);
    StepAt(s, step, id);
    RowsAreKept(s, step, id);
  }

  predicate KeepsRows(e: Entry, e': Entry) {
    e.outbox <= e'.outbox
  }

  lemma RowsAreKept(s: State, step: Step, id: JobId)
    requires RowOk(s, id) && !(step.MarkOutbox? && step.id == id)
    ensures KeepsRows(s.entries[id], EntryAfter(s, step, id))
  {
    var e := s.entries[id];
    match step
    case Recover(now) => OneScanPhase(e, s.supply, now);
    case Submit(_, _, _, _, _) =>
    case Claim(_, _, _) =>
    case Cancel(_, _, _, _) =>
    case _ => if step.id == id { NamedKeepsRows(e, step); }
  }

  lemma NamedKeepsRows(e: Entry, step: Step)
    requires !step.Recover? && !step.Submit? && !step.Claim? && !step.Cancel? && !step.MarkOutbox?
    ensures KeepsRows(e, EntryStep(e, step))
  {
  }
}
