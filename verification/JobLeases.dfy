/**
 What a lease is worth: for how long a claim or a renewal keeps the recovery scan away from a running
 attempt, and what the scan does to it afterwards.
 */
module JobLeases {
  import opened Prelude
  import opened JobModel
  import opened JobInvariant
  import opened JobTheorems

  /** The attempt holds the job, and no scan up to and including `until` may take it away. */
  predicate LeasedUntil(job: Job, token: Token, until: Instant) {
    HoldsLease(job, token) && job.leaseUntil.Some? && job.leaseUntil.value >= until
  }

  /** A step that may end the lease before `until`: a later scan, the attempt's own commit, settling or
      stale end, or a renewal of its own that is shorter. */
  predicate MayEndLease(step: Step, id: JobId, token: Token, until: Instant) {
    match step
    case Recover(now) => now > until
    case Commit(id', token', _, _) => id' == id && token' == token
    case Settle(id', token', _, _) => id' == id && token' == token
    case FinishStale(id', token', _) => id' == id && token' == token
    case Renew(id', token', now, lease) => id' == id && token' == token && now + lease < until
    case _ => false
  }

  // ----- the lease in force -----

  lemma ScanSparesLeased(e: Entry, token: Token, until: Instant, now: Instant)
    requires LeasedUntil(e.job, token, until) && now <= until
    ensures RecoverEntry(e, now) == e
  {
  }

  lemma StepKeepsLease(s: State, step: Step, id: JobId, token: Token, until: Instant)
    requires Inv(s) && id in s.entries && LeasedUntil(s.entries[id].job, token, until)
    requires !MayEndLease(step, id, token, until)
    ensures id in Apply(s, step).entries && LeasedUntil(Apply(s, step).entries[id].job, token, until)
  {
    StepAt(s, step, id);
    if step.Recover? {
      ScanSparesLeased(s.entries[id], token, until, step.now);
    }
  }

  /** Whatever else happens, cancel requests and late workers included: no scan up to `until` ends the attempt. */
  lemma {:induction false} LeaseIsRespected(s: State, steps: seq<Step>, id: JobId, token: Token, until: Instant)
    requires Inv(s) && id in s.entries && LeasedUntil(s.entries[id].job, token, until)
    requires forall i :: 0 <= i < |steps| ==> !MayEndLease(steps[i], id, token, until)
    ensures id in Run(s, steps).entries && LeasedUntil(Run(s, steps).entries[id].job, token, until)
    decreases |steps|
  {
    if steps != [] {
      StepKeepsLease(s, steps[0], id, token, until);
      StepKeepsInv(s, steps[0]);
      LeaseIsRespected(Apply(s, steps[0]), steps[1..], id, token, until);
    }
  }

  // ----- the lease run out -----

  /** A lease that ends exactly at `until`. */
  predicate LeaseEndsAt(job: Job, token: Token, until: Instant) {
    HoldsLease(job, token) && job.leaseUntil == Some(until)
  }

  /** The scan took the attempt away: cancelled if that was asked for, else to be retried, else failed; and it
      said so in the log. */
  ghost predicate TakenAway(e: Entry, e': Entry, now: Instant) {
    && e'.job.leaseToken == None && e'.job.attempts == e.job.attempts && e'.effects == e.effects
    && |e'.log| == |e.log| + 1 && e.log <= e'.log
    && (if e.job.cancelRequestedAt.Some? then e'.job.status == Cancelled && e'.log[|e.log|].kind == EvCancelled
        else if e.job.attempts < MAX_ATTEMPTS then
          && e'.job.status == RetryWait && e'.log[|e.log|].kind == EvRetrying
          && e'.job.nextAttemptAt.Some? && e'.job.nextAttemptAt.value > now
        else e'.job.status == Failed && e'.log[|e.log|].kind == EvFailed)
    && (e'.job.status != RetryWait ==> e'.job.finishedAt == Some(now))
  }

  /** A scan at this instant leaves the job as it is, held under the token, up to the end of the lease, and
      takes it away afterwards. */
  ghost predicate SparedThenTaken(s: State, id: JobId, token: Token, until: Instant, now: Instant)
    requires id in s.entries
  {
    var after := Apply(s, Recover(now));
    && id in after.entries
    && (now <= until ==> after.entries[id] == s.entries[id] && HoldsLease(after.entries[id].job, token))
    && (now > until ==> TakenAway(s.entries[id], after.entries[id], now))
  }

  /** The job is there and its row in order. */
  ghost predicate RowOk(s: State, id: JobId) {
    id in s.entries && id < s.supply && EntryOk(s.entries[id], s.supply)
  }

  lemma RowStaysOk(s: State, step: Step, id: JobId)
    requires Inv(s) && id in s.entries
    ensures RowOk(s, id) && RowOk(Apply(s, step), id)
  {
    StepMoves(s, step, id);
  }

  /** A scan does one thing to a job at most. */
  lemma OneScanPhase(e: Entry, supply: nat, now: Instant)
    requires EntryOk(e, supply)
    ensures RecoverEntry(e, now) == match e.job.status
                                    case Running => ExpireEntry(e, now)
                                    case RetryWait => RequeueEntry(e, now)
                                    case _ => RedispatchEntry(e, now)
  {
    ExpireOk(e, supply, now);
  }

  /** The first scan after the end of the lease settles the attempt; none before it touches the job. */
  lemma ScanAtTheEnd(s: State, id: JobId, token: Token, until: Instant, now: Instant)
    requires RowOk(s, id) && LeaseEndsAt(s.entries[id].job, token, until)
    ensures SparedThenTaken(s, id, token, until, now)
  {
    StepAt(s, Recover(now), id);
    if now > until {
      LateScanTakesAway(s.entries[id], s.supply, now);
    }
  }

  lemma LateScanTakesAway(e: Entry, supply: nat, now: Instant)
    requires EntryOk(e, supply) && e.job.status == Running && LeaseExpired(e, now)
    ensures TakenAway(e, RecoverEntry(e, now), now)
  {
    OneScanPhase(e, supply, now);
    Append(e.log, e.job.owner, SettleEvent(SettleTarget(e.job, true)), now);
  }

  // ----- claiming and renewing -----

  /** A renewal by the holder keeps scans away for exactly its length, from its own clock reading on. */
  lemma RenewalLeases(s: State, id: JobId, token: Token, now: Instant, lease: int)
    requires Inv(s) && id in s.entries && HoldsLease(s.entries[id].job, token)
    ensures var s' := Apply(s, Renew(id, token, now, lease));
            && id in s'.entries && LeaseEndsAt(s'.entries[id].job, token, now + lease)
            && s'.entries[id].log == s.entries[id].log && s'.entries[id].outbox == s.entries[id].outbox
            && s'.entries[id].effects == s.entries[id].effects && s'.entries[id].job.attempts == s.entries[id].job.attempts
            && s'.entries[id].job.cancelRequestedAt == s.entries[id].job.cancelRequestedAt
            && s'.entries[id].job.revision == s.entries[id].job.revision
  {
  }

  lemma RenewalHolds(s: State, id: JobId, token: Token, now: Instant, lease: int, at: Instant)
    requires Inv(s) && id in s.entries && HoldsLease(s.entries[id].job, token)
    ensures id in Apply(s, Renew(id, token, now, lease)).entries
    ensures SparedThenTaken(Apply(s, Renew(id, token, now, lease)), id, token, now + lease, at)
  {
    RenewalLeases(s, id, token, now, lease);
    RowStaysOk(s, Renew(id, token, now, lease), id);
    ScanAtTheEnd(Apply(s, Renew(id, token, now, lease)), id, token, now + lease, at);
  }

  /** A claim of a queued job starts the next attempt under the fresh token, for exactly its length. */
  lemma ClaimLeases(s: State, id: JobId, now: Instant, lease: int)
    requires Inv(s) && id in s.entries && s.entries[id].job.status == Queued
    ensures var s' := Apply(s, Claim(id, now, lease));
            && id in s'.entries && LeaseEndsAt(s'.entries[id].job, s.supply, now + lease)
            && s'.entries[id].job.attempts == s.entries[id].job.attempts + 1
            && |s'.entries[id].log| == |s.entries[id].log| + 1 && s'.entries[id].log[|s.entries[id].log|].kind == EvStarted
  {
    StepAt(s, Claim(id, now, lease), id);
  }

  lemma ClaimHolds(s: State, id: JobId, now: Instant, lease: int, at: Instant)
    requires Inv(s) && id in s.entries && s.entries[id].job.status == Queued
    ensures id in Apply(s, Claim(id, now, lease)).entries
    ensures SparedThenTaken(Apply(s, Claim(id, now, lease)), id, s.supply, now + lease, at)
  {
    ClaimLeases(s, id, now, lease);
    RowStaysOk(s, Claim(id, now, lease), id);
    ScanAtTheEnd(Apply(s, Claim(id, now, lease)), id, s.supply, now + lease, at);
  }

  /** A claim of anything but a queued job changes no row. */
  lemma OnlyQueuedIsClaimed(s: State, id: JobId, now: Instant, lease: int)
    requires id in s.entries ==> s.entries[id].job.status != Queued
    ensures Apply(s, Claim(id, now, lease)).entries == s.entries
  {
    if id in s.entries {
      assert s.entries[id := s.entries[id]] == s.entries;
    }
  }

  // ----- the outbox -----

  /** What wakes a worker up for this queueing. */
  predicate Wakes(row: OutboxRow, now: Instant) {
    row.status == Pending && row.nextAttemptAt <= now && row.createdAt == now && row.attempts == 0 && row.sentAt == None
  }

  /** Whenever a step queues a job, it leaves a new outbox row that is due at once. */
  lemma QueueingIsAnnounced(s: State, step: Step, id: JobId)
    requires Inv(s) && id in Apply(s, step).entries && Apply(s, step).entries[id].job.status == Queued
    requires id in s.entries ==> s.entries[id].job.status != Queued
    ensures step.Submit? || step.Recover?
    ensures var outbox := Apply(s, step).entries[id].outbox;
            && |outbox| == (if id in s.entries then |s.entries[id].outbox| else 0) + 1
            && Wakes(outbox[|outbox| - 1], step.now)
  {
    if id in s.entries {
      StepAt(s, step, id);
      QueuedByScan(s, step, id);
    } else {
      StepAdds(s, step, id);
    }
  }

  lemma QueuedByScan(s: State, step: Step, id: JobId)
    requires id in s.entries && EntryOk(s.entries[id], s.supply)
    requires s.entries[id].job.status != Queued && EntryAfter(s, step, id).job.status == Queued
    ensures step.Recover?
    ensures |EntryAfter(s, step, id).outbox| == |s.entries[id].outbox| + 1
    ensures Wakes(EntryAfter(s, step, id).outbox[|s.entries[id].outbox|], step.now)
  {
    OnlyScansQueue(s, step, id);
    RequeuedByScan(s.entries[id], s.supply, step.now);
  }

  lemma OnlyScansQueue(s: State, step: Step, id: JobId)
    requires id in s.entries && s.entries[id].job.status != Queued && EntryAfter(s, step, id).job.status == Queued
    ensures step.Recover?
  {
  }

  lemma RequeuedByScan(e: Entry, supply: nat, now: Instant)
    requires EntryOk(e, supply) && e.job.status != Queued && RecoverEntry(e, now).job.status == Queued
    ensures |RecoverEntry(e, now).outbox| == |e.outbox| + 1 && Wakes(RecoverEntry(e, now).outbox[|e.outbox|], now)
  {
    OneScanPhase(e, supply, now);
  }

  /** A job left queued too long without a recent message is announced again by the scan, and only such a job. */
  lemma ForgottenIsAnnounced(s: State, id: JobId, now: Instant)
    requires Inv(s) && id in s.entries && s.entries[id].job.status == Queued
    ensures id in Apply(s, Recover(now)).entries
    ensures AnnouncedIfForgotten(s.entries[id], Apply(s, Recover(now)).entries[id], now)
  {
    StepAt(s, Recover(now), id);
    QueuedScanned(s.entries[id], now);
  }

  ghost predicate AnnouncedIfForgotten(e: Entry, e': Entry, now: Instant) {
    && e'.job == e.job && e'.log == e.log
    && if e.job.updatedAt <= now - 5 * MINUTE && (forall i :: 0 <= i < |e.outbox| ==> e.outbox[i].createdAt <= now - 5 * MINUTE)
       then |e'.outbox| == |e.outbox| + 1 && e'.outbox[..|e.outbox|] == e.outbox && Wakes(e'.outbox[|e.outbox|], now)
       else e'.outbox == e.outbox
  }

  lemma QueuedScanned(e: Entry, now: Instant)
    requires e.job.status == Queued
    ensures AnnouncedIfForgotten(e, RecoverEntry(e, now), now)
  {
  }
}
