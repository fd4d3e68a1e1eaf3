/**
 The durable job tables of backend/src/goalflow/jobs and the atomic write transactions on them.

 Every write transaction holds the database write lock from its first statement, so each one is a
 single function from tables to tables. Instants are integers counting microseconds; ids and lease
 tokens are drawn from a counter, which is what freshness of UUIDs means here.
 */
module JobModel {
  import opened Prelude

  type JobId = nat
  type Token = nat
  type Owner = string
  type Kind = string
  type Instant = int

  const SECOND: int := 1_000_000
  const MINUTE: int := 60 * SECOND

  const MAX_ATTEMPTS: int := 3
  const OUTBOX_BACKOFF_BASE: int := 10 * SECOND
  const OUTBOX_BACKOFF_CAP: int := 10 * MINUTE
  const STUCK_QUEUED_AFTER: int := 5 * MINUTE
  const MAX_DEDUPE_KEY_LENGTH: int := 200

  datatype Status = Queued | Running | RetryWait | Succeeded | Failed | Cancelled | Stale {
    predicate Terminal() {
      Succeeded? || Failed? || Cancelled? || Stale?
    }

    /** The statuses that occupy a dedupe key. */
    predicate HoldsKey() {
      Queued? || Running? || RetryWait? || Succeeded?
    }
  }

  datatype EventType =
    | EvQueued | EvStarted | EvStageCompleted | EvAwaitingConfirmation | EvRetrying
    | EvCompleted | EvFailed | EvCancelled | EvStale
  {
    predicate Terminal() {
      EvCompleted? || EvFailed? || EvCancelled? || EvStale?
    }
  }

  datatype Event = Event(sequence: nat, owner: Owner, kind: EventType, createdAt: Instant)

  datatype Ref = Ref(kind: string, id: string)

  /** What a commit callback returns when it does not raise. */
  datatype Outcome = Outcome(refs: seq<Ref>, awaitingConfirmation: bool)

  datatype Job = Job(
    owner: Owner,
    kind: Kind,
    dedupeKey: string,
    status: Status,
    attempts: nat,
    leaseToken: Option<Token>,
    leaseUntil: Option<Instant>,
    cancelRequestedAt: Option<Instant>,
    nextAttemptAt: Option<Instant>,
    resultRefs: Option<seq<Ref>>,
    revision: nat,
    createdAt: Instant,
    updatedAt: Instant,
    finishedAt: Option<Instant>)

  datatype OutboxStatus = Pending | Sent

  datatype OutboxRow = OutboxRow(
    status: OutboxStatus,
    attempts: nat,
    nextAttemptAt: Instant,
    createdAt: Instant,
    sentAt: Option<Instant>)

  /** The business rows one commit callback wrote, with the lease it was called under. */
  datatype Effect = Effect(token: Token, refs: seq<Ref>)

  /** One job row together with its rows in the event, outbox and business tables. */
  datatype Entry = Entry(job: Job, log: seq<Event>, outbox: seq<OutboxRow>, effects: seq<Effect>)

  /** `supply` is the next id to be drawn; every id in use is below it. */
  datatype State = State(entries: map<JobId, Entry>, supply: nat)

  const EMPTY: State := State(map[], 0)

  // ----- arithmetic -----

  /** The element `min(attempts, 2) - 1` of (30 s, 120 s); index -1 is the last element. */
  function RetryBackoff(attempts: nat): int {
    if Min(attempts, 2) - 1 == 0 then 30 * SECOND else 120 * SECOND
  }

  function Power2(n: nat): nat {
    if n == 0 then 1 else 2 * Power2(n - 1)
  }

  function OutboxBackoff(attempts: int): int {
    Min(OUTBOX_BACKOFF_BASE * Power2(Max(attempts - 1, 0)), OUTBOX_BACKOFF_CAP)
  }

  // ----- the event log and the outbox -----

  /** SQL max(sequence), with 0 for an empty log. */
  function MaxSequence(log: seq<Event>): nat {
    if log == [] then 0 else Max(MaxSequence(log[..|log| - 1]), log[|log| - 1].sequence)
  }

  function AppendEvent(log: seq<Event>, owner: Owner, kind: EventType, now: Instant): seq<Event> {
    log + [Event(MaxSequence(log) + 1, owner, kind, now)]
  }

  function NewOutboxRow(now: Instant): OutboxRow {
    OutboxRow(Pending, 0, now, now, None)
  }

  // ----- one job under one transaction -----

  /** What every conditional update adds to the values it sets. */
  function Touch(job: Job, now: Instant): Job {
    job.(revision := job.revision + 1, updatedAt := now)
  }

  predicate HoldsLease(job: Job, token: Token) {
    job.status == Running && job.leaseToken == Some(token)
  }

  predicate MayFinish(job: Job, token: Token) {
    HoldsLease(job, token) && job.cancelRequestedAt.None?
  }

  function Release(job: Job): Job {
    job.(leaseToken := None, leaseUntil := None)
  }

  function Finish(job: Job, status: Status, now: Instant): Job {
    Touch(Release(job).(status := status, finishedAt := Some(now)), now)
  }

  function NewEntry(owner: Owner, kind: Kind, key: string, now: Instant): Entry {
    Entry(
      Job(owner, kind, key, Queued, 0, None, None, None, None, None, 1, now, now, None),
      AppendEvent([], owner, EvQueued, now),
      [NewOutboxRow(now)],
      [])
  }

  function ClaimEntry(e: Entry, token: Token, now: Instant, lease: int): Entry {
    if e.job.status != Queued then e else
    e.(job := Touch(e.job.(status := Running, leaseToken := Some(token), leaseUntil := Some(now + lease),
                           attempts := e.job.attempts + 1, nextAttemptAt := None), now),
       log := AppendEvent(e.log, e.job.owner, EvStarted, now))
  }

  function RenewEntry(e: Entry, token: Token, now: Instant, lease: int): Entry {
    if !HoldsLease(e.job, token) then e else e.(job := e.job.(leaseUntil := Some(now + lease)))
  }

  function StageEntry(e: Entry, token: Token, now: Instant): Entry {
    if !HoldsLease(e.job, token) then e else e.(log := AppendEvent(e.log, e.job.owner, EvStageCompleted, now))
  }

  /** The log after a successful commit: an optional confirmation request, then completion. */
  function CompletionLog(log: seq<Event>, owner: Owner, awaiting: bool, now: Instant): seq<Event> {
    var log' := if awaiting then AppendEvent(log, owner, EvAwaitingConfirmation, now) else log;
    AppendEvent(log', owner, EvCompleted, now)
  }

  function CommitEntry(e: Entry, token: Token, outcome: Outcome, now: Instant): Entry {
    if !MayFinish(e.job, token) then e else
    Entry(Finish(e.job, Succeeded, now).(resultRefs := Some(outcome.refs)),
          CompletionLog(e.log, e.job.owner, outcome.awaitingConfirmation, now),
          e.outbox,
          e.effects + [Effect(token, outcome.refs)])
  }

  function StaleEntry(e: Entry, token: Token, now: Instant): Entry {
    if !MayFinish(e.job, token) then e else
    e.(job := Finish(e.job, Stale, now), log := AppendEvent(e.log, e.job.owner, EvStale, now))
  }

  /** Where an attempt that did not commit goes: cancelled first, then retry, then failed. */
  function SettleTarget(job: Job, retryable: bool): Status {
    if job.cancelRequestedAt.Some? then Cancelled
    else if retryable && job.attempts < MAX_ATTEMPTS then RetryWait
    else Failed
  }

  function SettleEvent(target: Status): EventType {
    match target
    case Cancelled => EvCancelled
    case RetryWait => EvRetrying
    case _ => EvFailed
  }

  function SettleEntry(e: Entry, token: Token, retryable: bool, now: Instant): Entry {
    if !HoldsLease(e.job, token) then e else
    var target := SettleTarget(e.job, retryable);
    var job := if target == RetryWait
               then Touch(Release(e.job).(status := RetryWait, nextAttemptAt := Some(now + RetryBackoff(e.job.attempts))), now)
               else Finish(e.job, target, now);
    e.(job := job, log := AppendEvent(e.log, e.job.owner, SettleEvent(target), now))
  }

  /** A cancel request that passed its owner and revision checks. */
  function CancelEntry(e: Entry, now: Instant): Entry {
    if e.job.status == Running then e.(job := Touch(e.job.(cancelRequestedAt := Some(now)), now)) else
    e.(job := Touch(e.job.(status := Cancelled, cancelRequestedAt := Some(now), nextAttemptAt := None,
                           finishedAt := Some(now)), now),
       log := AppendEvent(e.log, e.job.owner, EvCancelled, now))
  }

  // ----- the recovery scan, phase by phase -----

  predicate LeaseExpired(e: Entry, now: Instant) {
    e.job.status == Running && e.job.leaseUntil.Some? && e.job.leaseUntil.value < now
  }

  predicate RetryDue(e: Entry, now: Instant) {
    e.job.status == RetryWait && e.job.nextAttemptAt.Some? && e.job.nextAttemptAt.value <= now
  }

  predicate RecentOutbox(outbox: seq<OutboxRow>, after: Instant) {
    exists i :: 0 <= i < |outbox| && outbox[i].createdAt > after
  }

  predicate Forgotten(e: Entry, now: Instant) {
    e.job.status == Queued && e.job.updatedAt <= now - STUCK_QUEUED_AFTER
    && !RecentOutbox(e.outbox, now - STUCK_QUEUED_AFTER)
  }

  /** The attempt is settled under the token its own row shows. */
  function ExpireEntry(e: Entry, now: Instant): Entry {
    if LeaseExpired(e, now) && e.job.leaseToken.Some? then SettleEntry(e, e.job.leaseToken.value, true, now) else e
  }

  function RequeueEntry(e: Entry, now: Instant): Entry {
    if !RetryDue(e, now) then e else
    e.(job := Touch(e.job.(status := Queued, nextAttemptAt := None), now),
       outbox := e.outbox + [NewOutboxRow(now)],
       log := AppendEvent(e.log, e.job.owner, EvQueued, now))
  }

  function RedispatchEntry(e: Entry, now: Instant): Entry {
    if !Forgotten(e, now) then e else e.(outbox := e.outbox + [NewOutboxRow(now)])
  }

  function RecoverEntry(e: Entry, now: Instant): Entry {
    RedispatchEntry(RequeueEntry(ExpireEntry(e, now), now), now)
  }

  /** The write-back after one publish attempt; only a row still pending is touched. */
  function MarkOutboxEntry(e: Entry, row: nat, delivered: bool, readAttempts: nat, now: Instant): Entry {
    if row >= |e.outbox| || e.outbox[row].status != Pending then e else
    var r := e.outbox[row];
    var r' := if delivered then r.(status := Sent, sentAt := Some(now), attempts := r.attempts + 1)
              else r.(attempts := r.attempts + 1, nextAttemptAt := now + OutboxBackoff(readAttempts + 1));
    e.(outbox := e.outbox[row := r'])
  }

  // ----- transactions on the whole table -----

  function Update(s: State, id: JobId, e: Entry): State {
    s.(entries := s.entries[id := e])
  }

  predicate OccupiesKey(e: Entry, owner: Owner, kind: Kind, key: string) {
    e.job.owner == owner && e.job.kind == kind && e.job.dedupeKey == key && e.job.status.HoldsKey()
  }

  datatype SubmitError = UnknownKind | BadDedupeKey

  predicate KeyTaken(s: State, owner: Owner, kind: Kind, key: string) {
    exists id :: id in s.entries && OccupiesKey(s.entries[id], owner, kind, key)
  }

  function SubmitState(s: State, owner: Owner, kind: Kind, key: string, registry: set<Kind>, now: Instant): State {
    if kind !in registry || !(0 < |key| <= MAX_DEDUPE_KEY_LENGTH) || KeyTaken(s, owner, kind, key) then s
    else State(s.entries[s.supply := NewEntry(owner, kind, key, now)], s.supply + 1)
  }

  /** A run draws its token whether or not it gets the job. */
  function ClaimState(s: State, id: JobId, now: Instant, lease: int): State {
    var s' := s.(supply := s.supply + 1);
    if id in s.entries then Update(s', id, ClaimEntry(s.entries[id], s.supply, now, lease)) else s'
  }

  datatype CancelResult = NotFound | Conflict(currentRevision: nat) | Unchanged | Requested

  function CancelOutcome(s: State, owner: Owner, id: JobId, expectedRevision: nat): CancelResult {
    if id !in s.entries || s.entries[id].job.owner != owner then NotFound else
    var job := s.entries[id].job;
    if job.status.Terminal() || (job.status == Running && job.cancelRequestedAt.Some?) then Unchanged
    else if job.revision != expectedRevision then Conflict(job.revision)
    else Requested
  }

  function CancelState(s: State, owner: Owner, id: JobId, expectedRevision: nat, now: Instant): State {
    if CancelOutcome(s, owner, id, expectedRevision) != Requested then s
    else Update(s, id, CancelEntry(s.entries[id], now))
  }

  function ExpireAll(s: State, now: Instant): State {
    s.(entries := map id | id in s.entries :: ExpireEntry(s.entries[id], now))
  }

  function RequeueAll(s: State, now: Instant): State {
    s.(entries := map id | id in s.entries :: RequeueEntry(s.entries[id], now))
  }

  function RedispatchAll(s: State, now: Instant): State {
    s.(entries := map id | id in s.entries :: RedispatchEntry(s.entries[id], now))
  }

  function RecoverState(s: State, now: Instant): State {
    RedispatchAll(RequeueAll(ExpireAll(s, now), now), now)
  }

  /** Every write transaction any process can run. A worker step carries the token its run drew. */
  datatype Step =
    | Submit(owner: Owner, kind: Kind, key: string, registry: set<Kind>, now: Instant)
    | Claim(id: JobId, now: Instant, lease: int)
    | Renew(id: JobId, token: Token, now: Instant, lease: int)
    | Stage(id: JobId, token: Token, now: Instant)
    | Commit(id: JobId, token: Token, outcome: Outcome, now: Instant)
    | Settle(id: JobId, token: Token, retryable: bool, now: Instant)
    | FinishStale(id: JobId, token: Token, now: Instant)
    | Cancel(owner: Owner, id: JobId, expectedRevision: nat, now: Instant)
    | Recover(now: Instant)
    | MarkOutbox(id: JobId, row: nat, delivered: bool, readAttempts: nat, now: Instant)
  {
    /** A step of the attempt that drew `token` for job `id`. */
    predicate IsWorkerStep(id: JobId, token: Token) {
      (Renew? || Stage? || Commit? || Settle? || FinishStale?) && this.id == id && this.token == token
    }
  }

  /** What a step that names an existing job does to that job. */
  function EntryStep(e: Entry, step: Step): Entry {
    match step
    case Renew(_, token, now, lease) => RenewEntry(e, token, now, lease)
    case Stage(_, token, now) => StageEntry(e, token, now)
    case Commit(_, token, outcome, now) => CommitEntry(e, token, outcome, now)
    case Settle(_, token, retryable, now) => SettleEntry(e, token, retryable, now)
    case FinishStale(_, token, now) => StaleEntry(e, token, now)
    case MarkOutbox(_, row, delivered, readAttempts, now) => MarkOutboxEntry(e, row, delivered, readAttempts, now)
    case _ => e
  }

  function Apply(s: State, step: Step): State {
    match step
    case Submit(owner, kind, key, registry, now) => SubmitState(s, owner, kind, key, registry, now)
    case Claim(id, now, lease) => ClaimState(s, id, now, lease)
    case Cancel(owner, id, expected, now) => CancelState(s, owner, id, expected, now)
    case Recover(now) => RecoverState(s, now)
    case _ => if step.id in s.entries then Update(s, step.id, EntryStep(s.entries[step.id], step)) else s
  }

  /** The tables after a run: any steps by any actors, in any order. */
  function Run(s: State, steps: seq<Step>): State
    decreases |steps|
  {
    if steps == [] then s else Run(Apply(s, steps[0]), steps[1..])
  }
}
