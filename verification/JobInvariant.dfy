/**
 What every transaction keeps true of the job tables.

 The column invariants say which columns are set in which status; the log invariant says that the
 event log, read as a word, drives a small automaton into the job's status.
 */
module JobInvariant {
  import opened Prelude
  import opened JobModel

  // ----- the event log as a word -----

  /** Where replaying a log leaves a job. `Confirming` sits between the two events of one commit. */
  datatype Phase = Unborn | At(status: Status) | Confirming | Broken

  function Advance(p: Phase, k: EventType): Phase {
    match p
    case Unborn => if k == EvQueued then At(Queued) else Broken
    case At(Queued) => if k == EvStarted then At(Running) else if k == EvCancelled then At(Cancelled) else Broken
    case At(RetryWait) => if k == EvQueued then At(Queued) else if k == EvCancelled then At(Cancelled) else Broken
    case At(Running) => (
      match k
      case EvStageCompleted => At(Running)
      case EvAwaitingConfirmation => Confirming
      case EvRetrying => At(RetryWait)
      case EvCompleted => At(Succeeded)
      case EvFailed => At(Failed)
      case EvCancelled => At(Cancelled)
      case EvStale => At(Stale)
      case _ => Broken)
    case Confirming => if k == EvCompleted then At(Succeeded) else Broken
    case _ => Broken
  }

  function Replay(log: seq<Event>): Phase {
    if log == [] then Unborn else Advance(Replay(log[..|log| - 1]), log[|log| - 1].kind)
  }

  function Count(log: seq<Event>, k: EventType): nat {
    if log == [] then 0 else Count(log[..|log| - 1], k) + (if log[|log| - 1].kind == k then 1 else 0)
  }

  ghost predicate Numbered(log: seq<Event>) {
    forall i :: 0 <= i < |log| ==> log[i].sequence == i + 1
  }

  lemma {:induction false} NumberedMax(log: seq<Event>)
    requires Numbered(log)
    ensures MaxSequence(log) == |log|
  {
    if log != [] {
      NumberedMax(log[..|log| - 1]);
    }
  }

  /** Appending to a numbered log: the next number, the same prefix, one automaton move. */
  lemma Append(log: seq<Event>, owner: Owner, k: EventType, now: Instant)
    requires Numbered(log)
    ensures var log' := AppendEvent(log, owner, k, now);
            && Numbered(log')
            && log' == log + [Event(|log| + 1, owner, k, now)]
            && Replay(log') == Advance(Replay(log), k)
            && forall k' :: Count(log', k') == Count(log, k') + if k' == k then 1 else 0
  {
    NumberedMax(log);
    var log' := AppendEvent(log, owner, k, now);
    assert log'[..|log'| - 1] == log;
  }

  // ----- one job -----

  ghost predicate ColumnsOk(job: Job, supply: nat) {
    && (job.leaseToken.Some? <==> job.status == Running)
    && (job.leaseUntil.Some? <==> job.status == Running)
    && (job.leaseToken.Some? ==> job.leaseToken.value < supply)
    && (job.nextAttemptAt.Some? <==> job.status == RetryWait)
    && (job.finishedAt.Some? <==> job.status.Terminal())
    && (job.resultRefs.Some? <==> job.status == Succeeded)
    && (job.cancelRequestedAt.Some? ==> job.status == Running || job.status == Cancelled)
  }

  ghost predicate AttemptsOk(job: Job) {
    && job.attempts <= MAX_ATTEMPTS
    && (job.status == Queued ==> job.attempts < MAX_ATTEMPTS)
    && (job.status == RetryWait ==> 1 <= job.attempts < MAX_ATTEMPTS)
    && (job.status == Running || job.status == Succeeded || job.status == Failed || job.status == Stale
        ==> 1 <= job.attempts)
  }

  /** The business rows exist exactly in a succeeded job, once, and are what the job row refers to. */
  ghost predicate EffectsOk(e: Entry, supply: nat) {
    if e.job.status == Succeeded
    then |e.effects| == 1 && e.job.resultRefs == Some(e.effects[0].refs) && e.effects[0].token < supply
    else e.effects == []
  }

  ghost predicate LogOk(e: Entry) {
    && Numbered(e.log)
    && (forall i :: 0 <= i < |e.log| ==> e.log[i].owner == e.job.owner)
    && Replay(e.log) == At(e.job.status)
    && Count(e.log, EvStarted) == e.job.attempts
    && Count(e.log, EvQueued) <= |e.outbox|
  }

  ghost predicate EntryOk(e: Entry, supply: nat) {
    ColumnsOk(e.job, supply) && AttemptsOk(e.job) && EffectsOk(e, supply) && LogOk(e)
  }

  // ----- the table -----

  ghost predicate RowsOk(s: State) {
    forall id :: id in s.entries ==> id < s.supply && EntryOk(s.entries[id], s.supply)
  }

  /** The partial unique index on (owner, kind, dedupe_key). */
  ghost predicate KeysUnique(s: State) {
    forall a, b :: a in s.entries && b in s.entries && a != b
      && OccupiesKey(s.entries[a], s.entries[a].job.owner, s.entries[a].job.kind, s.entries[a].job.dedupeKey)
      ==> !OccupiesKey(s.entries[b], s.entries[a].job.owner, s.entries[a].job.kind, s.entries[a].job.dedupeKey)
  }

  /** No two attempts hold the same token. */
  ghost predicate TokensDistinct(s: State) {
    forall a, b, t :: a in s.entries && b in s.entries && HoldsLease(s.entries[a].job, t) && HoldsLease(s.entries[b].job, t)
      ==> a == b
  }

  ghost predicate Inv(s: State) {
    RowsOk(s) && KeysUnique(s) && TokensDistinct(s)
  }

  // ----- how a job may evolve -----

  /** Status changes still possible: eight for a fresh job, none for a finished one. */
  ghost function MovesLeft(job: Job): int {
    match job.status
    case Queued => 2 + 3 * (MAX_ATTEMPTS - 1 - job.attempts)
    case Running => 1 + 3 * (MAX_ATTEMPTS - job.attempts)
    case RetryWait => 3 * (MAX_ATTEMPTS - job.attempts)
    case _ => 0
  }

  /** What any number of transactions may do to a job: the identity is fixed, the log and the business
      rows only grow, a finished job is frozen, a cancel request stays, a lost dedupe key stays lost. */
  ghost predicate Evolves(e: Entry, e': Entry) {
    && e'.job.owner == e.job.owner && e'.job.kind == e.job.kind && e'.job.dedupeKey == e.job.dedupeKey
    && e'.job.createdAt == e.job.createdAt
    && e.log <= e'.log
    && e.effects <= e'.effects
    && |e.outbox| <= |e'.outbox|
    && e.job.attempts <= e'.job.attempts
    && e.job.revision <= e'.job.revision
    && (e.job.status.Terminal() ==> e'.job == e.job && e'.log == e.log && e'.effects == e.effects)
    && (e.job.cancelRequestedAt.Some? ==> e'.job.cancelRequestedAt == e.job.cancelRequestedAt)
    && (e'.job.status.HoldsKey() ==> e.job.status.HoldsKey())
    && MovesLeft(e'.job) <= MovesLeft(e.job)
  }

  /** One transaction: a status change costs a move and a revision, and a lease is only ever gained by
      the token being drawn now. */
  ghost predicate Moves(e: Entry, e': Entry, supply: nat) {
    && Evolves(e, e')
    && (e'.job.status != e.job.status ==> MovesLeft(e'.job) < MovesLeft(e.job) && e.job.revision < e'.job.revision)
    && (forall t :: HoldsLease(e'.job, t) ==> HoldsLease(e.job, t) || t == supply)
  }

  /** A transaction that keeps a job in order and moves it at most once. */
  ghost predicate Advances(e: Entry, e': Entry, supply: nat) {
    EntryOk(e', supply) && Moves(e, e', supply)
  }

  lemma EvolvesTransitive(a: Entry, b: Entry, c: Entry)
    requires Evolves(a, b) && Evolves(b, c)
    ensures Evolves(a, c)
  {
  }

  // ----- each transaction keeps a job in order -----

  lemma NewEntryOk(owner: Owner, kind: Kind, key: string, now: Instant, supply: nat)
    ensures EntryOk(NewEntry(owner, kind, key, now), supply)
  {
    var e := NewEntry(owner, kind, key, now);
    Append([], owner, EvQueued, now);
    assert Replay(e.log) == At(Queued);
  }

  lemma ClaimOk(e: Entry, supply: nat, now: Instant, lease: int)
    requires EntryOk(e, supply)
    ensures EntryOk(ClaimEntry(e, supply, now, lease), supply + 1) && Moves(e, ClaimEntry(e, supply, now, lease), supply)
  {
    Append(e.log, e.job.owner, EvStarted, now);
  }

  lemma StageOk(e: Entry, supply: nat, token: Token, now: Instant)
    requires EntryOk(e, supply)
    ensures Advances(e, StageEntry(e, token, now), supply)
  {
    Append(e.log, e.job.owner, EvStageCompleted, now);
  }

  lemma CompletionLogIs(log: seq<Event>, owner: Owner, awaiting: bool, now: Instant)
    requires Numbered(log) && Replay(log) == At(Running)
    ensures var log' := CompletionLog(log, owner, awaiting, now);
            && Numbered(log') && log <= log' && Replay(log') == At(Succeeded)
            && (forall i :: |log| <= i < |log'| ==> log'[i].owner == owner)
            && Count(log', EvStarted) == Count(log, EvStarted) && Count(log', EvQueued) == Count(log, EvQueued)
  {
    if awaiting {
      Append(log, owner, EvAwaitingConfirmation, now);
      Completes(AppendEvent(log, owner, EvAwaitingConfirmation, now), owner, now);
    } else {
      Completes(log, owner, now);
    }
  }

  lemma Completes(log: seq<Event>, owner: Owner, now: Instant)
    requires Numbered(log) && (Replay(log) == At(Running) || Replay(log) == Confirming)
    ensures var log' := AppendEvent(log, owner, EvCompleted, now);
            && Numbered(log') && log <= log' && |log'| == |log| + 1 && log'[|log|].owner == owner
            && Replay(log') == At(Succeeded)
            && Count(log', EvStarted) == Count(log, EvStarted) && Count(log', EvQueued) == Count(log, EvQueued)
  {
    Append(log, owner, EvCompleted, now);
  }

  lemma CommitOk(e: Entry, supply: nat, token: Token, outcome: Outcome, now: Instant)
    requires EntryOk(e, supply)
    ensures Advances(e, CommitEntry(e, token, outcome, now), supply)
  {
    if MayFinish(e.job, token) {
      CommitKeeps(e, supply, token, outcome, now);
      CompletionLogIs(e.log, e.job.owner, outcome.awaitingConfirmation, now);
      CommitMoves(e, supply, token, outcome, now);
    } else {
      StayingIsAMove(e, supply);
    }
  }

  lemma CommitKeeps(e: Entry, supply: nat, token: Token, outcome: Outcome, now: Instant)
    requires EntryOk(e, supply) && MayFinish(e.job, token)
    ensures EntryOk(CommitEntry(e, token, outcome, now), supply)
  {
    CompletionLogIs(e.log, e.job.owner, outcome.awaitingConfirmation, now);
  }

  lemma CommitMoves(e: Entry, supply: nat, token: Token, outcome: Outcome, now: Instant)
    requires MayFinish(e.job, token) && ColumnsOk(e.job, supply) && AttemptsOk(e.job)
    requires e.log <= CompletionLog(e.log, e.job.owner, outcome.awaitingConfirmation, now)
    ensures Moves(e, CommitEntry(e, token, outcome, now), supply)
  {
  }

  lemma StaleOk(e: Entry, supply: nat, token: Token, now: Instant)
    requires EntryOk(e, supply)
    ensures Advances(e, StaleEntry(e, token, now), supply)
  {
    Append(e.log, e.job.owner, EvStale, now);
  }

  lemma SettleOk(e: Entry, supply: nat, token: Token, retryable: bool, now: Instant)
    requires EntryOk(e, supply)
    ensures Advances(e, SettleEntry(e, token, retryable, now), supply)
  {
    if HoldsLease(e.job, token) {
      SettleKeeps(e, supply, token, retryable, now);
      SettleMoves(e, supply, token, retryable, now);
    } else {
      StayingIsAMove(e, supply);
    }
  }

  lemma SettleKeeps(e: Entry, supply: nat, token: Token, retryable: bool, now: Instant)
    requires EntryOk(e, supply) && HoldsLease(e.job, token)
    ensures EntryOk(SettleEntry(e, token, retryable, now), supply)
  {
    Append(e.log, e.job.owner, SettleEvent(SettleTarget(e.job, retryable)), now);
  }

  lemma SettleMoves(e: Entry, supply: nat, token: Token, retryable: bool, now: Instant)
    requires HoldsLease(e.job, token) && ColumnsOk(e.job, supply) && AttemptsOk(e.job)
    ensures Moves(e, SettleEntry(e, token, retryable, now), supply)
  {
  }

  lemma CancelOk(e: Entry, supply: nat, now: Instant)
    requires EntryOk(e, supply) && !e.job.status.Terminal() && (e.job.status == Running ==> e.job.cancelRequestedAt.None?)
    ensures EntryOk(CancelEntry(e, now), supply) && Moves(e, CancelEntry(e, now), supply)
  {
    Append(e.log, e.job.owner, EvCancelled, now);
  }

  lemma RequeueOk(e: Entry, supply: nat, now: Instant)
    requires EntryOk(e, supply)
    ensures EntryOk(RequeueEntry(e, now), supply) && Moves(e, RequeueEntry(e, now), supply)
  {
    Append(e.log, e.job.owner, EvQueued, now);
  }

  lemma ExpireOk(e: Entry, supply: nat, now: Instant)
    requires EntryOk(e, supply)
    ensures EntryOk(ExpireEntry(e, now), supply) && Moves(e, ExpireEntry(e, now), supply)
  {
    if LeaseExpired(e, now) {
      SettleOk(e, supply, e.job.leaseToken.value, true, now);
    }
  }

  /** The three phases move a job at most once: a job just put to wait is not due yet, and one just
      requeued is not forgotten. */
  lemma RecoverOk(e: Entry, supply: nat, now: Instant)
    requires EntryOk(e, supply)
    ensures EntryOk(RecoverEntry(e, now), supply) && Moves(e, RecoverEntry(e, now), supply)
  {
    ExpireOk(e, supply, now);
    RequeueOk(ExpireEntry(e, now), supply, now);
    EvolvesTransitive(e, ExpireEntry(e, now), RequeueEntry(ExpireEntry(e, now), now));
  }

  lemma StageStepOk(e: Entry, supply: nat, step: Step)
    requires EntryOk(e, supply) && step.Stage?
    ensures Advances(e, EntryStep(e, step), supply)
  {
    StageOk(e, supply, step.token, step.now);
  }

  lemma CommitStepOk(e: Entry, supply: nat, step: Step)
    requires EntryOk(e, supply) && step.Commit?
    ensures Advances(e, EntryStep(e, step), supply)
  {
    CommitOk(e, supply, step.token, step.outcome, step.now);
  }

  lemma SettleStepOk(e: Entry, supply: nat, step: Step)
    requires EntryOk(e, supply) && step.Settle?
    ensures Advances(e, EntryStep(e, step), supply)
  {
    SettleOk(e, supply, step.token, step.retryable, step.now);
  }

  lemma StaleStepOk(e: Entry, supply: nat, step: Step)
    requires EntryOk(e, supply) && step.FinishStale?
    ensures Advances(e, EntryStep(e, step), supply)
  {
    StaleOk(e, supply, step.token, step.now);
  }

  lemma RenewStepOk(e: Entry, supply: nat, step: Step)
    requires EntryOk(e, supply) && step.Renew?
    ensures Advances(e, EntryStep(e, step), supply)
  {
    RenewOk(e, supply, step.token, step.now, step.lease);
  }

  lemma MarkOutboxStepOk(e: Entry, supply: nat, step: Step)
    requires EntryOk(e, supply) && step.MarkOutbox?
    ensures Advances(e, EntryStep(e, step), supply)
  {
    MarkOutboxOk(e, supply, step.row, step.delivered, step.readAttempts, step.now);
  }

  lemma OtherStepOk(e: Entry, supply: nat, step: Step)
    requires EntryOk(e, supply) && EntryStep(e, step) == e
    ensures Advances(e, EntryStep(e, step), supply)
  {
    StayingIsAMove(e, supply);
  }

  lemma EntryStepOk(e: Entry, supply: nat, step: Step)
    requires EntryOk(e, supply)
    ensures Advances(e, EntryStep(e, step), supply)
  {
    match step
    case Stage(_, _, _) => StageStepOk(e, supply, step);
    case Commit(_, _, _, _) => CommitStepOk(e, supply, step);
    case Settle(_, _, _, _) => SettleStepOk(e, supply, step);
    case FinishStale(_, _, _) => StaleStepOk(e, supply, step);
    case Renew(_, _, _, _) => RenewStepOk(e, supply, step);
    case MarkOutbox(_, _, _, _, _) => MarkOutboxStepOk(e, supply, step);
    case _ => OtherStepOk(e, supply, step);
  }

  lemma RenewOk(e: Entry, supply: nat, token: Token, now: Instant, lease: int)
    requires EntryOk(e, supply)
    ensures Advances(e, RenewEntry(e, token, now, lease), supply)
  {
  }

  lemma MarkOutboxOk(e: Entry, supply: nat, row: nat, delivered: bool, readAttempts: nat, now: Instant)
    requires EntryOk(e, supply)
    ensures Advances(e, MarkOutboxEntry(e, row, delivered, readAttempts, now), supply)
  {
  }

  // ----- each transaction keeps the table in order -----

  lemma RecoverStateRows(s: State, now: Instant)
    ensures RecoverState(s, now).supply == s.supply
    ensures RecoverState(s, now).entries == map id | id in s.entries :: RecoverEntry(s.entries[id], now)
  {
  }

  /** What a step does to one job that is already there. */
  ghost function EntryAfter(s: State, step: Step, id: JobId): Entry
    requires id in s.entries
  {
    var e := s.entries[id];
    match step
    case Submit(_, _, _, _, _) => e
    case Claim(id', now, lease) => if id' == id then ClaimEntry(e, s.supply, now, lease) else e
    case Cancel(owner, id', expected, now) =>
      if id' == id && CancelOutcome(s, owner, id, expected) == CancelResult.Requested then CancelEntry(e, now) else e
    case Recover(now) => RecoverEntry(e, now)
    case _ => if step.id == id then EntryStep(e, step) else e
  }

  lemma StepAt(s: State, step: Step, id: JobId)
    requires id in s.entries && id < s.supply
    ensures id in Apply(s, step).entries && Apply(s, step).entries[id] == EntryAfter(s, step, id)
    ensures s.supply <= Apply(s, step).supply
  {
    match step
    case Recover(now) => RecoverStateRows(s, now);
    case Submit(_, _, _, _, _) =>
    case Claim(_, _, _) =>
    case Cancel(_, _, _, _) =>
    case _ => NamedStepAt(s, step, id);
  }

  lemma NamedStepAt(s: State, step: Step, id: JobId)
    requires id in s.entries && !step.Recover? && !step.Submit? && !step.Claim? && !step.Cancel?
    ensures Apply(s, step).supply == s.supply && id in Apply(s, step).entries
    ensures Apply(s, step).entries[id] == if step.id == id then EntryStep(s.entries[id], step) else s.entries[id]
  {
  }

  /** What a step makes of a job that is there. */
  ghost predicate AdvancesAt(s: State, step: Step, id: JobId)
    requires id in s.entries
  {
    && EntryOk(EntryAfter(s, step, id), if step.Claim? then s.supply + 1 else s.supply)
    && Moves(s.entries[id], EntryAfter(s, step, id), s.supply)
  }

  lemma UntouchedAt(s: State, step: Step, id: JobId)
    requires id in s.entries && EntryOk(s.entries[id], s.supply) && EntryAfter(s, step, id) == s.entries[id]
    ensures AdvancesAt(s, step, id)
  {
    StayingIsAMove(s.entries[id], s.supply);
  }

  lemma ClaimAt(s: State, step: Step, id: JobId)
    requires id in s.entries && EntryOk(s.entries[id], s.supply) && step.Claim? && step.id == id
    ensures AdvancesAt(s, step, id)
  {
    ClaimOk(s.entries[id], s.supply, step.now, step.lease);
  }

  lemma CancelAt(s: State, step: Step, id: JobId)
    requires id in s.entries && EntryOk(s.entries[id], s.supply) && step.Cancel? && step.id == id
    requires CancelOutcome(s, step.owner, id, step.expectedRevision) == CancelResult.Requested
    ensures AdvancesAt(s, step, id)
  {
    CancelOk(s.entries[id], s.supply, step.now);
  }

  lemma RecoverAt(s: State, step: Step, id: JobId)
    requires id in s.entries && EntryOk(s.entries[id], s.supply) && step.Recover?
    ensures AdvancesAt(s, step, id)
  {
    RecoverOk(s.entries[id], s.supply, step.now);
  }

  lemma NamedAt(s: State, step: Step, id: JobId)
    requires id in s.entries && EntryOk(s.entries[id], s.supply)
    requires !step.Recover? && !step.Submit? && !step.Claim? && !step.Cancel? && step.id == id
    ensures AdvancesAt(s, step, id)
  {
    EntryStepOk(s.entries[id], s.supply, step);
  }

  lemma EntryAfterOk(s: State, step: Step, id: JobId)
    requires id in s.entries && EntryOk(s.entries[id], s.supply)
    ensures AdvancesAt(s, step, id)
  {
    match step
    case Submit(_, _, _, _, _) => UntouchedAt(s, step, id);
    case Claim(id', _, _) => if id' == id { ClaimAt(s, step, id); } else { UntouchedAt(s, step, id); }
    case Cancel(owner, id', expected, _) =>
      if id' == id && CancelOutcome(s, owner, id, expected) == CancelResult.Requested {
        CancelAt(s, step, id);
      } else {
        UntouchedAt(s, step, id);
      }
    case Recover(_) => RecoverAt(s, step, id);
    case _ => if step.id == id { NamedAt(s, step, id); } else { UntouchedAt(s, step, id); }
  }

  lemma StayingIsAMove(e: Entry, supply: nat)
    requires EntryOk(e, supply)
    ensures EntryOk(e, supply + 1) && Advances(e, e, supply)
  {
  }

  lemma MoreSupply(e: Entry, supply: nat, more: nat)
    requires EntryOk(e, supply) && supply <= more
    ensures EntryOk(e, more)
  {
  }

  /** Every job a step finds is still there afterwards and has made at most one move. */
  lemma StepMoves(s: State, step: Step, id: JobId)
    requires RowsOk(s) && id in s.entries
    ensures id in Apply(s, step).entries
    ensures EntryOk(Apply(s, step).entries[id], Apply(s, step).supply)
    ensures Moves(s.entries[id], Apply(s, step).entries[id], s.supply)
    ensures s.supply <= Apply(s, step).supply
  {
    StepAt(s, step, id);
    EntryAfterOk(s, step, id);
    if step.Submit? {
      MoreSupply(s.entries[id], s.supply, Apply(s, step).supply);
    }
  }

  /** Only a submission adds a job, under a fresh id and an unoccupied key. */
  lemma StepAdds(s: State, step: Step, id: JobId)
    requires id in Apply(s, step).entries && id !in s.entries
    ensures step.Submit? && id == s.supply && Apply(s, step).supply == s.supply + 1
    ensures !KeyTaken(s, step.owner, step.kind, step.key)
    ensures Apply(s, step).entries[id] == NewEntry(step.owner, step.kind, step.key, step.now)
  {
    if step.Recover? {
      RecoverStateRows(s, step.now);
    }
  }

  lemma StepKeepsInv(s: State, step: Step)
    requires Inv(s)
    ensures Inv(Apply(s, step))
  {
    var s' := Apply(s, step);
    forall id | id in s'.entries
      ensures id < s'.supply && EntryOk(s'.entries[id], s'.supply)
      ensures id in s.entries ==> Moves(s.entries[id], s'.entries[id], s.supply)
    {
      if id in s.entries {
        StepMoves(s, step, id);
      } else {
        StepAdds(s, step, id);
        NewEntryOk(step.owner, step.kind, step.key, step.now, s'.supply);
      }
    }
    StepKeepsKeys(s, step);
    StepKeepsTokens(s, step);
  }

  lemma StepKeepsKeys(s: State, step: Step)
    requires Inv(s)
    ensures KeysUnique(Apply(s, step))
  {
    var s' := Apply(s, step);
    forall a, b | a in s'.entries && b in s'.entries && a != b
      && OccupiesKey(s'.entries[a], s'.entries[a].job.owner, s'.entries[a].job.kind, s'.entries[a].job.dedupeKey)
      ensures !OccupiesKey(s'.entries[b], s'.entries[a].job.owner, s'.entries[a].job.kind, s'.entries[a].job.dedupeKey)
    {
      if a in s.entries { StepMoves(s, step, a); } else { StepAdds(s, step, a); }
      if b in s.entries { StepMoves(s, step, b); } else { StepAdds(s, step, b); }
    }
  }

  lemma StepKeepsTokens(s: State, step: Step)
    requires Inv(s)
    ensures TokensDistinct(Apply(s, step))
  {
    var s' := Apply(s, step);
    forall a, b, t | a in s'.entries && b in s'.entries && HoldsLease(s'.entries[a].job, t) && HoldsLease(s'.entries[b].job, t)
      ensures a == b
    {
      if a in s.entries { StepMoves(s, step, a); } else { StepAdds(s, step, a); }
      if b in s.entries { StepMoves(s, step, b); } else { StepAdds(s, step, b); }
      if t == s.supply && a != b {
        GainedByClaim(s, step, a);
        GainedByClaim(s, step, b);
      }
    }
  }

  /** The token being drawn is gained only by the job the claim names. */
  lemma GainedByClaim(s: State, step: Step, id: JobId)
    requires RowsOk(s) && id in Apply(s, step).entries && HoldsLease(Apply(s, step).entries[id].job, s.supply)
    ensures step.Claim? && step.id == id
  {
    if id in s.entries {
      StepAt(s, step, id);
      OthersGainNothing(s, step, id);
    } else {
      StepAdds(s, step, id);
    }
  }

  lemma OthersGainNothing(s: State, step: Step, id: JobId)
    requires id in s.entries && EntryOk(s.entries[id], s.supply)
    requires HoldsLease(EntryAfter(s, step, id).job, s.supply)
    ensures step.Claim? && step.id == id
  {
    match step
    case Recover(now) => RecoverOk(s.entries[id], s.supply, now);
    case _ =>
  }

  /** The invariant holds along every run. */
  lemma {:induction false} RunKeepsInv(s: State, steps: seq<Step>)
    requires Inv(s)
    ensures Inv(Run(s, steps))
    decreases |steps|
  {
    if steps != [] {
      StepKeepsInv(s, steps[0]);
      RunKeepsInv(Apply(s, steps[0]), steps[1..]);
    }
  }

  lemma EmptyInv()
    ensures Inv(EMPTY)
  {
  }

  lemma {:induction false} RunEvolves(s: State, steps: seq<Step>, id: JobId)
    requires Inv(s) && id in s.entries
    ensures id in Run(s, steps).entries && Evolves(s.entries[id], Run(s, steps).entries[id])
    ensures s.supply <= Run(s, steps).supply
    decreases |steps|
  {
    if steps != [] {
      var s1 := Apply(s, steps[0]);
      StepMoves(s, steps[0], id);
      StepKeepsInv(s, steps[0]);
      RunEvolves(s1, steps[1..], id);
      EvolvesTransitive(s.entries[id], s1.entries[id], Run(s, steps).entries[id]);
    }
  }
}
