/**
 Agenda generation as what it is, a job: the planning tables of AgendaGeneration beside the job tables of
 JobModel. Attempts at one job may overlap: an attempt is known by the token it drew, reads and computes
 whenever it likes, late ones included, and stores its agenda in the callback of the job's commit, under
 the guard of that commit and in the same transaction.
 */
module AgendaJobs {
  import opened Prelude
  import J = JobModel
  import I = JobInvariant
  import T = JobTheorems
  import A = AgendaGeneration

  const AGENDA_GENERATION: J.Kind := "agenda_generation"

  /** What the job row says of its input: the day, and the revision when it was submitted. */
  datatype Request = Request(date: A.Date, inputRevision: nat)

  /** `stored` lists the jobs that stored an agenda, in that order. */
  datatype System<G, U> = System(
    owner: J.Owner,
    keyOf: Request -> string,
    jobs: J.State,
    requests: map<J.JobId, Request>,
    attempts: map<(J.JobId, J.Token), A.Worker<G, U>>,
    db: A.Db<G, U>,
    stored: seq<J.JobId>
  )

  datatype Step<G, U> =
    | Other(step: J.Step)
    | Ensure(date: A.Date, registry: set<J.Kind>, now: J.Instant)
    | Edit(guarded: G)
    | Drift(open: U)
    | ReadRevision(id: J.JobId, token: J.Token)
    | ReadData(id: J.JobId, token: J.Token)
    | Commit(id: J.JobId, token: J.Token, outcome: J.Outcome, now: J.Instant)

  /** Agenda jobs are submitted and committed by the steps of this module only. */
  predicate Reserved<G, U>(s: System<G, U>, step: J.Step) {
    || (step.Submit? && step.kind == AGENDA_GENERATION)
    || (step.Commit? && step.id in s.requests)
  }

  predicate MayStore<G, U>(s: System<G, U>, id: J.JobId, token: J.Token) {
    && id in s.requests && id in s.jobs.entries && J.MayFinish(s.jobs.entries[id].job, token)
    && (id, token) in s.attempts && s.attempts[(id, token)].Computed?
    && s.db.revision == Some(s.attempts[(id, token)].inputRevision)
  }

  function Submitted<G, U>(s: System<G, U>, request: Request, registry: set<J.Kind>, now: J.Instant): J.State {
    J.SubmitState(s.jobs, s.owner, AGENDA_GENERATION, s.keyOf(request), registry, now)
  }

  function SetAttempt<G, U>(s: System<G, U>, id: J.JobId, token: J.Token, worker: A.Worker<G, U>): System<G, U> {
    s.(attempts := s.attempts[(id, token) := worker])
  }

  function Apply<G, U>(s: System<G, U>, step: Step<G, U>): System<G, U> {
    match step
    case Other(job) => if Reserved(s, job) then s else s.(jobs := J.Apply(s.jobs, job))
    case Ensure(date, registry, now) =>
      var revision := A.RevisionOr0(s.db);
      var jobs := Submitted(s, Request(date, revision), registry, now);
      s.(db := s.db.(revision := Some(revision)),
         jobs := jobs,
         requests := if jobs == s.jobs then s.requests else s.requests[s.jobs.supply := Request(date, revision)])
    case Edit(guarded) => s.(db := s.db.(guarded := guarded, revision := Some(A.RevisionOr0(s.db) + 1)))
    case Drift(open) => s.(db := s.db.(open := open))
    case ReadRevision(id, token) =>
      if id !in s.requests then s
      else SetAttempt(s, id, token, A.Looked(s.requests[id].date, s.requests[id].inputRevision, A.RevisionOr0(s.db)))
    case ReadData(id, token) =>
      if (id, token) !in s.attempts || !s.attempts[(id, token)].Looked? then s else
      var worker := s.attempts[(id, token)];
      SetAttempt(s, id, token, if worker.seen != worker.inputRevision then A.Stale
                               else A.Computed(worker.date, worker.inputRevision, s.db.guarded, s.db.open))
    case Commit(id, token, outcome, now) => if MayStore(s, id, token) then Stores(s, id, token, outcome, now) else s
  }

  /** The job's commit and its callback's agenda, in one transaction. */
  function Stores<G, U>(s: System<G, U>, id: J.JobId, token: J.Token, outcome: J.Outcome, now: J.Instant): System<G, U>
    requires MayStore(s, id, token)
  {
    s.(jobs := J.Apply(s.jobs, J.Commit(id, token, outcome, now)), db := Stored(s, id, token), stored := s.stored + [id])
  }

  /** The planning tables after the attempt has stored its result. */
  function Stored<G, U>(s: System<G, U>, id: J.JobId, token: J.Token): A.Db<G, U>
    requires (id, token) in s.attempts && s.attempts[(id, token)].Computed?
  {
    var worker := s.attempts[(id, token)];
    A.Persist(s.db, worker.date, worker.inputRevision, worker.guarded, worker.open)
  }

  function Run<G, U>(s: System<G, U>, steps: seq<Step<G, U>>): System<G, U>
    decreases |steps|
  {
    if steps == [] then s else Run(Apply(s, steps[0]), steps[1..])
  }

  // ----- the invariant -----

  ghost predicate Initial<G(!new), U(!new)>(s: System<G, U>) {
    && s.jobs == J.EMPTY && s.requests == map[] && s.attempts == map[] && s.stored == [] && s.db.agendas == map[]
    && (forall a, b :: s.keyOf(a) == s.keyOf(b) ==> a == b)
  }

  ghost predicate RequestOk<G(!new), U(!new)>(s: System<G, U>, id: J.JobId) {
    RequestFits(s.owner, s.keyOf, s.jobs, s.requests, s.stored, id)
  }

  /** The job of a request carries its key, and has stored an agenda exactly if it succeeded. */
  ghost predicate RequestFits(owner: J.Owner, keyOf: Request -> string, jobs: J.State, requests: map<J.JobId,
      Request>, stored: seq<J.JobId>, id: J.JobId) {
    && id in requests && id in jobs.entries
    && jobs.entries[id].job.owner == owner && jobs.entries[id].job.kind == AGENDA_GENERATION
    && jobs.entries[id].job.dedupeKey == keyOf(requests[id])
    && (id in stored <==> jobs.entries[id].job.status == J.Succeeded)
  }

  ghost predicate AttemptOk<G(!new), U(!new)>(s: System<G, U>, id: J.JobId, worker: A.Worker<G, U>) {
    && A.WorkerOk(s.db, worker)
    && (A.Underway(worker) ==> id in s.requests && s.requests[id] == Request(worker.date, worker.inputRevision))
  }

  /** The day has an agenda computed at this revision. */
  ghost predicate HasAgenda<G(!new), U(!new)>(db: A.Db<G, U>, date: A.Date, revision: nat) {
    date in db.agendas && exists i: nat :: i < |db.agendas[date].revisions| && db.agendas[date].revisions[i].inputRevision == revision
  }

  ghost predicate HasStorer<G(!new), U(!new)>(s: System<G, U>, request: Request) {
    exists id :: id in s.stored && id in s.requests && s.requests[id] == request
  }

  /** What concerns the job tables and the history only. */
  ghost predicate JobsOk<G(!new), U(!new)>(s: System<G, U>) {
    JobSideOk(s.owner, s.keyOf, s.jobs, s.requests, s.stored)
  }

  ghost predicate JobSideOk(owner: J.Owner, keyOf: Request -> string, jobs: J.State, requests: map<J.JobId, Request>,
      stored: seq<J.JobId>) {
    && I.Inv(jobs)
    && (forall a, b :: keyOf(a) == keyOf(b) ==> a == b)
    && (forall id :: id in requests ==> RequestFits(owner, keyOf, jobs, requests, stored, id))
    && (forall id :: id in stored ==> id in requests)
    && (forall i, j :: 0 <= i < j < |stored| ==> stored[i] != stored[j])
  }

  ghost predicate AttemptsOk<G(!new), U(!new)>(s: System<G, U>) {
    forall a :: a in s.attempts ==> AttemptOk(s, a.0, s.attempts[a])
  }

  /** Every agenda has a job that stored it, and every job that stored has its agenda. */
  ghost predicate AgendasOk<G(!new), U(!new)>(s: System<G, U>) {
    && (forall d :: d in s.db.agendas ==> A.DayOk(s.db, s.db.agendas[d]))
    && (forall d, revision :: HasAgenda(s.db, d, revision) ==> HasStorer(s, Request(d, revision)))
    && (forall id :: id in s.stored ==> id in s.requests && HasAgenda(s.db, s.requests[id].date, s.requests[id].inputRevision))
  }

  ghost predicate Inv<G(!new), U(!new)>(s: System<G, U>) {
    JobsOk(s) && RequestsKnown(s) && AttemptsOk(s) && AgendasOk(s)
  }

  ghost predicate RequestsKnown<G(!new), U(!new)>(s: System<G, U>) {
    forall id :: id in s.requests ==> s.db.revision.Some? && s.requests[id].inputRevision <= s.db.revision.value
  }

  // ----- steps of other jobs -----

  /** A step that does not commit this job leaves its identity, and whether it succeeded, as they were. */
  lemma OtherKeepsRequest(jobs: J.State, step: J.Step, id: J.JobId)
    requires I.Inv(jobs) && id in jobs.entries && !(step.Commit? && step.id == id)
    ensures id in J.Apply(jobs, step).entries
    ensures var job, job' := jobs.entries[id].job, J.Apply(jobs, step).entries[id].job;
            && job'.owner == job.owner && job'.kind == job.kind && job'.dedupeKey == job.dedupeKey
            && (job'.status == J.Succeeded <==> job.status == J.Succeeded)
  {
    I.StepMoves(jobs, step, id);
    T.OnlyTheHolderCommits(jobs, step, id);
  }

  /** The commit ends its own job as succeeded. */
  lemma CommitSucceeds(jobs: J.State, id: J.JobId, token: J.Token, outcome: J.Outcome, now: J.Instant)
    requires I.Inv(jobs) && id in jobs.entries && J.MayFinish(jobs.entries[id].job, token)
    ensures var jobs' := J.Apply(jobs, J.Commit(id, token, outcome, now));
            && I.Inv(jobs') && id in jobs'.entries && jobs'.entries[id].job.status == J.Succeeded
            && jobs'.entries[id].job.owner == jobs.entries[id].job.owner
            && jobs'.entries[id].job.kind == jobs.entries[id].job.kind
            && jobs'.entries[id].job.dedupeKey == jobs.entries[id].job.dedupeKey
  {
    I.StepKeepsInv(jobs, J.Commit(id, token, outcome, now));
  }

  lemma JobStepKeeps<G(!new), U(!new)>(s: System<G, U>, step: J.Step)
    requires JobsOk(s) && !Reserved(s, step)
    ensures JobsOk(s.(jobs := J.Apply(s.jobs, step)))
  {
    I.StepKeepsInv(s.jobs, step);
    var s' := s.(jobs := J.Apply(s.jobs, step));
    forall id | id in s'.requests
      ensures RequestOk(s', id)
    {
      assert RequestOk(s, id);
      OtherKeepsRequest(s.jobs, step, id);
    }
  }

  // ----- submitting -----

  lemma SubmitKeeps<G(!new), U(!new)>(s: System<G, U>, request: Request, registry: set<J.Kind>, now: J.Instant)
    requires JobsOk(s) && Submitted(s, request, registry, now) != s.jobs
    ensures var s' := s.(jobs := Submitted(s, request, registry, now), requests := s.requests[s.jobs.supply := request]);
            JobsOk(s') && s.jobs.supply !in s.requests
  {
    var step := J.Submit(s.owner, AGENDA_GENERATION, s.keyOf(request), registry, now);
    I.StepKeepsInv(s.jobs, step);
    var s' := s.(jobs := Submitted(s, request, registry, now), requests := s.requests[s.jobs.supply := request]);
    assert s.jobs.supply !in s.jobs.entries && s.jobs.supply !in s.requests by {
      assert s.jobs.supply in s.requests ==> RequestOk(s, s.jobs.supply);
    }
    forall id | id in s'.requests
      ensures RequestOk(s', id)
    {
      if id != s.jobs.supply {
        assert RequestOk(s, id);
        OtherKeepsRequest(s.jobs, step, id);
      }
    }
  }

  // ----- storing -----

  /** Two jobs for one day and revision cannot both hold its key. */
  lemma SameRequestSameJob<G(!new), U(!new)>(s: System<G, U>, id: J.JobId, other: J.JobId)
    requires JobsOk(s) && id in s.requests && other in s.requests && s.requests[id] == s.requests[other]
    requires RequestOk(s, id) && RequestOk(s, other)
    requires s.jobs.entries[id].job.status.HoldsKey() && s.jobs.entries[other].job.status.HoldsKey()
    ensures id == other
  {
    var job := s.jobs.entries[id].job;
    assert J.OccupiesKey(s.jobs.entries[id], job.owner, job.kind, job.dedupeKey);
    assert J.OccupiesKey(s.jobs.entries[other], job.owner, job.kind, job.dedupeKey);
  }

  /** The job about to store is the first of its day and revision, whatever attempts and jobs there were. */
  lemma FirstOfItsRevision<G(!new), U(!new)>(s: System<G, U>, id: J.JobId, token: J.Token, i: nat)
    requires Inv(s) && MayStore(s, id, token)
    requires s.requests[id].date in s.db.agendas && i < |s.db.agendas[s.requests[id].date].revisions|
    ensures s.db.agendas[s.requests[id].date].revisions[i].inputRevision < s.requests[id].inputRevision
  {
    var date := s.requests[id].date;
    assert HasAgenda(s.db, date, s.db.agendas[date].revisions[i].inputRevision);
    assert HasStorer(s, Request(date, s.db.agendas[date].revisions[i].inputRevision));
    var other :| other in s.stored && other in s.requests
      && s.requests[other] == Request(date, s.db.agendas[date].revisions[i].inputRevision);
    assert A.AgendaOk(s.db, s.db.agendas[date].revisions[i]);
    assert AttemptOk(s, id, s.attempts[(id, token)]);
    assert RequestOk(s, id) && RequestOk(s, other);
    if s.requests[other] == s.requests[id] {
      SameRequestSameJob(s, id, other);
    }
  }

  lemma StoresForItsRequest<G(!new), U(!new)>(s: System<G, U>, id: J.JobId, token: J.Token)
    requires AttemptsOk(s) && MayStore(s, id, token)
    ensures var worker := s.attempts[(id, token)];
            && s.requests[id] == Request(worker.date, worker.inputRevision)
            && worker.guarded == s.db.guarded && s.db.revision == Some(worker.inputRevision)
    ensures Appended(s.db, Stored(s, id, token), s.requests[id].date, s.requests[id].inputRevision)
  {
    assert AttemptOk(s, id, s.attempts[(id, token)]);
  }

  lemma EarlierAreOlder<G(!new), U(!new)>(s: System<G, U>, id: J.JobId, token: J.Token)
    requires Inv(s) && MayStore(s, id, token) && s.requests[id].date in s.db.agendas
    ensures var day := s.db.agendas[s.requests[id].date];
            forall i :: 0 <= i < |day.revisions| ==> day.revisions[i].inputRevision < s.requests[id].inputRevision
  {
    var day := s.db.agendas[s.requests[id].date];
    forall i | 0 <= i < |day.revisions|
      ensures day.revisions[i].inputRevision < s.requests[id].inputRevision
    {
      FirstOfItsRevision(s, id, token, i);
    }
  }

  lemma AppendedDayOk<G(!new), U(!new)>(db: A.Db<G, U>, date: A.Date, revision: nat, open: U)
    requires db.revision == Some(revision)
    requires date in db.agendas ==> A.DayOk(db, db.agendas[date])
    requires date in db.agendas ==>
               forall i :: 0 <= i < |db.agendas[date].revisions| ==> db.agendas[date].revisions[i].inputRevision < revision
    ensures A.DayOk(A.Persist(db, date, revision, db.guarded, open), A.Persist(db, date, revision, db.guarded, open).agendas[date])
    ensures A.StoredCurrent(A.Persist(db, date, revision, db.guarded, open), date)
  {
    var db' := A.Persist(db, date, revision, db.guarded, open);
    if date in db.agendas {
      A.VersionsMax(db.agendas[date].revisions);
      forall i | 0 <= i < |db.agendas[date].revisions|
        ensures A.AgendaOk(db', db.agendas[date].revisions[i])
      {
        assert A.AgendaOk(db, db.agendas[date].revisions[i]);
      }
    }
  }

  lemma StoreKeepsDay<G(!new), U(!new)>(s: System<G, U>, id: J.JobId, token: J.Token)
    requires Inv(s) && MayStore(s, id, token)
    ensures s.requests[id].date in Stored(s, id, token).agendas
    ensures A.DayOk(Stored(s, id, token), Stored(s, id, token).agendas[s.requests[id].date])
    ensures A.StoredCurrent(Stored(s, id, token), s.requests[id].date)
  {
    StoresForItsRequest(s, id, token);
    if s.requests[id].date in s.db.agendas {
      EarlierAreOlder(s, id, token);
    }
    AppendedDayOk(s.db, s.requests[id].date, s.requests[id].inputRevision, s.attempts[(id, token)].open);
  }

  /** One agenda of this revision is added to the day, and nothing else. */
  ghost predicate Appended<G(!new), U(!new)>(db: A.Db<G, U>, db': A.Db<G, U>, date: A.Date, revision: nat) {
    && db' == db.(agendas := db'.agendas) && db'.agendas.Keys == db.agendas.Keys + {date}
    && (forall d :: d in db.agendas && d != date ==> db'.agendas[d] == db.agendas[d])
    && var before := if date in db.agendas then db.agendas[date].revisions else [];
    && |db'.agendas[date].revisions| == |before| + 1
    && (forall i :: 0 <= i < |before| ==> db'.agendas[date].revisions[i] == before[i])
    && db'.agendas[date].revisions[|before|].inputRevision == revision
  }

  lemma StoreKeepsJobs<G(!new), U(!new)>(s: System<G, U>, id: J.JobId, token: J.Token, outcome: J.Outcome,
      now: J.Instant)
    requires JobsOk(s) && MayStore(s, id, token)
    ensures JobsOk(Stores(s, id, token, outcome, now)) && id !in s.stored
  {
    CommitSucceeds(s.jobs, id, token, outcome, now);
    NotStoredYet(s, id, token);
    CommittedRequests(s, id, token, outcome, now);
    AddStorer(s.owner, s.keyOf, J.Apply(s.jobs, J.Commit(id, token, outcome, now)), s.requests, s.stored, id);
  }

  lemma AddStorer(owner: J.Owner, keyOf: Request -> string, jobs: J.State, requests: map<J.JobId, Request>,
      stored: seq<J.JobId>, id: J.JobId)
    requires I.Inv(jobs) && (forall a, b :: keyOf(a) == keyOf(b) ==> a == b) && id in requests && id !in stored
    requires forall other :: other in stored ==> other in requests
    requires forall i, j :: 0 <= i < j < |stored| ==> stored[i] != stored[j]
    requires forall other :: other in requests ==> RequestFits(owner, keyOf, jobs, requests, stored + [id], other)
    ensures JobSideOk(owner, keyOf, jobs, requests, stored + [id])
  {
  }

  lemma NotStoredYet<G(!new), U(!new)>(s: System<G, U>, id: J.JobId, token: J.Token)
    requires JobsOk(s) && MayStore(s, id, token)
    ensures id !in s.stored
  {
    assert RequestOk(s, id);
  }

  lemma CommittedRequests<G(!new), U(!new)>(s: System<G, U>, id: J.JobId, token: J.Token, outcome: J.Outcome,
      now: J.Instant)
    requires JobsOk(s) && MayStore(s, id, token)
    ensures forall other :: other in s.requests ==> RequestOk(Stores(s, id, token, outcome, now), other)
  {
    forall other | other in s.requests
      ensures RequestOk(Stores(s, id, token, outcome, now), other)
    {
      assert RequestOk(s, other);
      CommittedRequest(s, id, token, outcome, now, other);
    }
  }

  lemma CommittedRequest<G(!new), U(!new)>(s: System<G, U>, id: J.JobId, token: J.Token, outcome: J.Outcome,
      now: J.Instant, other: J.JobId)
    requires I.Inv(s.jobs) && MayStore(s, id, token) && RequestOk(s, other)
    ensures RequestOk(Stores(s, id, token, outcome, now), other)
  {
    if other == id {
      CommitSucceeds(s.jobs, id, token, outcome, now);
    } else {
      OtherKeepsRequest(s.jobs, J.Commit(id, token, outcome, now), other);
    }
  }

  lemma AppendedHas<G(!new), U(!new)>(db: A.Db<G, U>, db': A.Db<G, U>, date: A.Date, revision: nat, d: A.Date, q: nat)
    requires Appended(db, db', date, revision)
    ensures HasAgenda(db', d, q) <==> HasAgenda(db, d, q) || (d == date && q == revision)
  {
    if HasAgenda(db, d, q) {
      var i: nat :| i < |db.agendas[d].revisions| && db.agendas[d].revisions[i].inputRevision == q;
      assert db'.agendas[d].revisions[i].inputRevision == q;
    }
  }

  lemma StorersGrow<G(!new), U(!new)>(s: System<G, U>, s': System<G, U>, request: Request)
    requires HasStorer(s, request) && (forall id :: id in s.stored ==> id in s'.stored)
    requires forall id :: id in s.requests ==> id in s'.requests && s'.requests[id] == s.requests[id]
    ensures HasStorer(s', request)
  {
  }

  lemma StoreKeepsDays<G(!new), U(!new)>(s: System<G, U>, id: J.JobId, token: J.Token)
    requires Inv(s) && MayStore(s, id, token)
    ensures forall d :: d in Stored(s, id, token).agendas ==> A.DayOk(Stored(s, id, token), Stored(s, id, token).agendas[d])
  {
    StoreKeepsDay(s, id, token);
    StoresForItsRequest(s, id, token);
    var db := Stored(s, id, token);
    forall d | d in db.agendas && d != s.requests[id].date
      ensures A.DayOk(db, db.agendas[d])
    {
      DayCarriesOver(s.db, db, s.db.agendas[d]);
    }
  }

  lemma StoreMatches<G(!new), U(!new)>(s: System<G, U>, s': System<G, U>, id: J.JobId)
    requires AgendasOk(s) && id in s.requests && s'.requests == s.requests && s'.stored == s.stored + [id]
    requires Appended(s.db, s'.db, s.requests[id].date, s.requests[id].inputRevision)
    requires forall d :: d in s'.db.agendas ==> A.DayOk(s'.db, s'.db.agendas[d])
    ensures AgendasOk(s')
  {
    var mine := s.requests[id];
    forall d, revision | HasAgenda(s'.db, d, revision)
      ensures HasStorer(s', Request(d, revision))
    {
      AppendedHas(s.db, s'.db, mine.date, mine.inputRevision, d, revision);
      if HasAgenda(s.db, d, revision) {
        StorersGrow(s, s', Request(d, revision));
      } else {
        assert id in s'.stored;
      }
    }
    forall other | other in s'.stored
      ensures other in s'.requests && HasAgenda(s'.db, s'.requests[other].date, s'.requests[other].inputRevision)
    {
      var theirs := s'.requests[if other in s.stored then other else id];
      AppendedHas(s.db, s'.db, mine.date, mine.inputRevision, theirs.date, theirs.inputRevision);
    }
  }

  // ----- every step -----

  /** The planning row only moves forward, and edits of guarded inputs move it. */
  ghost predicate Later<G(!new), U(!new)>(db: A.Db<G, U>, db': A.Db<G, U>) {
    db.revision.Some? ==>
      && db'.revision.Some? && db.revision.value <= db'.revision.value
      && (db.revision == db'.revision ==> db'.guarded == db.guarded)
  }

  lemma DayCarriesOver<G(!new), U(!new)>(db: A.Db<G, U>, db': A.Db<G, U>, day: A.DayAgenda<G, U>)
    requires A.DayOk(db, day) && Later(db, db')
    ensures A.DayOk(db', day)
  {
    forall i | 0 <= i < |day.revisions|
      ensures A.AgendaOk(db', day.revisions[i])
    {
      assert A.AgendaOk(db, day.revisions[i]);
    }
  }

  /** The requests only grow. */
  ghost predicate MoreRequests<G(!new), U(!new)>(s: System<G, U>, s': System<G, U>) {
    forall id :: id in s.requests ==> id in s'.requests && s'.requests[id] == s.requests[id]
  }

  /** New requests, a later revision or other inputs leave what is stored as it is. */
  lemma AgendasCarryOver<G(!new), U(!new)>(s: System<G, U>, s': System<G, U>)
    requires AgendasOk(s) && s'.stored == s.stored && s'.db.agendas == s.db.agendas && MoreRequests(s, s') && Later(s.db, s'.db)
    ensures AgendasOk(s')
  {
    forall d | d in s'.db.agendas
      ensures A.DayOk(s'.db, s'.db.agendas[d])
    {
      DayCarriesOver(s.db, s'.db, s.db.agendas[d]);
    }
    forall d, revision | HasAgenda(s'.db, d, revision)
      ensures HasStorer(s', Request(d, revision))
    {
      assert HasAgenda(s.db, d, revision);
      StorersGrow(s, s', Request(d, revision));
    }
    forall id | id in s'.stored
      ensures id in s'.requests && HasAgenda(s'.db, s'.requests[id].date, s'.requests[id].inputRevision)
    {
      assert HasAgenda(s.db, s.requests[id].date, s.requests[id].inputRevision);
    }
  }

  lemma AttemptsCarryOver<G(!new), U(!new)>(s: System<G, U>, s': System<G, U>)
    requires AttemptsOk(s) && s'.attempts == s.attempts && MoreRequests(s, s') && Later(s.db, s'.db)
    ensures AttemptsOk(s')
  {
    forall a | a in s'.attempts
      ensures AttemptOk(s', a.0, s'.attempts[a])
    {
      assert AttemptOk(s, a.0, s.attempts[a]);
    }
  }

  lemma StepKeepsInv<G(!new), U(!new)>(s: System<G, U>, step: Step<G, U>)
    requires Inv(s)
    ensures Inv(Apply(s, step))
  {
    match step
    case Other(job) => if !Reserved(s, job) { OtherKeepsInv(s, job); }
    case Ensure(date, registry, now) => EnsureKeepsInv(s, date, registry, now);
    case Edit(_) => InputsKeepInv(s, Apply(s, step));
    case Drift(_) => InputsKeepInv(s, Apply(s, step));
    case ReadRevision(id, token) => AttemptKeepsInv(s, step);
    case ReadData(id, token) => AttemptKeepsInv(s, step);
    case Commit(id, token, outcome, now) => if MayStore(s, id, token) { CommitKeepsInv(s, id, token, outcome, now); }
  }

  lemma OtherKeepsInv<G(!new), U(!new)>(s: System<G, U>, job: J.Step)
    requires Inv(s) && !Reserved(s, job)
    ensures Inv(Apply(s, Other(job)))
  {
    var s' := s.(jobs := J.Apply(s.jobs, job));
    JobStepKeeps(s, job);
    AgendasCarryOver(s, s');
    AttemptsCarryOver(s, s');
  }

  lemma EnsureKeepsInv<G(!new), U(!new)>(s: System<G, U>, date: A.Date, registry: set<J.Kind>, now: J.Instant)
    requires Inv(s)
    ensures Inv(Apply(s, Ensure(date, registry, now)))
  {
    var request := Request(date, A.RevisionOr0(s.db));
    var known := s.(db := s.db.(revision := Some(A.RevisionOr0(s.db))));
    InputsKeepInv(s, known);
    if Submitted(s, request, registry, now) != s.jobs {
      NewJobKeepsInv(known, request, registry, now);
    } else {
      assert Apply(s, Ensure(date, registry, now)) == known;
    }
  }

  lemma NewJobKeepsInv<G(!new), U(!new)>(s: System<G, U>, request: Request, registry: set<J.Kind>, now: J.Instant)
    requires Inv(s) && s.db.revision == Some(request.inputRevision) && Submitted(s, request, registry, now) != s.jobs
    ensures Inv(s.(jobs := Submitted(s, request, registry, now), requests := s.requests[s.jobs.supply := request]))
  {
    SubmitKeeps(s, request, registry, now);
    NewRequestKeepsRest(s, Submitted(s, request, registry, now), s.jobs.supply, request);
  }

  lemma NewRequestKeepsRest<G(!new), U(!new)>(s: System<G, U>, jobs: J.State, id: J.JobId, request: Request)
    requires RequestsKnown(s) && AttemptsOk(s) && AgendasOk(s) && id !in s.requests && s.db.revision == Some(request.inputRevision)
    ensures var s' := s.(jobs := jobs, requests := s.requests[id := request]);
            RequestsKnown(s') && AttemptsOk(s') && AgendasOk(s')
  {
    var s' := s.(jobs := jobs, requests := s.requests[id := request]);
    AgendasCarryOver(s, s');
    AttemptsCarryOver(s, s');
  }

  /** Changes of the planning inputs, and the planning row coming into being. */
  lemma InputsKeepInv<G(!new), U(!new)>(s: System<G, U>, s': System<G, U>)
    requires Inv(s) && s' == s.(db := s'.db) && s'.db.agendas == s.db.agendas && Later(s.db, s'.db)
    ensures Inv(s')
  {
    AgendasCarryOver(s, s');
    AttemptsCarryOver(s, s');
  }

  lemma AttemptKeepsInv<G(!new), U(!new)>(s: System<G, U>, step: Step<G, U>)
    requires Inv(s) && (step.ReadRevision? || step.ReadData?)
    ensures Inv(Apply(s, step))
  {
    var s' := Apply(s, step);
    AttemptStepOk(s, step);
    AgendasCarryOver(s, s');
  }

  lemma AttemptStepOk<G(!new), U(!new)>(s: System<G, U>, step: Step<G, U>)
    requires AttemptsOk(s) && RequestsKnown(s) && (step.ReadRevision? || step.ReadData?)
    ensures AttemptsOk(Apply(s, step))
  {
    var s' := Apply(s, step);
    forall a | a in s'.attempts
      ensures AttemptOk(s', a.0, s'.attempts[a])
    {
      if a in s.attempts {
        assert AttemptOk(s, a.0, s.attempts[a]);
      }
    }
  }

  lemma CommitKeepsInv<G(!new), U(!new)>(s: System<G, U>, id: J.JobId, token: J.Token, outcome: J.Outcome,
      now: J.Instant)
    requires Inv(s) && MayStore(s, id, token)
    ensures Inv(Stores(s, id, token, outcome, now))
  {
    StoreKeepsJobs(s, id, token, outcome, now);
    StoreKeepsDays(s, id, token);
    StoreKeepsRest(s, id, token, outcome, now);
  }

  lemma StoreKeepsRest<G(!new), U(!new)>(s: System<G, U>, id: J.JobId, token: J.Token, outcome: J.Outcome,
      now: J.Instant)
    requires RequestsKnown(s) && AttemptsOk(s) && AgendasOk(s) && MayStore(s, id, token)
    requires forall d :: d in Stored(s, id, token).agendas ==> A.DayOk(Stored(s, id, token), Stored(s, id, token).agendas[d])
    ensures var s' := Stores(s, id, token, outcome, now);
            RequestsKnown(s') && AttemptsOk(s') && AgendasOk(s')
  {
    var s' := Stores(s, id, token, outcome, now);
    StoresForItsRequest(s, id, token);
    StoreMatches(s, s', id);
    AttemptsCarryOver(s, s');
  }

  lemma {:induction false} RunKeepsInv<G(!new), U(!new)>(s: System<G, U>, steps: seq<Step<G, U>>)
    requires Inv(s)
    ensures Inv(Run(s, steps))
    decreases |steps|
  {
    if steps != [] {
      StepKeepsInv(s, steps[0]);
      RunKeepsInv(Apply(s, steps[0]), steps[1..]);
    }
  }

  lemma InitialKeeps<G(!new), U(!new)>(s: System<G, U>)
    requires Initial(s)
    ensures Inv(s)
  {
    I.EmptyInv();
  }

  // ----- one agenda per job -----

  /** This job stored the i-th agenda of the day. */
  ghost predicate StoredAs<G(!new), U(!new)>(s: System<G, U>, id: J.JobId, date: A.Date, i: nat) {
    && id in s.stored && id in s.requests
    && date in s.db.agendas && i < |s.db.agendas[date].revisions|
    && s.requests[id] == Request(date, s.db.agendas[date].revisions[i].inputRevision)
  }

  ghost predicate OnlyStoredAs<G(!new), U(!new)>(s: System<G, U>, id: J.JobId, date: A.Date, i: nat) {
    forall d, j: nat :: StoredAs(s, id, d, j) ==> j == i && d == date
  }

  /** A job has stored one agenda of its day, and no other. */
  ghost predicate StoresOne<G(!new), U(!new)>(s: System<G, U>, id: J.JobId)
    requires id in s.requests
  {
    exists i: nat :: StoredAs(s, id, s.requests[id].date, i) && OnlyStoredAs(s, id, s.requests[id].date, i)
  }

  lemma StorerStoresOne<G(!new), U(!new)>(s: System<G, U>, id: J.JobId)
    requires AgendasOk(s) && id in s.stored && id in s.requests
    ensures StoresOne(s, id)
  {
    var request := s.requests[id];
    assert HasAgenda(s.db, request.date, request.inputRevision);
    var revisions := s.db.agendas[request.date].revisions;
    var i: nat :| i < |revisions| && revisions[i].inputRevision == request.inputRevision;
    assert StoredAs(s, id, request.date, i);
    forall d, j: nat | StoredAs(s, id, d, j)
      ensures j == i && d == request.date
    {
      RevisionsTellApart(s, request.date, i, j);
    }
    assert OnlyStoredAs(s, id, request.date, i);
  }

  /**
   Whatever attempts overlap, crash or come late: an agenda job that succeeded has stored exactly one
   agenda, of its own day and revision, and one that did not has stored none.
   */
  lemma OneAgendaPerJob<G(!new), U(!new)>(s: System<G, U>, steps: seq<Step<G, U>>, id: J.JobId)
    requires Initial(s) && id in Run(s, steps).requests
    ensures id in Run(s, steps).jobs.entries
    ensures Run(s, steps).jobs.entries[id].job.status == J.Succeeded ==> StoresOne(Run(s, steps), id)
    ensures Run(s, steps).jobs.entries[id].job.status != J.Succeeded ==>
              forall d, i: nat :: !StoredAs(Run(s, steps), id, d, i)
  {
    InitialKeeps(s);
    RunKeepsInv(s, steps);
    SucceededStores(Run(s, steps), id);
  }

  lemma SucceededStores<G(!new), U(!new)>(s: System<G, U>, id: J.JobId)
    requires Inv(s) && id in s.requests
    ensures id in s.jobs.entries
    ensures s.jobs.entries[id].job.status == J.Succeeded ==> StoresOne(s, id)
    ensures s.jobs.entries[id].job.status != J.Succeeded ==> id !in s.stored
  {
    assert RequestOk(s, id);
    if id in s.stored {
      StorerStoresOne(s, id);
    }
  }

  lemma RevisionsTellApart<G(!new), U(!new)>(s: System<G, U>, date: A.Date, i: nat, j: nat)
    requires AgendasOk(s) && date in s.db.agendas && i < |s.db.agendas[date].revisions| && j < |s.db.agendas[date].revisions|
    requires s.db.agendas[date].revisions[i].inputRevision == s.db.agendas[date].revisions[j].inputRevision
    ensures i == j
  {
    assert A.DayOk(s.db, s.db.agendas[date]);
  }

  /** And every stored agenda was stored by exactly one job, which succeeded. */
  lemma OneJobPerAgenda<G(!new), U(!new)>(s: System<G, U>, steps: seq<Step<G, U>>, date: A.Date, i: nat)
    requires Initial(s) && date in Run(s, steps).db.agendas && i < |Run(s, steps).db.agendas[date].revisions|
    ensures exists id :: SucceededAs(Run(s, steps), id, date, i)
    ensures forall id, other :: StoredAs(Run(s, steps), id, date, i) && StoredAs(Run(s, steps), other, date, i) ==> id == other
  {
    InitialKeeps(s);
    RunKeepsInv(s, steps);
    var end := Run(s, steps);
    AgendaHasStorer(end, date, i);
    forall id, other | StoredAs(end, id, date, i) && StoredAs(end, other, date, i)
      ensures id == other
    {
      StorersAgree(end, id, other);
    }
  }

  ghost predicate SucceededAs<G(!new), U(!new)>(s: System<G, U>, id: J.JobId, date: A.Date, i: nat) {
    StoredAs(s, id, date, i) && id in s.jobs.entries && s.jobs.entries[id].job.status == J.Succeeded
  }

  lemma AgendaHasStorer<G(!new), U(!new)>(s: System<G, U>, date: A.Date, i: nat)
    requires Inv(s) && date in s.db.agendas && i < |s.db.agendas[date].revisions|
    ensures exists id :: SucceededAs(s, id, date, i)
  {
    var request := Request(date, s.db.agendas[date].revisions[i].inputRevision);
    assert HasAgenda(s.db, date, request.inputRevision);
    assert HasStorer(s, request);
    var id :| id in s.stored && id in s.requests && s.requests[id] == request;
    assert RequestOk(s, id);
    assert SucceededAs(s, id, date, i);
  }

  lemma StorersAgree<G(!new), U(!new)>(s: System<G, U>, id: J.JobId, other: J.JobId)
    requires JobsOk(s) && id in s.stored && other in s.stored && id in s.requests && other in s.requests
    requires s.requests[id] == s.requests[other]
    ensures id == other
  {
    assert RequestOk(s, id) && RequestOk(s, other);
    SameRequestSameJob(s, id, other);
  }

  ghost predicate Reachable<G(!new), U(!new)>(s: System<G, U>) {
    exists start: System<G, U>, steps: seq<Step<G, U>> :: Initial(start) && Run(start, steps) == s
  }

  lemma ReachableInv<G(!new), U(!new)>(s: System<G, U>)
    requires Reachable(s)
    ensures Inv(s)
  {
    var start: System<G, U>, steps: seq<Step<G, U>> :| Initial(start) && Run(start, steps) == s;
    InitialKeeps(start);
    RunKeepsInv(start, steps);
  }

  /** The job succeeded, and the day's agenda in force is that of the guarded inputs as they are now. */
  ghost predicate StoredAndSucceeded<G(!new), U(!new)>(s: System<G, U>, id: J.JobId, date: A.Date) {
    && A.StoredCurrent(s.db, date)
    && id in s.jobs.entries && s.jobs.entries[id].job.status == J.Succeeded
  }

  /** In every reachable state: the attempt that stores, of however many, commits its job and stores the agenda
      of the guarded inputs as they are then. */
  lemma OverlappingAttemptsStoreCurrent<G(!new), U(!new)>(s: System<G, U>, id: J.JobId, token: J.Token,
      outcome: J.Outcome, now: J.Instant)
    requires Reachable(s) && MayStore(s, id, token)
    ensures StoredAndSucceeded(Apply(s, Commit(id, token, outcome, now)), id, s.requests[id].date)
  {
    ReachableInv(s);
    StoringEnds(s, id, token, outcome, now);
    CommitStores(s, id, token, outcome, now);
  }

  lemma CommitStores<G(!new), U(!new)>(s: System<G, U>, id: J.JobId, token: J.Token, outcome: J.Outcome, now: J.Instant)
    requires MayStore(s, id, token)
    ensures Apply(s, Commit(id, token, outcome, now)) == Stores(s, id, token, outcome, now)
  {
  }

  lemma StoringEnds<G(!new), U(!new)>(s: System<G, U>, id: J.JobId, token: J.Token, outcome: J.Outcome, now: J.Instant)
    requires Inv(s) && MayStore(s, id, token)
    ensures StoredAndSucceeded(Stores(s, id, token, outcome, now), id, s.requests[id].date)
  {
    StoreKeepsDay(s, id, token);
    CommitSucceeds(s.jobs, id, token, outcome, now);
  }

  // ----- an attempt that is left alone -----

  /** What an attempt knows after reading the revision and then the data at once. */
  ghost predicate HasRead<G(!new), U(!new)>(s: System<G, U>, t: System<G, U>, id: J.JobId, token: J.Token)
    requires id in s.requests
  {
    && t == s.(attempts := t.attempts) && (id, token) in t.attempts
    && t.attempts[(id, token)]
       == if s.db.revision == Some(s.requests[id].inputRevision)
          then A.Computed(s.requests[id].date, s.requests[id].inputRevision, s.db.guarded, s.db.open)
          else A.Stale
  }

  lemma ReadsAtOnce<G(!new), U(!new)>(s: System<G, U>, id: J.JobId, token: J.Token)
    requires RequestsKnown(s) && id in s.requests
    ensures HasRead(s, Apply(Apply(s, ReadRevision(id, token)), ReadData(id, token)), id, token)
  {
  }

  /** The job succeeded, and an agenda of the inputs as they are was stored for it. */
  ghost predicate StoresNow<G(!new), U(!new)>(s: System<G, U>, t: System<G, U>, id: J.JobId)
    requires id in s.requests
  {
    && id in t.jobs.entries && t.jobs.entries[id].job.status == J.Succeeded && t.stored == s.stored + [id]
    && A.Adds(s.db, t.db, s.requests[id].date, s.requests[id].inputRevision)
  }

  ghost predicate StoresNothing<G(!new), U(!new)>(s: System<G, U>, t: System<G, U>) {
    t.jobs == s.jobs && t.stored == s.stored && t.db == s.db
  }

  lemma MayStoreExactly<G(!new), U(!new)>(s: System<G, U>, t: System<G, U>, id: J.JobId, token: J.Token)
    requires id in s.requests && id in s.jobs.entries && J.MayFinish(s.jobs.entries[id].job, token)
    requires HasRead(s, t, id, token)
    ensures MayStore(t, id, token) <==> s.db.revision == Some(s.requests[id].inputRevision)
  {
  }

  lemma StoredIsAdded<G(!new), U(!new)>(s: System<G, U>, t: System<G, U>, id: J.JobId, token: J.Token)
    requires HasDay(s, id) && HasRead(s, t, id, token) && MayStore(t, id, token)
    ensures A.Adds(s.db, Stored(t, id, token), s.requests[id].date, s.requests[id].inputRevision)
  {
    A.PersistAdds(s.db, s.requests[id].date, s.requests[id].inputRevision);
  }

  lemma StoresWhatItRead<G(!new), U(!new)>(s: System<G, U>, t: System<G, U>, id: J.JobId, token: J.Token,
      outcome: J.Outcome, now: J.Instant)
    requires HasDay(s, id) && HasRead(s, t, id, token) && MayStore(t, id, token) && I.Inv(t.jobs)
    ensures StoresNow(s, Stores(t, id, token, outcome, now), id)
  {
    StoredIsAdded(s, t, id, token);
    CommitSucceeds(t.jobs, id, token, outcome, now);
  }

  lemma CommitIs<G(!new), U(!new)>(t: System<G, U>, id: J.JobId, token: J.Token, outcome: J.Outcome, now: J.Instant)
    ensures Apply(t, Commit(id, token, outcome, now)) == if MayStore(t, id, token) then Stores(t, id, token, outcome, now) else t
  {
  }

  lemma CommitsWhatItRead<G(!new), U(!new)>(s: System<G, U>, t: System<G, U>, id: J.JobId, token: J.Token,
      outcome: J.Outcome, now: J.Instant)
    requires HasDay(s, id) && id in s.jobs.entries && I.Inv(s.jobs) && J.MayFinish(s.jobs.entries[id].job, token)
    requires HasRead(s, t, id, token)
    ensures if s.db.revision == Some(s.requests[id].inputRevision)
            then StoresNow(s, Apply(t, Commit(id, token, outcome, now)), id)
            else StoresNothing(s, Apply(t, Commit(id, token, outcome, now)))
  {
    MayStoreExactly(s, t, id, token);
    CommitIs(t, id, token, outcome, now);
    if MayStore(t, id, token) {
      StoresWhatItRead(s, t, id, token, outcome, now);
    }
  }

  ghost predicate HasDay<G(!new), U(!new)>(s: System<G, U>, id: J.JobId) {
    && id in s.requests
    && (s.requests[id].date in s.db.agendas ==> A.DayOk(s.db, s.db.agendas[s.requests[id].date]))
  }

  /** An attempt that holds the job and is left alone stores an agenda of the inputs as they are, and ends the job as
      succeeded, if and only if the job was submitted at the current revision; otherwise it stores nothing. */
  lemma UndisturbedAttemptStores<G(!new), U(!new)>(s: System<G, U>, id: J.JobId, token: J.Token, outcome: J.Outcome,
      now: J.Instant)
    requires Inv(s) && id in s.requests && id in s.jobs.entries && J.MayFinish(s.jobs.entries[id].job, token)
    ensures var t := Apply(Apply(Apply(s, ReadRevision(id, token)), ReadData(id, token)), Commit(id, token, outcome, now));
            if s.db.revision == Some(s.requests[id].inputRevision) then StoresNow(s, t, id) else StoresNothing(s, t)
  {
    ReadsAtOnce(s, id, token);
    CommitsWhatItRead(s, Apply(Apply(s, ReadRevision(id, token)), ReadData(id, token)), id, token, outcome, now);
  }
}
