/**
 Optimistic agenda generation (scheduling/jobs.py, scheduling/service.py). A job carries the planning
 revision it was submitted at; its worker reads the revision, then the data, in two separate read
 transactions, computes outside any transaction, and re-checks the revision inside the commit.

 `G` stands for the inputs whose every writer bumps the planning revision (preferences, availability,
 overrides, constraints, link edges), `U` for the others (goal and task status, for instance).
 */
module AgendaGeneration {
  import opened Prelude

  type Date = int
  type WorkerId = nat

  /** A stored plan, by the inputs it was computed from; the engine is a function of them. */
  datatype Agenda<G, U> = Agenda(version: nat, inputRevision: nat, guarded: G, open: U)

  /** The stable identity of a day's agenda: all revisions, and which one is in force. */
  datatype DayAgenda<G, U> = DayAgenda(revisions: seq<Agenda<G, U>>, current: nat)

  /** `revision` is None until the owner's planning row exists. */
  datatype Db<G, U> = Db(revision: Option<nat>, guarded: G, open: U, agendas: map<Date, DayAgenda<G, U>>)

  datatype Worker<G, U> =
    | Submitted(date: Date, inputRevision: nat)
    | Looked(date: Date, inputRevision: nat, seen: nat)
    | Computed(date: Date, inputRevision: nat, guarded: G, open: U)
    | Stale
    | GivenUp
    | Persisted(date: Date, inputRevision: nat)

  datatype State<G, U> = State(db: Db<G, U>, workers: map<WorkerId, Worker<G, U>>)

  /** `Retry` is an attempt that failed or crashed and will be run again from the start; `GiveUp` ends the
      job as failed or cancelled. */
  datatype Step<G, U> =
    | Edit(guarded: G)
    | Drift(open: U)
    | Ensure(worker: WorkerId, date: Date)
    | ReadRevision(worker: WorkerId)
    | ReadData(worker: WorkerId)
    | Commit(worker: WorkerId)
    | Retry(worker: WorkerId)
    | GiveUp(worker: WorkerId)

  predicate Underway<G, U>(worker: Worker<G, U>) {
    worker.Submitted? || worker.Looked? || worker.Computed?
  }

  /** The job occupies the dedupe key `date:revision`: it is under way or succeeded. */
  predicate HoldsKey<G, U>(worker: Worker<G, U>, date: Date, revision: nat) {
    (Underway(worker) || worker.Persisted?) && worker.date == date && worker.inputRevision == revision
  }

  predicate KeyTaken<G, U>(s: State<G, U>, date: Date, revision: nat) {
    exists w :: w in s.workers && HoldsKey(s.workers[w], date, revision)
  }

  function RevisionOr0(db: Db): nat {
    if db.revision.Some? then db.revision.value else 0
  }

  function MaxVersion<G, U>(revisions: seq<Agenda<G, U>>): nat {
    if revisions == [] then 0 else
    Max(MaxVersion(revisions[..|revisions| - 1]), revisions[|revisions| - 1].version)
  }

  /** persist_agenda: a new revision with the next version number, and the pointer moved to it. */
  function Persist<G, U>(db: Db<G, U>, date: Date, inputRevision: nat, guarded: G, open: U): Db<G, U> {
    var day := if date in db.agendas then db.agendas[date] else DayAgenda([], 0);
    var version := MaxVersion(day.revisions) + 1;
    db.(agendas := db.agendas[date := DayAgenda(day.revisions + [Agenda(version, inputRevision, guarded, open)], version)])
  }

  function SetWorker<G, U>(s: State<G, U>, w: WorkerId, worker: Worker<G, U>): State<G, U> {
    s.(workers := s.workers[w := worker])
  }

  /** May this worker's result be stored now? */
  predicate MayPersist<G, U>(s: State<G, U>, w: WorkerId) {
    w in s.workers && s.workers[w].Computed? && s.db.revision == Some(s.workers[w].inputRevision)
  }

  function Apply<G, U>(s: State<G, U>, step: Step<G, U>): State<G, U> {
    match step
    case Edit(guarded) => s.(db := s.db.(guarded := guarded, revision := Some(RevisionOr0(s.db) + 1)))
    case Drift(open) => s.(db := s.db.(open := open))
    case Ensure(w, date) =>
      var s' := s.(db := s.db.(revision := Some(RevisionOr0(s.db))));
      if w in s.workers then s
      else if KeyTaken(s, date, RevisionOr0(s.db)) then s'
      else SetWorker(s', w, Submitted(date, RevisionOr0(s.db)))
    case ReadRevision(w) =>
      if w !in s.workers || !s.workers[w].Submitted? then s else
      SetWorker(s, w, Looked(s.workers[w].date, s.workers[w].inputRevision, RevisionOr0(s.db)))
    case ReadData(w) =>
      if w !in s.workers || !s.workers[w].Looked? then s else
      var worker := s.workers[w];
      SetWorker(s, w, if worker.seen != worker.inputRevision then Stale
                      else Computed(worker.date, worker.inputRevision, s.db.guarded, s.db.open))
    case Commit(w) =>
      if w !in s.workers || !s.workers[w].Computed? then s
      else if !MayPersist(s, w) then SetWorker(s, w, Stale)
      else var worker := s.workers[w];
           SetWorker(s.(db := Persist(s.db, worker.date, worker.inputRevision, worker.guarded, worker.open)), w,
                     Persisted(worker.date, worker.inputRevision))
    case Retry(w) =>
      if w !in s.workers || !Underway(s.workers[w]) then s else
      SetWorker(s, w, Submitted(s.workers[w].date, s.workers[w].inputRevision))
    case GiveUp(w) => if w !in s.workers || !Underway(s.workers[w]) then s else SetWorker(s, w, GivenUp)
  }

  function Run<G, U>(s: State<G, U>, steps: seq<Step<G, U>>): State<G, U>
    decreases |steps|
  {
    if steps == [] then s else Run(Apply(s, steps[0]), steps[1..])
  }

  ghost predicate Initial<G(!new), U(!new)>(s: State<G, U>) {
    s.db.agendas == map[] && s.workers == map[]
  }

  // ----- the invariant -----

  /** A result is only ever as old as its input revision. */
  ghost predicate WorkerOk<G(!new), U(!new)>(db: Db<G, U>, worker: Worker<G, U>) {
    match worker
    case Submitted(_, r) => db.revision.Some? && r <= db.revision.value
    case Looked(_, r, seen) => db.revision.Some? && r <= seen <= db.revision.value
    case Computed(_, r, guarded, _) =>
      db.revision.Some? && r <= db.revision.value && (r == db.revision.value ==> guarded == db.guarded)
    case _ => true
  }

  ghost predicate AgendaOk<G(!new), U(!new)>(db: Db<G, U>, a: Agenda<G, U>) {
    db.revision.Some? && a.inputRevision <= db.revision.value
    && (a.inputRevision == db.revision.value ==> a.guarded == db.guarded)
  }

  ghost predicate DayOk<G(!new), U(!new)>(db: Db<G, U>, day: DayAgenda<G, U>) {
    && day.revisions != [] && day.current == |day.revisions|
    && (forall i :: 0 <= i < |day.revisions| ==> day.revisions[i].version == i + 1)
    && (forall i :: 0 <= i < |day.revisions| ==> AgendaOk(db, day.revisions[i]))
    && (forall i, j :: 0 <= i < j < |day.revisions| ==> day.revisions[i].inputRevision < day.revisions[j].inputRevision)
  }

  /** No two jobs of a day and revision: the dedupe key, which JobInvariant proves unique, names both. */
  ghost predicate KeysDistinct<G(!new), U(!new)>(workers: map<WorkerId, Worker<G, U>>) {
    forall v, w :: v in workers && w in workers && v != w && (Underway(workers[v]) || workers[v].Persisted?)
      ==> !HoldsKey(workers[w], workers[v].date, workers[v].inputRevision)
  }

  ghost predicate PersistedBy<G(!new), U(!new)>(workers: map<WorkerId, Worker<G, U>>, date: Date, revision: nat) {
    exists w :: w in workers && workers[w] == Persisted(date, revision)
  }

  /** Every stored agenda was stored by a job that still holds its key. */
  ghost predicate AllPersisted<G(!new), U(!new)>(s: State<G, U>) {
    forall d, i :: d in s.db.agendas && 0 <= i < |s.db.agendas[d].revisions| ==>
      PersistedBy(s.workers, d, s.db.agendas[d].revisions[i].inputRevision)
  }

  ghost predicate Inv<G(!new), U(!new)>(s: State<G, U>) {
    && (forall w :: w in s.workers ==> WorkerOk(s.db, s.workers[w]))
    && (forall d :: d in s.db.agendas ==> DayOk(s.db, s.db.agendas[d]))
    && KeysDistinct(s.workers) && AllPersisted(s)
  }

  lemma {:induction false} VersionsMax<G, U>(revisions: seq<Agenda<G, U>>)
    requires forall i :: 0 <= i < |revisions| ==> revisions[i].version == i + 1
    ensures MaxVersion(revisions) == |revisions|
  {
    if revisions != [] {
      VersionsMax(revisions[..|revisions| - 1]);
    }
  }

  /** A job about to store is the first to do so for its day and revision. */
  lemma FirstOfItsRevision<G(!new), U(!new)>(s: State<G, U>, w: WorkerId, i: nat)
    requires Inv(s) && MayPersist(s, w)
    requires s.workers[w].date in s.db.agendas && i < |s.db.agendas[s.workers[w].date].revisions|
    ensures s.db.agendas[s.workers[w].date].revisions[i].inputRevision < s.workers[w].inputRevision
  {
    var day := s.db.agendas[s.workers[w].date];
    assert AgendaOk(s.db, day.revisions[i]);
    assert PersistedBy(s.workers, s.workers[w].date, day.revisions[i].inputRevision);
  }

  lemma PersistKeepsDays<G(!new), U(!new)>(s: State<G, U>, w: WorkerId)
    requires Inv(s) && MayPersist(s, w)
    ensures var worker := s.workers[w];
            var db := Persist(s.db, worker.date, worker.inputRevision, worker.guarded, worker.open);
            && DayOk(db, db.agendas[worker.date])
            && db.agendas[worker.date].revisions[|db.agendas[worker.date].revisions| - 1].guarded == s.db.guarded
  {
    var worker := s.workers[w];
    if worker.date in s.db.agendas {
      var day := s.db.agendas[worker.date];
      VersionsMax(day.revisions);
      forall i | 0 <= i < |day.revisions|
        ensures day.revisions[i].inputRevision < worker.inputRevision && AgendaOk(s.db, day.revisions[i])
      {
        FirstOfItsRevision(s, w, i);
      }
    }
  }

  lemma StepKeepsTables<G(!new), U(!new)>(s: State<G, U>, step: Step<G, U>)
    requires Inv(s)
    ensures var s' := Apply(s, step);
            && (forall w :: w in s'.workers ==> WorkerOk(s'.db, s'.workers[w]))
            && (forall d :: d in s'.db.agendas ==> DayOk(s'.db, s'.db.agendas[d]))
  {
    if step.Commit? && MayPersist(s, step.worker) {
      PersistKeepsDays(s, step.worker);
    }
  }

  /** A worker that goes on under its own key, or gives it up, takes it from nobody. */
  lemma OwnKeyKept<G(!new), U(!new)>(workers: map<WorkerId, Worker<G, U>>, w: WorkerId, worker: Worker<G, U>)
    requires KeysDistinct(workers) && w in workers && Underway(workers[w])
    requires Underway(worker) || worker.Persisted? ==>
               worker.date == workers[w].date && worker.inputRevision == workers[w].inputRevision
    ensures KeysDistinct(workers[w := worker])
  {
  }

  lemma FreeKeyTaken<G(!new), U(!new)>(workers: map<WorkerId, Worker<G, U>>, w: WorkerId, date: Date, revision: nat)
    requires KeysDistinct(workers) && forall v :: v in workers ==> !HoldsKey(workers[v], date, revision)
    ensures KeysDistinct(workers[w := Submitted(date, revision)])
  {
  }

  lemma StepKeepsKeys<G(!new), U(!new)>(s: State<G, U>, step: Step<G, U>)
    requires KeysDistinct(s.workers)
    ensures KeysDistinct(Apply(s, step).workers)
  {
    match step
    case Edit(_) =>
    case Drift(_) =>
    case Ensure(w, date) =>
      if w !in s.workers && !KeyTaken(s, date, RevisionOr0(s.db)) {
        FreeKeyTaken(s.workers, w, date, RevisionOr0(s.db));
      }
    case _ =>
      var w := step.worker;
      if Apply(s, step).workers != s.workers {
        OwnKeyKept(s.workers, w, Apply(s, step).workers[w]);
      }
  }

  lemma StepKeepsPersisted<G(!new), U(!new)>(s: State<G, U>, step: Step<G, U>, date: Date, revision: nat)
    requires PersistedBy(s.workers, date, revision)
    ensures PersistedBy(Apply(s, step).workers, date, revision)
  {
    var w :| w in s.workers && s.workers[w] == Persisted(date, revision);
    assert w in Apply(s, step).workers && Apply(s, step).workers[w] == Persisted(date, revision);
  }

  lemma StepKeepsAllPersisted<G(!new), U(!new)>(s: State<G, U>, step: Step<G, U>)
    requires AllPersisted(s)
    ensures AllPersisted(Apply(s, step))
  {
    var s' := Apply(s, step);
    forall d, i | d in s'.db.agendas && 0 <= i < |s'.db.agendas[d].revisions|
      ensures PersistedBy(s'.workers, d, s'.db.agendas[d].revisions[i].inputRevision)
    {
      if d in s.db.agendas && i < |s.db.agendas[d].revisions| {
        StepKeepsPersisted(s, step, d, s.db.agendas[d].revisions[i].inputRevision);
      } else {
        assert step.Commit? && s'.workers[step.worker] == Persisted(d, s'.db.agendas[d].revisions[i].inputRevision);
      }
    }
  }

  lemma StepKeepsInv<G(!new), U(!new)>(s: State<G, U>, step: Step<G, U>)
    requires Inv(s)
    ensures Inv(Apply(s, step))
  {
    StepKeepsTables(s, step);
    StepKeepsKeys(s, step);
    StepKeepsAllPersisted(s, step);
  }

  lemma {:induction false} RunKeepsInv<G(!new), U(!new)>(s: State<G, U>, steps: seq<Step<G, U>>)
    requires Inv(s)
    ensures Inv(Run(s, steps))
    decreases |steps|
  {
    if steps != [] {
      StepKeepsInv(s, steps[0]);
      RunKeepsInv(Apply(s, steps[0]), steps[1..]);
    }
  }

  // ----- what a stored agenda means -----

  /** Whatever interleaved before, an agenda that is stored was computed from the guarded inputs exactly as
      they stand at its commit. */
  lemma CommitStoresCurrentInputs<G(!new), U(!new)>(s: State<G, U>, steps: seq<Step<G, U>>, w: WorkerId)
    requires Initial(s) && MayPersist(Run(s, steps), w)
    ensures var before, after := Run(s, steps), Apply(Run(s, steps), Commit(w));
            var date := before.workers[w].date;
            && after.workers[w] == Persisted(date, before.workers[w].inputRevision) && date in after.db.agendas
            && var day := after.db.agendas[date];
               && day.revisions[|day.revisions| - 1].guarded == before.db.guarded
               && day.revisions[|day.revisions| - 1].version == day.current == |day.revisions|
  {
    RunKeepsInv(s, steps);
    PersistKeepsDays(Run(s, steps), w);
  }

  /** An agenda whose input revision is the current planning revision still stands for the current guarded
      inputs, at any later time; that is the comparison a reader of the agenda can make. No two agendas of a day have the same input
      revision, however often attempts are repeated. */
  lemma EqualRevisionMeansCurrent<G(!new), U(!new)>(s: State<G, U>, steps: seq<Step<G, U>>, date: Date, i: nat)
    requires Initial(s) && date in Run(s, steps).db.agendas && i < |Run(s, steps).db.agendas[date].revisions|
    ensures var t := Run(s, steps);
            var a := t.db.agendas[date].revisions[i];
            && t.db.revision.Some? && a.inputRevision <= t.db.revision.value
            && (a.inputRevision == t.db.revision.value ==> a.guarded == t.db.guarded)
            && a.version == i + 1 && t.db.agendas[date].current == |t.db.agendas[date].revisions|
            && forall j :: 0 <= j < i ==> t.db.agendas[date].revisions[j].inputRevision < a.inputRevision
  {
    RunKeepsInv(s, steps);
  }

  /** A worker whose inputs were edited after its job was submitted never stores anything. */
  lemma {:induction false} EditedInputsGoStale<G(!new), U(!new)>(s: State<G, U>, steps: seq<Step<G, U>>, w: WorkerId)
    requires Inv(s) && w in s.workers && s.db.revision.Some?
    requires Underway(s.workers[w])
    requires s.workers[w].inputRevision < s.db.revision.value
    ensures w in Run(s, steps).workers && !Run(s, steps).workers[w].Persisted?
    decreases |steps|
  {
    if steps != [] {
      StepKeepsInv(s, steps[0]);
      var s1 := Apply(s, steps[0]);
      EditedStepStoresNothing(s, steps[0], w);
      if !Underway(s1.workers[w]) {
        Settled(s1, steps[1..], w);
      } else {
        EditedInputsGoStale(s1, steps[1..], w);
      }
    }
  }

  lemma EditedStepStoresNothing<G(!new), U(!new)>(s: State<G, U>, step: Step<G, U>, w: WorkerId)
    requires w in s.workers && s.db.revision.Some? && Underway(s.workers[w]) && s.workers[w].inputRevision < s.db.revision.value
    ensures var s' := Apply(s, step);
            && w in s'.workers && !s'.workers[w].Persisted? && s'.db.revision.Some?
            && (Underway(s'.workers[w]) ==> s'.workers[w].inputRevision < s'.db.revision.value)
  {
  }

  // ----- an attempt that is left alone -----

  /** The day has one more agenda, in force, of these inputs; its earlier ones and all other days are as before. */
  ghost predicate Adds<G(!new), U(!new)>(db: Db<G, U>, db': Db<G, U>, date: Date, inputRevision: nat) {
    && db'.revision == db.revision && db'.guarded == db.guarded && db'.open == db.open
    && date in db'.agendas && db'.agendas.Keys == db.agendas.Keys + {date}
    && (forall d :: d in db.agendas && d != date ==> db'.agendas[d] == db.agendas[d])
    && var before, day := if date in db.agendas then db.agendas[date].revisions else [], db'.agendas[date];
       && |day.revisions| == |before| + 1 == day.current && before <= day.revisions
       && day.revisions[|before|] == Agenda(|before| + 1, inputRevision, db.guarded, db.open)
  }

  lemma PersistAdds<G(!new), U(!new)>(db: Db<G, U>, date: Date, inputRevision: nat)
    requires date in db.agendas ==> DayOk(db, db.agendas[date])
    ensures Adds(db, Persist(db, date, inputRevision, db.guarded, db.open), date, inputRevision)
  {
    if date in db.agendas {
      VersionsMax(db.agendas[date].revisions);
    }
  }

  /** Nobody interferes: the attempt stores an agenda of the inputs as they are if and only if its job was submitted
      at the current revision; otherwise it ends stale and stores nothing. */
  lemma UndisturbedStores<G(!new), U(!new)>(s: State<G, U>, w: WorkerId)
    requires Inv(s) && w in s.workers && s.workers[w].Submitted?
    ensures var t := Apply(Apply(Apply(s, ReadRevision(w)), ReadData(w)), Commit(w));
            var job := s.workers[w];
            && w in t.workers
            && if s.db.revision == Some(job.inputRevision)
               then t.workers[w] == Persisted(job.date, job.inputRevision) && Adds(s.db, t.db, job.date, job.inputRevision)
               else t.workers[w] == Stale && t.db == s.db
  {
    PersistAdds(s.db, s.workers[w].date, s.workers[w].inputRevision);
  }

  // ----- unguarded inputs -----

  /** The unguarded inputs a stored agenda used may be out of date the moment it is stored: a status change
      between the data read and the commit goes unnoticed. */
  lemma UnguardedInputsMayBeOld<G(!new), U(!new)>(guarded: G, before: U, after: U)
    requires before != after
    ensures var s := State(Db(None, guarded, before, map[]), map[]);
            var t := Run(s, [Ensure(0, 0), ReadRevision(0), ReadData(0), Drift(after), Commit(0)]);
            && 0 in t.workers && t.workers[0].Persisted? && t.db.open == after && 0 in t.db.agendas
            && |t.db.agendas[0].revisions| == 1 && t.db.agendas[0].revisions[0].open == before
  {
    var s := State(Db(None, guarded, before, map[]), map[]);
    var s1 := Apply(s, Ensure(0, 0));
    var s2 := Apply(s1, ReadRevision(0));
    var s3 := Apply(s2, ReadData(0));
    var s4 := Apply(s3, Drift(after));
    var s5 := Apply(s4, Commit(0));
    var steps: seq<Step<G, U>> := [Ensure(0, 0), ReadRevision(0), ReadData(0), Drift(after), Commit(0)];
    assert steps[1..] == [ReadRevision(0), ReadData(0), Drift(after), Commit(0)];
    assert steps[1..][1..] == [ReadData(0), Drift(after), Commit(0)];
    assert steps[1..][1..][1..] == [Drift(after), Commit(0)];
    assert steps[1..][1..][1..][1..] == [Commit(0)];
    assert Run(s, steps) == Run(s1, steps[1..]) == Run(s2, steps[1..][1..]) == Run(s3, steps[1..][1..][1..]);
    assert Run(s3, steps[1..][1..][1..]) == Run(s4, [Commit(0)]) == Run(s5, []) == s5;
  }

  lemma {:induction false} RunSnoc<G, U>(s: State<G, U>, steps: seq<Step<G, U>>)
    requires steps != []
    ensures Run(s, steps) == Apply(Run(s, steps[..|steps| - 1]), steps[|steps| - 1])
    decreases |steps|
  {
    if |steps| > 1 {
      RunSnoc(Apply(s, steps[0]), steps[1..]);
      assert steps[..|steps| - 1][1..] == steps[1..][..|steps| - 2];
    }
  }

  /** The k-th step is the read that the worker's present result comes from. */
  ghost predicate ReadAt<G(!new), U(!new)>(s: State<G, U>, steps: seq<Step<G, U>>, w: WorkerId, k: nat) {
    && k < |steps| && steps[k] == ReadData(w)
    && w in Run(s, steps).workers && Run(s, steps).workers[w].Computed?
    && Run(s, steps).workers[w].guarded == Run(s, steps[..k]).db.guarded
    && Run(s, steps).workers[w].open == Run(s, steps[..k]).db.open
    && forall m :: k < m <= |steps| ==> w in Run(s, steps[..m]).workers && Run(s, steps[..m]).workers[w] == Run(s, steps).workers[w]
  }

  /** The inputs of a result, guarded or not, are those of one single read, of the attempt that is still
      under way, whatever happened since and however many attempts there were before. */
  lemma {:induction false} UnguardedInputsAreThoseRead<G(!new), U(!new)>(s: State<G, U>, steps: seq<Step<G, U>>,
      w: WorkerId)
    requires (w in s.workers ==> !s.workers[w].Computed?) && w in Run(s, steps).workers && Run(s, steps).workers[w].Computed?
    ensures exists k: nat :: ReadAt(s, steps, w, k)
    decreases |steps|
  {
    var n := |steps| - 1;
    var front, last := steps[..n], steps[n];
    RunSnoc(s, steps);
    assert steps[..|steps|] == steps;
    var before := Run(s, front);
    if last == ReadData(w) && w in before.workers && before.workers[w].Looked? {
      assert ReadAt(s, steps, w, n);
    } else {
      assert w in before.workers && before.workers[w] == Run(s, steps).workers[w];
      UnguardedInputsAreThoseRead(s, front, w);
      var k: nat :| ReadAt(s, front, w, k);
      assert forall m :: 0 <= m <= n ==> front[..m] == steps[..m];
      assert ReadAt(s, steps, w, k);
    }
  }

  /**
   So a stored agenda carries the unguarded inputs of one read of the attempt that stored it, and they are
   current when it is stored exactly if nothing has changed them since that read.
   */
  lemma StoredUnguardedInputs<G(!new), U(!new)>(s: State<G, U>, steps: seq<Step<G, U>>, w: WorkerId)
    requires Initial(s) && MayPersist(Run(s, steps), w)
    ensures exists k: nat :: ReadAt(s, steps, w, k) && StoresTheRead(Run(s, steps), w, Run(s, steps[..k]).db.open)
  {
    UnguardedInputsAreThoseRead(s, steps, w);
    var k: nat :| ReadAt(s, steps, w, k);
    assert StoresTheRead(Run(s, steps), w, Run(s, steps[..k]).db.open);
  }

  /** What the commit stores as unguarded inputs is what was read, and it is current exactly if that still stands. */
  ghost predicate StoresTheRead<G(!new), U(!new)>(s: State<G, U>, w: WorkerId, read: U)
    requires MayPersist(s, w)
  {
    var day := Apply(s, Commit(w)).db.agendas[s.workers[w].date];
    && day.revisions != []
    && day.revisions[|day.revisions| - 1].open == read
    && (day.revisions[|day.revisions| - 1].open == Apply(s, Commit(w)).db.open <==> read == s.db.open)
  }

  lemma {:induction false} Settled<G, U>(s: State<G, U>, steps: seq<Step<G, U>>, w: WorkerId)
    requires w in s.workers && !Underway(s.workers[w])
    ensures w in Run(s, steps).workers && Run(s, steps).workers[w] == s.workers[w]
    decreases |steps|
  {
    if steps != [] {
      Settled(Apply(s, steps[0]), steps[1..], w);
    }
  }

  // ----- the handler, with everybody else's steps in between -----

  class PlanningDb<G(!new), U(!new)> {
    var state: State<G, U>

    constructor (guarded: G, open: U)
      ensures state == State(Db(None, guarded, open, map[]), map[])
    {
      state := State(Db(None, guarded, open, map[]), map[]);
    }

    /** The others move, but nobody else drives this worker. */
    method Interfere(steps: seq<Step<G, U>>, w: WorkerId)
      requires Inv(state) && w in state.workers
      requires forall i :: 0 <= i < |steps| ==> Foreign(steps[i], w)
      modifies this
      ensures Inv(state) && w in state.workers && state.workers[w] == old(state.workers[w])
    {
      RunKeepsInv(state, steps);
      ForeignKeepsWorker(state, steps, w);
      state := Run(state, steps);
    }

    /** generate_agenda and its commit closure for a submitted job. True iff an agenda was stored; then it
        was computed from the guarded inputs of that very moment. Otherwise the worker ends stale. */
    method GenerateAgenda(w: WorkerId, before: seq<Step<G, U>>, between: seq<Step<G, U>>, after: seq<Step<G, U>>)
      returns (stored: bool)
      requires Inv(state) && w in state.workers && state.workers[w].Submitted?
      requires forall i :: 0 <= i < |before| ==> Foreign(before[i], w)
      requires forall i :: 0 <= i < |between| ==> Foreign(between[i], w)
      requires forall i :: 0 <= i < |after| ==> Foreign(after[i], w)
      modifies this
      ensures Inv(state) && w in state.workers
      ensures stored <==> state.workers[w].Persisted?
      ensures !stored <==> state.workers[w] == Stale
      ensures stored ==> StoredCurrent(state.db, old(state.workers[w].date))
    {
      var job := state.workers[w];
      Interfere(before, w);
      StepKeepsInv(state, ReadRevision(w));
      state := Apply(state, ReadRevision(w));
      Interfere(between, w);
      StepKeepsInv(state, ReadData(w));
      state := Apply(state, ReadData(w));
      if state.workers[w].Stale? {
        return false;
      }
      Interfere(after, w);
      stored := CommitResult(w);
    }

    /** The commit closure: re-check the revision, then store. */
    method CommitResult(w: WorkerId) returns (stored: bool)
      requires Inv(state) && w in state.workers && state.workers[w].Computed?
      modifies this
      ensures Inv(state) && w in state.workers
      ensures stored <==> state.workers[w].Persisted?
      ensures !stored <==> state.workers[w] == Stale
      ensures stored ==> StoredCurrent(state.db, old(state.workers[w].date))
    {
      StepKeepsInv(state, Commit(w));
      stored := MayPersist(state, w);
      if stored {
        PersistKeepsDays(state, w);
      }
      state := Apply(state, Commit(w));
    }
  }

  /** The agenda in force for the day was computed from the guarded inputs as they are now, at their revision. */
  ghost predicate StoredCurrent<G(!new), U(!new)>(db: Db<G, U>, date: Date) {
    && date in db.agendas
    && var day := db.agendas[date];
    && 1 <= day.current == |day.revisions|
    && day.revisions[day.current - 1].guarded == db.guarded
    && Some(day.revisions[day.current - 1].inputRevision) == db.revision
  }

  predicate Foreign<G, U>(step: Step<G, U>, w: WorkerId) {
    (step.ReadRevision? || step.ReadData? || step.Commit? || step.Retry? || step.GiveUp?) ==> step.worker != w
  }

  lemma {:induction false} ForeignKeepsWorker<G, U>(s: State<G, U>, steps: seq<Step<G, U>>, w: WorkerId)
    requires w in s.workers && forall i :: 0 <= i < |steps| ==> Foreign(steps[i], w)
    ensures w in Run(s, steps).workers && Run(s, steps).workers[w] == s.workers[w]
    decreases |steps|
  {
    if steps != [] {
      assert Foreign(steps[0], w);
      ForeignKeepsWorker(Apply(s, steps[0]), steps[1..], w);
    }
  }

  /** Whatever the others do between an attempt's two reads: it computes, from the inputs of the second, exactly if
      the revision at the first was that of its job; otherwise it is stale at once. */
  lemma ComputesExactly<G(!new), U(!new)>(s: State<G, U>, between: seq<Step<G, U>>, w: WorkerId)
    requires w in s.workers && s.workers[w].Submitted?
    requires forall i :: 0 <= i < |between| ==> Foreign(between[i], w)
    ensures var second := Run(Apply(s, ReadRevision(w)), between);
            var t, job := Apply(second, ReadData(w)), s.workers[w];
            && w in t.workers && t.db == second.db
            && t.workers[w] == if RevisionOr0(s.db) == job.inputRevision
                               then Computed(job.date, job.inputRevision, second.db.guarded, second.db.open)
                               else Stale
  {
    ForeignKeepsWorker(Apply(s, ReadRevision(w)), between, w);
  }
}
