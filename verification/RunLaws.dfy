/** What every history of runs keeps. */
module RunLaws {
  import opened Results
  import opened Runs

  // ---- admission ----------------------------------------------------------

  /** A job takes another run exactly when it is not over, or when the run it restarts from ended in a way that
      lets it be restarted. */
  lemma {:induction false} AdmitsExactly(r: Repo, job: Id, mode: Mode, from: Option<Id>, now: int)
    requires job in r.jobs
    ensures Admit(r, job, mode, from, now).Ok? <==>
            var s := r.jobs[job].status;
            || s.JobDraft? || s.Queued? || s.JobRunning?
            || (from.Some? && from.value in r.runs && var was := r.runs[from.value].status;
                || (s.JobSucceeded? && mode.Resume? && was.RunSucceeded?)
                || (s.JobFailed? && mode.Retry? && was.RunFailed?)
                || (s.JobFailed? && mode.Resume? && RetryableFailure(r, from.value)))
  {
  }

  /** An admitted run is on a live job, as its active run, and every job move made on the way is legal. */
  lemma {:induction false} AdmittedRunsAreLive(r: Repo, job: Id, mode: Mode, from: Option<Id>, now: int)
    requires Admit(r, job, mode, from, now).Ok? && r.nextId !in r.runs
    ensures var s := Admit(r, job, mode, from, now).value;
            && s.runs.Keys == r.runs.Keys + {r.nextId} && (forall i <- r.runs :: s.runs[i] == r.runs[i])
            && s.runs[r.nextId].status.Admitted? && s.runs[r.nextId].job == job
            && s.jobs.Keys == r.jobs.Keys && s.jobs[job].active == Some(r.nextId)
            && (s.jobs[job].status.Queued? || s.jobs[job].status.JobRunning?)
            && (s.jobs[job].status == r.jobs[job].status || JobMoves(r.jobs[job].status, s.jobs[job].status))
  {
  }

  // ---- the invariant ------------------------------------------------------

  predicate Distinct(order: seq<Id>) {
    forall j, k :: 0 <= j < k < |order| ==> order[j] != order[k]
  }

  predicate OriginsOk(r: Repo, m: map<Id, Origin>) {
    forall k <- m :: m[k].run.None? || m[k].run.value in r.runs
  }

  predicate ActiveOk(r: Repo, job: Id)
    requires job in r.jobs
  {
    var a := r.jobs[job].active;
    a.None? || (a.value in r.runs && r.runs[a.value].job == job)
  }

  predicate Ordered(r: Repo) {
    && Distinct(r.order)
    && (forall i <- r.order :: i in r.runs)
    && (forall i <- r.runs :: i in r.order)
  }

  predicate RowsOk(r: Repo) {
    && Ordered(r)
    && (forall i <- r.runs :: i < r.nextId && r.runs[i].job in r.jobs)
    && (forall j <- r.jobs :: j < r.nextId && ActiveOk(r, j))
  }

  predicate PointersOk(r: Repo) {
    OriginsOk(r, r.artifacts) && OriginsOk(r, r.videos) && OriginsOk(r, r.invocations)
  }

  /** The live runs are those admitted and not deleted, under the job and attempt they were admitted with. */
  predicate AdmittedOk(w: World) {
    && w.deleted <= w.admitted.Keys && w.r.runs.Keys == w.admitted.Keys - w.deleted
    && (forall i <- w.r.runs :: w.r.runs[i].job == w.admitted[i].job && w.r.runs[i].attempt == w.admitted[i].attempt)
  }

  predicate Over(s: RunStatus) { Deletable(s) || s.Cancelling? }

  /** Deleted runs are gone for good, and a run whose start raised is over or being cancelled. */
  predicate MemoryOk(w: World) {
    && (forall i <- w.r.runs :: i < w.r.nextId && !w.r.runs[i].status.RunCreated?)
    && (forall i <- w.deleted :: i < w.r.nextId && i !in w.r.runs)
    && (forall i <- w.raised :: i < w.r.nextId && (i in w.r.runs ==> Over(w.r.runs[i].status)))
  }

  predicate TablesOk(w: World) { RowsOk(w.r) && PointersOk(w.r) && MemoryOk(w) }

  predicate Inv(w: World) { TablesOk(w) && AdmittedOk(w) }

  // ---- lists of runs ------------------------------------------------------

  lemma {:induction false} WithoutHas(order: seq<Id>, run: Id)
    requires Distinct(order)
    ensures Distinct(Without(order, run)) && forall i :: i in Without(order, run) <==> i in order && i != run
  {
    if order != [] {
      var front, last := order[..|order| - 1], order[|order| - 1];
      WithoutHas(front, run);
      assert order == front + [last] && last !in front;
      var rest := Without(front, run);
      assert last !in rest;
      if last != run { assert Distinct(rest + [last]); }
    }
  }

  lemma {:induction false} NewestIs(r: Repo, order: seq<Id>, job: Id)
    ensures var n := Newest(r, order, job);
            if n.Some? then
              && n.value in order && n.value in r.runs && r.runs[n.value].job == job
              && forall i <- order :: i in r.runs && r.runs[i].job == job ==> r.runs[i].created <= r.runs[n.value].created
            else forall i <- order :: i in r.runs ==> r.runs[i].job != job
  {
    if order != [] {
      NewestIs(r, order[..|order| - 1], job);
      assert order == order[..|order| - 1] + [order[|order| - 1]];
    }
  }

  // ---- preservation -------------------------------------------------------

  /** Only statuses, nodes and ids used up differ. */
  predicate SameShape(r: Repo, s: Repo) {
    && s.runs.Keys == r.runs.Keys && (forall i <- r.runs :: s.runs[i].job == r.runs[i].job)
    && s.jobs.Keys == r.jobs.Keys && (forall j <- r.jobs :: s.jobs[j].active == r.jobs[j].active)
    && s.order == r.order && s.nextId == r.nextId
    && s.artifacts == r.artifacts && s.videos == r.videos && s.invocations == r.invocations
  }

  lemma {:induction false} SameShapeKeeps(r: Repo, s: Repo)
    requires RowsOk(r) && PointersOk(r) && SameShape(r, s)
    ensures RowsOk(s) && PointersOk(s)
  {
    assert Ordered(s);
    forall j | j in s.jobs ensures ActiveOk(s, j) {
      assert ActiveOk(r, j);
    }
  }

  lemma {:induction false} FailJobShape(r: Repo, job: Id)
    ensures SameShape(r, FailJob(r, job)) && FailJob(r, job).runs == r.runs
  {
  }

  lemma {:induction false} CompensateShape(r: Repo, run: Id)
    requires run in r.runs
    ensures SameShape(r, Compensate(r, run))
    ensures forall i <- r.runs :: Compensate(r, run).runs[i].status ==
              if i == run && RunMoves(r.runs[i].status, RunFailed) then RunFailed else r.runs[i].status
  {
    if RunMoves(r.runs[run].status, RunFailed) {
      FailJobShape(r.(runs := r.runs[run := r.runs[run].(status := RunFailed)]), r.runs[run].job);
    }
  }

  lemma {:induction false} RaiseMemory(w: World, run: Id)
    requires MemoryOk(w) && run in w.r.runs
    ensures MemoryOk(Step(w, Raise(run)))
  {
    CompensateShape(w.r, run);
  }

  lemma {:induction false} MoveMemory(w: World, run: Id, to: RunStatus)
    requires MemoryOk(w)
    ensures MemoryOk(Step(w, MoveRun(run, to))) && SameShape(w.r, Step(w, MoveRun(run, to)).r)
  {
  }

  lemma {:induction false} StatusEvents(w: World, e: Event)
    requires e.Raise? || e.MoveRun? || e.MoveJob? || e.FinishNode?
    requires MemoryOk(w)
    ensures SameShape(w.r, Step(w, e).r) && MemoryOk(Step(w, e))
  {
    match e
    case Raise(run) =>
      if run in w.r.runs {
        CompensateShape(w.r, run);
        RaiseMemory(w, run);
      }
    case MoveRun(run, to) => MoveMemory(w, run, to);
    case _ =>
  }

  lemma {:induction false} CreateKeeps(w: World)
    requires TablesOk(w)
    ensures TablesOk(Step(w, CreateJob))
  {
    var r, s := w.r, Step(w, CreateJob).r;
    assert s.jobs == r.jobs[r.nextId := Job(JobDraft, None)];
    assert Ordered(s);
    forall j | j in s.jobs ensures j < s.nextId && ActiveOk(s, j) {
      if j != r.nextId { assert j < r.nextId && ActiveOk(r, j); }
    }
    forall i | i in s.runs ensures i < s.nextId && s.runs[i].job in s.jobs {
      assert r.runs[i].job in r.jobs;
    }
  }

  lemma {:induction false} StartRows(r: Repo, job: Id, mode: Mode, from: Option<Id>, now: int)
    requires RowsOk(r) && PointersOk(r) && Admit(r, job, mode, from, now).Ok?
    ensures var s := Admit(r, job, mode, from, now).value; RowsOk(s) && PointersOk(s)
  {
    var s := Admit(r, job, mode, from, now).value;
    assert s.order[|r.order|] == r.nextId;
    assert r.nextId !in r.runs && r.nextId !in r.order;
    assert Ordered(s);
    forall j | j in s.jobs ensures j < s.nextId && ActiveOk(s, j) {
      if j != job { assert ActiveOk(r, j); }
    }
  }

  lemma {:induction false} StartKeeps(w: World, job: Id, mode: Mode, from: Option<Id>, now: int)
    requires TablesOk(w)
    ensures TablesOk(Step(w, Start(job, mode, from, now)))
  {
    if Admit(w.r, job, mode, from, now).Ok? { StartRows(w.r, job, mode, from, now); }
  }

  lemma {:induction false} ProduceKeeps(w: World, t: Table, id: Id, o: Origin)
    requires TablesOk(w)
    ensures TablesOk(Step(w, Produce(t, id, o)))
  {
    var s := Step(w, Produce(t, id, o)).r;
    assert Ordered(s);
    forall j | j in s.jobs ensures ActiveOk(s, j) {
      assert ActiveOk(w.r, j);
    }
  }

  lemma {:induction false} RemoveRows(r: Repo, run: Id)
    requires RowsOk(r) && run in r.runs
    ensures RowsOk(Remove(r, run))
  {
    var s := Remaining(r, run);
    var t := Remove(r, run);
    var job := r.runs[run].job;
    WithoutHas(r.order, run);
    NewestIs(s, s.order, job);
    assert t.runs == s.runs && t.order == s.order;
    assert Ordered(t);
    forall i | i in t.runs ensures i < t.nextId && t.runs[i].job in t.jobs {
      assert i in r.order && i in s.order;
    }
    forall j | j in t.jobs ensures j < t.nextId && ActiveOk(t, j) {
      if j != job { assert ActiveOk(r, j); }
    }
  }

  lemma {:induction false} RemovePointers(r: Repo, run: Id)
    requires PointersOk(r) && run in r.runs
    ensures PointersOk(Remove(r, run))
  {
  }

  lemma {:induction false} RemoveRuns(r: Repo, run: Id)
    requires run in r.runs
    ensures Remove(r, run).runs == r.runs - {run} && Remove(r, run).order == Without(r.order, run)
  {
  }

  lemma {:induction false} DeleteMemory(w: World, run: Id)
    requires MemoryOk(w) && Delete(w.r, run).Ok?
    ensures MemoryOk(Step(w, DeleteRun(run)))
  {
    RemoveRuns(w.r, run);
    assert Remove(w.r, run).nextId == w.r.nextId;
  }

  lemma {:induction false} DeleteKeeps(w: World, run: Id)
    requires TablesOk(w)
    ensures TablesOk(Step(w, DeleteRun(run)))
  {
    if Delete(w.r, run).Ok? {
      RemoveRows(w.r, run);
      RemovePointers(w.r, run);
      DeleteMemory(w, run);
    }
  }

  lemma {:induction false} TablesKeep(w: World, e: Event)
    requires TablesOk(w)
    ensures TablesOk(Step(w, e))
  {
    match e
    case CreateJob => CreateKeeps(w);
    case Start(job, mode, from, now) => StartKeeps(w, job, mode, from, now);
    case Produce(t, id, o) => ProduceKeeps(w, t, id, o);
    case DeleteRun(run) => DeleteKeeps(w, run);
    case _ =>
      StatusEvents(w, e);
      SameShapeKeeps(w.r, Step(w, e).r);
  }

  lemma {:induction false} CompensateFrame(r: Repo, run: Id)
    requires run in r.runs
    ensures var s := Compensate(r, run);
            s.order == r.order && s.runs.Keys == r.runs.Keys
            && forall i <- r.runs :: s.runs[i].job == r.runs[i].job && s.runs[i].attempt == r.runs[i].attempt
  {
    if RunMoves(r.runs[run].status, RunFailed) {
      FailJobShape(r.(runs := r.runs[run := r.runs[run].(status := RunFailed)]), r.runs[run].job);
    }
  }

  /** Other events leave the runs, their jobs and their attempts. */
  lemma {:induction false} OthersFrame(w: World, e: Event)
    requires !e.Start? && !e.DeleteRun?
    ensures var r, s := w.r, Step(w, e).r;
            s.order == r.order && s.runs.Keys == r.runs.Keys
            && forall i <- r.runs :: s.runs[i].job == r.runs[i].job && s.runs[i].attempt == r.runs[i].attempt
    ensures Step(w, e).admitted == w.admitted && Step(w, e).deleted == w.deleted
  {
    if e.Raise? && e.run in w.r.runs { CompensateFrame(w.r, e.run); }
  }

  lemma {:induction false} DeleteAdmitted(w: World, run: Id)
    requires AdmittedOk(w) && Delete(w.r, run).Ok?
    ensures AdmittedOk(Step(w, DeleteRun(run)))
  {
    var s := Step(w, DeleteRun(run));
    assert s.r.runs == w.r.runs - {run};
    assert s.deleted == w.deleted + {run} && s.admitted == w.admitted;
  }

  lemma {:induction false} StartAdmitted(w: World, job: Id, mode: Mode, from: Option<Id>, now: int)
    requires AdmittedOk(w) && MemoryOk(w) && Admit(w.r, job, mode, from, now).Ok?
    ensures AdmittedOk(Step(w, Start(job, mode, from, now)))
  {
    var s, id := Step(w, Start(job, mode, from, now)), w.r.nextId;
    assert id !in w.deleted && s.deleted == w.deleted;
    assert s.r.runs.Keys == w.r.runs.Keys + {id} && s.admitted == w.admitted[id := s.r.runs[id]];
    assert forall i <- w.r.runs :: i != id && s.r.runs[i] == w.r.runs[i];
  }

  lemma {:induction false} AdmittedKeeps(w: World, e: Event)
    requires Inv(w)
    ensures AdmittedOk(Step(w, e))
  {
    match e
    case Start(job, mode, from, now) => if Admit(w.r, job, mode, from, now).Ok? { StartAdmitted(w, job, mode, from, now); }
    case DeleteRun(run) => if Delete(w.r, run).Ok? { DeleteAdmitted(w, run); }
    case _ => OthersFrame(w, e);
  }

  lemma {:induction false} HistoriesKeep(es: seq<Event>)
    ensures Inv(RunEvents(Empty(), es))
  {
    if es != [] {
      HistoriesKeep(es[..|es| - 1]);
      TablesKeep(RunEvents(Empty(), es[..|es| - 1]), es[|es| - 1]);
      AdmittedKeeps(RunEvents(Empty(), es[..|es| - 1]), es[|es| - 1]);
    }
  }

  predicate NamesNone(m: map<Id, Origin>, deleted: set<Id>) {
    forall k <- m :: m[k].run.Some? ==> m[k].run.value !in deleted
  }

  /** Whatever is admitted, started, raised, driven and deleted, in any order: a run whose start call raised is
      never left admitted or running, every job's active run is none or an existing run of that job, and no
      artifact, finished video or provider invocation names a deleted run. */
  lemma {:induction false} HistoriesAreSound(es: seq<Event>)
    ensures var w := RunEvents(Empty(), es);
            && (forall i <- w.raised :: i in w.r.runs ==> Over(w.r.runs[i].status))
            && (forall j <- w.r.jobs :: ActiveOk(w.r, j))
            && NamesNone(w.r.artifacts, w.deleted) && NamesNone(w.r.videos, w.deleted) && NamesNone(w.r.invocations, w.deleted)
  {
    HistoriesKeep(es);
  }

  // ---- failed jobs --------------------------------------------------------

  predicate LiveRun(r: Repo, i: Id, job: Id) { i in r.runs && r.runs[i].job == job && !Over(r.runs[i].status) }

  /** Compensation for this run fails its job too. */
  predicate FailsJob(r: Repo, run: Id) {
    && run in r.runs && RunMoves(r.runs[run].status, RunFailed)
    && r.runs[run].job in r.jobs && JobMoves(r.jobs[r.runs[run].job].status, JobFailed)
  }

  /** A job failed by a start that raised has a live run exactly when it had another one. */
  lemma {:induction false} FailedJobHasLiveRunExactly(r: Repo, run: Id)
    requires FailsJob(r, run)
    ensures var s, job := Compensate(r, run), r.runs[run].job;
            && s.jobs[job].status.JobFailed?
            && ((exists i :: LiveRun(s, i, job)) <==> exists i :: i != run && LiveRun(r, i, job))
  {
    var s, job := Compensate(r, run), r.runs[run].job;
    CompensateShape(r, run);
    if i :| LiveRun(s, i, job) { assert LiveRun(r, i, job); }
    if i :| i != run && LiveRun(r, i, job) { assert LiveRun(s, i, job); }
  }

  /** So it is at every point of every history: the start of a run raises, its job is failed, and the job is left
      with a live run exactly when another run of the job was live. */
  lemma {:induction false} RaiseLeavesLiveRunExactly(es: seq<Event>, run: Id)
    requires FailsJob(RunEvents(Empty(), es).r, run)
    ensures var r, s := RunEvents(Empty(), es).r, RunEvents(Empty(), es + [Raise(run)]).r; var job := r.runs[run].job;
            && s.jobs[job].status.JobFailed?
            && ((exists i :: LiveRun(s, i, job)) <==> exists i :: i != run && LiveRun(r, i, job))
  {
    assert (es + [Raise(run)])[..|es|] == es;
    FailedJobHasLiveRunExactly(RunEvents(Empty(), es).r, run);
  }

  /** Admission on a running job and a failed start leave a failed job with a live run. */
  lemma {:induction false} FailedJobCanHaveLiveRun(r: Repo, job: Id, live: Id, mode: Mode, from: Option<Id>, now: int)
    requires RowsOk(r) && job in r.jobs && r.jobs[job].status.JobRunning?
    requires live in r.runs && r.runs[live].job == job && r.runs[live].status.RunRunning?
    ensures Admit(r, job, mode, from, now).Ok?
    ensures var s := Compensate(Admit(r, job, mode, from, now).value, r.nextId);
            && s.jobs[job].status.JobFailed? && s.jobs[job].active == Some(r.nextId)
            && s.runs[r.nextId].status.RunFailed? && s.runs[live].status.RunRunning?
  {
    var s := Admit(r, job, mode, from, now).value;
    assert r.nextId !in r.runs;
    FailJobShape(s.(runs := s.runs[r.nextId := s.runs[r.nextId].(status := RunFailed)]), job);
  }

  /** A history that gets there: a second run is admitted while the first one works, and its start raises. */
  function FirstRun(now: int): seq<Event> { [CreateJob] + [Start(0, Submit, None, now)] }
  function FirstRunWorking(now: int): seq<Event> { FirstRun(now) + [MoveRun(1, RunRunning)] + [MoveJob(0, JobRunning)] }
  function SecondStartRaises(now: int): seq<Event> { FirstRunWorking(now) + [Start(0, Submit, None, now)] + [Raise(2)] }

  lemma {:induction false} EventsNext(es: seq<Event>, e: Event)
    ensures RunEvents(Empty(), es + [e]) == Step(RunEvents(Empty(), es), e)
  {
    assert (es + [e])[..|es|] == es;
  }

  lemma {:induction false} FirstRunStarts(now: int)
    ensures var r := RunEvents(Empty(), FirstRun(now)).r;
            && 0 in r.jobs && r.jobs[0].status.Queued? && r.nextId == 2 && r.order == [1]
            && 1 in r.runs && r.runs[1].job == 0 && r.runs[1].status.Admitted?
  {
    EventsNext([], CreateJob);
    assert [] + [CreateJob] == [CreateJob];
    var w := Step(Empty(), CreateJob);
    assert w.r.jobs[0] == Job(JobDraft, None) && w.r.nextId == 1;
    EventsNext([CreateJob], Start(0, Submit, None, now));
  }

  /** The runtime takes the run up, and its job. */
  lemma {:induction false} RunTakenUp(w: World, run: Id, job: Id)
    requires job in w.r.jobs && w.r.jobs[job].status.Queued?
    requires run in w.r.runs && w.r.runs[run].job == job && w.r.runs[run].status.Admitted?
    ensures var r := Step(Step(w, MoveRun(run, RunRunning)), MoveJob(job, JobRunning)).r;
            && job in r.jobs && r.jobs[job].status.JobRunning? && r.nextId == w.r.nextId
            && run in r.runs && r.runs[run].job == job && r.runs[run].status.RunRunning?
  {
  }

  lemma {:induction false} FirstRunWorks(now: int)
    ensures var r := RunEvents(Empty(), FirstRunWorking(now)).r;
            && 0 in r.jobs && r.jobs[0].status.JobRunning? && r.nextId == 2
            && 1 in r.runs && r.runs[1].job == 0 && r.runs[1].status.RunRunning?
  {
    FirstRunStarts(now);
    EventsNext(FirstRun(now), MoveRun(1, RunRunning));
    EventsNext(FirstRun(now) + [MoveRun(1, RunRunning)], MoveJob(0, JobRunning));
    RunTakenUp(RunEvents(Empty(), FirstRun(now)), 1, 0);
  }

  /** Admitting a run and raising its start, as compensation of the admitted run. */
  lemma {:induction false} RaiseAfterStart(w: World, job: Id, now: int)
    requires Admit(w.r, job, Submit, None, now).Ok?
    ensures Step(Step(w, Start(job, Submit, None, now)), Raise(w.r.nextId)).r == Compensate(Admit(w.r, job, Submit, None, now).value, w.r.nextId)
  {
  }

  lemma {:induction false} SecondStartLeavesLiveRun(now: int)
    ensures var r := RunEvents(Empty(), SecondStartRaises(now)).r;
            0 in r.jobs && r.jobs[0].status.JobFailed? && LiveRun(r, 1, 0)
  {
    var es, start := FirstRunWorking(now), Start(0, Submit, None, now);
    FirstRunWorks(now);
    HistoriesKeep(es);
    EventsNext(es, start);
    EventsNext(es + [start], Raise(2));
    var w := RunEvents(Empty(), es);
    FailedJobCanHaveLiveRun(w.r, 0, 1, Submit, None, now);
    RaiseAfterStart(w, 0, now);
  }

  // ---- attempt numbers ----------------------------------------------------

  predicate NumberedOn(r: Repo, runs: seq<Id>) {
    forall k :: 0 <= k < |runs| ==> runs[k] in r.runs && r.runs[runs[k]].attempt == k + 1
  }

  /** A job's runs carry the attempts 1, 2, … in the order they were added. */
  ghost predicate Numbered(r: Repo) {
    forall job: Id :: NumberedOn(r, RunsOf(r, r.order, job))
  }

  lemma {:induction false} RunsOfFrame(r: Repo, s: Repo, order: seq<Id>, job: Id)
    requires forall i <- order :: (i in r.runs <==> i in s.runs) && (i in r.runs ==> r.runs[i].job == s.runs[i].job)
    ensures RunsOf(r, order, job) == RunsOf(s, order, job)
  {
    if order != [] { RunsOfFrame(r, s, order[..|order| - 1], job); }
  }

  lemma {:induction false} RunsOfHas(r: Repo, order: seq<Id>, job: Id)
    ensures forall i <- RunsOf(r, order, job) :: i in order && i in r.runs && r.runs[i].job == job
    ensures forall i <- order :: i in r.runs && r.runs[i].job == job ==> i in RunsOf(r, order, job)
  {
    if order != [] {
      RunsOfHas(r, order[..|order| - 1], job);
      assert order == order[..|order| - 1] + [order[|order| - 1]];
    }
  }

  lemma {:induction false} StartNumbers(r: Repo, job: Id, mode: Mode, from: Option<Id>, now: int)
    requires RowsOk(r) && Numbered(r) && Admit(r, job, mode, from, now).Ok?
    ensures Numbered(Admit(r, job, mode, from, now).value)
  {
    var s := Admit(r, job, mode, from, now).value;
    forall j: Id ensures NumberedOn(s, RunsOf(s, s.order, j)) {
      assert s.order[..|s.order| - 1] == r.order;
      assert r.nextId !in r.order;
      RunsOfFrame(r, s, r.order, j);
      RunsOfHas(r, r.order, j);
      assert NumberedOn(r, RunsOf(r, r.order, j));
    }
  }

  /** Only statuses and the like differ: attempts and the runs of a job do not. */
  lemma {:induction false} OthersNumber(w: World, e: Event)
    requires RowsOk(w.r) && Numbered(w.r) && !e.Start? && !e.DeleteRun?
    ensures Numbered(Step(w, e).r)
  {
    var r, s := w.r, Step(w, e).r;
    OthersFrame(w, e);
    forall j: Id ensures NumberedOn(s, RunsOf(s, s.order, j)) {
      RunsOfFrame(r, s, r.order, j);
      assert NumberedOn(r, RunsOf(r, r.order, j));
    }
  }

  /** While no run was ever deleted, each job's attempts are 1..n. */
  lemma {:induction false} AttemptsCountUp(es: seq<Event>)
    requires RunEvents(Empty(), es).deleted == {}
    ensures Numbered(RunEvents(Empty(), es).r)
  {
    if es != [] {
      var w, e := RunEvents(Empty(), es[..|es| - 1]), es[|es| - 1];
      assert w.deleted <= RunEvents(Empty(), es).deleted;
      AttemptsCountUp(es[..|es| - 1]);
      HistoriesKeep(es[..|es| - 1]);
      if e.Start? {
        if Admit(w.r, e.job, e.mode, e.from, e.now).Ok? { StartNumbers(w.r, e.job, e.mode, e.from, e.now); }
      } else if e.DeleteRun? {
        assert Delete(w.r, e.run).Err?;
      } else {
        OthersNumber(w, e);
      }
    }
  }

  // ---- attempts over histories with deletions -----------------------------

  /** The runs ever admitted to a job, and those of them that were deleted. */
  function Ever(w: World, job: Id): set<Id> { set i | i in w.admitted && w.admitted[i].job == job }
  function Gone(w: World, job: Id): set<Id> { Ever(w, job) * w.deleted }

  lemma {:induction false} RunsOfDistinct(r: Repo, order: seq<Id>, job: Id)
    requires Distinct(order)
    ensures Distinct(RunsOf(r, order, job))
  {
    if order != [] {
      RunsOfDistinct(r, order[..|order| - 1], job);
      RunsOfHas(r, order[..|order| - 1], job);
    }
  }

  lemma {:induction false} DistinctSize(order: seq<Id>, ids: set<Id>)
    requires Distinct(order) && forall i :: i in order <==> i in ids
    ensures |order| == |ids|
  {
    if order == [] {
      assert ids == {};
    } else {
      var front, last := order[..|order| - 1], order[|order| - 1];
      assert order == front + [last];
      DistinctSize(front, ids - {last});
    }
  }

  lemma {:induction false} LiveAreUndeleted(w: World, job: Id)
    requires Inv(w)
    ensures forall i :: i in RunsOf(w.r, w.r.order, job) <==> i in Ever(w, job) - Gone(w, job)
    ensures |RunsOf(w.r, w.r.order, job)| == |Ever(w, job)| - |Gone(w, job)|
  {
    RunsOfHas(w.r, w.r.order, job);
    RunsOfDistinct(w.r, w.r.order, job);
    DistinctSize(RunsOf(w.r, w.r.order, job), Ever(w, job) - Gone(w, job));
  }

  /** The next attempt number of the job is one a live run of it has. */
  predicate Repeats(r: Repo, job: Id) {
    exists i <- r.runs :: r.runs[i].job == job && r.runs[i].attempt == NextAttempt(r, job)
  }

  /** A run admitted to the job with this number was not deleted. */
  predicate UndeletedHas(w: World, job: Id, attempt: nat) {
    exists i <- Ever(w, job) :: w.admitted[i].attempt == attempt && i !in w.deleted
  }

  /** Over every history the next attempt is one more than the runs admitted less those deleted, and repeats
      exactly when the run that was admitted with that number was not deleted. */
  lemma {:induction false} AttemptRepeatsExactly(es: seq<Event>, job: Id)
    ensures var w := RunEvents(Empty(), es); var next := 1 + |Ever(w, job)| - |Gone(w, job)|;
            && NextAttempt(w.r, job) == next
            && next > 0 && (Repeats(w.r, job) <==> UndeletedHas(w, job, next))
  {
    var w := RunEvents(Empty(), es);
    HistoriesKeep(es);
    LiveAreUndeleted(w, job);
    if Repeats(w.r, job) {
      var i :| i in w.r.runs && w.r.runs[i].job == job && w.r.runs[i].attempt == NextAttempt(w.r, job);
      assert i in Ever(w, job);
    }
  }

  predicate NoStarts(es: seq<Event>) { forall e <- es :: !e.Start? }

  lemma {:induction false} NothingAdmitted(w: World, e: Event)
    requires !e.Start?
    ensures Step(w, e).admitted == w.admitted
  {
  }

  lemma {:induction false} AdmittedStays(a: seq<Event>, b: seq<Event>)
    requires NoStarts(b)
    ensures RunEvents(Empty(), a + b).admitted == RunEvents(Empty(), a).admitted
    decreases |b|
  {
    if b == [] {
      assert a + b == a;
    } else {
      var front, last := b[..|b| - 1], b[|b| - 1];
      assert last in b && forall e <- front :: e in b;
      AdmittedStays(a, front);
      assert (a + b)[..|a + b| - 1] == a + front;
      NothingAdmitted(RunEvents(Empty(), a + front), last);
    }
  }

  /** The runs ever admitted to the job, listed by their attempts 1..n. */
  ghost predicate CountsUp(w: World, job: Id, all: seq<Id>) {
    && (forall i :: i in all <==> i in Ever(w, job)) && |all| == |Ever(w, job)|
    && forall k :: 0 <= k < |all| ==> all[k] in w.admitted && w.admitted[all[k]].attempt == k + 1
  }

  lemma {:induction false} UndeletedCountUp(es: seq<Event>, job: Id)
    requires RunEvents(Empty(), es).deleted == {}
    ensures var w := RunEvents(Empty(), es); CountsUp(w, job, RunsOf(w.r, w.r.order, job))
  {
    var w := RunEvents(Empty(), es);
    HistoriesKeep(es);
    AttemptsCountUp(es);
    LiveAreUndeleted(w, job);
    var all := RunsOf(w.r, w.r.order, job);
    assert NumberedOn(w.r, all);
    assert Gone(w, job) == {};
    assert Ever(w, job) - Gone(w, job) == Ever(w, job);
  }

  /** The attempt numbers of a job's deleted runs. */
  function GoneAttempts(w: World, job: Id): set<nat> { set i | i in Gone(w, job) :: w.admitted[i].attempt }

  lemma {:induction false} GoneExactly(w: World, job: Id, all: seq<Id>, k: nat)
    requires CountsUp(w, job, all) && k < |all|
    ensures all[k] in w.deleted <==> k + 1 in GoneAttempts(w, job)
  {
    assert all[k] in Ever(w, job);
    if k + 1 in GoneAttempts(w, job) {
      var i :| i in Gone(w, job) && w.admitted[i].attempt == k + 1;
      assert i in all;
      var j :| 0 <= j < |all| && all[j] == i;
      assert j == k;
    }
  }

  lemma {:induction false} RepeatsWhenCounted(w: World, job: Id, all: seq<Id>)
    requires CountsUp(w, job, all) && |Gone(w, job)| <= |Ever(w, job)|
    ensures var d := |Gone(w, job)|; var next := 1 + |Ever(w, job)| - d;
            UndeletedHas(w, job, next) <==> d > 0 && next !in GoneAttempts(w, job)
  {
    var d := |Gone(w, job)|;
    var next := 1 + |all| - d;
    if d > 0 {
      GoneExactly(w, job, all, next - 1);
      assert all[next - 1] in Ever(w, job);
    }
    if UndeletedHas(w, job, next) {
      var i :| i in Ever(w, job) && w.admitted[i].attempt == next && i !in w.deleted;
      assert i in all;
      var k :| 0 <= k < |all| && all[k] == i;
      assert k + 1 == next;
    }
  }

  lemma {:induction false} SameAdmitted(v: World, w: World, job: Id, all: seq<Id>)
    requires CountsUp(v, job, all) && w.admitted == v.admitted
    ensures CountsUp(w, job, all)
  {
    assert Ever(w, job) == Ever(v, job);
  }

  /** When runs are deleted from a job whose n runs were admitted before any deletion, d of them in whatever order,
      the next attempt repeats exactly when something was deleted and attempt n - d + 1 was not. */
  lemma {:induction false} DeletionsRepeatExactly(a: seq<Event>, b: seq<Event>, job: Id)
    requires RunEvents(Empty(), a).deleted == {} && NoStarts(b)
    ensures var w := RunEvents(Empty(), a + b); var d := |Gone(w, job)|; var next := 1 + |Ever(w, job)| - d;
            NextAttempt(w.r, job) == next && (Repeats(w.r, job) <==> d > 0 && next !in GoneAttempts(w, job))
  {
    var v, w := RunEvents(Empty(), a), RunEvents(Empty(), a + b);
    AdmittedStays(a, b);
    UndeletedCountUp(a, job);
    var all := RunsOf(v.r, v.r.order, job);
    SameAdmitted(v, w, job, all);
    AttemptRepeatsExactly(a + b, job);
    RepeatsWhenCounted(w, job, all);
  }

  /** A history in which the next attempt repeats: of two runs the first fails and is deleted. */
  function FirstOfTwoDeleted(now: int): seq<Event> {
    FirstRun(now) + [Start(0, Submit, None, now)] + [MoveRun(1, RunFailed)] + [DeleteRun(1)]
  }

  lemma {:induction false} SecondAttempt(w: World, now: int)
    requires RowsOk(w.r) && w.r.nextId == 2 && w.r.order == [1] && 0 in w.r.jobs && w.r.jobs[0].status.Queued?
    requires 1 in w.r.runs && w.r.runs[1].job == 0 && w.r.runs[1].status.Admitted?
    ensures var r := Step(w, Start(0, Submit, None, now)).r;
            && r.order == [1, 2] && 1 in r.runs && 2 in r.runs && r.runs[1] == w.r.runs[1]
            && r.runs[2].job == 0 && r.runs[2].attempt == 2
  {
    assert [1][..0] == [];
    assert RunsOf(w.r, [1], 0) == [1];
  }

  lemma {:induction false} WithoutFirst(i: Id, j: Id)
    requires i != j
    ensures Without([i, j], i) == [j]
  {
    assert [i, j][..1] == [i] && [i][..0] == [];
    assert Without([i], i) == [];
  }

  lemma {:induction false} OnlyRun(r: Repo, i: Id, job: Id)
    requires r.order == [i] && i in r.runs && r.runs[i].job == job
    ensures NextAttempt(r, job) == 2
  {
    assert [i][..0] == [];
    assert RunsOf(r, [i], job) == [i];
  }

  lemma {:induction false} FirstDeleted(w: World)
    requires w.r.order == [1, 2] && 1 in w.r.runs && 2 in w.r.runs && w.r.runs[1].job == 0 && w.r.runs[2].job == 0
    requires w.r.runs[1].status.RunFailed? && w.r.runs[2].attempt == 2
    ensures var r := Step(w, DeleteRun(1)).r; NextAttempt(r, 0) == 2 && Repeats(r, 0)
  {
    var r := Remove(w.r, 1);
    RemoveRuns(w.r, 1);
    WithoutFirst(1, 2);
    OnlyRun(r, 2, 0);
    assert Repeats(r, 0) by { assert 2 in r.runs; }
  }

  lemma {:induction false} FailFirst(w: World)
    requires w.r.order == [1, 2] && 1 in w.r.runs && 2 in w.r.runs && w.r.runs[1].status.Admitted?
    ensures var r := Step(w, MoveRun(1, RunFailed)).r;
            && r.order == [1, 2] && 1 in r.runs && 2 in r.runs && r.runs[2] == w.r.runs[2]
            && r.runs[1].job == w.r.runs[1].job && r.runs[1].status.RunFailed?
  {
  }

  lemma {:induction false} DeletedAttemptRepeats(now: int)
    ensures var r := RunEvents(Empty(), FirstOfTwoDeleted(now)).r; NextAttempt(r, 0) == 2 && Repeats(r, 0)
  {
    var es := FirstRun(now);
    var start, fail := Start(0, Submit, None, now), MoveRun(1, RunFailed);
    FirstRunStarts(now);
    HistoriesKeep(es);
    var w := RunEvents(Empty(), es);
    SecondAttempt(w, now);
    EventsNext(es, start);
    FailFirst(Step(w, start));
    EventsNext(es + [start], fail);
    FirstDeleted(Step(Step(w, start), fail));
    EventsNext(es + [start] + [fail], DeleteRun(1));
  }
}
