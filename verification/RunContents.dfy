/** What admission, compensation and deletion write, in the fields of the rows. */
module RunContents {
  import opened Results
  import opened Runs
  import opened RunLaws

  // ---- the status edges ---------------------------------------------------

  /** The moves a run may make, and those a job may make. */
  const RUN_EDGES: set<(RunStatus, RunStatus)> := {
    (RunCreated, Admitted), (RunCreated, RunCancelled),
    (Admitted, RunRunning), (Admitted, RunCancelled), (Admitted, RunFailed),
    (RunRunning, RunSucceeded), (RunRunning, RunFailed), (RunRunning, Cancelling), (RunRunning, RunCancelled),
    (Cancelling, RunCancelled)
  }

  const JOB_EDGES: set<(JobStatus, JobStatus)> := {
    (JobDraft, Queued), (JobDraft, JobCancelled),
    (Queued, JobRunning), (Queued, JobCancelled), (Queued, JobFailed),
    (JobRunning, JobSucceeded), (JobRunning, JobFailed), (JobRunning, JobCancelled),
    (JobSucceeded, Queued), (JobSucceeded, Archived), (JobFailed, Queued), (JobFailed, Archived), (JobCancelled, Archived)
  }

  lemma {:induction false} RunEdgesExactly(a: RunStatus, b: RunStatus)
    ensures RunMoves(a, b) <==> (a, b) in RUN_EDGES
  {
  }

  lemma {:induction false} JobEdgesExactly(a: JobStatus, b: JobStatus)
    ensures JobMoves(a, b) <==> (a, b) in JOB_EDGES
  {
  }

  // ---- admission ----------------------------------------------------------

  /** Some node of the run failed with an error that can be retried. */
  predicate NodeCanRetry(r: Repo, run: Id) { run in r.nodes && exists n <- r.nodes[run] :: n.failed && n.retryable }

  /** An admission raises for a job that is not there, for a run to restart from that is not there, when one is asked
      for at all, and otherwise exactly when the job or that run does not allow it. */
  lemma {:induction false} AdmissionRaises(r: Repo, job: Id, mode: Mode, from: Option<Id>, now: int)
    ensures var a := Admit(r, job, mode, from, now);
            && (job !in r.jobs ==> a == Err(NoSuchJob))
            && (job in r.jobs ==>
                 var s := r.jobs[job].status;
                 var restarts := from.Some? && ((s.JobSucceeded? && mode.Resume?) || (s.JobFailed? && !mode.Submit?));
                 && (restarts && from.value !in r.runs ==> a == Err(NoSuchRun))
                 && (restarts && from.value in r.runs ==>
                      var was := r.runs[from.value].status;
                      (if (s.JobSucceeded? && was.RunSucceeded?) || (s.JobFailed? && mode.Retry? && was.RunFailed?)
                          || (s.JobFailed? && mode.Resume? && was.RunFailed? && NodeCanRetry(r, from.value))
                       then a.Ok? else a == Err(InvalidTransition)))
                 && (!restarts ==> if s.JobDraft? || s.Queued? || s.JobRunning? then a.Ok? else a == Err(InvalidTransition)))
  {
  }

  /** The runs of a job there are. */
  function RunsWith(r: Repo, job: Id): set<Id> { set i | i in r.runs && r.runs[i].job == job }

  lemma {:induction false} AttemptCounts(r: Repo, job: Id)
    requires RowsOk(r)
    ensures NextAttempt(r, job) == 1 + |RunsWith(r, job)|
  {
    RunsOfHas(r, r.order, job);
    RunsOfDistinct(r, r.order, job);
    DistinctSize(RunsOf(r, r.order, job), RunsWith(r, job));
  }

  /** What an admission writes: a run of the job, admitted now under a new id and listed last, numbered after the runs
      the job has, that remembers what it resumes or retries; a running job stays running and any other is queued,
      with the run as its active one. Nothing else changes. */
  lemma {:induction false} AdmissionWrites(r: Repo, job: Id, mode: Mode, from: Option<Id>, now: int)
    requires RowsOk(r) && Admit(r, job, mode, from, now).Ok?
    ensures job in r.jobs
    ensures var s, id := Admit(r, job, mode, from, now).value, r.nextId;
            && s.runs.Keys == r.runs.Keys + {id} && (forall i <- r.runs :: s.runs[i] == r.runs[i])
            && s.runs[id].job == job && s.runs[id].status.Admitted? && s.runs[id].created == now
            && s.runs[id].attempt == 1 + |RunsWith(r, job)|
            && s.runs[id].resumeFrom == (if mode == Resume then from else None)
            && s.runs[id].retryOf == (if mode == Retry then from else None)
            && s.order == r.order + [id] && s.nextId == id + 1
            && s.nodes == r.nodes[id := []]
            && s.jobs.Keys == r.jobs.Keys && (forall j <- r.jobs :: j != job ==> s.jobs[j] == r.jobs[j])
            && s.jobs[job].active == Some(id)
            && s.jobs[job].status == (if r.jobs[job].status.JobRunning? then JobRunning else Queued)
            && s.artifacts == r.artifacts && s.videos == r.videos && s.invocations == r.invocations
  {
    AttemptCounts(r, job);
  }

  // ---- compensation -------------------------------------------------------

  lemma {:induction false} FailJobWrites(r: Repo, job: Id)
    ensures var s := FailJob(r, job);
            && s.jobs.Keys == r.jobs.Keys && s == r.(jobs := s.jobs)
            && forall j <- r.jobs ::
                 s.jobs[j] == if j == job && (r.jobs[j].status.Queued? || r.jobs[j].status.JobRunning?) then r.jobs[j].(status := JobFailed)
                              else r.jobs[j]
  {
  }

  /** What compensation writes: a run that is admitted or running fails, and its job with it when that is queued or
      running; nothing else changes. */
  lemma {:induction false} CompensationWrites(r: Repo, run: Id)
    requires RowsOk(r)
    ensures var s := Compensate(r, run);
            var fails := run in r.runs && (r.runs[run].status.Admitted? || r.runs[run].status.RunRunning?);
            && s.runs == (if fails then r.runs[run := r.runs[run].(status := RunFailed)] else r.runs)
            && s.jobs.Keys == r.jobs.Keys
            && (forall j <- r.jobs ::
                 s.jobs[j] == if fails && j == r.runs[run].job && (r.jobs[j].status.Queued? || r.jobs[j].status.JobRunning?)
                              then r.jobs[j].(status := JobFailed) else r.jobs[j])
            && s == r.(runs := s.runs, jobs := s.jobs)
  {
    if run in r.runs {
      var failed := r.runs[run := r.runs[run].(status := RunFailed)];
      FailJobWrites(r.(runs := failed), r.runs[run].job);
    }
  }

  // ---- deletion -----------------------------------------------------------

  /** A run is deleted exactly when it is there and has ended. */
  lemma {:induction false} DeletionExactly(r: Repo, run: Id)
    ensures var d := Delete(r, run);
            if run !in r.runs then d == Err(NoSuchRun)
            else if r.runs[run].status in {RunSucceeded, RunFailed, RunCancelled} then d.Ok?
            else d == Err(StillProcessing)
  {
  }

  /** A row that named the run keeps neither it nor its node; every other row is kept whole. */
  predicate Unlinked(was: map<Id, Origin>, now: map<Id, Origin>, run: Id) {
    now.Keys == was.Keys && forall k <- was :: now[k] == if was[k].run == Some(run) then Origin(None, None) else was[k]
  }

  /** A finished video that came from the run keeps its node. */
  predicate VideosUnlinked(was: map<Id, Origin>, now: map<Id, Origin>, run: Id) {
    now.Keys == was.Keys && forall k <- was :: now[k].node == was[k].node && now[k].run == if was[k].run == Some(run) then None else was[k].run
  }

  /** i is the latest run of the job: none was created later, and of those created with it none is listed after it. */
  predicate Latest(r: Repo, job: Id, i: Id) {
    && i in r.runs && r.runs[i].job == job
    && forall p, q :: 0 <= p < |r.order| && 0 <= q < |r.order| && r.order[p] == i && r.order[q] in r.runs && r.runs[r.order[q]].job == job ==>
         r.runs[r.order[q]].created < r.runs[i].created || (r.runs[r.order[q]].created == r.runs[i].created && q <= p)
  }

  /** Position p of the list is that of the latest run of the job. */
  predicate NewestIn(r: Repo, order: seq<Id>, job: Id, p: nat) {
    && p < |order| && order[p] in r.runs && r.runs[order[p]].job == job
    && forall q :: 0 <= q < |order| && order[q] in r.runs && r.runs[order[q]].job == job ==>
         r.runs[order[q]].created < r.runs[order[p]].created || (r.runs[order[q]].created == r.runs[order[p]].created && q <= p)
  }

  lemma {:induction false} NewestAt(r: Repo, order: seq<Id>, job: Id)
    requires Distinct(order)
    ensures var n := Newest(r, order, job);
            if n.Some? then exists p :: 0 <= p < |order| && NewestIn(r, order, job, p) && n.value == order[p]
            else forall i <- order :: i in r.runs ==> r.runs[i].job != job
  {
    if order != [] {
      var front, last := order[..|order| - 1], order[|order| - 1];
      NewestAt(r, front, job);
      assert order == front + [last];
      var n := Newest(r, order, job);
      if n.Some? && n == Newest(r, front, job) {
        var p :| 0 <= p < |front| && NewestIn(r, front, job, p) && n.value == front[p];
        assert order[p] == front[p] && order[|front|] == last;
        assert NewestIn(r, order, job, p);
      } else if n.Some? {
        assert NewestIn(r, order, job, |front|);
      }
    }
  }

  lemma {:induction false} LatestIs(r: Repo, job: Id)
    requires Ordered(r)
    ensures var n := Newest(r, r.order, job);
            if n.Some? then Latest(r, job, n.value) else forall i <- r.runs :: r.runs[i].job != job
  {
    NewestAt(r, r.order, job);
    var n := Newest(r, r.order, job);
    if n.Some? {
      var p :| 0 <= p < |r.order| && NewestIn(r, r.order, job, p) && n.value == r.order[p];
    }
  }

  /** What a deletion writes: the run goes with its nodes and its place in the list; artifacts and provider invocations
      lose the run and its node, finished videos only the run. */
  lemma {:induction false} DeletionWrites(r: Repo, run: Id)
    requires RowsOk(r) && Delete(r, run).Ok?
    ensures var s := Delete(r, run).value;
            && s.runs == r.runs - {run} && s.nodes == r.nodes - {run} && s.nextId == r.nextId
            && (forall i :: i in s.order <==> i in r.order && i != run)
            && Unlinked(r.artifacts, s.artifacts, run) && Unlinked(r.invocations, s.invocations, run) && VideosUnlinked(r.videos, s.videos, run)
  {
    RemoveRows(r, run);
    RemoveRuns(r, run);
    WithoutHas(r.order, run);
  }

  predicate OnlyRun(r: Repo, run: Id, job: Id) { forall i <- r.runs :: i != run ==> r.runs[i].job != job }

  lemma {:induction false} LatestOf(r: Repo, s: Repo, job: Id)
    requires Ordered(r) && s.runs == r.runs && s.order == r.order
    ensures var n := Newest(r, r.order, job);
            if n.Some? then Latest(s, job, n.value) && n.value in r.runs && r.runs[n.value].job == job
            else forall i <- r.runs :: r.runs[i].job != job
  {
    LatestIs(r, job);
  }

  lemma {:induction false} RemainingOrdered(r: Repo, run: Id)
    requires RowsOk(r) && run in r.runs
    ensures var s, t := Remaining(r, run), Remove(r, run);
            Ordered(s) && t.runs == s.runs && t.order == s.order && s.runs == r.runs - {run}
  {
    RemoveRows(r, run);
    RemoveRuns(r, run);
  }

  lemma {:induction false} OthersLeft(r: Repo, s: Repo, run: Id, job: Id, n: Option<Id>)
    requires s.runs == r.runs - {run}
    requires if n.Some? then n.value in s.runs && s.runs[n.value].job == job else forall i <- s.runs :: s.runs[i].job != job
    ensures n.None? <==> OnlyRun(r, run, job)
  {
    if n.Some? {
      assert n.value in r.runs && n.value != run && r.runs[n.value].job == job;
    } else {
      forall i | i in r.runs && i != run ensures r.runs[i].job != job { assert i in s.runs && s.runs[i] == r.runs[i]; }
    }
  }

  /** The latest of the job's runs that are left, if any are. */
  lemma {:induction false} LatestLeft(r: Repo, run: Id)
    requires RowsOk(r) && run in r.runs
    ensures var t, job := Remove(r, run), r.runs[run].job;
            var n := Newest(Remaining(r, run), Remaining(r, run).order, job);
            if n.Some? then Latest(t, job, n.value) && !OnlyRun(r, run, job) else OnlyRun(r, run, job)
  {
    var s, job := Remaining(r, run), r.runs[run].job;
    RemainingOrdered(r, run);
    LatestOf(s, Remove(r, run), job);
    OthersLeft(r, s, run, job, Newest(s, s.order, job));
  }

  /** The job goes with its last run, and otherwise has the latest of those left as its active one. Other jobs stay. */
  lemma {:induction false} DeletionWritesJob(r: Repo, run: Id)
    requires RowsOk(r) && Delete(r, run).Ok?
    ensures run in r.runs && r.runs[run].job in r.jobs
    ensures var s, job := Delete(r, run).value, r.runs[run].job;
            && s.jobs.Keys == (if OnlyRun(r, run, job) then r.jobs.Keys - {job} else r.jobs.Keys)
            && (forall j <- s.jobs :: j != job ==> s.jobs[j] == r.jobs[j])
            && (job in s.jobs ==> s.jobs[job].status == r.jobs[job].status && s.jobs[job].active.Some? && Latest(s, job, s.jobs[job].active.value))
  {
    LatestLeft(r, run);
  }

  // ---- what the runtime records -------------------------------------------

  /** What a run makes is recorded under its own table, while the run is there. */
  lemma {:induction false} ProductionWrites(w: World, t: Table, id: Id, o: Origin)
    ensures var r, s := w.r, Step(w, Produce(t, id, o)).r;
            var recorded := o.run.Some? && o.run.value in r.runs;
            && s.artifacts == (if recorded && t.Artifacts? then r.artifacts[id := o] else r.artifacts)
            && s.videos == (if recorded && t.Videos? then r.videos[id := o] else r.videos)
            && s.invocations == (if recorded && t.Invocations? then r.invocations[id := o] else r.invocations)
            && s == r.(artifacts := s.artifacts, videos := s.videos, invocations := s.invocations)
  {
  }
}
