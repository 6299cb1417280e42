/** Workflow runs: admission, start-failure compensation and deletion. */
module Runs {
  import opened Results

  type Id = nat

  datatype RunStatus = RunCreated | Admitted | RunRunning | Cancelling | RunSucceeded | RunFailed | RunCancelled
  datatype JobStatus = JobDraft | Queued | JobRunning | JobSucceeded | JobFailed | JobCancelled | Archived

  predicate RunMoves(a: RunStatus, b: RunStatus) {
    match a
    case RunCreated => b.Admitted? || b.RunCancelled?
    case Admitted => b.RunRunning? || b.RunCancelled? || b.RunFailed?
    case RunRunning => b.RunSucceeded? || b.RunFailed? || b.Cancelling? || b.RunCancelled?
    case Cancelling => b.RunCancelled?
    case _ => false
  }

  predicate JobMoves(a: JobStatus, b: JobStatus) {
    match a
    case JobDraft => b.Queued? || b.JobCancelled?
    case Queued => b.JobRunning? || b.JobCancelled? || b.JobFailed?
    case JobRunning => b.JobSucceeded? || b.JobFailed? || b.JobCancelled?
    case JobSucceeded => b.Queued? || b.Archived?
    case JobFailed => b.Queued? || b.Archived?
    case JobCancelled => b.Archived?
    case Archived => false
  }

  datatype Mode = Submit | Retry | Resume

  datatype Node = Node(failed: bool, retryable: bool)

  datatype Run = Run(job: Id, status: RunStatus, attempt: nat, created: int, resumeFrom: Option<Id>, retryOf: Option<Id>)

  datatype Job = Job(status: JobStatus, active: Option<Id>)

  /** Which run an artifact, finished video or provider invocation came from. */
  datatype Origin = Origin(run: Option<Id>, node: Option<Id>)

  /** order lists the runs as they were added. */
  datatype Repo = Repo(
    jobs: map<Id, Job>, runs: map<Id, Run>, order: seq<Id>, nodes: map<Id, seq<Node>>,
    artifacts: map<Id, Origin>, videos: map<Id, Origin>, invocations: map<Id, Origin>, nextId: Id)

  datatype Error = NoSuchJob | NoSuchRun | InvalidTransition | StillProcessing

  // ---- admission ----------------------------------------------------------

  predicate RetryableFailure(r: Repo, run: Id)
    requires run in r.runs
  {
    r.runs[run].status.RunFailed? && run in r.nodes && exists n <- r.nodes[run] :: n.failed && n.retryable
  }

  /** The status a job takes when a run is admitted to it. */
  function NextJobStatus(r: Repo, s: JobStatus, mode: Mode, from: Option<Id>): Result<JobStatus, Error> {
    match s
    case JobDraft => Ok(Queued)
    case Queued => Ok(Queued)
    case JobRunning => Ok(JobRunning)
    case JobSucceeded =>
      if mode.Resume? && from.Some? then
        if from.value !in r.runs then Err(NoSuchRun)
        else if r.runs[from.value].status.RunSucceeded? then Ok(Queued) else Err(InvalidTransition)
      else Err(InvalidTransition)
    case JobFailed =>
      if !mode.Submit? && from.Some? then
        if from.value !in r.runs then Err(NoSuchRun)
        else if mode.Retry? && r.runs[from.value].status.RunFailed? then Ok(Queued)
        else if mode.Resume? && RetryableFailure(r, from.value) then Ok(Queued)
        else Err(InvalidTransition)
      else Err(InvalidTransition)
    case _ => Err(InvalidTransition)
  }

  /** The runs of a job, oldest first. */
  function RunsOf(r: Repo, order: seq<Id>, job: Id): seq<Id> {
    if order == [] then []
    else
      var i := order[|order| - 1];
      RunsOf(r, order[..|order| - 1], job) + if i in r.runs && r.runs[i].job == job then [i] else []
  }

  /** The attempt number the next run of a job gets. */
  function NextAttempt(r: Repo, job: Id): nat { 1 + |RunsOf(r, r.order, job)| }

  /** The run gets the next id and becomes its job's active run. */
  function AddRun(r: Repo, next: JobStatus, run: Run): Repo {
    r.(runs := r.runs[r.nextId := run], order := r.order + [r.nextId], nodes := r.nodes[r.nextId := []],
       jobs := r.jobs[run.job := Job(next, Some(r.nextId))], nextId := r.nextId + 1)
  }

  function Admit(r: Repo, job: Id, mode: Mode, from: Option<Id>, now: int): Result<Repo, Error> {
    if job !in r.jobs then Err(NoSuchJob)
    else
      var next := NextJobStatus(r, r.jobs[job].status, mode, from);
      if next.Err? then Err(next.error)
      else
        Ok(AddRun(r, next.value, Run(job, Admitted, NextAttempt(r, job), now,
                                     if mode.Resume? then from else None, if mode.Retry? then from else None)))
  }

  // ---- compensation -------------------------------------------------------

  function FailJob(r: Repo, job: Id): Repo {
    if job in r.jobs && JobMoves(r.jobs[job].status, JobFailed) then r.(jobs := r.jobs[job := r.jobs[job].(status := JobFailed)])
    else r
  }

  /** A run that has not moved on is failed with its job; one that cannot fail any more is left alone. */
  function Compensate(r: Repo, run: Id): Repo {
    if run !in r.runs || !RunMoves(r.runs[run].status, RunFailed) then r
    else FailJob(r.(runs := r.runs[run := r.runs[run].(status := RunFailed)]), r.runs[run].job)
  }

  // ---- deletion -----------------------------------------------------------

  predicate Deletable(s: RunStatus) { s.RunSucceeded? || s.RunFailed? || s.RunCancelled? }

  /** Rows of the run lose it, and the node it ran in where they keep one. */
  function Detached(m: map<Id, Origin>, run: Id, dropNode: bool): map<Id, Origin> {
    map k | k in m :: if m[k].run == Some(run) then Origin(None, if dropNode then None else m[k].node) else m[k]
  }

  function Without(order: seq<Id>, run: Id): seq<Id> {
    if order == [] then [] else Without(order[..|order| - 1], run) + if order[|order| - 1] == run then [] else [order[|order| - 1]]
  }

  /** The job's latest run by creation time; of equals, the one added last. */
  function Newest(r: Repo, order: seq<Id>, job: Id): Option<Id> {
    if order == [] then None
    else
      var best := Newest(r, order[..|order| - 1], job);
      var i := order[|order| - 1];
      if i in r.runs && r.runs[i].job == job
         && (best.None? || best.value !in r.runs || r.runs[best.value].created <= r.runs[i].created)
      then Some(i) else best
  }

  /** The tables once the run and what points to it are gone. */
  function Remaining(r: Repo, run: Id): Repo {
    r.(runs := r.runs - {run}, order := Without(r.order, run), nodes := r.nodes - {run},
       artifacts := Detached(r.artifacts, run, true), videos := Detached(r.videos, run, false),
       invocations := Detached(r.invocations, run, true))
  }

  /** The job goes with its last run; otherwise its latest run becomes the active one. */
  function Remove(r: Repo, run: Id): Repo
    requires run in r.runs
  {
    var s := Remaining(r, run);
    var job := r.runs[run].job;
    if job !in s.jobs then s
    else
      var latest := Newest(s, s.order, job);
      s.(jobs := if latest.Some? then s.jobs[job := s.jobs[job].(active := latest)] else s.jobs - {job})
  }

  function Delete(r: Repo, run: Id): Result<Repo, Error> {
    if run !in r.runs then Err(NoSuchRun)
    else if !Deletable(r.runs[run].status) then Err(StillProcessing)
    else Ok(Remove(r, run))
  }

  // ---- histories ----------------------------------------------------------

  datatype Table = Artifacts | Videos | Invocations

  datatype Event =
    | CreateJob
    | Start(job: Id, mode: Mode, from: Option<Id>, now: int)
    | Raise(run: Id)                                  // the start call of a run raises
    | MoveRun(run: Id, runTo: RunStatus)              // the runtime drives it
    | MoveJob(job: Id, jobTo: JobStatus)
    | FinishNode(run: Id, node: Node)
    | Produce(table: Table, id: Id, origin: Origin)   // the runtime records something the run made
    | DeleteRun(run: Id)

  /** raised and deleted remember what happened to runs, admitted the rows they were added with. */
  datatype World = World(r: Repo, raised: set<Id>, deleted: set<Id>, admitted: map<Id, Run>)

  function Produced(r: Repo, t: Table, id: Id, o: Origin): Repo {
    match t
    case Artifacts => r.(artifacts := r.artifacts[id := o])
    case Videos => r.(videos := r.videos[id := o])
    case Invocations => r.(invocations := r.invocations[id := o])
  }

  /** s adds one run to the tables of w. */
  function Admitting(w: World, s: Repo): World {
    w.(r := s, admitted := if w.r.nextId in s.runs then w.admitted[w.r.nextId := s.runs[w.r.nextId]] else w.admitted)
  }

  function Step(w: World, e: Event): World {
    var r := w.r;
    match e
    case CreateJob => w.(r := r.(jobs := r.jobs[r.nextId := Job(JobDraft, None)], nextId := r.nextId + 1))
    case Start(job, mode, from, now) => (var a := Admit(r, job, mode, from, now); if a.Ok? then Admitting(w, a.value) else w)
    case Raise(run) => if run in r.runs then w.(r := Compensate(r, run), raised := w.raised + {run}) else w
    case MoveRun(run, to) =>
      if run in r.runs && RunMoves(r.runs[run].status, to) then w.(r := r.(runs := r.runs[run := r.runs[run].(status := to)])) else w
    case MoveJob(job, to) =>
      if job in r.jobs && JobMoves(r.jobs[job].status, to) then w.(r := r.(jobs := r.jobs[job := r.jobs[job].(status := to)])) else w
    case FinishNode(run, node) =>
      if run in r.runs && run in r.nodes then w.(r := r.(nodes := r.nodes[run := r.nodes[run] + [node]])) else w
    case Produce(t, id, o) => if o.run.Some? && o.run.value in r.runs then w.(r := Produced(r, t, id, o)) else w
    case DeleteRun(run) => (var d := Delete(r, run); if d.Ok? then w.(r := d.value, deleted := w.deleted + {run}) else w)
  }

  function RunEvents(w: World, es: seq<Event>): World {
    if es == [] then w else Step(RunEvents(w, es[..|es| - 1]), es[|es| - 1])
  }

  function Empty(): World { World(Repo(map[], map[], [], map[], map[], map[], map[], 0), {}, {}, map[]) }
}
