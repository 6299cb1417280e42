/** The run service over its in-memory tables. */
module RunRepository {
  import opened Results
  import opened Runs

  class Repository {
    var jobs: map<Id, Job>
    var runs: map<Id, Run>
    var order: seq<Id>
    var nodes: map<Id, seq<Node>>
    var artifacts: map<Id, Origin>
    var videos: map<Id, Origin>
    var invocations: map<Id, Origin>
    var nextId: Id

    function State(): Repo
      reads this
    {
      Repo(jobs, runs, order, nodes, artifacts, videos, invocations, nextId)
    }

    constructor ()
      ensures State() == Empty().r
    {
      jobs, runs, order, nodes, artifacts, videos, invocations, nextId := map[], map[], [], map[], map[], map[], map[], 0;
    }

    method HasRetryableFailure(run: Id) returns (yes: bool)
      requires run in runs
      ensures yes == RetryableFailure(State(), run)
    {
      if !runs[run].status.RunFailed? || run !in nodes { return false; }
      for n := 0 to |nodes[run]|
        invariant forall k :: 0 <= k < n ==> !(nodes[run][k].failed && nodes[run][k].retryable)
      {
        if nodes[run][n].failed && nodes[run][n].retryable {
          assert nodes[run][n] in nodes[run];
          return true;
        }
      }
      yes := false;
    }

    method CountRuns(job: Id) returns (n: nat)
      ensures 1 + n == NextAttempt(State(), job)
    {
      n := 0;
      for k := 0 to |order|
        invariant n == |RunsOf(State(), order[..k], job)|
      {
        assert order[..k + 1][..k] == order[..k];
        if order[k] in runs && runs[order[k]].job == job { n := n + 1; }
      }
      assert order[..|order|] == order;
    }

    method NextStatus(s: JobStatus, mode: Mode, from: Option<Id>) returns (next: Result<JobStatus, Error>)
      ensures next == NextJobStatus(State(), s, mode, from)
    {
      if s.JobDraft? { return Ok(Queued); }
      if s.JobSucceeded? && mode.Resume? && from.Some? {
        if from.value !in runs { return Err(NoSuchRun); }
        return if runs[from.value].status.RunSucceeded? then Ok(Queued) else Err(InvalidTransition);
      }
      if s.JobFailed? && !mode.Submit? && from.Some? {
        if from.value !in runs { return Err(NoSuchRun); }
        if mode.Retry? && runs[from.value].status.RunFailed? { return Ok(Queued); }
        var retryable := HasRetryableFailure(from.value);
        return if mode.Resume? && retryable then Ok(Queued) else Err(InvalidTransition);
      }
      next := if s.Queued? || s.JobRunning? then Ok(s) else Err(InvalidTransition);
    }

    method AdmitRun(job: Id, mode: Mode, from: Option<Id>, now: int) returns (r: Result<Id, Error>)
      modifies this
      ensures var a := Admit(old(State()), job, mode, from, now);
              if a.Err? then r == Err(a.error) && State() == old(State())
              else r == Ok(old(nextId)) && State() == a.value
    {
      if job !in jobs { return Err(NoSuchJob); }
      var next := NextStatus(jobs[job].status, mode, from);
      if next.Err? { return Err(next.error); }
      var earlier := CountRuns(job);
      var id := Insert(next.value, Run(job, Admitted, 1 + earlier, now,
                                       if mode.Resume? then from else None, if mode.Retry? then from else None));
      r := Ok(id);
    }

    method Insert(next: JobStatus, run: Run) returns (id: Id)
      modifies this
      ensures id == old(nextId) && State() == AddRun(old(State()), next, run)
    {
      id := nextId;
      nextId := nextId + 1;
      runs := runs[id := run];
      order := order + [id];
      nodes := nodes[id := []];
      jobs := jobs[run.job := Job(next, Some(id))];
    }

    method CompensateFailedStart(run: Id)
      modifies this`runs, this`jobs
      ensures State() == Compensate(old(State()), run)
    {
      if run !in runs || !RunMoves(runs[run].status, RunFailed) { return; }
      runs := runs[run := runs[run].(status := RunFailed)];
      var job := runs[run].job;
      if job in jobs && JobMoves(jobs[job].status, JobFailed) {
        jobs := jobs[job := jobs[job].(status := JobFailed)];
      }
    }

    method DetachRows(rows: map<Id, Origin>, run: Id, dropNode: bool) returns (out: map<Id, Origin>)
      ensures out == Detached(rows, run, dropNode)
    {
      out := rows;
      var todo := rows.Keys;
      while todo != {}
        invariant todo <= rows.Keys && out.Keys == rows.Keys
        invariant forall k <- rows :: out[k] == if k in todo then rows[k] else Detached(rows, run, dropNode)[k]
        decreases todo
      {
        var k :| k in todo;
        if rows[k].run == Some(run) { out := out[k := Origin(None, if dropNode then None else rows[k].node)]; }
        todo := todo - {k};
      }
    }

    method NewestRun(job: Id) returns (latest: Option<Id>)
      ensures latest == Newest(State(), order, job)
    {
      latest := None;
      for k := 0 to |order|
        invariant latest == Newest(State(), order[..k], job)
      {
        assert order[..k + 1][..k] == order[..k];
        var i := order[k];
        if i in runs && runs[i].job == job && (latest.None? || latest.value !in runs || runs[latest.value].created <= runs[i].created) {
          latest := Some(i);
        }
      }
      assert order[..|order|] == order;
    }

    method DeleteRun(run: Id) returns (e: Option<Error>)
      modifies this
      ensures var d := Delete(old(State()), run);
              if d.Err? then e == Some(d.error) && State() == old(State()) else e == None && State() == d.value
    {
      if run !in runs { return Some(NoSuchRun); }
      if !Deletable(runs[run].status) { return Some(StillProcessing); }
      ghost var before := State();
      var job := runs[run].job;
      runs := runs - {run};
      order := Without(order, run);
      nodes := nodes - {run};
      artifacts := DetachRows(artifacts, run, true);
      videos := DetachRows(videos, run, false);
      invocations := DetachRows(invocations, run, true);
      assert State() == Remaining(before, run);
      e := None;
      if job !in jobs { return; }
      var latest := NewestRun(job);
      jobs := if latest.Some? then jobs[job := jobs[job].(active := latest)] else jobs - {job};
    }
  }
}
