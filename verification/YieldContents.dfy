/** What each yield rate divides by what, in the events themselves. */
module YieldContents {
  import opened Results
  import opened Yield
  import opened YieldLaws

  // ---- what events of some kinds name -------------------------------------

  function RunsWith(es: seq<Event>, kinds: set<Kind>): set<string> { set e | e in es && e.kind in kinds && e.run != "" :: e.run }

  function JobsWith(es: seq<Event>, kinds: set<Kind>): set<string> { set e | e in es && e.kind in kinds && e.job != "" :: e.job }

  function AllJobs(es: seq<Event>): set<string> { set e | e in es && e.job != "" :: e.job }

  function VideosMade(es: seq<Event>): set<string> { set e | e in es && e.kind == VideoCreated && e.video != "" :: e.video }

  /** The videos events of some kinds are about, or their runs where they name no video. */
  function VideosWith(es: seq<Event>, kinds: set<Kind>): set<string> {
    (set e | e in es && e.kind in kinds && e.video != "" :: e.video) + (set e | e in es && e.kind in kinds && e.video == "" && e.run != "" :: e.run)
  }

  /** The packages they are about, or their runs where they name no package. */
  function PackagesWith(es: seq<Event>, kinds: set<Kind>): set<string> {
    (set e | e in es && e.kind in kinds && e.package != "" :: e.package) + (set e | e in es && e.kind in kinds && e.package == "" && e.run != "" :: e.run)
  }

  /** How many events are of some kinds. */
  function Reports(es: seq<Event>, kinds: set<Kind>): nat {
    if es == [] then 0 else (if es[0].kind in kinds then 1 else 0) + Reports(es[1..], kinds)
  }

  predicate Divides(r: Option<real>, n: nat, d: nat) { if d == 0 then r.None? else r == Some(n as real / d as real) }

  // ---- the sets -----------------------------------------------------------

  lemma {:induction false} CollectIs(es: seq<Event>, f: Event -> string, xs: set<string>)
    requires forall x :: x in xs <==> x != "" && exists e <- es :: f(e) == x
    ensures Collect(es, f) == xs
  {
    forall x ensures x in Collect(es, f) <==> x in xs { CollectHas(es, f, x); }
  }

  lemma {:induction false} RunSets(es: seq<Event>)
    ensures Collect(es, StartedRun) == RunsWith(es, {Submitted, Admitted, Started})
    ensures Collect(es, SucceededRun) == RunsWith(es, {NodeSucceeded}) && Collect(es, FailedRun) == RunsWith(es, {NodeFailed})
  {
    CollectIs(es, StartedRun, RunsWith(es, {Submitted, Admitted, Started}));
    CollectIs(es, SucceededRun, RunsWith(es, {NodeSucceeded}));
    CollectIs(es, FailedRun, RunsWith(es, {NodeFailed}));
  }

  /** The winning runs: published, and neither failed by a check nor rejected by hand. */
  lemma {:induction false} WinnersExactly(es: seq<Event>)
    ensures Winners(es) == RunsWith(es, {Published}) - RunsWith(es, {QcFailed, ManualRejected})
  {
    CollectIs(es, PublishedRun, RunsWith(es, {Published}));
    CollectIs(es, DisqualifiedRun, RunsWith(es, {QcFailed, ManualRejected}));
  }

  lemma {:induction false} JobSets(es: seq<Event>)
    ensures Collect(es, AnyJob) == AllJobs(es) && Collect(es, VideoJob) == JobsWith(es, {VideoCreated})
    ensures Collect(es, CreatedVideo) == VideosMade(es)
  {
    CollectIs(es, AnyJob, AllJobs(es));
    CollectIs(es, VideoJob, JobsWith(es, {VideoCreated}));
    CollectIs(es, CreatedVideo, VideosMade(es));
  }

  lemma {:induction false} CheckSets(es: seq<Event>)
    ensures Collect(es, CheckedVideo) == VideosWith(es, {QcPassed, QcFailed}) && Collect(es, PassedVideo) == VideosWith(es, {QcPassed})
  {
    CollectIs(es, CheckedVideo, VideosWith(es, {QcPassed, QcFailed}));
    CollectIs(es, PassedVideo, VideosWith(es, {QcPassed}));
  }

  lemma {:induction false} ReworkedSet(es: seq<Event>)
    ensures Collect(es, ReworkedVideo) == VideosWith(es, {ReworkRequired, Reworked})
  {
    CollectIs(es, ReworkedVideo, VideosWith(es, {ReworkRequired, Reworked}));
  }

  lemma {:induction false} DiscardedSet(es: seq<Event>)
    ensures Collect(es, DiscardedVideo) == VideosWith(es, {Discarded, Discard})
  {
    CollectIs(es, DiscardedVideo, VideosWith(es, {Discarded, Discard}));
  }

  lemma {:induction false} PackageSets(es: seq<Event>)
    ensures Collect(es, StartedPackage) == PackagesWith(es, {PublishStarted}) && Collect(es, PublishedPackage) == PackagesWith(es, {Published})
  {
    CollectIs(es, StartedPackage, PackagesWith(es, {PublishStarted}));
    CollectIs(es, PublishedPackage, PackagesWith(es, {Published}));
  }

  lemma {:induction false} CountIs(es: seq<Event>, p: Event -> bool, kinds: set<Kind>)
    requires forall e :: p(e) <==> e.kind in kinds
    ensures Count(es, p) == Reports(es, kinds)
  {
    if es != [] {
      assert es == [es[0]] + es[1..];
      CountJoin([es[0]], es[1..], p);
      CountOne(es[0], p);
      CountIs(es[1..], p, kinds);
    }
  }

  // ---- the jobs that count ------------------------------------------------

  predicate FirstReport(es: seq<Event>, k: nat, r: string) {
    k < |es| && es[k].run == r && es[k].job != "" && forall i :: 0 <= i < k ==> !(es[i].run == r && es[i].job != "")
  }

  /** Run r counts for job j: the job it was first reported with, or itself when it never was with any. */
  predicate CountsFor(es: seq<Event>, r: string, j: string) {
    if forall e <- es :: e.run == r ==> e.job == "" then j == r
    else exists k :: 0 <= k < |es| && FirstReport(es, k, r) && j == es[k].job
  }

  lemma {:induction false} FirstJob(es: seq<Event>, r: string)
    requires r in RunToJob(es)
    ensures exists k :: 0 <= k < |es| && FirstReport(es, k, r) && RunToJob(es)[r] == es[k].job
  {
    var front, e := es[..|es| - 1], es[|es| - 1];
    if r in RunToJob(front) {
      FirstJob(front, r);
      var k :| 0 <= k < |front| && FirstReport(front, k, r) && RunToJob(front)[r] == front[k].job;
      assert FirstReport(es, k, r) && es[k] == front[k];
    } else {
      RunToJobHas(front, r);
      RunToJobHas(es, r);
      forall i | 0 <= i < |front| ensures !(es[i].run == r && es[i].job != "") {
        assert es[i] == front[i] && front[i] in front;
      }
      assert FirstReport(es, |front|, r);
    }
  }

  lemma {:induction false} JobIsFirst(es: seq<Event>, r: string)
    requires r != ""
    ensures CountsFor(es, r, JobOf(RunToJob(es), r))
  {
    RunToJobHas(es, r);
    if r in RunToJob(es) { FirstJob(es, r); }
  }

  lemma {:induction false} OneJobEach(es: seq<Event>, r: string, i: string, j: string)
    requires CountsFor(es, r, i) && CountsFor(es, r, j)
    ensures i == j
  {
    if exists e <- es :: e.run == r && e.job != "" {
      var k :| 0 <= k < |es| && FirstReport(es, k, r) && i == es[k].job;
      var l :| 0 <= l < |es| && FirstReport(es, l, r) && j == es[l].job;
      assert k == l;
    }
  }

  /** A job counts exactly when a winning run counts for it. */
  lemma {:induction false} TrueJobsExactly(es: seq<Event>, j: string)
    ensures j in TrueJobs(Winners(es), RunToJob(es)) <==> exists r <- Winners(es) :: CountsFor(es, r, j)
  {
    forall r | r in Winners(es) ensures r != "" && CountsFor(es, r, JobOf(RunToJob(es), r)) {
      CollectHas(es, PublishedRun, r);
      JobIsFirst(es, r);
    }
    if r :| r in Winners(es) && CountsFor(es, r, j) { OneJobEach(es, r, j, JobOf(RunToJob(es), r)); }
  }

  // ---- the rates ----------------------------------------------------------

  /** The technical, video, check and publish rates, told from the events: what is counted over what it is out of. */
  lemma {:induction false} RatesExactly(es: seq<Event>, versions: map<string, set<string>>)
    ensures var r := Compute(es, versions);
            && Divides(r.technical, |RunsWith(es, {NodeSucceeded}) - RunsWith(es, {NodeFailed})|, |RunsWith(es, {Submitted, Admitted, Started})|)
            && Divides(r.video, |JobsWith(es, {VideoCreated})|, |AllJobs(es)|)
            && Divides(r.qc, |VideosWith(es, {QcPassed})|, |VideosWith(es, {QcPassed, QcFailed})|)
            && Divides(r.publish, |PackagesWith(es, {Published})|, |PackagesWith(es, {PublishStarted})|)
  {
    RunSets(es);
    JobSets(es);
    CheckSets(es);
    PackageSets(es);
  }

  /** So are the approval and stage rates, which count reports, and the rework and discard rates, out of what was made. */
  lemma {:induction false} CountRatesExactly(es: seq<Event>, versions: map<string, set<string>>)
    ensures var r := Compute(es, versions);
            && Divides(r.approval, Reports(es, {ManualApproved}), Reports(es, {ManualApproved, ManualRejected}))
            && Divides(r.stage, Reports(es, {NodeSucceeded}), Reports(es, {NodeStarted}))
            && var made := if VideosMade(es) != {} then |VideosMade(es)| else |JobsWith(es, {VideoCreated})|;
               && Divides(r.rework, |VideosWith(es, {ReworkRequired, Reworked})|, made)
               && Divides(r.discard, |VideosWith(es, {Discarded, Discard})|, made)
  {
    CountIs(es, Approved, {ManualApproved});
    CountIs(es, Reviewed, {ManualApproved, ManualRejected});
    CountIs(es, StagePassed, {NodeSucceeded});
    CountIs(es, StageStarted, {NodeStarted});
    JobSets(es);
    ReworkedSet(es);
    DiscardedSet(es);
  }

  /** The true yield divides the jobs that winning runs count for by all jobs. */
  lemma {:induction false} TrueYieldExactly(es: seq<Event>, versions: map<string, set<string>>, counted: set<string>)
    requires forall j :: j in counted <==> exists r <- RunsWith(es, {Published}) - RunsWith(es, {QcFailed, ManualRejected}) :: CountsFor(es, r, j)
    ensures Divides(Compute(es, versions).trueYield, |counted|, |AllJobs(es)|)
  {
    WinnersExactly(es);
    JobSets(es);
    forall j ensures j in counted <==> j in TrueJobs(Winners(es), RunToJob(es)) { TrueJobsExactly(es, j); }
    assert counted == TrueJobs(Winners(es), RunToJob(es));
  }

  /** The runs that used a prompt version. */
  function Using(versions: map<string, set<string>>, v: string): set<string> { set r | r in versions && v in versions[r] }

  lemma {:induction false} PromptsAre(versions: map<string, set<string>>, winners: set<string>, v: string)
    ensures v in PromptYield(versions, winners) <==> v != "" && Using(versions, v) != {}
    ensures v in PromptYield(versions, winners) ==>
              PromptYield(versions, winners)[v] == |Using(versions, v) * winners| as real / |Using(versions, v)| as real
  {
    var used := Using(versions, v);
    assert used == UsedBy(versions, v);
    if used != {} {
      var r :| r in used;
      assert v != "" ==> v in AllVersions(versions);
      assert |used| > 0;
    }
    if v in AllVersions(versions) {
      var r :| r in versions && v in versions[r];
      assert r in used;
    }
  }

  /** A prompt version's yield divides the winning runs that used it by all runs that did; every version some run used
      has one, and no other. */
  lemma {:induction false} PromptYieldExactly(es: seq<Event>, versions: map<string, set<string>>, v: string)
    ensures var prompts, used := Compute(es, versions).prompts, Using(versions, v);
            var won := used * (RunsWith(es, {Published}) - RunsWith(es, {QcFailed, ManualRejected}));
            (v in prompts <==> v != "" && used != {}) && (v in prompts ==> prompts[v] == |won| as real / |used| as real)
  {
    WinnersExactly(es);
    PromptsAre(versions, Winners(es), v);
  }
}
