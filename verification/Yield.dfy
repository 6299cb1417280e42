/** Yield rates of the production funnel. */
module Yield {
  import opened Results

  datatype Kind =
    | Submitted | Admitted | Started | NodeStarted | NodeSucceeded | NodeFailed | VideoCreated | QcPassed | QcFailed
    | ManualApproved | ManualRejected | PublishStarted | Published | ReworkRequired | Reworked | Discarded | Discard | Other

  /** A funnel event; an absent reference is empty, as both are falsy. */
  datatype Event = Event(kind: Kind, run: string, job: string, video: string, package: string)

  // ---- what an event contributes; empty for nothing ------------------------

  function StartedRun(e: Event): string { if e.kind.Submitted? || e.kind.Admitted? || e.kind.Started? then e.run else "" }
  function SucceededRun(e: Event): string { if e.kind.NodeSucceeded? then e.run else "" }
  function FailedRun(e: Event): string { if e.kind.NodeFailed? then e.run else "" }
  function PublishedRun(e: Event): string { if e.kind.Published? then e.run else "" }
  function DisqualifiedRun(e: Event): string { if e.kind.QcFailed? || e.kind.ManualRejected? then e.run else "" }
  function AnyJob(e: Event): string { e.job }
  function VideoJob(e: Event): string { if e.kind.VideoCreated? then e.job else "" }
  function CreatedVideo(e: Event): string { if e.kind.VideoCreated? then e.video else "" }
  function Target(e: Event): string { if e.video != "" then e.video else e.run }
  function CheckedVideo(e: Event): string { if e.kind.QcPassed? || e.kind.QcFailed? then Target(e) else "" }
  function PassedVideo(e: Event): string { if e.kind.QcPassed? then Target(e) else "" }
  function ReworkedVideo(e: Event): string { if e.kind.ReworkRequired? || e.kind.Reworked? then Target(e) else "" }
  function DiscardedVideo(e: Event): string { if e.kind.Discarded? || e.kind.Discard? then Target(e) else "" }
  function PackageOf(e: Event): string { if e.package != "" then e.package else e.run }
  function StartedPackage(e: Event): string { if e.kind.PublishStarted? then PackageOf(e) else "" }
  function PublishedPackage(e: Event): string { if e.kind.Published? then PackageOf(e) else "" }

  predicate Reviewed(e: Event) { e.kind.ManualApproved? || e.kind.ManualRejected? }
  predicate Approved(e: Event) { e.kind.ManualApproved? }
  predicate StageStarted(e: Event) { e.kind.NodeStarted? }
  predicate StagePassed(e: Event) { e.kind.NodeSucceeded? }

  /** The set a loop collects. */
  function Collect(es: seq<Event>, f: Event -> string): set<string> {
    if es == [] then {}
    else
      var x := f(es[|es| - 1]);
      Collect(es[..|es| - 1], f) + if x != "" then {x} else {}
  }

  function Count(es: seq<Event>, p: Event -> bool): nat {
    if es == [] then 0 else Count(es[..|es| - 1], p) + if p(es[|es| - 1]) then 1 else 0
  }

  /** The job a run is first seen with. */
  function RunToJob(es: seq<Event>): map<string, string> {
    if es == [] then map[]
    else
      var front, e := RunToJob(es[..|es| - 1]), es[|es| - 1];
      if e.run != "" && e.job != "" && e.run !in front then front[e.run := e.job] else front
  }

  function JobOf(m: map<string, string>, run: string): string { if run in m then m[run] else run }

  /** The jobs of winning runs; a run without a job counts as one of its own. */
  function TrueJobs(winners: set<string>, m: map<string, string>): set<string> {
    set r | r in winners :: JobOf(m, r)
  }

  // ---- prompt versions ----------------------------------------------------

  /** The runs that used a prompt version. */
  function UsedBy(versions: map<string, set<string>>, v: string): set<string> {
    set r | r in versions && v in versions[r]
  }

  function AllVersions(versions: map<string, set<string>>): set<string> {
    set r, v | r in versions && v in versions[r] && v != "" :: v
  }

  function Positive(n: nat): (p: nat)
    ensures p > 0
  {
    if n == 0 then 1 else n
  }

  function PromptYield(versions: map<string, set<string>>, winners: set<string>): map<string, real> {
    map v | v in AllVersions(versions) :: |UsedBy(versions, v) * winners| as real / Positive(|UsedBy(versions, v)|) as real
  }

  // ---- rates --------------------------------------------------------------

  function Ratio(n: int, d: int): Option<real> { if d <= 0 then None else Some(n as real / d as real) }

  datatype Rates = Rates(
    technical: Option<real>, video: Option<real>, qc: Option<real>, approval: Option<real>, publish: Option<real>,
    trueYield: Option<real>, rework: Option<real>, discard: Option<real>, stage: Option<real>, prompts: map<string, real>)

  function Winners(es: seq<Event>): set<string> { Collect(es, PublishedRun) - Collect(es, DisqualifiedRun) }

  function VideoCount(es: seq<Event>): nat {
    if |Collect(es, CreatedVideo)| != 0 then |Collect(es, CreatedVideo)| else |Collect(es, VideoJob)|
  }

  function Compute(es: seq<Event>, versions: map<string, set<string>>): Rates {
    Rates(
      Ratio(|Collect(es, SucceededRun) - Collect(es, FailedRun)|, |Collect(es, StartedRun)|),
      Ratio(|Collect(es, VideoJob)|, |Collect(es, AnyJob)|),
      Ratio(|Collect(es, PassedVideo)|, |Collect(es, CheckedVideo)|),
      Ratio(Count(es, Approved), Count(es, Reviewed)),
      Ratio(|Collect(es, PublishedPackage)|, |Collect(es, StartedPackage)|),
      Ratio(|TrueJobs(Winners(es), RunToJob(es))|, |Collect(es, AnyJob)|),
      Ratio(|Collect(es, ReworkedVideo)|, VideoCount(es)),
      Ratio(|Collect(es, DiscardedVideo)|, VideoCount(es)),
      Ratio(Count(es, StagePassed), Count(es, StageStarted)),
      PromptYield(versions, Winners(es)))
  }

  // ---- the loops ----------------------------------------------------------

  method MapRunsToJobs(es: seq<Event>) returns (m: map<string, string>)
    ensures m == RunToJob(es)
  {
    m := map[];
    for n := 0 to |es|
      invariant m == RunToJob(es[..n])
    {
      assert es[..n + 1][..n] == es[..n];
      if es[n].run != "" && es[n].job != "" && es[n].run !in m { m := m[es[n].run := es[n].job]; }
    }
    assert es[..|es|] == es;
  }

  method TrueYieldJobs(published: set<string>, disqualified: set<string>, m: map<string, string>) returns (jobs: set<string>)
    ensures jobs == TrueJobs(published - disqualified, m)
  {
    jobs := {};
    var todo := published - disqualified;
    ghost var done: set<string> := {};
    while todo != {}
      invariant done !! todo && done + todo == published - disqualified && jobs == TrueJobs(done, m)
      decreases todo
    {
      var r :| r in todo;
      todo, done := todo - {r}, done + {r};
      jobs := jobs + {JobOf(m, r)};
    }
    assert done == published - disqualified;
  }

  lemma {:induction false} CollectNext(es: seq<Event>, n: nat, f: Event -> string)
    requires n < |es|
    ensures Collect(es[..n + 1], f) == Collect(es[..n], f) + if f(es[n]) != "" then {f(es[n])} else {}
  {
    assert es[..n + 1][..n] == es[..n];
  }

  /** Runs by what was reported of them. */
  method CollectRuns(es: seq<Event>)
    returns (started: set<string>, succeeded: set<string>, failed: set<string>, published: set<string>, disqualified: set<string>)
    ensures started == Collect(es, StartedRun) && succeeded == Collect(es, SucceededRun) && failed == Collect(es, FailedRun)
    ensures published == Collect(es, PublishedRun) && disqualified == Collect(es, DisqualifiedRun)
  {
    started, succeeded, failed, published, disqualified := {}, {}, {}, {}, {};
    for n := 0 to |es|
      invariant started == Collect(es[..n], StartedRun) && succeeded == Collect(es[..n], SucceededRun)
      invariant failed == Collect(es[..n], FailedRun)
      invariant published == Collect(es[..n], PublishedRun) && disqualified == Collect(es[..n], DisqualifiedRun)
    {
      CollectNext(es, n, StartedRun);
      CollectNext(es, n, SucceededRun);
      CollectNext(es, n, FailedRun);
      CollectNext(es, n, PublishedRun);
      CollectNext(es, n, DisqualifiedRun);
      var e := es[n];
      if e.run != "" {
        if e.kind.Submitted? || e.kind.Admitted? || e.kind.Started? { started := started + {e.run}; }
        if e.kind.NodeSucceeded? { succeeded := succeeded + {e.run}; }
        if e.kind.NodeFailed? { failed := failed + {e.run}; }
        if e.kind.Published? { published := published + {e.run}; }
        if e.kind.QcFailed? || e.kind.ManualRejected? { disqualified := disqualified + {e.run}; }
      }
    }
    assert es[..|es|] == es;
  }

  /** Jobs and videos. */
  method CollectVideos(es: seq<Event>)
    returns (jobs: set<string>, videoJobs: set<string>, videos: set<string>, checked: set<string>, passed: set<string>)
    ensures jobs == Collect(es, AnyJob) && videoJobs == Collect(es, VideoJob) && videos == Collect(es, CreatedVideo)
    ensures checked == Collect(es, CheckedVideo) && passed == Collect(es, PassedVideo)
  {
    jobs, videoJobs, videos, checked, passed := {}, {}, {}, {}, {};
    for n := 0 to |es|
      invariant jobs == Collect(es[..n], AnyJob) && videoJobs == Collect(es[..n], VideoJob) && videos == Collect(es[..n], CreatedVideo)
      invariant checked == Collect(es[..n], CheckedVideo) && passed == Collect(es[..n], PassedVideo)
    {
      CollectNext(es, n, AnyJob);
      CollectNext(es, n, VideoJob);
      CollectNext(es, n, CreatedVideo);
      CollectNext(es, n, CheckedVideo);
      CollectNext(es, n, PassedVideo);
      var e := es[n];
      var target := Target(e);
      if e.job != "" {
        jobs := jobs + {e.job};
        if e.kind.VideoCreated? { videoJobs := videoJobs + {e.job}; }
      }
      if e.kind.VideoCreated? && e.video != "" { videos := videos + {e.video}; }
      if (e.kind.QcPassed? || e.kind.QcFailed?) && target != "" {
        checked := checked + {target};
        if e.kind.QcPassed? { passed := passed + {target}; }
      }
    }
    assert es[..|es|] == es;
  }

  /** What became of them. */
  method CollectOutcomes(es: seq<Event>)
    returns (reworked: set<string>, discarded: set<string>, started: set<string>, published: set<string>)
    ensures reworked == Collect(es, ReworkedVideo) && discarded == Collect(es, DiscardedVideo)
    ensures started == Collect(es, StartedPackage) && published == Collect(es, PublishedPackage)
  {
    reworked, discarded, started, published := {}, {}, {}, {};
    for n := 0 to |es|
      invariant reworked == Collect(es[..n], ReworkedVideo) && discarded == Collect(es[..n], DiscardedVideo)
      invariant started == Collect(es[..n], StartedPackage) && published == Collect(es[..n], PublishedPackage)
    {
      CollectNext(es, n, ReworkedVideo);
      CollectNext(es, n, DiscardedVideo);
      CollectNext(es, n, StartedPackage);
      CollectNext(es, n, PublishedPackage);
      var e := es[n];
      var target, package := Target(e), PackageOf(e);
      if (e.kind.ReworkRequired? || e.kind.Reworked?) && target != "" { reworked := reworked + {target}; }
      if (e.kind.Discarded? || e.kind.Discard?) && target != "" { discarded := discarded + {target}; }
      if e.kind.PublishStarted? && package != "" { started := started + {package}; }
      if e.kind.Published? && package != "" { published := published + {package}; }
    }
    assert es[..|es|] == es;
  }

  method CountEvents(es: seq<Event>) returns (reviewed: nat, approved: nat, stages: nat, stagesPassed: nat)
    ensures reviewed == Count(es, Reviewed) && approved == Count(es, Approved)
    ensures stages == Count(es, StageStarted) && stagesPassed == Count(es, StagePassed)
  {
    reviewed, approved, stages, stagesPassed := 0, 0, 0, 0;
    for n := 0 to |es|
      invariant reviewed == Count(es[..n], Reviewed) && approved == Count(es[..n], Approved)
      invariant stages == Count(es[..n], StageStarted) && stagesPassed == Count(es[..n], StagePassed)
    {
      assert es[..n + 1][..n] == es[..n];
      match es[n].kind {
        case ManualApproved => reviewed, approved := reviewed + 1, approved + 1;
        case ManualRejected => reviewed := reviewed + 1;
        case NodeStarted => stages := stages + 1;
        case NodeSucceeded => stagesPassed := stagesPassed + 1;
        case _ =>
      }
    }
    assert es[..|es|] == es;
  }

  function Get(counts: map<string, nat>, v: string): nat { if v in counts then counts[v] else 0 }

  method BumpVersions(counts: map<string, nat>, vs: set<string>) returns (out: map<string, nat>)
    ensures out.Keys == counts.Keys + (vs - {""})
    ensures forall v :: v != "" ==> Get(out, v) == Get(counts, v) + if v in vs then 1 else 0
  {
    out := counts;
    var todo := vs - {""};
    ghost var done: set<string> := {};
    while todo != {}
      invariant done !! todo && done + todo == vs - {""} && out.Keys == counts.Keys + done
      invariant forall v :: v != "" ==> Get(out, v) == Get(counts, v) + if v in done then 1 else 0
      decreases todo
    {
      var v :| v in todo;
      todo, done := todo - {v}, done + {v};
      out := out[v := Get(out, v) + 1];
    }
    assert done == vs - {""};
  }

  /** counts says for each version how many of the given runs used it, and knows none that no run used. */
  ghost predicate Tallied(counts: map<string, nat>, versions: map<string, set<string>>, runs: set<string>) {
    && (forall v :: v in counts ==> v != "" && UsedBy(versions, v) * runs != {})
    && (forall v :: v != "" ==> Get(counts, v) == |UsedBy(versions, v) * runs|)
  }

  lemma {:induction false} UsesGrow(versions: map<string, set<string>>, runs: set<string>, r: string, v: string)
    requires r in versions && r !in runs
    ensures |UsedBy(versions, v) * (runs + {r})| == |UsedBy(versions, v) * runs| + if v in versions[r] then 1 else 0
  {
    assert UsedBy(versions, v) * (runs + {r}) == UsedBy(versions, v) * runs + if v in versions[r] then {r} else {};
  }

  lemma {:induction false} TallyGrows(counts: map<string, nat>, out: map<string, nat>, versions: map<string, set<string>>, runs: set<string>, r: string)
    requires Tallied(counts, versions, runs) && r in versions && r !in runs
    requires out.Keys == counts.Keys + (versions[r] - {""})
    requires forall v :: v != "" ==> Get(out, v) == Get(counts, v) + if v in versions[r] then 1 else 0
    ensures Tallied(out, versions, runs + {r})
  {
    forall v: string | v != ""
      ensures Get(out, v) == |UsedBy(versions, v) * (runs + {r})|
    {
      UsesGrow(versions, runs, r, v);
    }
    forall v | v in out ensures v != "" && UsedBy(versions, v) * (runs + {r}) != {} {
      if v in counts {
        var x :| x in UsedBy(versions, v) * runs;
        assert x in UsedBy(versions, v) * (runs + {r});
      } else {
        assert r in UsedBy(versions, v) * (runs + {r});
      }
    }
  }

  /** Counts one more run under every version it used. */
  method CountRun(counts: map<string, nat>, versions: map<string, set<string>>, ghost runs: set<string>, r: string)
    returns (out: map<string, nat>)
    requires Tallied(counts, versions, runs) && r in versions && r !in runs
    ensures Tallied(out, versions, runs + {r})
  {
    out := BumpVersions(counts, versions[r]);
    TallyGrows(counts, out, versions, runs, r);
  }

  method TallyRuns(versions: map<string, set<string>>, runs: set<string>) returns (counts: map<string, nat>)
    requires runs <= versions.Keys
    ensures Tallied(counts, versions, runs)
  {
    counts := map[];
    var todo := runs;
    ghost var done: set<string> := {};
    while todo != {}
      invariant done !! todo && done + todo == runs && Tallied(counts, versions, done)
      decreases todo
    {
      var r :| r in todo;
      counts := CountRun(counts, versions, done, r);
      todo, done := todo - {r}, done + {r};
    }
    assert done == runs;
  }

  lemma {:induction false} TalliedKeys(totals: map<string, nat>, versions: map<string, set<string>>)
    requires Tallied(totals, versions, versions.Keys)
    ensures totals.Keys == AllVersions(versions)
  {
    forall v | v in AllVersions(versions) ensures v in totals {
      var r :| r in versions && v in versions[r];
      assert r in UsedBy(versions, v) * versions.Keys;
      assert Get(totals, v) > 0;
    }
    forall v | v in totals ensures v in AllVersions(versions) {
      var r :| r in UsedBy(versions, v) * versions.Keys;
    }
  }

  lemma {:induction false} YieldOfTallies(versions: map<string, set<string>>, winners: set<string>, totals: map<string, nat>, wins: map<string, nat>)
    requires Tallied(totals, versions, versions.Keys) && Tallied(wins, versions, versions.Keys * winners)
    ensures (map v | v in totals :: Get(wins, v) as real / Positive(totals[v]) as real) == PromptYield(versions, winners)
  {
    TalliedKeys(totals, versions);
    forall v | v in totals
      ensures totals[v] == |UsedBy(versions, v)| && Get(wins, v) == |UsedBy(versions, v) * winners|
    {
      assert Get(totals, v) == totals[v];
      assert UsedBy(versions, v) * versions.Keys == UsedBy(versions, v);
      assert UsedBy(versions, v) * (versions.Keys * winners) == UsedBy(versions, v) * winners;
    }
  }

  method PromptVersionYield(versions: map<string, set<string>>, published: set<string>, disqualified: set<string>)
    returns (rates: map<string, real>)
    ensures rates == PromptYield(versions, published - disqualified)
  {
    var winners := published - disqualified;
    var totals := TallyRuns(versions, versions.Keys);
    var wins := TallyRuns(versions, versions.Keys * winners);
    rates := map v | v in totals :: Get(wins, v) as real / Positive(totals[v]) as real;
    YieldOfTallies(versions, winners, totals, wins);
  }

  method ComputeYieldRates(es: seq<Event>, versions: map<string, set<string>>) returns (rates: Rates)
    ensures rates == Compute(es, versions)
  {
    var started, succeeded, failed, published, disqualified := CollectRuns(es);
    var jobs, videoJobs, videos, checked, passed := CollectVideos(es);
    var reworked, discarded, packages, publishedPackages := CollectOutcomes(es);
    var reviewed, approved, stages, stagesPassed := CountEvents(es);
    var m := MapRunsToJobs(es);
    var winners := TrueYieldJobs(published, disqualified, m);
    var prompts := PromptVersionYield(versions, published, disqualified);
    var denominator := if |videos| != 0 then |videos| else |videoJobs|;
    rates := Rates(
      Ratio(|succeeded - failed|, |started|), Ratio(|videoJobs|, |jobs|), Ratio(|passed|, |checked|), Ratio(approved, reviewed),
      Ratio(|publishedPackages|, |packages|), Ratio(|winners|, |jobs|), Ratio(|reworked|, denominator), Ratio(|discarded|, denominator),
      Ratio(stagesPassed, stages), prompts);
  }
}
