/** Yield rates depend on what happened, not on the order or the number of reports of it. */
module YieldLaws {
  import opened Results
  import opened Sequences
  import opened Yield

  // ---- what a collected set holds -----------------------------------------

  lemma {:induction false} CollectHas(es: seq<Event>, f: Event -> string, x: string)
    ensures x in Collect(es, f) <==> x != "" && exists e <- es :: f(e) == x
  {
    if es != [] {
      CollectHas(es[..|es| - 1], f, x);
      assert es == es[..|es| - 1] + [es[|es| - 1]];
    }
  }

  predicate SameEvents(es: seq<Event>, fs: seq<Event>) {
    (forall e <- es :: e in fs) && (forall e <- fs :: e in es)
  }

  lemma {:induction false} SameCollect(es: seq<Event>, fs: seq<Event>, f: Event -> string)
    requires SameEvents(es, fs)
    ensures Collect(es, f) == Collect(fs, f)
  {
    forall x ensures x in Collect(es, f) <==> x in Collect(fs, f) {
      CollectHas(es, f, x);
      CollectHas(fs, f, x);
    }
  }

  lemma {:induction false} CollectWithin(es: seq<Event>, f: Event -> string, g: Event -> string)
    requires forall e <- es :: f(e) != "" ==> f(e) == g(e)
    ensures Collect(es, f) <= Collect(es, g)
  {
    forall x | x in Collect(es, f) ensures x in Collect(es, g) {
      CollectHas(es, f, x);
      CollectHas(es, g, x);
    }
  }

  /** No run is reported with two jobs. */
  predicate OneJobPerRun(es: seq<Event>) {
    forall d, e :: d in es && e in es && d.run != "" && d.run == e.run && d.job != "" && e.job != "" ==> d.job == e.job
  }

  lemma {:induction false} RunToJobHas(es: seq<Event>, r: string)
    ensures r in RunToJob(es) <==> exists e <- es :: e.run == r && r != "" && e.job != ""
    ensures r in RunToJob(es) ==> exists e <- es :: e.run == r && RunToJob(es)[r] == e.job && e.job != ""
  {
    if es != [] {
      RunToJobHas(es[..|es| - 1], r);
      assert es == es[..|es| - 1] + [es[|es| - 1]];
    }
  }

  // ---- the jobs a winning run can count for --------------------------------

  function Jobs(es: seq<Event>, r: string): set<string> { set e | e in es && e.run == r && e.job != "" :: e.job }

  /** The jobs a run was reported with, or the run itself when there are none. */
  function Choices(es: seq<Event>, r: string): set<string> {
    if Jobs(es, r) == {} then {r} else Jobs(es, r)
  }

  /** Another winning run can count for job j, or cannot count for anything else. */
  predicate Contested(es: seq<Event>, r: string, j: string) { exists q <- Winners(es) :: q != r && j in Choices(es, q) }
  predicate Taken(es: seq<Event>, r: string, j: string) { exists q <- Winners(es) :: q != r && Choices(es, q) == {j} }

  /** A winning run with several jobs has them all to itself, or they all count anyway. */
  predicate Steady(es: seq<Event>) {
    forall r <- Winners(es) :: |Choices(es, r)| > 1 ==>
      (forall j <- Choices(es, r) :: !Contested(es, r, j)) || (forall j <- Choices(es, r) :: Taken(es, r, j))
  }

  /** m gives every winning run one of its jobs. */
  predicate Chooses(es: seq<Event>, m: map<string, string>) {
    forall r <- Winners(es) :: JobOf(m, r) in Choices(es, r)
  }

  lemma {:induction false} FirstJobIsChoice(es: seq<Event>, r: string)
    requires r != ""
    ensures JobOf(RunToJob(es), r) in Choices(es, r)
  {
    RunToJobHas(es, r);
    if r in RunToJob(es) {
      var e :| e in es && e.run == r && RunToJob(es)[r] == e.job && e.job != "";
    } else {
      assert forall e <- es :: e.run == r ==> e.job == "";
    }
  }

  lemma {:induction false} SameChoices(es: seq<Event>, fs: seq<Event>)
    requires SameEvents(es, fs)
    ensures Winners(es) == Winners(fs) && Chooses(es, RunToJob(fs))
  {
    SameCollect(es, fs, PublishedRun);
    SameCollect(es, fs, DisqualifiedRun);
    forall r | r in Winners(es) ensures JobOf(RunToJob(fs), r) in Choices(es, r) {
      CollectHas(es, PublishedRun, r);
      FirstJobIsChoice(fs, r);
      assert Choices(es, r) == Choices(fs, r);
    }
  }

  // ---- steady events count the same jobs whatever is chosen -----------------

  /** The winning runs with one job, and those with several that no other winner can count for. */
  function Settled(es: seq<Event>): set<string> { set r | r in Winners(es) && |Choices(es, r)| <= 1 }
  function Alone(es: seq<Event>): set<string> {
    set r | r in Winners(es) && |Choices(es, r)| > 1 && forall j <- Choices(es, r) :: !Contested(es, r, j)
  }
  function SettledJobs(es: seq<Event>): set<string> { set r, j | r in Settled(es) && j in Choices(es, r) :: j }

  lemma {:induction false} OnlyElement(c: set<string>, x: string)
    requires x in c && |c| <= 1
    ensures c == {x}
  {
    assert |c - {x}| == |c| - 1;
  }

  lemma {:induction false} SettledJobsCount(es: seq<Event>, m: map<string, string>)
    requires Chooses(es, m)
    ensures TrueJobs(Settled(es), m) == SettledJobs(es)
  {
    forall r | r in Settled(es) ensures Choices(es, r) == {JobOf(m, r)} {
      OnlyElement(Choices(es, r), JobOf(m, r));
    }
  }

  lemma {:induction false} SteadyJobs(es: seq<Event>, m: map<string, string>)
    requires Steady(es) && Chooses(es, m)
    ensures TrueJobs(Winners(es), m) == SettledJobs(es) + TrueJobs(Alone(es), m)
  {
    SettledJobsCount(es, m);
    forall r | r in Winners(es) ensures JobOf(m, r) in SettledJobs(es) + TrueJobs(Alone(es), m) {
      var j := JobOf(m, r);
      if r !in Settled(es) && r !in Alone(es) {
        assert Taken(es, r, j);
        var q :| q in Winners(es) && q != r && Choices(es, q) == {j};
        assert q in Settled(es);
      }
    }
  }

  lemma {:induction false} OneEach(runs: set<string>, m: map<string, string>)
    requires forall r, q :: r in runs && q in runs && r != q ==> JobOf(m, r) != JobOf(m, q)
    ensures |TrueJobs(runs, m)| == |runs|
    decreases |runs|
  {
    if runs != {} {
      var r :| r in runs;
      OneEach(runs - {r}, m);
      assert TrueJobs(runs, m) == TrueJobs(runs - {r}, m) + {JobOf(m, r)};
    }
  }

  lemma {:induction false} AloneJobs(es: seq<Event>, m: map<string, string>)
    requires Chooses(es, m)
    ensures SettledJobs(es) !! TrueJobs(Alone(es), m) && |TrueJobs(Alone(es), m)| == |Alone(es)|
  {
    forall r, q | r in Alone(es) && q in Winners(es) && q != r ensures JobOf(m, r) !in Choices(es, q) {
      assert !Contested(es, r, JobOf(m, r));
    }
    OneEach(Alone(es), m);
  }

  lemma {:induction false} SteadyCount(es: seq<Event>, fs: seq<Event>)
    requires SameEvents(es, fs) && Steady(es)
    ensures |TrueJobs(Winners(es), RunToJob(es))| == |TrueJobs(Winners(fs), RunToJob(fs))|
  {
    SameChoices(es, es);
    SameChoices(es, fs);
    SteadyJobs(es, RunToJob(es));
    SteadyJobs(es, RunToJob(fs));
    AloneJobs(es, RunToJob(es));
    AloneJobs(es, RunToJob(fs));
  }

  /** The rates but approval and stage, which count reports. */
  predicate SameButCounts(a: Rates, b: Rates) { a == b.(approval := a.approval, stage := a.stage) }

  lemma {:induction false} SameSetsSameRates(es: seq<Event>, fs: seq<Event>, versions: map<string, set<string>>)
    requires SameEvents(es, fs) && |TrueJobs(Winners(es), RunToJob(es))| == |TrueJobs(Winners(fs), RunToJob(fs))|
    ensures SameButCounts(Compute(es, versions), Compute(fs, versions))
  {
    SameCollect(es, fs, StartedRun);
    SameCollect(es, fs, SucceededRun);
    SameCollect(es, fs, FailedRun);
    SameCollect(es, fs, PublishedRun);
    SameCollect(es, fs, DisqualifiedRun);
    SameCollect(es, fs, AnyJob);
    SameCollect(es, fs, VideoJob);
    SameCollect(es, fs, CreatedVideo);
    SameCollect(es, fs, CheckedVideo);
    SameCollect(es, fs, PassedVideo);
    SameCollect(es, fs, ReworkedVideo);
    SameCollect(es, fs, DiscardedVideo);
    SameCollect(es, fs, StartedPackage);
    SameCollect(es, fs, PublishedPackage);
  }

  lemma {:induction false} SteadyReports(es: seq<Event>, fs: seq<Event>, versions: map<string, set<string>>)
    requires SameEvents(es, fs) && Steady(es)
    ensures SameButCounts(Compute(es, versions), Compute(fs, versions))
  {
    SteadyCount(es, fs);
    SameSetsSameRates(es, fs, versions);
  }

  // ---- repeats after their originals ----------------------------------------

  /** The first report of each event, in order. */
  function Firsts(es: seq<Event>): seq<Event> {
    if es == [] then []
    else
      var front, e := Firsts(es[..|es| - 1]), es[|es| - 1];
      if e in front then front else front + [e]
  }

  lemma {:induction false} FirstsHas(es: seq<Event>)
    ensures SameEvents(es, Firsts(es))
  {
    if es != [] {
      FirstsHas(es[..|es| - 1]);
      assert es == es[..|es| - 1] + [es[|es| - 1]];
    }
  }

  lemma {:induction false} RunToJobAppend(es: seq<Event>, e: Event)
    ensures var m := RunToJob(es); RunToJob(es + [e]) == if e.run != "" && e.job != "" && e.run !in m then m[e.run := e.job] else m
  {
    assert (es + [e])[..|es|] == es;
  }

  /** A repeat tells no run its job: the original came first. */
  lemma {:induction false} FirstsRunToJob(es: seq<Event>)
    ensures RunToJob(Firsts(es)) == RunToJob(es)
  {
    if es != [] {
      var front, e := es[..|es| - 1], es[|es| - 1];
      FirstsRunToJob(front);
      FirstsHas(front);
      if e in Firsts(front) { RunToJobHas(front, e.run); } else { RunToJobAppend(Firsts(front), e); }
    }
  }

  /** Reporting events again after they were reported first, in whatever order and however often, changes no rate
      but approval and stage, even when runs are reported with several jobs. */
  lemma {:induction false} RepeatsDoNotCount(es: seq<Event>, fs: seq<Event>, versions: map<string, set<string>>)
    requires Firsts(es) == Firsts(fs)
    ensures SameButCounts(Compute(es, versions), Compute(fs, versions))
  {
    FirstsHas(es);
    FirstsHas(fs);
    FirstsRunToJob(es);
    FirstsRunToJob(fs);
    SameCollect(es, fs, PublishedRun);
    SameCollect(es, fs, DisqualifiedRun);
    SameSetsSameRates(es, fs, versions);
  }

  lemma {:induction false} FirstsStay(es: seq<Event>, more: seq<Event>)
    requires forall e <- more :: e in es
    ensures Firsts(es + more) == Firsts(es)
    decreases |more|
  {
    if more == [] {
      assert es + more == es;
    } else {
      var front, e := more[..|more| - 1], more[|more| - 1];
      assert (es + more)[..|es + more| - 1] == es + front && e in more && forall x <- front :: x in more;
      FirstsStay(es, front);
      FirstsHas(es);
    }
  }

  lemma {:induction false} LateRepeatsDoNotCount(es: seq<Event>, more: seq<Event>, versions: map<string, set<string>>)
    requires forall e <- more :: e in es
    ensures SameButCounts(Compute(es, versions), Compute(es + more, versions))
  {
    FirstsStay(es, more);
    RepeatsDoNotCount(es, es + more, versions);
  }

  lemma {:induction false} CountJoin(a: seq<Event>, b: seq<Event>, p: Event -> bool)
    ensures Count(a + b, p) == Count(a, p) + Count(b, p)
    decreases |b|
  {
    if b == [] {
      assert a + b == a;
    } else {
      assert (a + b)[..|a + b| - 1] == a + b[..|b| - 1];
      CountJoin(a, b[..|b| - 1], p);
    }
  }

  lemma {:induction false} CountOne(e: Event, p: Event -> bool)
    ensures Count([e], p) == if p(e) then 1 else 0
  {
    assert [e][..0] == [];
  }

  lemma {:induction false} Without(fs: seq<Event>, n: nat, rest: multiset<Event>)
    requires n < |fs| && multiset(fs) == rest + multiset{fs[n]}
    ensures multiset(fs[..n] + fs[n + 1..]) == rest && fs == fs[..n] + [fs[n]] + fs[n + 1..]
  {
    var a, b := fs[..n], fs[n + 1..];
    assert fs == a + [fs[n]] + b;
    assert multiset(fs) == multiset(a) + multiset{fs[n]} + multiset(b);
    assert multiset(a + b) == multiset(a) + multiset(b);
    assert rest == multiset(fs) - multiset{fs[n]} == multiset(a) + multiset(b);
  }

  lemma {:induction false} SameCount(es: seq<Event>, fs: seq<Event>, p: Event -> bool)
    requires multiset(es) == multiset(fs)
    ensures Count(es, p) == Count(fs, p)
    decreases |es|
  {
    if es == [] {
      assert |fs| == |multiset(fs)| == 0;
    } else {
      var front, last := es[..|es| - 1], es[|es| - 1];
      assert es == front + [last];
      assert last in multiset(fs);
      var n :| 0 <= n < |fs| && fs[n] == last;
      Without(fs, n, multiset(front));
      SameCount(front, fs[..n] + fs[n + 1..], p);
      CountJoin(fs[..n] + [last], fs[n + 1..], p);
      CountJoin(fs[..n], [last], p);
      CountJoin(fs[..n], fs[n + 1..], p);
      CountOne(last, p);
    }
  }

  predicate Reorders(es: seq<Event>, fs: seq<Event>) { multiset(es) == multiset(fs) }

  lemma {:induction false} ReordersSame(es: seq<Event>, fs: seq<Event>)
    requires Reorders(es, fs)
    ensures SameEvents(es, fs)
  {
    forall e | e in es ensures e in fs {
      assert e in multiset(es);
    }
    forall e | e in fs ensures e in es {
      assert e in multiset(fs);
    }
  }

  lemma {:induction false} SteadyOrder(es: seq<Event>, fs: seq<Event>, versions: map<string, set<string>>)
    requires Reorders(es, fs) && Steady(es)
    ensures Compute(es, versions) == Compute(fs, versions)
  {
    ReordersSame(es, fs);
    SteadyReports(es, fs, versions);
    SameCount(es, fs, Reviewed);
    SameCount(es, fs, Approved);
    SameCount(es, fs, StageStarted);
    SameCount(es, fs, StagePassed);
  }

  // ---- an order for every choice --------------------------------------------

  /** The events that report a run with the job m gives it, or the others. */
  function Agreeing(es: seq<Event>, m: map<string, string>, yes: bool): seq<Event> {
    if es == [] then []
    else
      var e := es[|es| - 1];
      Agreeing(es[..|es| - 1], m, yes) + if (e.run in m && m[e.run] == e.job) == yes then [e] else []
  }

  function Preferring(es: seq<Event>, m: map<string, string>): seq<Event> { Agreeing(es, m, true) + Agreeing(es, m, false) }

  lemma {:induction false} PreferringReorders(es: seq<Event>, m: map<string, string>)
    ensures Reorders(es, Preferring(es, m))
  {
    if es != [] {
      var front, e := es[..|es| - 1], es[|es| - 1];
      assert es == front + [e];
      PreferringReorders(front, m);
      assert multiset(es) == multiset(Agreeing(front, m, true)) + multiset(Agreeing(front, m, false)) + multiset{e};
    }
  }

  lemma {:induction false} AgreeingHas(es: seq<Event>, m: map<string, string>, e: Event)
    ensures e in Agreeing(es, m, true) <==> e in es && e.run in m && m[e.run] == e.job
  {
    if es != [] {
      AgreeingHas(es[..|es| - 1], m, e);
      assert es == es[..|es| - 1] + [es[|es| - 1]];
    }
  }

  lemma {:induction false} FirstJobStays(a: seq<Event>, b: seq<Event>, r: string)
    requires r in RunToJob(a)
    ensures r in RunToJob(a + b) && RunToJob(a + b)[r] == RunToJob(a)[r]
    decreases |b|
  {
    if b == [] {
      assert a + b == a;
    } else {
      assert (a + b)[..|a + b| - 1] == a + b[..|b| - 1];
      FirstJobStays(a, b[..|b| - 1], r);
    }
  }

  lemma {:induction false} PreferringGives(es: seq<Event>, m: map<string, string>, e: Event)
    requires e in es && e.run in m && e.job == m[e.run] && e.run != "" && e.job != ""
    ensures JobOf(RunToJob(Preferring(es, m)), e.run) == e.job
  {
    var first := Agreeing(es, m, true);
    AgreeingHas(es, m, e);
    RunToJobHas(first, e.run);
    var d :| d in first && d.run == e.run && RunToJob(first)[e.run] == d.job;
    AgreeingHas(es, m, d);
    FirstJobStays(first, Agreeing(es, m, false), e.run);
  }

  lemma {:induction false} ChoiceOccurs(es: seq<Event>, m: map<string, string>, r: string)
    requires r != "" && r in m && m[r] in Choices(es, r)
    ensures JobOf(RunToJob(Preferring(es, m)), r) == m[r]
  {
    var fs := Preferring(es, m);
    if Jobs(es, r) != {} {
      assert m[r] in Jobs(es, r);
      var e :| e in es && e.run == r && e.job != "" && e.job == m[r];
      PreferringGives(es, m, e);
    } else {
      assert forall e <- es :: e.run == r && e.job != "" ==> e.job in Jobs(es, r);
      PreferringReorders(es, m);
      ReordersSame(es, fs);
      RunToJobHas(fs, r);
    }
  }

  lemma {:induction false} SameJobs(runs: set<string>, a: map<string, string>, b: map<string, string>)
    requires forall v <- runs :: JobOf(a, v) == JobOf(b, v)
    ensures TrueJobs(runs, a) == TrueJobs(runs, b)
  {
  }

  /** Every choice of jobs is made by some order of the events. */
  lemma {:induction false} EveryChoiceOccurs(es: seq<Event>, m: map<string, string>)
    requires Chooses(es, m) && m.Keys == Winners(es)
    ensures TrueJobs(Winners(es), RunToJob(Preferring(es, m))) == TrueJobs(Winners(es), m)
  {
    forall r | r in Winners(es) ensures JobOf(RunToJob(Preferring(es, m)), r) == JobOf(m, r) {
      CollectHas(es, PublishedRun, r);
      ChoiceOccurs(es, m, r);
    }
    SameJobs(Winners(es), RunToJob(Preferring(es, m)), m);
  }

  lemma {:induction false} SameRunToJob(es: seq<Event>, fs: seq<Event>)
    requires SameEvents(es, fs) && OneJobPerRun(es)
    ensures RunToJob(es) == RunToJob(fs)
  {
    forall r ensures r in RunToJob(es) <==> r in RunToJob(fs) {
      RunToJobHas(es, r);
      RunToJobHas(fs, r);
    }
    forall r | r in RunToJob(es) ensures RunToJob(es)[r] == RunToJob(fs)[r] {
      RunToJobHas(es, r);
      RunToJobHas(fs, r);
    }
  }

  /** The jobs of the runs depend on no order exactly when each run is reported with one job at most. */
  lemma {:induction false} RunToJobOrderExactly(es: seq<Event>)
    ensures (forall fs :: Reorders(es, fs) ==> RunToJob(fs) == RunToJob(es)) <==> OneJobPerRun(es)
  {
    if OneJobPerRun(es) {
      forall fs | Reorders(es, fs) ensures RunToJob(fs) == RunToJob(es) {
        ReordersSame(es, fs);
        SameRunToJob(es, fs);
      }
    } else {
      var d, e :| d in es && e in es && d.run != "" && d.run == e.run && d.job != "" && e.job != "" && d.job != e.job;
      PreferringReorders(es, map[d.run := d.job]);
      PreferringReorders(es, map[e.run := e.job]);
      PreferringGives(es, map[d.run := d.job], d);
      PreferringGives(es, map[e.run := e.job], e);
    }
  }

  // ---- unsteady events ------------------------------------------------------

  ghost function OtherThan(c: set<string>, k: string): (x: string)
    requires c != {} && c != {k}
    ensures x in c && x != k
  {
    var x :| x in c && x != k;
    x
  }

  lemma {:induction false} ChoicesExist(es: seq<Event>, r: string)
    ensures Choices(es, r) != {}
  {
    assert r in {r};
  }

  /** Run q counts for j, run r for x, and no other winner for k. */
  ghost function Choosing(es: seq<Event>, r: string, x: string, q: string, j: string, k: string): map<string, string>
    requires forall v <- Winners(es) :: v != r ==> Choices(es, v) != {} && Choices(es, v) != {k}
  {
    map v | v in Winners(es) :: if v == r then x else if v == q then j else OtherThan(Choices(es, v), k)
  }

  lemma {:induction false} AnotherRun(runs: set<string>, m: map<string, string>, r: string)
    ensures TrueJobs(runs + {r}, m) == TrueJobs(runs, m) + {JobOf(m, r)}
  {
  }

  lemma {:induction false} OneMore(winners: set<string>, a: map<string, string>, b: map<string, string>, r: string, q: string, j: string, k: string)
    requires winners <= a.Keys && winners <= b.Keys && r in winners && q in winners && q != r && j != k
    requires forall v <- winners :: v != r ==> a[v] == b[v] != k
    requires a[r] == k && b[r] == j && a[q] == j
    ensures |TrueJobs(winners, a)| == |TrueJobs(winners, b)| + 1
  {
    var others := winners - {r};
    SameJobs(others, a, b);
    assert k !in TrueJobs(others, a);
    assert q in others && JobOf(a, q) == j;
    AnotherRun(others, a, r);
    AnotherRun(others, b, r);
    assert winners == others + {r};
    assert TrueJobs(others, b) + {j} == TrueJobs(others, b);
  }

  lemma {:induction false} ChoosingCounts(es: seq<Event>, r: string, q: string, j: string, k: string)
    requires r in Winners(es) && q in Winners(es) && q != r && j != k
    requires forall v <- Winners(es) :: v != r ==> Choices(es, v) != {} && Choices(es, v) != {k}
    ensures |TrueJobs(Winners(es), Choosing(es, r, k, q, j, k))| == |TrueJobs(Winners(es), Choosing(es, r, j, q, j, k))| + 1
  {
    OneMore(Winners(es), Choosing(es, r, k, q, j, k), Choosing(es, r, j, q, j, k), r, q, j, k);
  }

  /** A winner r with jobs j and k, another that can take j, and none that has to take k: an order for either count. */
  lemma {:induction false} UnsteadyCounts(es: seq<Event>, r: string, j: string, k: string)
    requires r in Winners(es) && j in Choices(es, r) && k in Choices(es, r) && j != k
    requires Contested(es, r, j) && !Taken(es, r, k)
    ensures exists a, b :: Reorders(es, a) && Reorders(es, b)
                           && |TrueJobs(Winners(es), RunToJob(a))| == |TrueJobs(Winners(es), RunToJob(b))| + 1
  {
    var q :| q in Winners(es) && q != r && j in Choices(es, q);
    forall v | v in Winners(es) && v != r ensures Choices(es, v) != {} && Choices(es, v) != {k} {
      ChoicesExist(es, v);
    }
    var m, n := Choosing(es, r, k, q, j, k), Choosing(es, r, j, q, j, k);
    ChoosingCounts(es, r, q, j, k);
    EveryChoiceOccurs(es, m);
    EveryChoiceOccurs(es, n);
    PreferringReorders(es, m);
    PreferringReorders(es, n);
  }

  /** Of a winner's jobs that are neither all its own nor all counted anyway, two such as above. */
  lemma {:induction false} UnsteadyJobs(es: seq<Event>) returns (r: string, j: string, k: string)
    requires !Steady(es)
    ensures r in Winners(es) && j in Choices(es, r) && k in Choices(es, r) && j != k
    ensures Contested(es, r, j) && !Taken(es, r, k)
  {
    r :| r in Winners(es) && |Choices(es, r)| > 1 && (exists x <- Choices(es, r) :: Contested(es, r, x)) && (exists x <- Choices(es, r) :: !Taken(es, r, x));
    j :| j in Choices(es, r) && Contested(es, r, j);
    k :| k in Choices(es, r) && !Taken(es, r, k);
    if j == k {
      assert |{j}| == 1;
      var l := OtherThan(Choices(es, r), j);
      if Contested(es, r, l) { j := l; } else { k := l; }
    }
  }

  lemma {:induction false} RatiosDiffer(a: nat, b: nat, d: nat)
    requires d > 0 && Ratio(a, d) == Ratio(b, d)
    ensures a == b
  {
    assert a as real == (a as real / d as real) * d as real;
    assert b as real == (b as real / d as real) * d as real;
  }

  lemma {:induction false} JobsSubmitted(es: seq<Event>, r: string, j: string, k: string)
    requires j in Choices(es, r) && k in Choices(es, r) && j != k
    ensures |Collect(es, AnyJob)| > 0
  {
    var e :| e in es && e.run == r && e.job != "";
    CollectHas(es, AnyJob, e.job);
  }

  /** Two orders of one list of events that count differently many jobs have different true yields. */
  lemma {:induction false} CountsShow(es: seq<Event>, a: seq<Event>, b: seq<Event>, versions: map<string, set<string>>)
    requires Reorders(es, a) && Reorders(es, b) && |Collect(es, AnyJob)| > 0
    requires |TrueJobs(Winners(es), RunToJob(a))| != |TrueJobs(Winners(es), RunToJob(b))|
    ensures Compute(a, versions).trueYield != Compute(b, versions).trueYield
  {
    ReordersSame(es, a);
    ReordersSame(es, b);
    SameChoices(es, a);
    SameChoices(es, b);
    SameCollect(es, a, AnyJob);
    SameCollect(es, b, AnyJob);
    if Compute(a, versions).trueYield == Compute(b, versions).trueYield {
      RatiosDiffer(|TrueJobs(Winners(a), RunToJob(a))|, |TrueJobs(Winners(b), RunToJob(b))|, |Collect(es, AnyJob)|);
    }
  }

  /** The rates depend on no order of the events exactly when every winning run that is reported with several jobs
      has them all to itself, or each of them counts for another winner anyway; and otherwise it is the true yield
      that depends on it. */
  lemma {:induction false} OrderDoesNotMatterExactly(es: seq<Event>, versions: map<string, set<string>>)
    ensures (forall fs :: Reorders(es, fs) ==> Compute(fs, versions) == Compute(es, versions)) <==> Steady(es)
    ensures (forall fs :: Reorders(es, fs) ==> Compute(fs, versions).trueYield == Compute(es, versions).trueYield) <==> Steady(es)
  {
    if Steady(es) {
      forall fs | Reorders(es, fs) ensures Compute(fs, versions) == Compute(es, versions) {
        SteadyOrder(es, fs, versions);
      }
    } else {
      var r, j, k := UnsteadyJobs(es);
      UnsteadyCounts(es, r, j, k);
      JobsSubmitted(es, r, j, k);
      var a, b :| Reorders(es, a) && Reorders(es, b) && |TrueJobs(Winners(es), RunToJob(a))| == |TrueJobs(Winners(es), RunToJob(b))| + 1;
      CountsShow(es, a, b, versions);
    }
  }

  /** Reports of the same events, in any order and any number, agree on all rates but approval and stage under that
      very condition. */
  lemma {:induction false} AnyReportsAgreeExactly(es: seq<Event>, versions: map<string, set<string>>)
    ensures (forall fs :: SameEvents(es, fs) ==> SameButCounts(Compute(es, versions), Compute(fs, versions))) <==> Steady(es)
  {
    if Steady(es) {
      forall fs | SameEvents(es, fs) ensures SameButCounts(Compute(es, versions), Compute(fs, versions)) {
        SteadyReports(es, fs, versions);
      }
    } else {
      OrderDoesNotMatterExactly(es, versions);
      var fs :| Reorders(es, fs) && Compute(fs, versions).trueYield != Compute(es, versions).trueYield;
      ReordersSame(es, fs);
    }
  }

  lemma {:induction false} OneJobIsSteady(es: seq<Event>)
    requires OneJobPerRun(es)
    ensures Steady(es)
  {
    forall r | r in Winners(es) ensures |Choices(es, r)| <= 1 {
      CollectHas(es, PublishedRun, r);
      ChoicesExist(es, r);
      var j :| j in Choices(es, r);
      assert Choices(es, r) == {j};
    }
  }

  lemma {:induction false} CollectAppend(es: seq<Event>, e: Event, f: Event -> string)
    ensures Collect(es + [e], f) == Collect(es, f) + if f(e) != "" then {f(e)} else {}
  {
    assert (es + [e])[..|es|] == es;
  }

  lemma {:induction false} ThreeCollected(a: Event, b: Event, c: Event, f: Event -> string)
    ensures Collect([a, b, c], f) == {f(a), f(b), f(c)} - {""}
  {
    assert [] + [a] == [a] && [a] + [b] == [a, b] && [a, b] + [c] == [a, b, c];
    CollectAppend([], a, f);
    CollectAppend([a], b, f);
    CollectAppend([a, b], c, f);
  }

  lemma {:induction false} ThreeReports(a: Event, b: Event, c: Event)
    requires a.run == b.run != "" && c.run != "" && c.run != a.run && a.job != "" && b.job != "" && c.job != ""
    requires a.kind.Published? && b.kind.Published? && c.kind.Published?
    ensures Winners([a, b, c]) == {a.run, c.run} && RunToJob([a, b, c]) == map[a.run := a.job, c.run := c.job]
    ensures Collect([a, b, c], AnyJob) == {a.job, b.job, c.job}
  {
    assert [] + [a] == [a] && [a] + [b] == [a, b] && [a, b] + [c] == [a, b, c];
    ThreeCollected(a, b, c, PublishedRun);
    ThreeCollected(a, b, c, DisqualifiedRun);
    ThreeCollected(a, b, c, AnyJob);
    RunToJobAppend([], a);
    RunToJobAppend([a], b);
    RunToJobAppend([a, b], c);
  }

  lemma {:induction false} TwoRuns(m: map<string, string>, r: string, q: string)
    ensures TrueJobs({r, q}, m) == {JobOf(m, r), JobOf(m, q)}
  {
    AnotherRun({}, m, r);
    AnotherRun({r}, m, q);
    assert {} + {r} == {r} && {r} + {q} == {r, q};
  }

  lemma {:induction false} ThreeReportsYield(a: Event, b: Event, c: Event, counted: set<string>, jobs: set<string>, versions: map<string, set<string>>)
    requires a.run == b.run != "" && c.run != "" && c.run != a.run && a.job != "" && b.job != "" && c.job != ""
    requires a.kind.Published? && b.kind.Published? && c.kind.Published?
    requires counted == {a.job, c.job} && jobs == {a.job, b.job, c.job}
    ensures Compute([a, b, c], versions).trueYield == Ratio(|counted|, |jobs|)
  {
    ThreeReports(a, b, c);
    TwoRuns(map[a.run := a.job, c.run := c.job], a.run, c.run);
  }

  lemma {:induction false} TwoElements(j: string, k: string)
    requires j != k
    ensures |{j, k}| == 2 && |{j}| == 1 && {j, k} == {k, j}
  {
    assert {j, k} - {j} == {k};
  }

  /** Two published runs, the first of them reported with two jobs: its first report decides between a half and one. */
  lemma {:induction false} TwoJobsMakeOrderMatter(r: string, q: string, j: string, k: string, versions: map<string, set<string>>)
    requires r != q && r != "" && q != "" && j != k && j != "" && k != ""
    ensures var a, b, c := Event(Published, r, j, "", ""), Event(Published, r, k, "", ""), Event(Published, q, j, "", "");
            && Compute([a, b, c], versions).trueYield == Some(0.5)
            && Compute([b, a, c], versions).trueYield == Some(1.0)
  {
    var a, b, c := Event(Published, r, j, "", ""), Event(Published, r, k, "", ""), Event(Published, q, j, "", "");
    TwoElements(j, k);
    ThreeReportsYield(a, b, c, {j}, {j, k}, versions);
    ThreeReportsYield(b, a, c, {j, k}, {j, k}, versions);
  }

  // ---- bounds -------------------------------------------------------------

  predicate Share(r: Option<real>) { r.Some? ==> 0.0 <= r.value <= 1.0 }

  lemma {:induction false} ProductPositive(a: real, b: real)
    requires a > 0.0 && b > 0.0
    ensures a * b > 0.0
  {
  }

  lemma {:induction false} QuotientShare(n: real, d: real)
    requires 0.0 <= n <= d && d > 0.0
    ensures 0.0 <= n / d <= 1.0
  {
    var q := n / d;
    assert q * d == n;
    if q > 1.0 { ProductPositive(q - 1.0, d); }
  }

  lemma {:induction false} RatioShare(n: nat, d: nat)
    requires n <= d
    ensures Share(Ratio(n, d))
  {
    if d > 0 { QuotientShare(n as real, d as real); }
  }

  lemma {:induction false} CountWithin(es: seq<Event>, p: Event -> bool, q: Event -> bool)
    requires forall e :: p(e) ==> q(e)
    ensures Count(es, p) <= Count(es, q)
  {
    if es != [] { CountWithin(es[..|es| - 1], p, q); }
  }

  /** Finished-video, quality, approval and prompt-version rates are always shares of their denominators. */
  lemma {:induction false} SharesAlways(es: seq<Event>, versions: map<string, set<string>>)
    ensures var r := Compute(es, versions);
            && Share(r.video) && Share(r.qc) && Share(r.approval)
            && (forall v <- r.prompts :: 0.0 <= r.prompts[v] <= 1.0)
  {
    CollectWithin(es, VideoJob, AnyJob);
    CollectWithin(es, PassedVideo, CheckedVideo);
    SubsetSize(Collect(es, VideoJob), Collect(es, AnyJob));
    SubsetSize(Collect(es, PassedVideo), Collect(es, CheckedVideo));
    CountWithin(es, Approved, Reviewed);
    RatioShare(|Collect(es, VideoJob)|, |Collect(es, AnyJob)|);
    RatioShare(|Collect(es, PassedVideo)|, |Collect(es, CheckedVideo)|);
    RatioShare(Count(es, Approved), Count(es, Reviewed));
    forall v | v in PromptYield(versions, Winners(es)) ensures 0.0 <= PromptYield(versions, Winners(es))[v] <= 1.0 {
      var used := UsedBy(versions, v);
      SubsetSize(used * Winners(es), used);
      var r :| r in versions && v in versions[r];
      assert r in used;
      QuotientShare(|used * Winners(es)| as real, |used| as real);
    }
  }

  /** The jobs of winning runs are submitted ones exactly when each winning run has a job, or is named like one. */
  lemma {:induction false} TrueJobsSubmittedExactly(es: seq<Event>)
    ensures TrueJobs(Winners(es), RunToJob(es)) <= Collect(es, AnyJob) <==>
            forall r <- Winners(es) :: r in RunToJob(es) || r in Collect(es, AnyJob)
  {
    var m := RunToJob(es);
    forall r | r in m ensures m[r] in Collect(es, AnyJob) {
      RunToJobHas(es, r);
      CollectHas(es, AnyJob, m[r]);
    }
    forall r | r in Winners(es) ensures JobOf(m, r) in TrueJobs(Winners(es), m) {
    }
  }

  /** The winning runs that no job was reported with and that are not named like a submitted one. */
  function Strays(es: seq<Event>): set<string> { set r | r in Winners(es) && r !in RunToJob(es) && r !in Collect(es, AnyJob) }

  /** The submitted jobs that no winning run counts for. */
  function Unwon(es: seq<Event>): set<string> {
    set j | j in Collect(es, AnyJob) && forall r <- Winners(es) :: JobOf(RunToJob(es), r) != j
  }

  lemma {:induction false} JobSubmitted(es: seq<Event>, r: string)
    requires r in RunToJob(es)
    ensures RunToJob(es)[r] in Collect(es, AnyJob)
  {
    RunToJobHas(es, r);
    CollectHas(es, AnyJob, RunToJob(es)[r]);
  }

  /** The jobs counted are the submitted ones but those not won, and the strays. */
  lemma {:induction false} TrueJobsAre(es: seq<Event>)
    ensures var jobs, submitted := TrueJobs(Winners(es), RunToJob(es)), Collect(es, AnyJob);
            jobs == (submitted - Unwon(es)) + Strays(es) && |jobs| == |submitted| - |Unwon(es)| + |Strays(es)|
  {
    var m, jobs, submitted := RunToJob(es), TrueJobs(Winners(es), RunToJob(es)), Collect(es, AnyJob);
    forall j | j in jobs ensures j in (submitted - Unwon(es)) + Strays(es) {
      var r :| r in Winners(es) && JobOf(m, r) == j;
      if r in m { JobSubmitted(es, r); }
    }
    forall j | j in (submitted - Unwon(es)) + Strays(es) ensures j in jobs {
      if j in Strays(es) { assert JobOf(m, j) == j; }
    }
    assert (submitted - Unwon(es)) !! Strays(es) && Unwon(es) <= submitted;
    assert jobs == (submitted - Unwon(es)) + Strays(es);
  }

  lemma {:induction false} FactorPositive(a: real, b: real)
    requires a * b > 0.0 && b > 0.0
    ensures a > 0.0
  {
  }

  lemma {:induction false} QuotientAbove(n: real, d: real)
    requires n > d > 0.0
    ensures n / d > 1.0
  {
    var q := n / d;
    assert q * d == n;
    assert (q - 1.0) * d == n - d;
    FactorPositive(q - 1.0, d);
  }

  lemma {:induction false} RatioShareExactly(n: nat, d: nat)
    ensures Share(Ratio(n, d)) <==> d == 0 || n <= d
  {
    if n <= d { RatioShare(n, d); } else if d > 0 { QuotientAbove(n as real, d as real); }
  }

  /** The true yield is none or a share exactly when no job was submitted, or the winning runs without one are no
      more than the submitted jobs that were not won. */
  lemma {:induction false} TrueYieldIsShareExactly(es: seq<Event>, versions: map<string, set<string>>)
    ensures Share(Compute(es, versions).trueYield) <==> Collect(es, AnyJob) == {} || |Strays(es)| <= |Unwon(es)|
  {
    TrueJobsAre(es);
    RatioShareExactly(|TrueJobs(Winners(es), RunToJob(es))|, |Collect(es, AnyJob)|);
  }

  lemma {:induction false} StraySets(a: Event, b: Event, c: Event)
    requires a.kind.Submitted? && b.kind.Published? && c.kind.Published? && a.run == "" && b.job == "" && c.job == ""
    requires a.job != "" && b.run != "" && c.run != ""
    ensures Collect([a, b, c], PublishedRun) == {b.run, c.run} && Collect([a, b, c], DisqualifiedRun) == {}
    ensures Collect([a, b, c], AnyJob) == {a.job}
  {
    ThreeCollected(a, b, c, PublishedRun);
    ThreeCollected(a, b, c, DisqualifiedRun);
    ThreeCollected(a, b, c, AnyJob);
  }

  lemma {:induction false} NoRunHasJob(es: seq<Event>)
    requires forall e <- es :: e.run == "" || e.job == ""
    ensures RunToJob(es) == map[]
  {
    forall r ensures r !in RunToJob(es) {
      RunToJobHas(es, r);
    }
  }

  lemma {:induction false} TrueYieldIs(es: seq<Event>, m: map<string, string>, winners: set<string>, jobs: set<string>, versions: map<string, set<string>>)
    requires Winners(es) == winners && RunToJob(es) == m && Collect(es, AnyJob) == jobs
    ensures Compute(es, versions).trueYield == Ratio(|TrueJobs(winners, m)|, |jobs|)
  {
  }

  lemma {:induction false} StrayReports(a: Event, b: Event, c: Event, counted: set<string>, jobs: set<string>, versions: map<string, set<string>>)
    requires a.kind.Submitted? && b.kind.Published? && c.kind.Published? && a.run == "" && b.job == "" && c.job == ""
    requires a.job != "" && b.run != "" && c.run != "" && counted == {b.run, c.run} && jobs == {a.job}
    requires |counted| == 2 && |jobs| == 1
    ensures Compute([a, b, c], versions).trueYield == Some(2.0)
  {
    StraySets(a, b, c);
    NoRunHasJob([a, b, c]);
    assert Winners([a, b, c]) == counted;
    TwoRuns(map[], b.run, c.run);
    assert TrueJobs(counted, map[]) == counted;
    TrueYieldIs([a, b, c], map[], counted, jobs, versions);
    assert Ratio(2, 1) == Some(2.0);
  }

  /** One submitted job and two published runs without a job make a true yield of two. */
  lemma {:induction false} StraysRaiseYield(r: string, q: string, j: string, versions: map<string, set<string>>)
    requires r != q && r != "" && q != "" && j != ""
    ensures var a, b, c := Event(Submitted, "", j, "", ""), Event(Published, r, "", "", ""), Event(Published, q, "", "", "");
            Compute([a, b, c], versions).trueYield == Some(2.0)
  {
    var counted, jobs := {r, q}, {j};
    assert |counted| == 2 by { TwoElements(r, q); }
    StrayReports(Event(Submitted, "", j, "", ""), Event(Published, r, "", "", ""), Event(Published, q, "", "", ""), counted, jobs, versions);
  }

  // ---- retries ------------------------------------------------------------

  lemma {:induction false} RatioFalls(n: nat, d: nat, n': nat, d': nat)
    requires n' <= n && d <= d' && d > 0
    ensures n' as real / d' as real <= n as real / d as real
  {
    var x, y := n' as real / d' as real, n as real / d as real;
    assert x * d' as real == n' as real && y * d as real == n as real;
    assert y >= 0.0;
    assert y * (d' - d) as real >= 0.0;
    assert y * d' as real >= n as real;
    if x > y { ProductPositive(x - y, d' as real); }
  }

  lemma {:induction false} MoreJobs(winners: set<string>, m: map<string, string>, winners': set<string>, m': map<string, string>, run: string)
    requires winners' <= winners + {run} && (forall r :: r != run ==> JobOf(m', r) == JobOf(m, r))
    requires JobOf(m', run) in TrueJobs(winners, m)
    ensures TrueJobs(winners', m') <= TrueJobs(winners, m)
  {
    forall r | r in winners' ensures JobOf(m', r) in TrueJobs(winners, m) {
      if r != run { assert r in winners && JobOf(m, r) == JobOf(m', r); }
    }
  }

  lemma {:induction false} ExtraRunAddsNoJob(es: seq<Event>, e: Event)
    requires e.kind.Published? && e.run != "" && JobOf(RunToJob(es + [e]), e.run) in TrueJobs(Winners(es), RunToJob(es))
    ensures TrueJobs(Winners(es + [e]), RunToJob(es + [e])) <= TrueJobs(Winners(es), RunToJob(es))
  {
    CollectAppend(es, e, PublishedRun);
    CollectAppend(es, e, DisqualifiedRun);
    RunToJobAppend(es, e);
    MoreJobs(Winners(es), RunToJob(es), Winners(es + [e]), RunToJob(es + [e]), e.run);
  }

  /** Publishing another run of a job that already counts never raises the true yield, whether the report names the
      job, names another one too late, or names none. */
  lemma {:induction false} ExtraRunsDoNotRaiseYield(es: seq<Event>, e: Event, versions: map<string, set<string>>)
    requires e.kind.Published? && e.run != "" && JobOf(RunToJob(es + [e]), e.run) in TrueJobs(Winners(es), RunToJob(es))
    requires Compute(es, versions).trueYield.Some?
    ensures var y := Compute(es + [e], versions).trueYield; y.Some? && y.value <= Compute(es, versions).trueYield.value
  {
    ExtraRunAddsNoJob(es, e);
    CollectAppend(es, e, AnyJob);
    SubsetSize(TrueJobs(Winners(es + [e]), RunToJob(es + [e])), TrueJobs(Winners(es), RunToJob(es)));
    SubsetSize(Collect(es, AnyJob), Collect(es + [e], AnyJob));
    RatioFalls(|TrueJobs(Winners(es), RunToJob(es))|, |Collect(es, AnyJob)|,
               |TrueJobs(Winners(es + [e]), RunToJob(es + [e]))|, |Collect(es + [e], AnyJob)|);
  }
}
