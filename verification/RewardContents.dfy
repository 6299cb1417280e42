/** What rewards, settlements and labels carry, told from the facts they come from. */
module RewardContents {
  import opened Results
  import opened Rewards
  import opened RewardLaws
  import opened SettlementLaws

  // ---- lineage ------------------------------------------------------------

  /** The k-th version listed is the first with that id. */
  predicate FirstWithId(vs: seq<VideoVersion>, k: nat, id: Id) {
    k < |vs| && vs[k].id == id && forall j :: 0 <= j < k ==> vs[j].id != id
  }

  /** script is what a version leads to: its own script, or none when it names no version there is. */
  predicate LeadsTo(f: Facts, version: Option<Id>, script: Option<Id>) {
    if version.None? || forall v <- f.versions :: v.id != version.value then script.None?
    else exists k :: 0 <= k < |f.versions| && FirstWithId(f.versions, k, version.value) && script == f.versions[k].script
  }

  lemma {:induction false} VersionByIdAt(vs: seq<VideoVersion>, id: Id)
    ensures var v := VersionById(vs, id);
            if v.None? then forall x <- vs :: x.id != id
            else exists k :: 0 <= k < |vs| && FirstWithId(vs, k, id) && v.value == vs[k]
  {
    if vs != [] && vs[0].id != id {
      VersionByIdAt(vs[1..], id);
      if VersionById(vs, id).Some? {
        var k :| 0 <= k < |vs[1..]| && FirstWithId(vs[1..], k, id) && VersionById(vs, id).value == vs[1..][k];
        assert FirstWithId(vs, k + 1, id) && vs[k + 1] == vs[1..][k];
      }
    } else if vs != [] {
      assert FirstWithId(vs, 0, id);
    }
  }

  lemma {:induction false} ScriptLeads(f: Facts, version: Option<Id>)
    ensures LeadsTo(f, version, ScriptOf(f, version))
  {
    if version.Some? { VersionByIdAt(f.versions, version.value); }
  }

  /** The k-th version listed is the newest of the video. */
  predicate NewestOf(vs: seq<VideoVersion>, k: nat, video: Id) {
    k < |vs| && vs[k].finished == Some(video) && forall j :: 0 <= j < k ==> vs[j].finished != Some(video)
  }

  /** script is that of the newest version of a video there is. */
  predicate VideoHasScript(f: Facts, video: Id, script: Id) {
    video in f.videos && exists k :: 0 <= k < |f.versions| && NewestOf(f.versions, k, video) && f.versions[k].script == Some(script)
  }

  lemma {:induction false} NewestVersionAt(vs: seq<VideoVersion>, video: Id)
    ensures var v := NewestVersion(vs, video);
            if v.None? then forall x <- vs :: x.finished != Some(video)
            else exists k :: 0 <= k < |vs| && NewestOf(vs, k, video) && v.value == vs[k]
  {
    if vs != [] && vs[0].finished != Some(video) {
      NewestVersionAt(vs[1..], video);
      if NewestVersion(vs, video).Some? {
        var k :| 0 <= k < |vs[1..]| && NewestOf(vs[1..], k, video) && NewestVersion(vs, video).value == vs[1..][k];
        assert NewestOf(vs, k + 1, video) && vs[k + 1] == vs[1..][k];
      }
    } else if vs != [] {
      assert NewestOf(vs, 0, video);
    }
  }

  lemma {:induction false} ScriptOfVideoExactly(f: Facts, video: Id, script: Id)
    ensures ScriptOfVideo(f, video) == Some(script) <==> VideoHasScript(f, video, script)
  {
    NewestVersionAt(f.versions, video);
    if VideoHasScript(f, video, script) {
      var k :| 0 <= k < |f.versions| && NewestOf(f.versions, k, video) && f.versions[k].script == Some(script);
      assert f.versions[k] in f.versions;
      var v := NewestVersion(f.versions, video);
      var j :| 0 <= j < |f.versions| && NewestOf(f.versions, j, video) && v.value == f.versions[j];
      assert j == k;
    }
  }

  /** The observation of that id that came first. */
  predicate Observed(f: Facts, id: Id, o: Observation) {
    exists k :: 0 <= k < |f.observations| && f.observations[k] == o && o.id == id && forall j :: 0 <= j < k ==> f.observations[j].id != id
  }

  lemma {:induction false} ObservationAt(os: seq<Observation>, id: Id)
    ensures var o := ObservationById(os, id);
            if o.None? then forall x <- os :: x.id != id
            else exists k :: 0 <= k < |os| && os[k] == o.value && o.value.id == id && forall j :: 0 <= j < k ==> os[j].id != id
  {
    if os != [] && os[0].id != id {
      ObservationAt(os[1..], id);
      var o := ObservationById(os, id);
      if o.Some? {
        var k :| 0 <= k < |os[1..]| && os[1..][k] == o.value && forall j :: 0 <= j < k ==> os[1..][j].id != id;
        assert os[k + 1] == o.value;
        forall j | 0 <= j < k + 1 ensures os[j].id != id {
          if j > 0 { assert os[j] == os[1..][j - 1]; }
        }
      }
    }
  }

  // ---- what a derived reward carries --------------------------------------

  predicate StampedNow(r: Reward, now: int) { r.occurredAt == now && r.createdAt == now }

  /** A reward for a finished video: the script of its newest version, the grade of the settings, now. */
  predicate FromVideo(f: Facts, g: Grade, now: int, r: Reward) {
    && r.kind.VideoProduced? && r.draft.None? && r.grade == g && StampedNow(r, now)
    && r.version.Some? && VideoHasScript(f, r.evidence, r.version.value)
  }

  /** For a published record: the script its version leads to, the grade of the settings, now. */
  predicate FromRecord(f: Facts, g: Grade, now: int, r: Reward) {
    && r.kind.Published? && r.draft.None? && r.grade == g && StampedNow(r, now)
    && exists x <- f.records :: x.published && x.id == r.evidence && LeadsTo(f, x.version, r.version)
  }

  predicate ScoredBy(f: Facts, s: Score, r: Reward) {
    && !s.excluded && s.observation == r.evidence && s.grade == r.grade && LeadsTo(f, s.version, r.version)
    && exists o <- f.observations :: Observed(f, s.observation, o) && r.occurredAt == o.observedAt
  }

  /** For a score that counts: its own grade, the script its version leads to, and the time of its observation. */
  predicate FromScore(f: Facts, now: int, r: Reward) {
    && r.kind.PerformanceScored? && r.draft.None? && r.createdAt == now
    && exists s <- f.scores :: ScoredBy(f, s, r)
  }

  predicate FromFacts(f: Facts, cfg: Settings, now: int, r: Reward) {
    FromVideo(f, cfg.produced, now, r) || FromRecord(f, cfg.published, now, r) || FromScore(f, now, r)
  }

  lemma {:induction false} VideosFrom(rs: seq<Reward>, f: Facts, vs: seq<Id>, g: Grade, now: int)
    requires forall v <- vs :: v in f.videos
    ensures forall r <- WithVideos(rs, f, vs, g, now) :: r in rs || FromVideo(f, g, now, r)
    decreases |vs|
  {
    if vs != [] {
      var one := WithVideo(rs, f, vs[0], g, now);
      VideosFrom(one, f, vs[1..], g, now);
      var script := ScriptOfVideo(f, vs[0]);
      if script.Some? { ScriptOfVideoExactly(f, vs[0], script.value); }
    }
  }

  lemma {:induction false} RecordsFrom(rs: seq<Reward>, f: Facts, xs: seq<Record>, g: Grade, now: int)
    requires forall x <- xs :: x in f.records
    ensures forall r <- WithRecords(rs, f, xs, g, now) :: r in rs || FromRecord(f, g, now, r)
    decreases |xs|
  {
    if xs != [] {
      RecordsFrom(WithRecord(rs, f, xs[0], g, now), f, xs[1..], g, now);
      ScriptLeads(f, xs[0].version);
      assert xs[0] in f.records;
    }
  }

  lemma {:induction false} OneScoreFrom(rs: seq<Reward>, f: Facts, s: Score, now: int)
    requires s in f.scores
    ensures forall r <- WithScore(rs, f, s, now) :: r in rs || FromScore(f, now, r)
  {
    ScriptLeads(f, s.version);
    ObservationAt(f.observations, s.observation);
    forall r | r in WithScore(rs, f, s, now) && r !in rs ensures FromScore(f, now, r) {
      var o := ObservationById(f.observations, s.observation).value;
      assert o in f.observations && Observed(f, s.observation, o);
      assert ScoredBy(f, s, r);
    }
  }

  lemma {:induction false} ScoresFrom(rs: seq<Reward>, f: Facts, ss: seq<Score>, now: int)
    requires forall s <- ss :: s in f.scores
    ensures forall r <- WithScores(rs, f, ss, now) :: r in rs || FromScore(f, now, r)
    decreases |ss|
  {
    if ss != [] {
      OneScoreFrom(rs, f, ss[0], now);
      ScoresFrom(WithScore(rs, f, ss[0], now), f, ss[1..], now);
    }
  }

  lemma {:induction false} SyncFrom(rs: seq<Reward>, f: Facts, cfg: Settings, now: int)
    ensures forall r <- SyncRewards(rs, f, cfg, now) :: r in rs || FromFacts(f, cfg, now, r)
  {
    var a := WithVideos(rs, f, f.videos, cfg.produced, now);
    var b := WithRecords(a, f, f.records, cfg.published, now);
    VideosFrom(rs, f, f.videos, cfg.produced, now);
    RecordsFrom(a, f, f.records, cfg.published, now);
    ScoresFrom(b, f, f.scores, now);
  }

  // ---- rewards over histories ---------------------------------------------

  /** What the event of a moment rewards: a sync what its facts derive, an adoption the draft with the script it became,
      a discard the video with the grade its reason has. */
  ghost predicate RewardedBy(db: Db, m: Moment, r: Reward) {
    match m.event
    case SyncAll => FromFacts(db.facts, m.cfg, m.now, r)
    case AdoptDraft(d, v) =>
      r == Reward(DraftAdopted, d, Some(d), Some(v), m.cfg.adopted, m.now, m.now)
    case DiscardVideo(v, reason) =>
      && r.kind.VideoDiscarded? && r.evidence == v && r.draft.None? && StampedNow(r, m.now)
      && r.grade == (if reason in m.cfg.discarded then m.cfg.discarded[reason] else m.cfg.discardedElse)
      && (r.version.Some? ==> VideoHasScript(db.facts, v, r.version.value))
      && (r.version.None? ==> forall script :: !VideoHasScript(db.facts, v, script))
    case _ => false
  }

  lemma {:induction false} StepRewards(db: Db, m: Moment)
    ensures forall r <- Step(db, m.event, m.cfg, m.now).rewards :: r in db.rewards || RewardedBy(db, m, r)
  {
    match m.event
    case SyncAll => SyncFrom(db.rewards, db.facts, m.cfg, m.now);
    case AdoptDraft(d, v) =>
    case DiscardVideo(v, reason) =>
      var script := ScriptOfVideo(db.facts, v);
      forall s ensures VideoHasScript(db.facts, v, s) <==> script == Some(s) { ScriptOfVideoExactly(db.facts, v, s); }
    case _ =>
  }

  /** Over every run, each reward was given by the event of some moment, for the facts there were then. */
  lemma {:induction false} RewardsAreFounded(ms: seq<Moment>, r: Reward) returns (n: nat)
    requires r in Run(Empty(), ms).rewards
    ensures n < |ms| && RewardedBy(At(ms, n), ms[n], r)
  {
    var front := ms[..|ms| - 1];
    StepRewards(Run(Empty(), front), ms[|ms| - 1]);
    if r in Run(Empty(), front).rewards {
      n := RewardsAreFounded(front, r);
      assert front[..n] == ms[..n];
    } else {
      n := |front|;
    }
  }

  /** What a sync rewards: every video with a script, every published record, and every score that counts and whose
      observation is there. */
  lemma {:induction false} DerivableExactly(f: Facts, k: Kind, e: Id)
    ensures (k, e) in Derivable(f) <==>
            || (k.VideoProduced? && exists script :: VideoHasScript(f, e, script))
            || (k.Published? && exists x <- f.records :: x.published && x.id == e)
            || (k.PerformanceScored? && exists s <- f.scores :: !s.excluded && s.observation == e && exists o <- f.observations :: o.id == e)
  {
    if k.VideoProduced? {
      forall script ensures VideoHasScript(f, e, script) <==> ScriptOfVideo(f, e) == Some(script) { ScriptOfVideoExactly(f, e, script); }
      if ScriptOfVideo(f, e).Some? { assert VideoHasScript(f, e, ScriptOfVideo(f, e).value); }
    }
    ObservationAt(f.observations, e);
  }

  // ---- labels -------------------------------------------------------------

  /** A reward that came after the lock and is about the prediction's draft or the script it is linked to. */
  predicate About(p: Prediction, r: Reward) {
    && r.occurredAt > p.locked.at
    && ((r.draft.Some? && r.draft == p.draft) || (r.version.Some? && r.version == p.version))
  }

  /** r happened no later than x, and of the same time was recorded no later. */
  predicate NoLater(r: Reward, x: Reward) { r.occurredAt < x.occurredAt || (r.occurredAt == x.occurredAt && r.createdAt <= x.createdAt) }

  predicate LastAbout(p: Prediction, rs: seq<Reward>, x: Reward) {
    x in rs && About(p, x) && forall r <- rs :: About(p, r) ==> NoLater(r, x)
  }

  /** A prediction is labelled with the last reward about it, or with its own settlement when there is none, and is left
      out when it has neither; nothing else of it changes. */
  lemma {:induction false} LabelExactly(p: Prediction, rs: seq<Reward>)
    ensures var l := Label(p, rs);
            if exists r <- rs :: About(p, r) then
              l.Some? && exists x <- rs :: LastAbout(p, rs, x) && l.value == p.(settled := Some(Settlement(x.grade.value, x.occurredAt)))
            else l == if p.settled.Some? then Some(p) else None
  {
    LatestIsLatest(p, rs);
    assert forall r <- rs :: About(p, r) <==> Concerns(r, p);
    if Latest(p, rs).Some? { assert LastAbout(p, rs, Latest(p, rs).value); }
  }

  lemma {:induction false} FactsStay(ms: seq<Moment>, n: nat, m: nat)
    requires n <= m <= |ms|
    ensures |At(ms, n).facts.observations| <= |At(ms, m).facts.observations|
    ensures At(ms, m).facts.observations[..|At(ms, n).facts.observations|] == At(ms, n).facts.observations
    decreases m
  {
    if n < m {
      FactsStay(ms, n, m - 1);
      assert ms[..m][..m - 1] == ms[..m - 1];
      var a, b := At(ms, m - 1).facts.observations, At(ms, m).facts.observations;
      assert b == Step(At(ms, m - 1), ms[m - 1].event, ms[m - 1].cfg, ms[m - 1].now).facts.observations;
      assert |a| <= |b| && b[..|a|] == a;
    }
  }

  /** A label taken from a performance reward, in any run, is an observation made strictly after the lock, at its time. */
  lemma {:induction false} PerformanceLabelsAreBlind(ms: seq<Moment>, p: Prediction, r: Reward)
    requires r in Run(Empty(), ms).rewards && r.kind.PerformanceScored? && About(p, r)
    ensures exists o <- Run(Empty(), ms).facts.observations :: o.id == r.evidence && o.observedAt == r.occurredAt && o.observedAt > p.locked.at
  {
    var n := RewardsAreFounded(ms, r);
    var f := At(ms, n).facts;
    var s :| s in f.scores && ScoredBy(f, s, r);
    var o :| o in f.observations && Observed(f, s.observation, o) && r.occurredAt == o.observedAt;
    FactsStay(ms, n, |ms|);
    assert ms[..|ms|] == ms;
    var k :| 0 <= k < |f.observations| && f.observations[k] == o;
    assert Run(Empty(), ms).facts.observations[k] == o;
  }

  // ---- which prediction ---------------------------------------------------

  predicate NewestUnsettled(ps: seq<Prediction>, n: nat, v: Id) {
    && n < |ps| && ps[n].version == Some(v) && ps[n].settled.None?
    && forall m :: 0 <= m < n ==> !(ps[m].version == Some(v) && ps[m].settled.None?)
  }

  lemma {:induction false} CandidateAt(ps: seq<Prediction>, v: Id)
    ensures var c := Candidate(ps, v);
            if c.Some? then exists n :: 0 <= n < |ps| && NewestUnsettled(ps, n, v) && ps[n] == c.value
            else forall p <- ps :: !(p.version == Some(v) && p.settled.None?)
  {
    if ps != [] && !(ps[0].version == Some(v) && ps[0].settled.None?) {
      CandidateAt(ps[1..], v);
      if Candidate(ps, v).Some? {
        var n :| 0 <= n < |ps[1..]| && NewestUnsettled(ps[1..], n, v) && ps[1..][n] == Candidate(ps, v).value;
        assert ps[n + 1] == ps[1..][n];
        forall m | 0 <= m < n + 1 ensures !(ps[m].version == Some(v) && ps[m].settled.None?) {
          if m > 0 { assert ps[m] == ps[1..][m - 1]; }
        }
        assert NewestUnsettled(ps, n + 1, v);
      }
    } else if ps != [] {
      assert NewestUnsettled(ps, 0, v);
    }
  }

  predicate Settles(ps: seq<Prediction>, f: Facts, s: Score, n: nat, script: Option<Id>) {
    && !s.excluded && script.Some? && NewestUnsettled(ps, n, script.value)
    && exists o <- f.observations :: Observed(f, s.observation, o) && o.observedAt > ps[n].locked.at
  }

  /** A score settles the newest unsettled prediction of the script its version leads to, and no other, exactly when it
      counts and was observed after that prediction's lock. */
  lemma {:induction false} SettlesNewest(ps: seq<Prediction>, f: Facts, s: Score, now: int, n: nat)
    requires UniqueIds(ps) && n < |ps|
    ensures var qs, script := SettleScore(ps, f, s, now), ScriptOf(f, s.version);
            && |qs| == |ps| && LeadsTo(f, s.version, script)
            && qs[n] == if Settles(ps, f, s, n, script) then ps[n].(settled := Some(Settlement(s.grade.value, now))) else ps[n]
  {
    var script := ScriptOf(f, s.version);
    ScriptLeads(f, s.version);
    ObservationAt(f.observations, s.observation);
    SettleUpdates(ps, f, s, now);
    if script.Some? { CandidateAt(ps, script.value); }
    var o := ObservationById(f.observations, s.observation);
    if o.Some? { assert Observed(f, s.observation, o.value); }
  }

  lemma {:induction false} ByDraftAt(ps: seq<Prediction>, d: Id)
    ensures var c := ByDraft(ps, d);
            if c.Some? then exists n :: 0 <= n < |ps| && ps[n] == c.value && ps[n].draft == Some(d) && forall m :: 0 <= m < n ==> ps[m].draft != Some(d)
            else forall p <- ps :: p.draft != Some(d)
  {
    if ps != [] && ps[0].draft != Some(d) {
      ByDraftAt(ps[1..], d);
      if ByDraft(ps, d).Some? {
        var n :| 0 <= n < |ps[1..]| && ps[1..][n] == ByDraft(ps, d).value && ps[1..][n].draft == Some(d)
                 && forall m :: 0 <= m < n ==> ps[1..][m].draft != Some(d);
        assert ps[n + 1] == ps[1..][n];
        forall m | 0 <= m < n + 1 ensures ps[m].draft != Some(d) {
          if m > 0 { assert ps[m] == ps[1..][m - 1]; }
        }
      }
    }
  }

  /** An adoption links the newest prediction of the draft to the script it became, and no other. */
  lemma {:induction false} AdoptLinksNewest(db: Db, d: Id, v: Id, cfg: Settings, now: int, n: nat)
    requires UniqueIds(db.predictions) && n < |db.predictions|
    ensures var qs, ps := Adopt(db, d, v, cfg, now).predictions, db.predictions;
            && |qs| == |ps|
            && qs[n] == if ps[n].draft == Some(d) && forall m :: 0 <= m < n ==> ps[m].draft != Some(d) then ps[n].(version := Some(v)) else ps[n]
  {
    LinkAt(db.predictions, d, v);
    ByDraftAt(db.predictions, d);
  }

  /** A record that is published keeps its place and its other fields; no other record changes. */
  lemma {:induction false} PublishWrites(rs: seq<Record>, id: Id, k: nat)
    requires k < |rs|
    ensures |PublishRecord(rs, id)| == |rs|
    ensures PublishRecord(rs, id)[k] == if rs[k].id == id then rs[k].(published := true) else rs[k]
  {
    if k > 0 { PublishWrites(rs[1..], id, k - 1); } else if |rs| > 1 { PublishWrites(rs[1..], id, 0); }
  }
}
