/** Rewards converge to what the facts derive, and predictions are settled blind and once. */
module RewardLaws {
  import opened Results
  import opened Rewards

  // ---- keys ---------------------------------------------------------------

  type Key = (Kind, Id)

  function Keys(rs: seq<Reward>): set<Key> {
    set r | r in rs :: (r.kind, r.evidence)
  }

  predicate IsDerived(k: Kind) { k.VideoProduced? || k.Published? || k.PerformanceScored? }

  /** The keys of the three derived kinds. */
  function DerivedKeys(rs: seq<Reward>): set<Key> {
    set k | k in Keys(rs) && IsDerived(k.0) :: k
  }

  function FromVideos(f: Facts, vs: seq<Id>): set<Key> {
    set v | v in vs && ScriptOfVideo(f, v).Some? :: (VideoProduced, v)
  }

  function FromRecords(xs: seq<Record>): set<Key> {
    set r | r in xs && r.published :: (Published, r.id)
  }

  predicate Counts(f: Facts, s: Score) { !s.excluded && ObservationById(f.observations, s.observation).Some? }

  function FromScores(f: Facts, ss: seq<Score>): set<Key> {
    set s | s in ss && Counts(f, s) :: (PerformanceScored, s.observation)
  }

  /** What the facts say should have been rewarded. */
  function Derivable(f: Facts): set<Key> {
    FromVideos(f, f.videos) + FromRecords(f.records) + FromScores(f, f.scores)
  }

  /** No two rewards of one kind name the same evidence. */
  predicate Once(rs: seq<Reward>) {
    forall j, k :: 0 <= j < k < |rs| ==> (rs[j].kind, rs[j].evidence) != (rs[k].kind, rs[k].evidence)
  }

  predicate Grows(rs: seq<Reward>, ss: seq<Reward>) { |rs| <= |ss| && ss[..|rs|] == rs }

  lemma {:induction false} KeysAppend(rs: seq<Reward>, r: Reward)
    ensures Keys(rs + [r]) == Keys(rs) + {(r.kind, r.evidence)}
  {
    forall k | k in Keys(rs) + {(r.kind, r.evidence)} ensures k in Keys(rs + [r]) {
      if k == (r.kind, r.evidence) {
        assert (rs + [r])[|rs|] == r;
      } else {
        var x :| x in rs && k == (x.kind, x.evidence);
        assert x in rs + [r];
      }
    }
  }

  lemma {:induction false} AddRewardKeys(rs: seq<Reward>, r: Reward)
    ensures Keys(AddReward(rs, r)) == Keys(rs) + {(r.kind, r.evidence)}
    ensures Once(rs) ==> Once(AddReward(rs, r))
    ensures Grows(rs, AddReward(rs, r))
  {
    if Exists(rs, r.kind, r.evidence) {
      var x :| x in rs && x.kind == r.kind && x.evidence == r.evidence;
      assert (x.kind, x.evidence) in Keys(rs);
    } else {
      KeysAppend(rs, r);
    }
  }

  lemma {:induction false} FirstVideoKey(f: Facts, vs: seq<Id>)
    requires vs != []
    ensures FromVideos(f, vs) == (if ScriptOfVideo(f, vs[0]).Some? then {(VideoProduced, vs[0])} else {}) + FromVideos(f, vs[1..])
  {
    assert vs == [vs[0]] + vs[1..];
  }

  lemma {:induction false} FirstRecordKey(xs: seq<Record>)
    requires xs != []
    ensures FromRecords(xs) == (if xs[0].published then {(Published, xs[0].id)} else {}) + FromRecords(xs[1..])
  {
    assert xs == [xs[0]] + xs[1..];
  }

  lemma {:induction false} FirstScoreKey(f: Facts, ss: seq<Score>)
    requires ss != []
    ensures FromScores(f, ss) == (if Counts(f, ss[0]) then {(PerformanceScored, ss[0].observation)} else {}) + FromScores(f, ss[1..])
  {
    assert ss == [ss[0]] + ss[1..];
  }

  lemma {:induction false} GrowsOn(a: seq<Reward>, b: seq<Reward>, c: seq<Reward>)
    requires Grows(a, b) && Grows(b, c)
    ensures Grows(a, c)
  {
    assert c[..|a|] == c[..|b|][..|a|];
  }

  lemma {:induction false} VideosKeys(rs: seq<Reward>, f: Facts, vs: seq<Id>, g: Grade, now: int)
    ensures var r := WithVideos(rs, f, vs, g, now);
            Keys(r) == Keys(rs) + FromVideos(f, vs) && (Once(rs) ==> Once(r)) && Grows(rs, r)
    decreases |vs|
  {
    if vs != [] {
      var one := WithVideo(rs, f, vs[0], g, now);
      AddRewardKeys(rs, Reward(VideoProduced, vs[0], None, ScriptOfVideo(f, vs[0]), g, now, now));
      VideosKeys(one, f, vs[1..], g, now);
      GrowsOn(rs, one, WithVideos(one, f, vs[1..], g, now));
      FirstVideoKey(f, vs);
    }
  }

  lemma {:induction false} RecordsKeys(rs: seq<Reward>, f: Facts, xs: seq<Record>, g: Grade, now: int)
    ensures var r := WithRecords(rs, f, xs, g, now);
            Keys(r) == Keys(rs) + FromRecords(xs) && (Once(rs) ==> Once(r)) && Grows(rs, r)
    decreases |xs|
  {
    if xs != [] {
      var one := WithRecord(rs, f, xs[0], g, now);
      AddRewardKeys(rs, Reward(Published, xs[0].id, None, ScriptOf(f, xs[0].version), g, now, now));
      RecordsKeys(one, f, xs[1..], g, now);
      GrowsOn(rs, one, WithRecords(one, f, xs[1..], g, now));
      FirstRecordKey(xs);
    }
  }

  lemma {:induction false} ScoresKeys(rs: seq<Reward>, f: Facts, ss: seq<Score>, now: int)
    ensures var r := WithScores(rs, f, ss, now);
            Keys(r) == Keys(rs) + FromScores(f, ss) && (Once(rs) ==> Once(r)) && Grows(rs, r)
    decreases |ss|
  {
    if ss != [] {
      var s := ss[0];
      var one := WithScore(rs, f, s, now);
      if Counts(f, s) {
        AddRewardKeys(rs, Reward(PerformanceScored, s.observation, None, ScriptOf(f, s.version), s.grade,
                                 ObservationById(f.observations, s.observation).value.observedAt, now));
      }
      ScoresKeys(one, f, ss[1..], now);
      GrowsOn(rs, one, WithScores(one, f, ss[1..], now));
      FirstScoreKey(f, ss);
    }
  }

  /** A sync adds exactly the derivable keys that are missing, each once, and touches no reward that is there. */
  lemma {:induction false} SyncAddsDerivable(rs: seq<Reward>, f: Facts, cfg: Settings, now: int)
    ensures var r := SyncRewards(rs, f, cfg, now);
            Keys(r) == Keys(rs) + Derivable(f) && (Once(rs) ==> Once(r)) && Grows(rs, r)
  {
    var a := WithVideos(rs, f, f.videos, cfg.produced, now);
    var b := WithRecords(a, f, f.records, cfg.published, now);
    var c := WithScores(b, f, f.scores, now);
    VideosKeys(rs, f, f.videos, cfg.produced, now);
    RecordsKeys(a, f, f.records, cfg.published, now);
    ScoresKeys(b, f, f.scores, now);
    GrowsOn(rs, a, b);
    GrowsOn(rs, b, c);
  }

  // ---- confluence ---------------------------------------------------------

  /** Everything that was derivable at some sync of the run. */
  function EverSynced(db: Db, ms: seq<Moment>): set<Key> {
    if ms == [] then {}
    else
      EverSynced(db, ms[..|ms| - 1])
      + if ms[|ms| - 1].event.SyncAll? then Derivable(Run(db, ms[..|ms| - 1]).facts) else {}
  }

  lemma {:induction false} DerivedOfUnion(a: seq<Reward>, b: seq<Reward>, more: set<Key>)
    requires Keys(b) == Keys(a) + more
    ensures (forall k <- more :: IsDerived(k.0)) ==> DerivedKeys(b) == DerivedKeys(a) + more
    ensures (forall k <- more :: !IsDerived(k.0)) ==> DerivedKeys(b) == DerivedKeys(a)
  {
  }

  lemma {:induction false} DerivableIsDerived(f: Facts)
    ensures forall k <- Derivable(f) :: IsDerived(k.0)
  {
  }

  lemma {:induction false} OtherReward(rs: seq<Reward>, r: Reward)
    requires !IsDerived(r.kind)
    ensures var b := AddReward(rs, r); DerivedKeys(b) == DerivedKeys(rs) && (Once(rs) ==> Once(b)) && Grows(rs, b)
  {
    AddRewardKeys(rs, r);
    DerivedOfUnion(rs, AddReward(rs, r), {(r.kind, r.evidence)});
  }

  lemma {:induction false} StepRewards(db: Db, e: Event, cfg: Settings, now: int)
    ensures var r := Step(db, e, cfg, now);
            && DerivedKeys(r.rewards) == DerivedKeys(db.rewards) + (if e.SyncAll? then Derivable(db.facts) else {})
            && (Once(db.rewards) ==> Once(r.rewards)) && Grows(db.rewards, r.rewards)
  {
    match e
    case SyncAll =>
      SyncAddsDerivable(db.rewards, db.facts, cfg, now);
      DerivableIsDerived(db.facts);
      DerivedOfUnion(db.rewards, SyncRewards(db.rewards, db.facts, cfg, now), Derivable(db.facts));
    case AdoptDraft(d, v) =>
      OtherReward(db.rewards, Reward(DraftAdopted, d, Some(d), Some(v), cfg.adopted, now, now));
    case DiscardVideo(v, reason) =>
      var g := if reason in cfg.discarded then cfg.discarded[reason] else cfg.discardedElse;
      OtherReward(db.rewards, Reward(VideoDiscarded, v, None, ScriptOfVideo(db.facts, v), g, now, now));
    case _ =>
  }

  /** Rewards are only ever added, each key once, and the derived keys are those derivable at some sync. */
  lemma {:induction false} RunRewards(db: Db, ms: seq<Moment>)
    ensures var r := Run(db, ms);
            && DerivedKeys(r.rewards) == DerivedKeys(db.rewards) + EverSynced(db, ms)
            && (Once(db.rewards) ==> Once(r.rewards)) && Grows(db.rewards, r.rewards)
  {
    if ms != [] {
      var front, m := ms[..|ms| - 1], ms[|ms| - 1];
      RunRewards(db, front);
      StepRewards(Run(db, front), m.event, m.cfg, m.now);
      GrowsOn(db.rewards, Run(db, front).rewards, Run(db, ms).rewards);
    }
  }

  /** A version hides a script when it is the newest of a video that had one and carries none itself. */
  predicate Hides(f: Facts, e: Event) {
    e.AddVersion? && e.vv.finished.Some? && e.vv.script.None? && ScriptOfVideo(f, e.vv.finished.value).Some?
  }

  lemma {:induction false} PublishKeeps(rs: seq<Record>, id: Id)
    ensures FromRecords(rs) <= FromRecords(PublishRecord(rs, id))
  {
    if rs != [] {
      PublishKeeps(rs[1..], id);
      var out := PublishRecord(rs, id);
      forall k | k in FromRecords(rs) ensures k in FromRecords(out) {
        var r :| r in rs && r.published && k == (Published, r.id);
        if r == rs[0] {
          assert out[0] in out;
        } else {
          assert k in FromRecords(rs[1..]);
          var x :| x in PublishRecord(rs[1..], id) && x.published && k == (Published, x.id);
          assert x in out;
        }
      }
    }
  }

  /** An arriving fact withdraws nothing exactly when it hides no script. */
  lemma {:induction false} ArrivalKeepsDerivableExactly(f: Facts, e: Event)
    ensures Derivable(f) <= Derivable(Arrive(f, e)) <==> !Hides(f, e)
  {
    var g := Arrive(f, e);
    match e
    case AddVersion(vv) =>
      if Hides(f, e) {
        assert (VideoProduced, vv.finished.value) in Derivable(f);
      } else {
        forall v | v in f.videos && ScriptOfVideo(f, v).Some? ensures ScriptOfVideo(g, v).Some? {
          assert g.versions[1..] == f.versions;
        }
      }
    case AddPerformance(o, s) =>
      forall x | x in f.scores && Counts(f, x) ensures x in g.scores && Counts(g, x) {
        ObservationsGrow(f.observations, o, x.observation);
      }
    case Publish(id) => PublishKeeps(f.records, id);
    case _ =>
  }

  predicate NeverHides(db: Db, ms: seq<Moment>) {
    forall n :: 0 <= n < |ms| ==> !Hides(Run(db, ms[..n]).facts, ms[n].event)
  }

  lemma {:induction false} HidesPrefix(db: Db, ms: seq<Moment>)
    requires ms != [] && NeverHides(db, ms)
    ensures NeverHides(db, ms[..|ms| - 1])
  {
    var front := ms[..|ms| - 1];
    forall n | 0 <= n < |front| ensures !Hides(Run(db, front[..n]).facts, front[n].event) {
      assert front[..n] == ms[..n];
    }
  }

  lemma {:induction false} StepFacts(db: Db, e: Event, cfg: Settings, now: int)
    ensures Step(db, e, cfg, now).facts == Arrive(db.facts, e)
  {
  }

  lemma {:induction false} FinalSync(ms: seq<Moment>)
    requires ms != [] && ms[|ms| - 1].event.SyncAll?
    ensures Run(Empty(), ms).facts == Run(Empty(), ms[..|ms| - 1]).facts
    ensures EverSynced(Empty(), ms) == EverSynced(Empty(), ms[..|ms| - 1]) + Derivable(Run(Empty(), ms).facts)
  {
    var m := ms[|ms| - 1];
    StepFacts(Run(Empty(), ms[..|ms| - 1]), m.event, m.cfg, m.now);
  }

  lemma {:induction false} FromNothing(ms: seq<Moment>)
    ensures Once(Run(Empty(), ms).rewards) && DerivedKeys(Run(Empty(), ms).rewards) == EverSynced(Empty(), ms)
  {
    RunRewards(Empty(), ms);
    assert DerivedKeys([]) == {};
  }

  // ---- what a sync saw and the end does not -------------------------------

  /** The n-th event is a sync at which k could be derived. */
  predicate SyncSaw(db: Db, ms: seq<Moment>, n: int, k: Key) {
    0 <= n < |ms| && ms[n].event.SyncAll? && k in Derivable(Run(db, ms[..n]).facts)
  }

  lemma {:induction false} SawBefore(db: Db, ms: seq<Moment>, n: int, k: Key)
    requires ms != [] && n < |ms| - 1
    ensures SyncSaw(db, ms[..|ms| - 1], n, k) <==> SyncSaw(db, ms, n, k)
  {
    if n >= 0 { assert ms[..|ms| - 1][..n] == ms[..n]; }
  }

  lemma {:induction false} EverSyncedIs(db: Db, ms: seq<Moment>, k: Key)
    ensures k in EverSynced(db, ms) <==> exists n :: SyncSaw(db, ms, n, k)
  {
    if ms != [] {
      var front := ms[..|ms| - 1];
      EverSyncedIs(db, front, k);
      forall n | n < |front| ensures SyncSaw(db, front, n, k) <==> SyncSaw(db, ms, n, k) {
        SawBefore(db, ms, n, k);
      }
      assert SyncSaw(db, ms, |front|, k) <==> ms[|front|].event.SyncAll? && k in Derivable(Run(db, front).facts);
    }
  }

  /** Facts whose videos, published records and counting scores are still there in g. */
  predicate Persists(f: Facts, g: Facts) {
    && (forall v <- f.videos :: v in g.videos)
    && FromRecords(f.records) <= FromRecords(g.records)
    && FromScores(f, f.scores) <= FromScores(g, g.scores)
  }

  lemma {:induction false} ScoresPersist(f: Facts, o: Observation, s: Score)
    ensures var g := f.(observations := f.observations + [o], scores := f.scores + [s]);
            FromScores(f, f.scores) <= FromScores(g, g.scores)
  {
    var g := f.(observations := f.observations + [o], scores := f.scores + [s]);
    forall x | x in f.scores && Counts(f, x) ensures x in g.scores && Counts(g, x) {
      ObservationsGrow(f.observations, o, x.observation);
    }
  }

  lemma {:induction false} ArrivalPersists(f: Facts, e: Event)
    ensures Persists(f, Arrive(f, e))
  {
    match e
    case AddPerformance(o, s) => ScoresPersist(f, o, s);
    case Publish(id) => PublishKeeps(f.records, id);
    case _ =>
  }

  /** Nothing but scripts of videos is ever withdrawn. */
  lemma {:induction false} RunPersists(db: Db, ms: seq<Moment>, n: nat)
    requires n <= |ms|
    ensures Persists(Run(db, ms[..n]).facts, Run(db, ms).facts)
  {
    if n == |ms| {
      assert ms[..n] == ms;
    } else {
      var front, m := ms[..|ms| - 1], ms[|ms| - 1];
      RunPersists(db, front, n);
      assert front[..n] == ms[..n];
      StepFacts(Run(db, front), m.event, m.cfg, m.now);
      ArrivalPersists(Run(db, front).facts, m.event);
    }
  }

  /** A sync of the run found a script for v that the facts end without. */
  predicate Withdrawn(ms: seq<Moment>, n: int, v: Id) {
    && 0 <= n < |ms| && ms[n].event.SyncAll?
    && ScriptOfVideo(Run(Empty(), ms[..n]).facts, v).Some?
    && ScriptOfVideo(Run(Empty(), ms).facts, v).None?
  }

  lemma {:induction false} WithdrawnKey(ms: seq<Moment>, n: int, v: Id)
    requires Withdrawn(ms, n, v)
    ensures (VideoProduced, v) in EverSynced(Empty(), ms) && (VideoProduced, v) !in Derivable(Run(Empty(), ms).facts)
  {
    var k := (VideoProduced, v);
    assert SyncSaw(Empty(), ms, n, k);
    EverSyncedIs(Empty(), ms, k);
  }

  lemma {:induction false} LostIsWithdrawn(ms: seq<Moment>, k: Key)
    requires k in EverSynced(Empty(), ms) && k !in Derivable(Run(Empty(), ms).facts)
    ensures exists n :: Withdrawn(ms, n, k.1)
  {
    EverSyncedIs(Empty(), ms, k);
    var n :| SyncSaw(Empty(), ms, n, k);
    RunPersists(Empty(), ms, n);
    assert Withdrawn(ms, n, k.1);
  }

  /** Lazy derivation is confluent: whatever arrives and syncs in whatever order, a run that ends in a sync has
      exactly the keys derivable from the final facts, each once, if and only if no sync found a script for a
      video that ends without one. */
  lemma {:induction false} DerivationIsConfluentExactly(ms: seq<Moment>)
    requires ms != [] && ms[|ms| - 1].event.SyncAll?
    ensures var r := Run(Empty(), ms);
            && Once(r.rewards)
            && Derivable(r.facts) <= DerivedKeys(r.rewards)
            && (DerivedKeys(r.rewards) == Derivable(r.facts) <==> forall n, v :: !Withdrawn(ms, n, v))
  {
    FromNothing(ms);
    FinalSync(ms);
    var ever, ends := EverSynced(Empty(), ms), Derivable(Run(Empty(), ms).facts);
    if n, v :| Withdrawn(ms, n, v) { WithdrawnKey(ms, n, v); }
    if k :| k in ever && k !in ends { LostIsWithdrawn(ms, k); }
  }

  /** The run that keeps a reward the facts no longer call for: a version with a script, a sync, a newer version
      without one, and a sync. */
  function HiddenScript(v: Id, first: Id, second: Id, script: Id, cfg: Settings, now: int): seq<Moment> {
    [Moment(AddVideo(v), cfg, now), Moment(AddVersion(VideoVersion(first, Some(v), Some(script))), cfg, now),
     Moment(SyncAll, cfg, now), Moment(AddVersion(VideoVersion(second, Some(v), None)), cfg, now), Moment(SyncAll, cfg, now)]
  }

  lemma {:induction false} RunNext(ms: seq<Moment>, n: nat)
    requires n < |ms|
    ensures Run(Empty(), ms[..n + 1]).facts == Arrive(Run(Empty(), ms[..n]).facts, ms[n].event)
  {
    assert ms[..n + 1][..n] == ms[..n];
    StepFacts(Run(Empty(), ms[..n]), ms[n].event, ms[n].cfg, ms[n].now);
  }

  lemma {:induction false} ArrivesNext(ms: seq<Moment>, n: nat, f: Facts, g: Facts)
    requires n < |ms| && Run(Empty(), ms[..n]).facts == f && Arrive(f, ms[n].event) == g
    ensures Run(Empty(), ms[..n + 1]).facts == g
  {
    RunNext(ms, n);
  }

  lemma {:induction false} ScriptArrives(v: Id, first: Id, second: Id, script: Id, cfg: Settings, now: int)
    ensures var ms := HiddenScript(v, first, second, script, cfg, now);
            Run(Empty(), ms[..2]).facts == Facts([v], [VideoVersion(first, Some(v), Some(script))], [], [], [])
  {
    var ms := HiddenScript(v, first, second, script, cfg, now);
    ArrivesNext(ms, 0, Facts([], [], [], [], []), Facts([v], [], [], [], []));
    ArrivesNext(ms, 1, Facts([v], [], [], [], []), Facts([v], [VideoVersion(first, Some(v), Some(script))], [], [], []));
  }

  lemma {:induction false} ScriptHides(ms: seq<Moment>, f: Facts, vv: VideoVersion)
    requires |ms| == 5 && ms[2].event.SyncAll? && ms[3].event == AddVersion(vv) && ms[4].event.SyncAll?
    requires Run(Empty(), ms[..2]).facts == f
    ensures Run(Empty(), ms[..5]).facts == f.(versions := [vv] + f.versions)
  {
    var g := f.(versions := [vv] + f.versions);
    ArrivesNext(ms, 2, f, f);
    ArrivesNext(ms, 3, f, g);
    ArrivesNext(ms, 4, g, g);
  }

  lemma {:induction false} ScriptSeen(v: Id, first: Id, second: Id, script: Id)
    ensures var vv, ww := VideoVersion(first, Some(v), Some(script)), VideoVersion(second, Some(v), None);
            && ScriptOfVideo(Facts([v], [vv], [], [], []), v).Some?
            && ScriptOfVideo(Facts([v], [ww, vv], [], [], []), v).None?
  {
  }

  /** It ends with a key that the final facts do not derive. */
  lemma {:induction false} HiddenScriptIsWithdrawn(v: Id, first: Id, second: Id, script: Id, cfg: Settings, now: int)
    ensures var ms := HiddenScript(v, first, second, script, cfg, now);
            Withdrawn(ms, 2, v) && DerivedKeys(Run(Empty(), ms).rewards) != Derivable(Run(Empty(), ms).facts)
  {
    var ms := HiddenScript(v, first, second, script, cfg, now);
    var vv, ww := VideoVersion(first, Some(v), Some(script)), VideoVersion(second, Some(v), None);
    ScriptArrives(v, first, second, script, cfg, now);
    ScriptHides(ms, Facts([v], [vv], [], [], []), ww);
    assert ms[..5] == ms && [ww] + [vv] == [ww, vv];
    ScriptSeen(v, first, second, script);
    assert Withdrawn(ms, 2, v);
    WithdrawnKey(ms, 2, v);
    FromNothing(ms);
  }

  lemma {:induction false} NothingWithdrawn(db: Db, ms: seq<Moment>)
    requires NeverHides(db, ms)
    ensures EverSynced(db, ms) <= Derivable(Run(db, ms).facts)
  {
    if ms != [] {
      var front, m := ms[..|ms| - 1], ms[|ms| - 1];
      HidesPrefix(db, ms);
      assert ms[..|front|] == front;
      NothingWithdrawn(db, front);
      StepFacts(Run(db, front), m.event, m.cfg, m.now);
      ArrivalKeepsDerivableExactly(Run(db, front).facts, m.event);
    }
  }

  lemma {:induction false} UnionIs(a: set<Key>, b: set<Key>)
    requires a <= b
    ensures a + b == b
  {
  }

  /** So when no version ever hides a script, the rewards after a final sync are a function of the facts. */
  lemma {:induction false} DerivationIsConfluent(ms: seq<Moment>)
    requires ms != [] && ms[|ms| - 1].event.SyncAll? && NeverHides(Empty(), ms)
    ensures var r := Run(Empty(), ms); Once(r.rewards) && DerivedKeys(r.rewards) == Derivable(r.facts)
  {
    FromNothing(ms);
    FinalSync(ms);
    HidesPrefix(Empty(), ms);
    NothingWithdrawn(Empty(), ms[..|ms| - 1]);
    UnionIs(EverSynced(Empty(), ms[..|ms| - 1]), Derivable(Run(Empty(), ms).facts));
  }
}
