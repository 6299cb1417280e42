/** Predictions are settled blind, once, and never rewritten. */
module SettlementLaws {
  import opened Results
  import opened Rewards

  predicate UniqueIds(ps: seq<Prediction>) {
    forall j, k :: 0 <= j < k < |ps| ==> ps[j].id != ps[k].id
  }

  /** q is p later on: same lock, same draft, and p's settlement if it had one. */
  predicate Follows(p: Prediction, q: Prediction) {
    q.id == p.id && q.draft == p.draft && q.locked == p.locked && (p.settled.Some? ==> q.settled == p.settled)
  }

  /** The j-th prediction that was made; ps is newest first. */
  function Made(ps: seq<Prediction>, j: nat): Prediction
    requires j < |ps|
  {
    ps[|ps| - 1 - j]
  }

  /** Each prediction lives on. */
  predicate Evolves(ps: seq<Prediction>, qs: seq<Prediction>) {
    |ps| <= |qs| && forall j :: 0 <= j < |ps| ==> Follows(Made(ps, j), Made(qs, j))
  }

  /** A score that counts, of the script p is linked to, and observed strictly after p's lock. */
  predicate Grounds(f: Facts, p: Prediction, s: Score) {
    var o := ObservationById(f.observations, s.observation);
    && !s.excluded && o.Some? && o.value.observedAt > p.locked.at
    && p.version.Some? && ScriptOf(f, s.version) == p.version
  }

  /** q is p settled now, with the value of such a score. */
  predicate SettledFrom(f: Facts, p: Prediction, q: Prediction, now: int) {
    p.settled.None? && exists s <- f.scores :: Grounds(f, p, s) && q == p.(settled := Some(Settlement(s.grade.value, now)))
  }

  // ---- one update ---------------------------------------------------------

  lemma {:induction false} CandidateIs(ps: seq<Prediction>, v: Id)
    ensures var c := Candidate(ps, v);
            if c.Some? then c.value in ps && c.value.version == Some(v) && c.value.settled.None?
            else forall p <- ps :: p.version != Some(v) || p.settled.Some?
  {
    if ps != [] { CandidateIs(ps[1..], v); }
  }

  lemma {:induction false} ByDraftIs(ps: seq<Prediction>, d: Id)
    ensures var c := ByDraft(ps, d); c.Some? ==> c.value in ps
  {
    if ps != [] { ByDraftIs(ps[1..], d); }
  }

  lemma {:induction false} UpdateAt(ps: seq<Prediction>, p: Prediction)
    requires UniqueIds(ps) && exists q <- ps :: q.id == p.id
    ensures |Update(ps, p)| == |ps|
    ensures forall n :: 0 <= n < |ps| ==>
              Update(ps, p)[n] == if ps[n].id == p.id then ps[n].(version := p.version, settled := p.settled) else ps[n]
  {
    if ps[0].id != p.id {
      UpdateAt(ps[1..], p);
    }
  }

  /** A score that would settle a prediction now. */
  predicate Ripe(ps: seq<Prediction>, f: Facts, s: Score) {
    var o, target := ObservationById(f.observations, s.observation), ScriptOf(f, s.version);
    && !s.excluded && o.Some? && target.Some?
    && Candidate(ps, target.value).Some? && Candidate(ps, target.value).value.locked.at < o.value.observedAt
  }

  function Ripened(ps: seq<Prediction>, f: Facts, s: Score): Prediction
    requires Ripe(ps, f, s)
  {
    Candidate(ps, ScriptOf(f, s.version).value).value
  }

  lemma {:induction false} SettleUpdates(ps: seq<Prediction>, f: Facts, s: Score, now: int)
    requires UniqueIds(ps)
    ensures var qs := SettleScore(ps, f, s, now);
            |qs| == |ps| && UniqueIds(qs)
            && (Ripe(ps, f, s) ==> forall n :: 0 <= n < |ps| ==>
                  qs[n] == if ps[n] == Ripened(ps, f, s) then ps[n].(settled := Some(Settlement(s.grade.value, now))) else ps[n])
            && (!Ripe(ps, f, s) ==> qs == ps)
  {
    if Ripe(ps, f, s) {
      var c := Ripened(ps, f, s);
      CandidateIs(ps, ScriptOf(f, s.version).value);
      UpdateAt(ps, c.(settled := Some(Settlement(s.grade.value, now))));
    }
  }

  // ---- what a step does to a prediction -----------------------------------

  lemma {:induction false} SettleOne(ps: seq<Prediction>, f: Facts, s: Score, now: int)
    requires UniqueIds(ps) && s in f.scores
    ensures var qs := SettleScore(ps, f, s, now);
            && |qs| == |ps| && UniqueIds(qs)
            && forall n :: 0 <= n < |ps| ==> qs[n] == ps[n] || SettledFrom(f, ps[n], qs[n], now)
  {
    SettleUpdates(ps, f, s, now);
    if Ripe(ps, f, s) {
      CandidateIs(ps, ScriptOf(f, s.version).value);
      assert Grounds(f, Ripened(ps, f, s), s);
    }
  }

  lemma {:induction false} SettleEach(ps: seq<Prediction>, f: Facts, ss: seq<Score>, now: int)
    requires UniqueIds(ps) && forall s <- ss :: s in f.scores
    ensures var qs := SettleScores(ps, f, ss, now);
            && |qs| == |ps| && UniqueIds(qs)
            && forall n :: 0 <= n < |ps| ==> qs[n] == ps[n] || SettledFrom(f, ps[n], qs[n], now)
    decreases |ss|
  {
    if ss != [] {
      SettleOne(ps, f, ss[0], now);
      SettleEach(SettleScore(ps, f, ss[0], now), f, ss[1..], now);
    }
  }

  /** Linking rewrites the version of the newest prediction of the draft, settled or not. */
  lemma {:induction false} LinkAt(ps: seq<Prediction>, d: Id, v: Id)
    requires UniqueIds(ps)
    ensures |Link(ps, d, v)| == |ps| && UniqueIds(Link(ps, d, v))
    ensures forall n :: 0 <= n < |ps| ==>
              Link(ps, d, v)[n] == if ByDraft(ps, d) == Some(ps[n]) then ps[n].(version := Some(v)) else ps[n]
  {
    var p := ByDraft(ps, d);
    ByDraftIs(ps, d);
    if p.Some? && p.value.version != Some(v) {
      UpdateAt(ps, p.value.(version := Some(v)));
      var k :| 0 <= k < |ps| && ps[k] == p.value;
    }
  }

  /** q is what the step makes of p: a sync settles it with a score of its own, or not; an adoption links it if it
      is the newest prediction of the draft; and nothing else touches it. */
  predicate Becomes(db: Db, e: Event, now: int, p: Prediction, q: Prediction) {
    match e
    case SyncAll => q == p || SettledFrom(db.facts, p, q, now)
    case AdoptDraft(d, v) => q == if ByDraft(db.predictions, d) == Some(p) then p.(version := Some(v)) else p
    case _ => q == p
  }

  /** At most one prediction joins, unsettled, and the others are what the step makes of them. */
  predicate Moves(db: Db, e: Event, now: int, after: seq<Prediction>) {
    && UniqueIds(after) && |db.predictions| <= |after| <= |db.predictions| + 1
    && (|after| > |db.predictions| ==> e.Predict? && after[0].settled.None?)
    && forall j :: 0 <= j < |db.predictions| ==> Becomes(db, e, now, Made(db.predictions, j), Made(after, j))
  }

  lemma {:induction false} PredictMoves(db: Db, id: Id, draft: Option<Id>, locked: Locked, now: int)
    requires UniqueIds(db.predictions) && Fresh(db.predictions, id)
    ensures Moves(db, Predict(id, draft, locked), now, [Prediction(id, draft, None, locked, None)] + db.predictions)
  {
  }

  lemma {:induction false} SyncMoves(db: Db, cfg: Settings, now: int)
    requires UniqueIds(db.predictions)
    ensures Moves(db, SyncAll, now, Sync(db, cfg, now).predictions)
  {
    SettleEach(db.predictions, db.facts, db.facts.scores, now);
  }

  lemma {:induction false} AdoptMoves(db: Db, d: Id, v: Id, cfg: Settings, now: int)
    requires UniqueIds(db.predictions)
    ensures Moves(db, AdoptDraft(d, v), now, Adopt(db, d, v, cfg, now).predictions)
  {
    LinkAt(db.predictions, d, v);
  }

  lemma {:induction false} StepMoves(db: Db, e: Event, cfg: Settings, now: int)
    requires UniqueIds(db.predictions)
    ensures Moves(db, e, now, Step(db, e, cfg, now).predictions)
  {
    match e
    case SyncAll => SyncMoves(db, cfg, now);
    case AdoptDraft(d, v) => AdoptMoves(db, d, v, cfg, now);
    case Predict(id, draft, locked) => if Fresh(db.predictions, id) { PredictMoves(db, id, draft, locked, now); }
    case _ =>
  }

  // ---- settlements over histories -----------------------------------------

  lemma {:induction false} MovesEvolve(db: Db, e: Event, now: int, after: seq<Prediction>)
    requires Moves(db, e, now, after)
    ensures Evolves(db.predictions, after)
  {
    forall j | 0 <= j < |db.predictions| ensures Follows(Made(db.predictions, j), Made(after, j)) {
      assert Becomes(db, e, now, Made(db.predictions, j), Made(after, j));
    }
  }

  lemma {:induction false} EvolvesOn(a: seq<Prediction>, b: seq<Prediction>, c: seq<Prediction>)
    requires Evolves(a, b) && Evolves(b, c)
    ensures Evolves(a, c)
  {
    forall j | 0 <= j < |a| ensures Follows(Made(a, j), Made(c, j)) {
      assert Follows(Made(a, j), Made(b, j)) && Follows(Made(b, j), Made(c, j));
    }
  }

  lemma {:induction false} RunEvolves(db: Db, ms: seq<Moment>)
    requires UniqueIds(db.predictions)
    ensures UniqueIds(Run(db, ms).predictions) && Evolves(db.predictions, Run(db, ms).predictions)
  {
    if ms != [] {
      var front, m := Run(db, ms[..|ms| - 1]), ms[|ms| - 1];
      RunEvolves(db, ms[..|ms| - 1]);
      StepMoves(front, m.event, m.cfg, m.now);
      MovesEvolve(front, m.event, m.now, Run(db, ms).predictions);
      EvolvesOn(db.predictions, front.predictions, Run(db, ms).predictions);
    }
  }

  lemma {:induction false} RunSplits(db: Db, a: seq<Moment>, b: seq<Moment>)
    ensures Run(db, a + b) == Run(Run(db, a), b)
  {
    if b == [] {
      assert a + b == a;
    } else {
      assert (a + b)[..|a + b| - 1] == a + b[..|b| - 1];
      RunSplits(db, a, b[..|b| - 1]);
    }
  }

  /** Final settlement: between any two points of any history every prediction keeps its composite, band, scores,
      lock time and draft, and its settlement once it has one. */
  lemma {:induction false} SettlementIsFinal(before: seq<Moment>, after: seq<Moment>)
    ensures Evolves(Run(Empty(), before).predictions, Run(Empty(), before + after).predictions)
  {
    RunEvolves(Empty(), before);
    RunEvolves(Run(Empty(), before), after);
    RunSplits(Empty(), before, after);
  }

  /** The predictions after the first n moments of a history. */
  function At(ms: seq<Moment>, n: nat): Db
    requires n <= |ms|
  {
    Run(Empty(), ms[..n])
  }

  lemma {:induction false} NextMoves(ms: seq<Moment>, n: nat)
    requires n < |ms|
    ensures Moves(At(ms, n), ms[n].event, ms[n].now, At(ms, n + 1).predictions)
  {
    assert ms[..n + 1][..n] == ms[..n];
    RunEvolves(Empty(), ms[..n]);
    StepMoves(At(ms, n), ms[n].event, ms[n].cfg, ms[n].now);
  }

  /** Moment n is a sync that settles the j-th prediction with a counted score of the script it is linked to then. */
  predicate SettledAt(ms: seq<Moment>, n: nat, j: nat)
    requires n < |ms|
  {
    var ps, qs := At(ms, n).predictions, At(ms, n + 1).predictions;
    && ms[n].event.SyncAll? && j < |ps| == |qs|
    && SettledFrom(At(ms, n).facts, Made(ps, j), Made(qs, j), ms[n].now)
  }

  /** Blind settlement, at every moment of every history: a prediction that is settled after it and was not before
      was settled by it so. */
  lemma {:induction false} SettlementIsBlind(ms: seq<Moment>, n: nat, j: nat)
    requires n < |ms| && j < |At(ms, n + 1).predictions| && Made(At(ms, n + 1).predictions, j).settled.Some?
    requires j < |At(ms, n).predictions| ==> Made(At(ms, n).predictions, j).settled.None?
    ensures SettledAt(ms, n, j)
  {
    NextMoves(ms, n);
    assert j < |At(ms, n).predictions|;
    assert Becomes(At(ms, n), ms[n].event, ms[n].now, Made(At(ms, n).predictions, j), Made(At(ms, n + 1).predictions, j));
  }

  lemma {:induction false} NextKeepsSettlement(ms: seq<Moment>, n: nat, j: nat)
    requires n < |ms| && j < |At(ms, n).predictions| && Made(At(ms, n).predictions, j).settled.Some?
    ensures j < |At(ms, n + 1).predictions|
    ensures Made(At(ms, n + 1).predictions, j).settled == Made(At(ms, n).predictions, j).settled
  {
    NextMoves(ms, n);
    MovesEvolve(At(ms, n), ms[n].event, ms[n].now, At(ms, n + 1).predictions);
    assert Follows(Made(At(ms, n).predictions, j), Made(At(ms, n + 1).predictions, j));
  }

  /** So every settlement there is was made at some sync, from a counted score of the prediction's script, and has
      been the same since. */
  lemma {:induction false} SettlementsAreOwn(ms: seq<Moment>, m: nat, j: nat) returns (n: nat)
    requires m <= |ms| && j < |At(ms, m).predictions| && Made(At(ms, m).predictions, j).settled.Some?
    ensures n < m && SettledAt(ms, n, j)
    ensures Made(At(ms, n + 1).predictions, j).settled == Made(At(ms, m).predictions, j).settled
  {
    if j < |At(ms, m - 1).predictions| && Made(At(ms, m - 1).predictions, j).settled.Some? {
      n := SettlementsAreOwn(ms, m - 1, j);
      NextKeepsSettlement(ms, m - 1, j);
    } else {
      n := m - 1;
      SettlementIsBlind(ms, n, j);
    }
  }

  // ---- the script a settled prediction is linked to -----------------------

  predicate LinkedTo(ms: seq<Moment>, n: nat, j: nat, v: Option<Id>)
    requires n <= |ms|
  {
    j < |At(ms, n).predictions| && Made(At(ms, n).predictions, j).version == v
  }

  /** Moment n adopts the draft of the j-th prediction, the newest one of that draft, as another version. */
  predicate LinksElsewhere(ms: seq<Moment>, n: nat, j: nat, v: Option<Id>)
    requires n < |ms|
  {
    var ps, e := At(ms, n).predictions, ms[n].event;
    j < |ps| && e.AdoptDraft? && ByDraft(ps, e.draft_id) == Some(Made(ps, j)) && Some(e.script) != v
  }

  lemma {:induction false} LinkNext(ms: seq<Moment>, n: nat, j: nat, v: Option<Id>)
    requires n < |ms| && LinkedTo(ms, n, j, v)
    ensures LinkedTo(ms, n + 1, j, v) <==> !LinksElsewhere(ms, n, j, v)
  {
    NextMoves(ms, n);
    assert Becomes(At(ms, n), ms[n].event, ms[n].now, Made(At(ms, n).predictions, j), Made(At(ms, n + 1).predictions, j));
  }

  lemma {:induction false} LinkStays(ms: seq<Moment>, n: nat, j: nat, v: Option<Id>, k: nat)
    requires n <= k <= |ms| && LinkedTo(ms, n, j, v) && forall m :: n <= m < |ms| ==> !LinksElsewhere(ms, m, j, v)
    ensures LinkedTo(ms, k, j, v)
    decreases k
  {
    if n < k {
      LinkStays(ms, n, j, v, k - 1);
      LinkNext(ms, k - 1, j, v);
    }
  }

  /** A settled prediction stays linked to the script that settled it exactly when no later adoption of its draft,
      while it is the newest prediction of it, is of another version. */
  lemma {:induction false} StaysLinkedExactly(ms: seq<Moment>, n: nat, j: nat)
    requires n < |ms| && SettledAt(ms, n, j)
    ensures var v := Made(At(ms, n).predictions, j).version;
            (forall k :: n < k <= |ms| ==> LinkedTo(ms, k, j, v)) <==> forall k :: n < k < |ms| ==> !LinksElsewhere(ms, k, j, v)
  {
    var v := Made(At(ms, n).predictions, j).version;
    LinkNext(ms, n, j, v);
    if forall k :: n < k < |ms| ==> !LinksElsewhere(ms, k, j, v) {
      forall k | n < k <= |ms| ensures LinkedTo(ms, k, j, v) {
        LinkStays(ms, n + 1, j, v, k);
      }
    } else {
      var k :| n < k < |ms| && LinksElsewhere(ms, k, j, v);
      if LinkedTo(ms, k, j, v) { LinkNext(ms, k, j, v); }
    }
  }

  /** A draft is predicted and adopted, its script is scored and the prediction settled, and the draft is adopted
      again. */
  function Predicted(id: Id, d: Id, locked: Locked, cfg: Settings, now: int): seq<Moment> {
    [Moment(Predict(id, Some(d), locked), cfg, now)]
  }

  function Scored(ms: seq<Moment>, script: Id, at: int, grade: Grade, cfg: Settings, now: int): seq<Moment> {
    ms + [Moment(AddVersion(VideoVersion("vv", None, Some(script))), cfg, now)]
    + [Moment(AddPerformance(Observation("o", at), Score("o", Some("vv"), grade, false)), cfg, now)]
  }

  function SettledOnce(id: Id, d: Id, locked: Locked, first: Id, grade: Grade, cfg: Settings, now: int): seq<Moment> {
    var adopted := Predicted(id, d, locked, cfg, now) + [Moment(AdoptDraft(d, first), cfg, now)];
    Scored(adopted, first, locked.at + 1, grade, cfg, now) + [Moment(SyncAll, cfg, now)]
  }

  function Readopted(id: Id, d: Id, locked: Locked, first: Id, second: Id, grade: Grade, cfg: Settings, now: int): seq<Moment> {
    SettledOnce(id, d, locked, first, grade, cfg, now) + [Moment(AdoptDraft(d, second), cfg, now)]
  }

  lemma {:induction false} RunNext(ms: seq<Moment>, m: Moment)
    ensures Run(Empty(), ms + [m]) == Step(Run(Empty(), ms), m.event, m.cfg, m.now)
  {
    assert (ms + [m])[..|ms|] == ms;
  }

  /** The facts once a version is there and a score of it. */
  function OneScore(script: Id, at: int, grade: Grade): Facts {
    Facts([], [VideoVersion("vv", None, Some(script))], [], [Observation("o", at)], [Score("o", Some("vv"), grade, false)])
  }

  lemma {:induction false} OneScoreSettles(p: Prediction, v: Id, at: int, grade: Grade, now: int)
    requires p.version == Some(v) && p.settled.None? && at > p.locked.at
    ensures var f := OneScore(v, at, grade); SettleScores([p], f, f.scores, now) == [p.(settled := Some(Settlement(grade.value, now)))]
  {
    var f := OneScore(v, at, grade);
    var s := f.scores[0];
    assert ScriptOf(f, s.version) == Some(v);
    assert Candidate([p], v) == Some(p);
    assert Update([p], p.(settled := Some(Settlement(grade.value, now)))) == [p.(settled := Some(Settlement(grade.value, now)))];
    assert f.scores[1..] == [];
  }

  lemma {:induction false} ScoreArrives(db: Db, script: Id, at: int, grade: Grade, cfg: Settings, now: int)
    requires db.facts == Empty().facts
    ensures var a := Step(db, AddVersion(VideoVersion("vv", None, Some(script))), cfg, now);
            var b := Step(a, AddPerformance(Observation("o", at), Score("o", Some("vv"), grade, false)), cfg, now);
            b.predictions == db.predictions && b.facts == OneScore(script, at, grade)
  {
  }

  lemma {:induction false} OneScored(ms: seq<Moment>, script: Id, at: int, grade: Grade, cfg: Settings, now: int)
    requires Run(Empty(), ms).facts == Empty().facts
    ensures var db := Run(Empty(), Scored(ms, script, at, grade, cfg, now));
            db.predictions == Run(Empty(), ms).predictions && db.facts == OneScore(script, at, grade)
  {
    var a := Moment(AddVersion(VideoVersion("vv", None, Some(script))), cfg, now);
    RunNext(ms, a);
    RunNext(ms + [a], Moment(AddPerformance(Observation("o", at), Score("o", Some("vv"), grade, false)), cfg, now));
    ScoreArrives(Run(Empty(), ms), script, at, grade, cfg, now);
  }

  lemma {:induction false} DraftLinks(p: Prediction, d: Id, v: Id)
    requires p.draft == Some(d)
    ensures Link([p], d, v) == [p.(version := Some(v))]
  {
    assert ByDraft([p], d) == Some(p);
  }

  lemma {:induction false} Adopted(db: Db, p: Prediction, d: Id, v: Id, cfg: Settings, now: int)
    requires db.predictions == [p] && p.draft == Some(d)
    ensures var a := Step(db, AdoptDraft(d, v), cfg, now); a.predictions == [p.(version := Some(v))] && a.facts == db.facts
  {
    DraftLinks(p, d, v);
  }

  lemma {:induction false} OnePredicted(id: Id, d: Id, locked: Locked, cfg: Settings, now: int)
    ensures var db := Run(Empty(), Predicted(id, d, locked, cfg, now));
            db.predictions == [Prediction(id, Some(d), None, locked, None)] && db.facts == Empty().facts
  {
    RunNext([], Moment(Predict(id, Some(d), locked), cfg, now));
    assert [] + Predicted(id, d, locked, cfg, now) == Predicted(id, d, locked, cfg, now);
    assert [Prediction(id, Some(d), None, locked, None)] + [] == [Prediction(id, Some(d), None, locked, None)];
  }

  lemma {:induction false} OnceSettled(id: Id, d: Id, locked: Locked, first: Id, grade: Grade, cfg: Settings, now: int)
    ensures Run(Empty(), SettledOnce(id, d, locked, first, grade, cfg, now)).predictions ==
            [Prediction(id, Some(d), Some(first), locked, Some(Settlement(grade.value, now)))]
  {
    var a := Predicted(id, d, locked, cfg, now);
    var b := a + [Moment(AdoptDraft(d, first), cfg, now)];
    var p := Prediction(id, Some(d), None, locked, None);
    OnePredicted(id, d, locked, cfg, now);
    RunNext(a, Moment(AdoptDraft(d, first), cfg, now));
    Adopted(Run(Empty(), a), p, d, first, cfg, now);
    OneScored(b, first, locked.at + 1, grade, cfg, now);
    RunNext(Scored(b, first, locked.at + 1, grade, cfg, now), Moment(SyncAll, cfg, now));
    OneScoreSettles(p.(version := Some(first)), first, locked.at + 1, grade, now);
  }

  /** Then the settled prediction is linked to a script that did not settle it. */
  lemma {:induction false} ReadoptionRelinks(id: Id, d: Id, locked: Locked, first: Id, second: Id, grade: Grade, cfg: Settings, now: int)
    ensures Run(Empty(), Readopted(id, d, locked, first, second, grade, cfg, now)).predictions ==
            [Prediction(id, Some(d), Some(second), locked, Some(Settlement(grade.value, now)))]
    ensures first != second ==> LinksElsewhere(Readopted(id, d, locked, first, second, grade, cfg, now), 5, 0, Some(first))
  {
    var before := SettledOnce(id, d, locked, first, grade, cfg, now);
    var p := Prediction(id, Some(d), Some(first), locked, Some(Settlement(grade.value, now)));
    OnceSettled(id, d, locked, first, grade, cfg, now);
    RunNext(before, Moment(AdoptDraft(d, second), cfg, now));
    Adopted(Run(Empty(), before), p, d, second, cfg, now);
    assert ByDraft([p], d) == Some(p);
    assert Readopted(id, d, locked, first, second, grade, cfg, now)[..5] == before;
  }

  // ---- repeated syncs -----------------------------------------------------

  function Unsettled(ps: seq<Prediction>): nat {
    if ps == [] then 0 else (if ps[0].settled.None? then 1 else 0) + Unsettled(ps[1..])
  }

  lemma {:induction false} SameUnsettled(ps: seq<Prediction>, qs: seq<Prediction>)
    requires |qs| == |ps| && forall k :: 0 <= k < |ps| ==> qs[k].settled == ps[k].settled
    ensures Unsettled(qs) == Unsettled(ps)
  {
    if ps != [] { SameUnsettled(ps[1..], qs[1..]); }
  }

  lemma {:induction false} SettledOne(ps: seq<Prediction>, qs: seq<Prediction>, n: nat)
    requires |qs| == |ps| && n < |ps| && ps[n].settled.None? && qs[n].settled.Some?
    requires forall k :: 0 <= k < |ps| && k != n ==> qs[k].settled == ps[k].settled
    ensures Unsettled(qs) == Unsettled(ps) - 1
  {
    if n > 0 {
      SettledOne(ps[1..], qs[1..], n - 1);
    } else {
      SameUnsettled(ps[1..], qs[1..]);
    }
  }

  lemma {:induction false} RipeSettlesOne(ps: seq<Prediction>, f: Facts, s: Score, now: int)
    requires UniqueIds(ps) && Ripe(ps, f, s)
    ensures Unsettled(SettleScore(ps, f, s, now)) == Unsettled(ps) - 1
  {
    SettleUpdates(ps, f, s, now);
    CandidateIs(ps, ScriptOf(f, s.version).value);
    var n :| 0 <= n < |ps| && ps[n] == Ripened(ps, f, s);
    SettledOne(ps, SettleScore(ps, f, s, now), n);
  }

  lemma {:induction false} SettlesProgress(ps: seq<Prediction>, f: Facts, ss: seq<Score>, now: int)
    requires UniqueIds(ps)
    ensures var qs := SettleScores(ps, f, ss, now);
            && UniqueIds(qs) && Unsettled(qs) <= Unsettled(ps)
            && ((exists s <- ss :: Ripe(ps, f, s)) ==> Unsettled(qs) < Unsettled(ps))
            && ((forall s <- ss :: !Ripe(ps, f, s)) ==> qs == ps)
    decreases |ss|
  {
    if ss != [] {
      var s := ss[0];
      var qs := SettleScore(ps, f, s, now);
      SettleUpdates(ps, f, s, now);
      if Ripe(ps, f, s) { RipeSettlesOne(ps, f, s, now); }
      SettlesProgress(qs, f, ss[1..], now);
      assert ss == [s] + ss[1..];
    }
  }

  predicate Quiet(f: Facts, ps: seq<Prediction>) {
    forall s <- f.scores :: !Ripe(ps, f, s)
  }

  lemma {:induction false} QuietExactly(ps: seq<Prediction>, f: Facts, now: int)
    requires UniqueIds(ps)
    ensures var qs := SettleScores(ps, f, f.scores, now);
            && UniqueIds(qs) && (qs == ps <==> Quiet(f, ps)) && (!Quiet(f, ps) ==> Unsettled(qs) < Unsettled(ps))
  {
    SettlesProgress(ps, f, f.scores, now);
  }

  /** A sync leaves the predictions alone exactly when no score is ripe; otherwise it settles some. */
  lemma {:induction false} SyncQuietExactly(db: Db, cfg: Settings, now: int)
    requires UniqueIds(db.predictions)
    ensures UniqueIds(Sync(db, cfg, now).predictions)
    ensures Sync(db, cfg, now).predictions == db.predictions <==> Quiet(db.facts, db.predictions)
    ensures !Quiet(db.facts, db.predictions) ==> Unsettled(Sync(db, cfg, now).predictions) < Unsettled(db.predictions)
  {
    QuietExactly(db.predictions, db.facts, now);
  }

  function SyncTimes(db: Db, cfg: Settings, now: int, n: nat): Db
    decreases n
  {
    if n == 0 then db else SyncTimes(Sync(db, cfg, now), cfg, now, n - 1)
  }

  /** The predictions of repeated syncs, which leave the facts alone. */
  function SettleTimes(ps: seq<Prediction>, f: Facts, now: int, n: nat): seq<Prediction>
    decreases n
  {
    if n == 0 then ps else SettleTimes(SettleScores(ps, f, f.scores, now), f, now, n - 1)
  }

  lemma {:induction false} SyncTimesSettle(db: Db, cfg: Settings, now: int, n: nat)
    ensures SyncTimes(db, cfg, now, n).predictions == SettleTimes(db.predictions, db.facts, now, n)
    decreases n
  {
    if n > 0 {
      var next := Sync(db, cfg, now);
      assert next.facts == db.facts && next.predictions == SettleScores(db.predictions, db.facts, db.facts.scores, now);
      SyncTimesSettle(next, cfg, now, n - 1);
    }
  }

  lemma {:induction false} StaysQuiet(ps: seq<Prediction>, f: Facts, now: int, n: nat)
    requires UniqueIds(ps) && Quiet(f, ps)
    ensures SettleTimes(ps, f, now, n) == ps
    decreases n
  {
    if n > 0 {
      QuietExactly(ps, f, now);
      StaysQuiet(ps, f, now, n - 1);
    }
  }

  lemma {:induction false} UnsettledSome(ps: seq<Prediction>, p: Prediction)
    requires p in ps && p.settled.None?
    ensures Unsettled(ps) > 0
  {
    if ps[0] != p { UnsettledSome(ps[1..], p); }
  }

  lemma {:induction false} NoneUnsettled(f: Facts, ps: seq<Prediction>)
    requires Unsettled(ps) == 0
    ensures Quiet(f, ps)
  {
    forall s | s in f.scores && Ripe(ps, f, s) ensures false {
      CandidateIs(ps, ScriptOf(f, s.version).value);
      UnsettledSome(ps, Ripened(ps, f, s));
    }
  }

  lemma {:induction false} SettlingStabilises(ps: seq<Prediction>, f: Facts, now: int, n: nat)
    requires UniqueIds(ps) && n >= Unsettled(ps)
    ensures Quiet(f, SettleTimes(ps, f, now, n))
    decreases n
  {
    QuietExactly(ps, f, now);
    if n == 0 {
      NoneUnsettled(f, ps);
    } else if Quiet(f, ps) {
      StaysQuiet(ps, f, now, n);
    } else {
      SettlingStabilises(SettleScores(ps, f, f.scores, now), f, now, n - 1);
    }
  }

  /** Syncing as often as there are unsettled predictions always reaches a state that further syncs keep. */
  lemma {:induction false} RepeatedSyncStabilises(db: Db, cfg: Settings, now: int, n: nat)
    requires UniqueIds(db.predictions) && n >= Unsettled(db.predictions)
    ensures Quiet(db.facts, SyncTimes(db, cfg, now, n).predictions)
  {
    SettlingStabilises(db.predictions, db.facts, now, n);
    SyncTimesSettle(db, cfg, now, n);
  }

  // ---- when one sync is enough --------------------------------------------

  /** No two unsettled predictions are linked to one script version. */
  predicate OnePerVersion(ps: seq<Prediction>) {
    forall j, k :: 0 <= j < k < |ps| && ps[j].settled.None? && ps[k].settled.None? && ps[j].version.Some? ==>
      ps[j].version != ps[k].version
  }

  lemma {:induction false} OneCandidate(ps: seq<Prediction>, v: Id, n: nat)
    requires OnePerVersion(ps) && n < |ps| && ps[n].version == Some(v) && ps[n].settled.None?
    ensures Candidate(ps, v) == Some(ps[n])
  {
    CandidateIs(ps, v);
    var c := Candidate(ps, v);
    assert ps[n] in ps;
    var k :| 0 <= k < |ps| && ps[k] == c.value;
  }

  lemma {:induction false} SettleKeepsOne(ps: seq<Prediction>, f: Facts, s: Score, now: int)
    requires UniqueIds(ps) && OnePerVersion(ps)
    ensures OnePerVersion(SettleScore(ps, f, s, now))
  {
    SettleUpdates(ps, f, s, now);
  }

  /** What is unsettled after a settlement was so before, and was not what it settled. */
  lemma {:induction false} StillUnsettled(ps: seq<Prediction>, f: Facts, s: Score, now: int, v: Id)
    returns (n: nat)
    requires UniqueIds(ps) && Ripe(ps, f, s) && Candidate(SettleScore(ps, f, s, now), v).Some?
    ensures n < |ps| && ps[n] == Candidate(SettleScore(ps, f, s, now), v).value && ps[n] != Ripened(ps, f, s)
    ensures ps[n].settled.None? && ps[n].version == Some(v)
  {
    var qs := SettleScore(ps, f, s, now);
    SettleUpdates(ps, f, s, now);
    CandidateIs(qs, v);
    n :| 0 <= n < |qs| && qs[n] == Candidate(qs, v).value;
  }

  lemma {:induction false} UnripeStays(ps: seq<Prediction>, f: Facts, s: Score, x: Score, now: int)
    requires UniqueIds(ps) && OnePerVersion(ps) && (!Ripe(ps, f, x) || x == s)
    ensures !Ripe(SettleScore(ps, f, s, now), f, x)
  {
    SettleUpdates(ps, f, s, now);
    if Ripe(ps, f, s) && Ripe(SettleScore(ps, f, s, now), f, x) {
      var n := StillUnsettled(ps, f, s, now, ScriptOf(f, x.version).value);
      OneCandidate(ps, ScriptOf(f, x.version).value, n);
    }
  }

  lemma {:induction false} OneSyncIsEnough(ps: seq<Prediction>, f: Facts, done: seq<Score>, ss: seq<Score>, now: int)
    requires UniqueIds(ps) && OnePerVersion(ps) && forall x <- done :: !Ripe(ps, f, x)
    ensures var qs := SettleScores(ps, f, ss, now); forall x <- done + ss :: !Ripe(qs, f, x)
    decreases |ss|
  {
    if ss == [] {
      assert done + ss == done;
    } else {
      var s := ss[0];
      var qs := SettleScore(ps, f, s, now);
      SettleUpdates(ps, f, s, now);
      SettleKeepsOne(ps, f, s, now);
      forall x | x in done + [s] ensures !Ripe(qs, f, x) {
        UnripeStays(ps, f, s, x, now);
      }
      OneSyncIsEnough(qs, f, done + [s], ss[1..], now);
      assert done + [s] + ss[1..] == done + ss;
    }
  }

  function MaxLock(ps: seq<Prediction>): int {
    if ps == [] then 0 else if ps[0].locked.at > MaxLock(ps[1..]) then ps[0].locked.at else MaxLock(ps[1..])
  }

  /** One observation later than every lock, scored for one script version. */
  function LateScore(ps: seq<Prediction>, v: Id): Facts {
    Facts([], [VideoVersion("vv", None, Some(v))], [], [Observation("o", MaxLock(ps) + 1)],
          [Score("o", Some("vv"), Grade(0.0, 0.0), false)])
  }

  lemma {:induction false} MaxLockBounds(ps: seq<Prediction>, p: Prediction)
    requires p in ps
    ensures p.locked.at <= MaxLock(ps)
  {
    if ps[0] != p { MaxLockBounds(ps[1..], p); }
  }

  lemma {:induction false} TwoNeedTwoSyncs(ps: seq<Prediction>, j: nat, k: nat, now: int)
    requires UniqueIds(ps) && j < k < |ps| && ps[j].settled.None? && ps[k].settled.None?
    requires ps[j].version.Some? && ps[j].version == ps[k].version
    ensures var f := LateScore(ps, ps[j].version.value); !Quiet(f, SettleScores(ps, f, f.scores, now))
  {
    var v := ps[j].version.value;
    var f := LateScore(ps, v);
    var s := f.scores[0];
    CandidateIs(ps, v);
    assert ps[j] in ps && ps[k] in ps;
    MaxLockBounds(ps, Candidate(ps, v).value);
    var qs := SettleScore(ps, f, s, now);
    SettleUpdates(ps, f, s, now);
    assert f.scores[1..] == [];
    assert SettleScores(ps, f, f.scores, now) == qs;
    CandidateIs(qs, v);
    assert qs[j] in qs && qs[k] in qs;
    var c := Candidate(qs, v).value;
    var n :| 0 <= n < |qs| && qs[n] == c;
    assert ps[n] in ps && c.locked == ps[n].locked;
    MaxLockBounds(ps, ps[n]);
    assert Ripe(qs, f, s);
  }

  /** One sync settles all it ever will, whatever the facts, exactly when no two unsettled predictions are
      linked to one script version. */
  lemma {:induction false} OneSyncIsEnoughExactly(ps: seq<Prediction>, now: int)
    requires UniqueIds(ps)
    ensures (forall f: Facts :: Quiet(f, SettleScores(ps, f, f.scores, now))) <==> OnePerVersion(ps)
  {
    if OnePerVersion(ps) {
      forall f: Facts ensures Quiet(f, SettleScores(ps, f, f.scores, now)) {
        OneSyncIsEnough(ps, f, [], f.scores, now);
        assert [] + f.scores == f.scores;
      }
    } else {
      var j, k :| 0 <= j < k < |ps| && ps[j].settled.None? && ps[k].settled.None? && ps[j].version.Some? && ps[j].version == ps[k].version;
      TwoNeedTwoSyncs(ps, j, k, now);
    }
  }

  // ---- labels -------------------------------------------------------------

  /** The reward a label is taken from concerns the prediction, came after its lock, and none is later. */
  lemma {:induction false} LatestIsLatest(p: Prediction, rs: seq<Reward>)
    ensures var l := Latest(p, rs);
            if l.Some? then l.value in rs && Concerns(l.value, p) && forall r <- rs :: Concerns(r, p) ==> !Later(r, l.value)
            else forall r <- rs :: !Concerns(r, p)
  {
    if rs != [] {
      LatestIsLatest(p, rs[..|rs| - 1]);
      assert rs == rs[..|rs| - 1] + [rs[|rs| - 1]];
    }
  }

  predicate Taken(l: Prediction, r: Reward, p: Prediction, rs: seq<Reward>) {
    && Concerns(r, p) && l.settled == Some(Settlement(r.grade.value, r.occurredAt))
    && forall x <- rs :: Concerns(x, p) ==> !Later(x, r)
  }

  /** l labels p with the latest reward after its lock; only without one does p's own settlement count. */
  predicate Labels(l: Prediction, p: Prediction, rs: seq<Reward>) {
    && l.settled.Some? && l == p.(settled := l.settled)
    && (l == p || exists r <- rs :: Taken(l, r, p, rs))
    && ((exists r <- rs :: Concerns(r, p)) ==> exists r <- rs :: Taken(l, r, p, rs))
  }

  lemma {:induction false} LabelIsLatest(p: Prediction, rs: seq<Reward>)
    ensures var l := Label(p, rs);
            if l.Some? then Labels(l.value, p, rs) else p.settled.None? && forall r <- rs :: !Concerns(r, p)
  {
    LatestIsLatest(p, rs);
    var r := Latest(p, rs);
    if r.Some? { assert Taken(Label(p, rs).value, r.value, p, rs); }
  }

  /** The predictions that are settled or that some reward concerns. */
  function WithEvidence(ps: seq<Prediction>, rs: seq<Reward>): seq<Prediction> {
    if ps == [] then []
    else
      var p := ps[|ps| - 1];
      WithEvidence(ps[..|ps| - 1], rs) + if p.settled.Some? || exists r <- rs :: Concerns(r, p) then [p] else []
  }

  /** Calibration labels exactly the predictions that are settled or that some reward concerns, in order, each
      with its latest reward after the lock, or with its own settlement when there is none. */
  lemma {:induction false} LabelsAreLatest(ps: seq<Prediction>, rs: seq<Reward>)
    ensures |Labeled(ps, rs)| == |WithEvidence(ps, rs)|
    ensures forall n :: 0 <= n < |Labeled(ps, rs)| ==> Labels(Labeled(ps, rs)[n], WithEvidence(ps, rs)[n], rs)
  {
    if ps != [] {
      LabelsAreLatest(ps[..|ps| - 1], rs);
      LabelIsLatest(ps[|ps| - 1], rs);
    }
  }
}
