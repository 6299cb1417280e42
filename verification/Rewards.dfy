/** Reward signals derived from a case's facts, and the blind predictions they settle. */
module Rewards {
  import opened Results

  type Id = string

  datatype Kind = VideoProduced | Published | PerformanceScored | DraftAdopted | VideoDiscarded

  datatype Grade = Grade(value: real, confidence: real)

  datatype Reward = Reward(
    kind: Kind, evidence: Id, draft: Option<Id>, version: Option<Id>, grade: Grade, occurredAt: int, createdAt: int)

  datatype VideoVersion = VideoVersion(id: Id, finished: Option<Id>, script: Option<Id>)
  datatype Record = Record(id: Id, published: bool, version: Option<Id>)
  datatype Observation = Observation(id: Id, observedAt: int)
  datatype Score = Score(observation: Id, version: Option<Id>, grade: Grade, excluded: bool)

  /** The rows of one case. versions is newest first; the other tables are in arrival order. */
  datatype Facts = Facts(
    videos: seq<Id>, versions: seq<VideoVersion>, records: seq<Record>, observations: seq<Observation>, scores: seq<Score>)

  datatype Settlement = Settlement(value: real, at: int)

  /** What a prediction commits to when it is made. */
  datatype Locked = Locked(composite: real, band: string, dimensions: map<string, real>, at: int)

  datatype Prediction = Prediction(id: Id, draft: Option<Id>, version: Option<Id>, locked: Locked, settled: Option<Settlement>)

  /** predictions is newest first. */
  datatype Db = Db(facts: Facts, rewards: seq<Reward>, predictions: seq<Prediction>)

  /** The grades the learning settings give each kind of reward. */
  datatype Settings = Settings(produced: Grade, published: Grade, adopted: Grade, discarded: map<string, Grade>, discardedElse: Grade)

  // ---- lineage ------------------------------------------------------------

  function VersionById(vs: seq<VideoVersion>, id: Id): Option<VideoVersion> {
    if vs == [] then None else if vs[0].id == id then Some(vs[0]) else VersionById(vs[1..], id)
  }

  function NewestVersion(vs: seq<VideoVersion>, video: Id): Option<VideoVersion> {
    if vs == [] then None else if vs[0].finished == Some(video) then Some(vs[0]) else NewestVersion(vs[1..], video)
  }

  function ScriptOf(f: Facts, version: Option<Id>): Option<Id> {
    if version.None? then None
    else
      var v := VersionById(f.versions, version.value);
      if v.Some? then v.value.script else None
  }

  function ScriptOfVideo(f: Facts, video: Id): Option<Id> {
    if video !in f.videos then None
    else
      var v := NewestVersion(f.versions, video);
      if v.Some? then v.value.script else None
  }

  function ObservationById(os: seq<Observation>, id: Id): Option<Observation> {
    if os == [] then None else if os[0].id == id then Some(os[0]) else ObservationById(os[1..], id)
  }

  lemma {:induction false} ObservationsGrow(os: seq<Observation>, o: Observation, id: Id)
    ensures ObservationById(os, id).Some? ==> ObservationById(os + [o], id) == ObservationById(os, id)
  {
    if os != [] {
      assert (os + [o])[1..] == os[1..] + [o];
      if os[0].id != id { ObservationsGrow(os[1..], o, id); }
    }
  }

  // ---- rewards ------------------------------------------------------------

  predicate Exists(rs: seq<Reward>, k: Kind, e: Id) {
    exists r <- rs :: r.kind == k && r.evidence == e
  }

  /** The unique index on kind and evidence keeps the row that is already there. */
  function AddReward(rs: seq<Reward>, r: Reward): seq<Reward> {
    if Exists(rs, r.kind, r.evidence) then rs else rs + [r]
  }

  function WithVideo(rs: seq<Reward>, f: Facts, v: Id, g: Grade, now: int): seq<Reward> {
    var script := ScriptOfVideo(f, v);
    if script.None? then rs else AddReward(rs, Reward(VideoProduced, v, None, script, g, now, now))
  }

  function WithVideos(rs: seq<Reward>, f: Facts, vs: seq<Id>, g: Grade, now: int): seq<Reward>
    decreases |vs|
  {
    if vs == [] then rs else WithVideos(WithVideo(rs, f, vs[0], g, now), f, vs[1..], g, now)
  }

  function WithRecord(rs: seq<Reward>, f: Facts, r: Record, g: Grade, now: int): seq<Reward> {
    if !r.published then rs else AddReward(rs, Reward(Published, r.id, None, ScriptOf(f, r.version), g, now, now))
  }

  function WithRecords(rs: seq<Reward>, f: Facts, xs: seq<Record>, g: Grade, now: int): seq<Reward>
    decreases |xs|
  {
    if xs == [] then rs else WithRecords(WithRecord(rs, f, xs[0], g, now), f, xs[1..], g, now)
  }

  function WithScore(rs: seq<Reward>, f: Facts, s: Score, now: int): seq<Reward> {
    var o := ObservationById(f.observations, s.observation);
    if s.excluded || o.None? then rs
    else AddReward(rs, Reward(PerformanceScored, s.observation, None, ScriptOf(f, s.version), s.grade, o.value.observedAt, now))
  }

  function WithScores(rs: seq<Reward>, f: Facts, ss: seq<Score>, now: int): seq<Reward>
    decreases |ss|
  {
    if ss == [] then rs else WithScores(WithScore(rs, f, ss[0], now), f, ss[1..], now)
  }

  // ---- settlement ---------------------------------------------------------

  /** The newest unsettled prediction of a script version. */
  function Candidate(ps: seq<Prediction>, version: Id): Option<Prediction> {
    if ps == [] then None
    else if ps[0].version == Some(version) && ps[0].settled.None? then Some(ps[0])
    else Candidate(ps[1..], version)
  }

  /** The prediction a score settles, as updated; an observation not later than the lock settles nothing. */
  function Settle(ps: seq<Prediction>, s: Score, o: Option<Observation>, target: Option<Id>, now: int): Option<Prediction> {
    if o.None? || target.None? then None
    else
      var p := Candidate(ps, target.value);
      if p.None? || o.value.observedAt <= p.value.locked.at then None
      else Some(p.value.(settled := Some(Settlement(s.grade.value, now))))
  }

  /** The row with p's id takes p's linkage and settlement, and keeps what it locked. */
  function Update(ps: seq<Prediction>, p: Prediction): seq<Prediction> {
    if ps == [] then [p]
    else if ps[0].id == p.id then [ps[0].(version := p.version, settled := p.settled)] + ps[1..]
    else [ps[0]] + Update(ps[1..], p)
  }

  function SettleScore(ps: seq<Prediction>, f: Facts, s: Score, now: int): seq<Prediction> {
    if s.excluded then ps
    else
      var p := Settle(ps, s, ObservationById(f.observations, s.observation), ScriptOf(f, s.version), now);
      if p.Some? then Update(ps, p.value) else ps
  }

  function SettleScores(ps: seq<Prediction>, f: Facts, ss: seq<Score>, now: int): seq<Prediction>
    decreases |ss|
  {
    if ss == [] then ps else SettleScores(SettleScore(ps, f, ss[0], now), f, ss[1..], now)
  }

  // ---- operations ---------------------------------------------------------

  function SyncRewards(rs: seq<Reward>, f: Facts, cfg: Settings, now: int): seq<Reward> {
    WithScores(WithRecords(WithVideos(rs, f, f.videos, cfg.produced, now), f, f.records, cfg.published, now), f, f.scores, now)
  }

  function Sync(db: Db, cfg: Settings, now: int): Db {
    db.(rewards := SyncRewards(db.rewards, db.facts, cfg, now), predictions := SettleScores(db.predictions, db.facts, db.facts.scores, now))
  }

  function ByDraft(ps: seq<Prediction>, draft: Id): Option<Prediction> {
    if ps == [] then None else if ps[0].draft == Some(draft) then Some(ps[0]) else ByDraft(ps[1..], draft)
  }

  /** The newest prediction of a draft is linked to the script the draft became. */
  function Link(ps: seq<Prediction>, draft: Id, version: Id): seq<Prediction> {
    var p := ByDraft(ps, draft);
    if p.Some? && p.value.version != Some(version) then Update(ps, p.value.(version := Some(version))) else ps
  }

  /** Adopting a draft rewards it and links its prediction to the adopted script. */
  function Adopt(db: Db, draft: Id, version: Id, cfg: Settings, now: int): Db {
    db.(rewards := AddReward(db.rewards, Reward(DraftAdopted, draft, Some(draft), Some(version), cfg.adopted, now, now)),
        predictions := Link(db.predictions, draft, version))
  }

  function Discard(db: Db, video: Id, reason: string, cfg: Settings, now: int): Db {
    var g := if reason in cfg.discarded then cfg.discarded[reason] else cfg.discardedElse;
    db.(rewards := AddReward(db.rewards, Reward(VideoDiscarded, video, None, ScriptOfVideo(db.facts, video), g, now, now)))
  }

  // ---- labels -------------------------------------------------------------

  predicate Concerns(r: Reward, p: Prediction) {
    && r.occurredAt > p.locked.at
    && ((r.draft.Some? && r.draft == p.draft) || (r.version.Some? && r.version == p.version))
  }

  predicate Later(a: Reward, b: Reward) {
    a.occurredAt > b.occurredAt || (a.occurredAt == b.occurredAt && a.createdAt > b.createdAt)
  }

  /** The latest reward about a prediction among rs, the first listed one of equals. */
  function Latest(p: Prediction, rs: seq<Reward>): Option<Reward> {
    if rs == [] then None
    else
      var best := Latest(p, rs[..|rs| - 1]);
      var r := rs[|rs| - 1];
      if Concerns(r, p) && (best.None? || Later(r, best.value)) then Some(r) else best
  }

  function Label(p: Prediction, rs: seq<Reward>): Option<Prediction> {
    var r := Latest(p, rs);
    if r.Some? then Some(p.(settled := Some(Settlement(r.value.grade.value, r.value.occurredAt))))
    else if p.settled.Some? then Some(p) else None
  }

  function Labeled(ps: seq<Prediction>, rs: seq<Reward>): seq<Prediction> {
    if ps == [] then []
    else
      var l := Label(ps[|ps| - 1], rs);
      Labeled(ps[..|ps| - 1], rs) + if l.Some? then [l.value] else []
  }

  // ---- histories ----------------------------------------------------------

  datatype Event =
    | AddVideo(video: Id)
    | AddVersion(vv: VideoVersion)
    | AddRecord(record: Record)
    | Publish(record_id: Id)
    | AddPerformance(observation: Observation, score: Score)
    | Predict(id: Id, draft: Option<Id>, locked: Locked)
    | AdoptDraft(draft_id: Id, script: Id)
    | DiscardVideo(video: Id, reason: string)
    | SyncAll

  function PublishRecord(rs: seq<Record>, id: Id): seq<Record> {
    if rs == [] then [] else [if rs[0].id == id then rs[0].(published := true) else rs[0]] + PublishRecord(rs[1..], id)
  }

  /** Facts as they arrive. */
  function Arrive(f: Facts, e: Event): Facts {
    match e
    case AddVideo(v) => f.(videos := f.videos + [v])
    case AddVersion(vv) => f.(versions := [vv] + f.versions)
    case AddRecord(r) => f.(records := f.records + [r])
    case Publish(id) => f.(records := PublishRecord(f.records, id))
    case AddPerformance(o, s) => f.(observations := f.observations + [o], scores := f.scores + [s])
    case _ => f
  }

  predicate Fresh(ps: seq<Prediction>, id: Id) {
    forall p <- ps :: p.id != id
  }

  function Step(db: Db, e: Event, cfg: Settings, now: int): Db {
    match e
    case Predict(id, draft, locked) =>
      if Fresh(db.predictions, id) then db.(predictions := [Prediction(id, draft, None, locked, None)] + db.predictions) else db
    case AdoptDraft(d, v) => Adopt(db, d, v, cfg, now)
    case DiscardVideo(v, reason) => Discard(db, v, reason, cfg, now)
    case SyncAll => Sync(db, cfg, now)
    case _ => db.(facts := Arrive(db.facts, e))
  }

  datatype Moment = Moment(event: Event, cfg: Settings, now: int)

  function Run(db: Db, ms: seq<Moment>): Db {
    if ms == [] then db else
      var front := Run(db, ms[..|ms| - 1]);
      var m := ms[|ms| - 1];
      Step(front, m.event, m.cfg, m.now)
  }

  function Empty(): Db { Db(Facts([], [], [], [], []), [], []) }
}
