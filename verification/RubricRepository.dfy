/** The rubric service as it runs: reward and prediction rows are written in place. */
module RubricRepository {
  import opened Results
  import opened Rewards

  class Repository {
    var facts: Facts
    var rewards: seq<Reward>
    var predictions: seq<Prediction>

    function State(): Db
      reads this
    {
      Db(facts, rewards, predictions)
    }

    constructor ()
      ensures State() == Empty()
    {
      facts, rewards, predictions := Facts([], [], [], [], []), [], [];
    }

    method RewardExists(k: Kind, e: Id) returns (found: bool)
      ensures found == Exists(rewards, k, e)
    {
      for n := 0 to |rewards|
        invariant forall j :: 0 <= j < n ==> !(rewards[j].kind == k && rewards[j].evidence == e)
      {
        if rewards[n].kind == k && rewards[n].evidence == e {
          assert rewards[n] in rewards;
          return true;
        }
      }
      found := false;
    }

    /** The unique index rejects a second row for one piece of evidence; the caller gets the first one. */
    method Insert(r: Reward)
      modifies this`rewards
      ensures rewards == AddReward(old(rewards), r)
    {
      var there := RewardExists(r.kind, r.evidence);
      if !there { rewards := rewards + [r]; }
    }

    /** The newest unsettled prediction linked to the score's script, settled if it was locked before. */
    method SettlePrediction(s: Score, o: Option<Observation>, target: Option<Id>, now: int) returns (p: Option<Prediction>)
      ensures p == Settle(predictions, s, o, target, now)
    {
      if o.None? || target.None? { return None; }
      for n := 0 to |predictions|
        invariant Candidate(predictions, target.value) == Candidate(predictions[n..], target.value)
      {
        var c := predictions[n];
        assert predictions[n..][0] == c && predictions[n..][1..] == predictions[n + 1..];
        if c.version == target && c.settled.None? {
          return if o.value.observedAt <= c.locked.at then None else Some(c.(settled := Some(Settlement(s.grade.value, now))));
        }
      }
      p := None;
    }

    method DeriveVideos(g: Grade, now: int)
      modifies this`rewards
      ensures rewards == WithVideos(old(rewards), facts, facts.videos, g, now)
    {
      for n := 0 to |facts.videos|
        invariant WithVideos(old(rewards), facts, facts.videos, g, now) == WithVideos(rewards, facts, facts.videos[n..], g, now)
      {
        var v := facts.videos[n];
        assert facts.videos[n..][0] == v && facts.videos[n..][1..] == facts.videos[n + 1..];
        var there := RewardExists(VideoProduced, v);
        if !there {
          var script := ScriptOfVideo(facts, v);
          if script.Some? { Insert(Reward(VideoProduced, v, None, script, g, now, now)); }
        }
      }
    }

    method DeriveRecords(g: Grade, now: int)
      modifies this`rewards
      ensures rewards == WithRecords(old(rewards), facts, facts.records, g, now)
    {
      for n := 0 to |facts.records|
        invariant WithRecords(old(rewards), facts, facts.records, g, now) == WithRecords(rewards, facts, facts.records[n..], g, now)
      {
        var r := facts.records[n];
        assert facts.records[n..][0] == r && facts.records[n..][1..] == facts.records[n + 1..];
        if r.published {
          var there := RewardExists(Published, r.id);
          if !there { Insert(Reward(Published, r.id, None, ScriptOf(facts, r.version), g, now, now)); }
        }
      }
    }

    /** Scores reward and settle in one pass. */
    method DeriveScores(now: int)
      modifies this`rewards, this`predictions
      ensures rewards == WithScores(old(rewards), facts, facts.scores, now)
      ensures predictions == SettleScores(old(predictions), facts, facts.scores, now)
    {
      for n := 0 to |facts.scores|
        invariant WithScores(old(rewards), facts, facts.scores, now) == WithScores(rewards, facts, facts.scores[n..], now)
        invariant SettleScores(old(predictions), facts, facts.scores, now) == SettleScores(predictions, facts, facts.scores[n..], now)
      {
        var s := facts.scores[n];
        assert facts.scores[n..][0] == s && facts.scores[n..][1..] == facts.scores[n + 1..];
        if s.excluded { continue; }
        var o := ObservationById(facts.observations, s.observation);
        var there := RewardExists(PerformanceScored, s.observation);
        if !there {
          if o.None? { continue; }
          Insert(Reward(PerformanceScored, s.observation, None, ScriptOf(facts, s.version), s.grade, o.value.observedAt, now));
        }
        var settled := SettlePrediction(s, o, ScriptOf(facts, s.version), now);
        if settled.Some? { predictions := Update(predictions, settled.value); }
      }
    }

    method Sync(cfg: Settings, now: int)
      modifies this
      ensures State() == Rewards.Sync(old(State()), cfg, now)
    {
      DeriveVideos(cfg.produced, now);
      DeriveRecords(cfg.published, now);
      DeriveScores(now);
    }

    method Adopt(draft: Id, version: Id, cfg: Settings, now: int)
      modifies this
      ensures State() == Rewards.Adopt(old(State()), draft, version, cfg, now)
    {
      Insert(Reward(DraftAdopted, draft, Some(draft), Some(version), cfg.adopted, now, now));
      var p := ByDraft(predictions, draft);
      if p.Some? && p.value.version != Some(version) {
        predictions := Update(predictions, p.value.(version := Some(version)));
      }
    }

    method Discard(video: Id, reason: string, cfg: Settings, now: int)
      modifies this
      ensures State() == Rewards.Discard(old(State()), video, reason, cfg, now)
    {
      var g := if reason in cfg.discarded then cfg.discarded[reason] else cfg.discardedElse;
      Insert(Reward(VideoDiscarded, video, None, ScriptOfVideo(facts, video), g, now, now));
    }

    /** The latest reward about p among the rewards as a query listed them. */
    method LatestReward(p: Prediction, listed: seq<Reward>) returns (best: Option<Reward>)
      requires multiset(listed) == multiset(rewards)
      ensures best == Latest(p, listed)
    {
      best := None;
      for n := 0 to |listed|
        invariant best == Latest(p, listed[..n])
      {
        assert listed[..n + 1][..n] == listed[..n];
        if Concerns(listed[n], p) && (best.None? || Later(listed[n], best.value)) { best := Some(listed[n]); }
      }
      assert listed[..|listed|] == listed;
    }

    /** The labels calibration learns from. */
    method LabeledPredictions(listed: seq<Reward>) returns (labeled: seq<Prediction>)
      requires multiset(listed) == multiset(rewards)
      ensures labeled == Labeled(predictions, listed)
    {
      labeled := [];
      for n := 0 to |predictions|
        invariant labeled == Labeled(predictions[..n], listed)
      {
        assert predictions[..n + 1][..n] == predictions[..n];
        var p := predictions[n];
        var best := LatestReward(p, listed);
        if best.Some? {
          labeled := labeled + [p.(settled := Some(Settlement(best.value.grade.value, best.value.occurredAt)))];
        } else if p.settled.Some? {
          labeled := labeled + [p];
        }
      }
      assert predictions[..|predictions|] == predictions;
    }
  }
}
