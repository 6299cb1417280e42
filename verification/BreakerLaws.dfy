/** The breaker listens to real calls only, and cannot hold itself open. */
module BreakerLaws {
  import opened Results
  import opened Breaker

  // ---- its own records do not count ---------------------------------------

  /** The log without the breaker's own records. */
  function Real(log: seq<Record>): seq<Record> {
    if log == [] then [] else Real(log[..|log| - 1]) + if IsBlock(log[|log| - 1]) then [] else [log[|log| - 1]]
  }

  lemma {:induction false} SelectedAppend(log: seq<Record>, r: Record, profile: string, since: int)
    ensures Selected(log + [r], profile, since) == Selected(log, profile, since) + if Counted(r, profile, since) then [r] else []
  {
    assert (log + [r])[..|log|] == log;
  }

  lemma {:induction false} SelectedOfReal(log: seq<Record>, profile: string, since: int)
    ensures Selected(Real(log), profile, since) == Selected(log, profile, since)
  {
    if log != [] {
      var front, r := log[..|log| - 1], log[|log| - 1];
      SelectedOfReal(front, profile, since);
      if IsBlock(r) {
        assert Real(log) == Real(front);
      } else {
        SelectedAppend(Real(front), r, profile, since);
      }
    }
  }

  /** On any log the breaker decides as it would on the log without its own records. */
  lemma {:induction false} OwnRecordsDoNotCount(log: seq<Record>, profile: string, now: int, cfg: Config)
    ensures HealthOf(log, profile, now, cfg) == HealthOf(Real(log), profile, now, cfg)
    ensures Blocks(log, profile, now, cfg) <==> Blocks(Real(log), profile, now, cfg)
  {
    SelectedOfReal(log, profile, now - Window(cfg));
  }

  /** The same calls, with blocked ones not recorded at all. */
  function CallsUnrecorded(log: seq<Record>, attempts: seq<Attempt>, cfg: Config): seq<Record> {
    if attempts == [] then log
    else
      var front := CallsUnrecorded(log, attempts[..|attempts| - 1], cfg);
      var r := RecordOf(front, attempts[|attempts| - 1], cfg);
      if IsBlock(r) then front else front + [r]
  }

  lemma {:induction false} RealAppend(log: seq<Record>, r: Record)
    ensures Real(log + [r]) == Real(log) + if IsBlock(r) then [] else [r]
  {
    assert (log + [r])[..|log|] == log;
  }

  /** Recording blocked calls never changes what happens to any call. */
  lemma {:induction false} RecordingBlocksChangesNothing(log: seq<Record>, attempts: seq<Attempt>, cfg: Config)
    ensures Real(Calls(log, attempts, cfg)) == CallsUnrecorded(Real(log), attempts, cfg)
  {
    if attempts != [] {
      var before, a := attempts[..|attempts| - 1], attempts[|attempts| - 1];
      var front := Calls(log, before, cfg);
      RecordingBlocksChangesNothing(log, before, cfg);
      OwnRecordsDoNotCount(front, a.profile, a.at, cfg);
      RealAppend(front, RecordOf(front, a, cfg));
    }
  }

  // ---- counts and rates ---------------------------------------------------

  lemma {:induction false} CountsFit(rs: seq<Record>)
    ensures Count(rs, IsSuccess) + Count(rs, IsFailure) <= |rs| && Count(rs, IsTimeout) <= |rs|
  {
    if rs != [] { CountsFit(rs[..|rs| - 1]); }
  }

  lemma {:induction false} RateAgainst(n: nat, calls: nat, t: real)
    requires calls > 0
    ensures Rate(n, calls) > t <==> n as real > t * calls as real
  {
    var r, c := Rate(n, calls), calls as real;
    assert r * c == n as real;
    if r > t { assert (r - t) * c > 0.0; } else { assert (t - r) * c >= 0.0; }
  }

  lemma {:induction false} RateBounds(n: nat, calls: nat)
    requires n <= calls
    ensures 0.0 <= Rate(n, calls) <= 1.0
    ensures Rate(n, calls) > 0.0 <==> n > 0
  {
    if calls > 0 {
      RateAgainst(n, calls, 1.0);
      RateAgainst(n, calls, 0.0);
      assert n as real / calls as real >= 0.0;
    }
  }

  lemma {:induction false} HealthCounts(log: seq<Record>, profile: string, now: int, cfg: Config)
    requires HealthOf(log, profile, now, cfg).Some?
    ensures var h := HealthOf(log, profile, now, cfg).value;
            && h.calls > 0 && h.successes + h.failures <= h.calls && h.timeouts <= h.calls
            && h.errorRate == Rate(h.failures, h.calls) && h.timeoutRate == Rate(h.timeouts, h.calls)
            && (h.open <==> h.errorRate > Threshold(cfg))
  {
    CountsFit(Selected(log, profile, now - Window(cfg)));
  }

  /** Both rates are in [0, 1], and the circuit is open exactly when failures exceed the threshold's share of
      the calls. */
  lemma {:induction false} OpenExactly(log: seq<Record>, profile: string, now: int, cfg: Config)
    requires HealthOf(log, profile, now, cfg).Some?
    ensures var h := HealthOf(log, profile, now, cfg).value;
            && 0.0 <= h.errorRate <= 1.0 && 0.0 <= h.timeoutRate <= 1.0 && h.successes + h.failures <= h.calls
            && (h.open <==> h.failures as real > Threshold(cfg) * h.calls as real)
            && (cfg.threshold >= 1.0 ==> !h.open)
            && (cfg.threshold <= 0.0 ==> (h.open <==> h.failures > 0))
  {
    var h := HealthOf(log, profile, now, cfg).value;
    HealthCounts(log, profile, now, cfg);
    RateBounds(h.failures, h.calls);
    RateBounds(h.timeouts, h.calls);
    RateAgainst(h.failures, h.calls, Threshold(cfg));
  }

  // ---- recovery -----------------------------------------------------------

  lemma {:induction false} SelectedHas(log: seq<Record>, profile: string, since: int)
    ensures forall r <- Selected(log, profile, since) :: r in log && Counted(r, profile, since)
  {
    if log != [] {
      SelectedHas(log[..|log| - 1], profile, since);
      assert log == log[..|log| - 1] + [log[|log| - 1]];
    }
  }

  lemma {:induction false} CountSome(rs: seq<Record>)
    requires Count(rs, IsFailure) > 0
    ensures exists r <- rs :: IsFailure(r)
  {
    assert rs == rs[..|rs| - 1] + [rs[|rs| - 1]];
    if !IsFailure(rs[|rs| - 1]) { CountSome(rs[..|rs| - 1]); }
  }

  /** A call is only ever blocked by a real call of the window that failed. */
  lemma {:induction false} BlocksNeedRealFailure(log: seq<Record>, profile: string, now: int, cfg: Config)
    requires Blocks(log, profile, now, cfg)
    ensures exists r <- log :: Counted(r, profile, now - Window(cfg)) && IsFailure(r)
  {
    var rs := Selected(log, profile, now - Window(cfg));
    HealthCounts(log, profile, now, cfg);
    RateBounds(Count(rs, IsFailure), |rs|);
    CountSome(rs);
    SelectedHas(log, profile, now - Window(cfg));
  }

  /** The m-th call of a history really happened, and failed. */
  predicate ReallyFailed(attempts: seq<Attempt>, m: nat, cfg: Config)
    requires m < |attempts|
  {
    var a := attempts[m];
    && (a.rejected || !Blocks(Calls([], attempts[..m], cfg), a.profile, a.at, cfg))
    && (a.status.Failed? || a.status.TimedOut?)
  }

  lemma {:induction false} CallsCount(attempts: seq<Attempt>, cfg: Config)
    ensures |Calls([], attempts, cfg)| == |attempts|
  {
    if attempts != [] { CallsCount(attempts[..|attempts| - 1], cfg); }
  }

  lemma {:induction false} RecordsAt(attempts: seq<Attempt>, cfg: Config, m: nat)
    requires m < |Calls([], attempts, cfg)|
    ensures m < |attempts| && Calls([], attempts, cfg)[m] == RecordOf(Calls([], attempts[..m], cfg), attempts[m], cfg)
  {
    if attempts != [] {
      var front := attempts[..|attempts| - 1];
      CallsCount(front, cfg);
      if m < |front| {
        RecordsAt(front, cfg, m);
        assert front[..m] == attempts[..m];
      }
    }
  }

  lemma {:induction false} RecordedFailure(attempts: seq<Attempt>, m: nat, cfg: Config)
    requires m < |Calls([], attempts, cfg)| && !IsBlock(Calls([], attempts, cfg)[m]) && IsFailure(Calls([], attempts, cfg)[m])
    ensures m < |attempts| && ReallyFailed(attempts, m, cfg)
    ensures attempts[m].at == Calls([], attempts, cfg)[m].startedAt && Some(attempts[m].profile) == Calls([], attempts, cfg)[m].profile
  {
    RecordsAt(attempts, cfg, m);
  }

  /** In every history the breaker cannot hold itself open: whenever it blocks a call, some earlier call of the
      same profile within one window really happened and failed. Once a whole window has passed without such a
      call, the next one goes through. */
  lemma {:induction false} CannotHoldItselfOpen(attempts: seq<Attempt>, cfg: Config, profile: string, now: int)
    requires Blocks(Calls([], attempts, cfg), profile, now, cfg)
    ensures exists m :: 0 <= m < |attempts| && ReallyFailed(attempts, m, cfg)
              && attempts[m].profile == profile && attempts[m].at >= now - Window(cfg)
  {
    var log := Calls([], attempts, cfg);
    BlocksNeedRealFailure(log, profile, now, cfg);
    var r :| r in log && Counted(r, profile, now - Window(cfg)) && IsFailure(r);
    var m :| 0 <= m < |log| && log[m] == r;
    RecordedFailure(attempts, m, cfg);
  }

  // ---- the percentile -----------------------------------------------------

  predicate Ascending(s: seq<int>) { forall j, k :: 0 <= j <= k < |s| ==> s[j] <= s[k] }

  function CountUpTo(rs: seq<Record>, d: int): nat {
    if rs == [] then 0
    else CountUpTo(rs[..|rs| - 1], d) + if rs[|rs| - 1].duration.Some? && rs[|rs| - 1].duration.value <= d then 1 else 0
  }

  function UpTo(s: seq<int>, d: int): nat { if s == [] then 0 else UpTo(s[..|s| - 1], d) + if s[|s| - 1] <= d then 1 else 0 }

  lemma {:induction false} InsertAscending(s: seq<int>, d: int)
    requires Ascending(s)
    ensures Ascending(InsertDuration(s, d)) && |InsertDuration(s, d)| == |s| + 1
    ensures forall x <- InsertDuration(s, d) :: x == d || x in s
  {
    if s != [] && s[|s| - 1] > d {
      var front, last := s[..|s| - 1], s[|s| - 1];
      assert s == front + [last];
      InsertAscending(front, d);
      var t := InsertDuration(front, d);
      forall j | 0 <= j < |t| ensures t[j] <= last {
        assert t[j] in t;
        if t[j] != d {
          var k :| 0 <= k < |front| && front[k] == t[j];
          assert s[k] <= s[|s| - 1];
        }
      }
    }
  }

  lemma {:induction false} UpToAppend(s: seq<int>, d: int, e: int)
    ensures UpTo(s + [d], e) == UpTo(s, e) + if d <= e then 1 else 0
  {
    assert (s + [d])[..|s|] == s;
  }

  lemma {:induction false} InsertCounts(s: seq<int>, d: int, e: int)
    ensures UpTo(InsertDuration(s, d), e) == UpTo(s, e) + if d <= e then 1 else 0
  {
    if s == [] || s[|s| - 1] <= d {
      UpToAppend(s, d, e);
    } else {
      InsertCounts(s[..|s| - 1], d, e);
      UpToAppend(InsertDuration(s[..|s| - 1], d), s[|s| - 1], e);
    }
  }

  lemma {:induction false} RankedIs(rs: seq<Record>, e: int)
    ensures Ascending(Ranked(rs)) && |Ranked(rs)| <= |rs| && UpTo(Ranked(rs), e) == CountUpTo(rs, e)
  {
    if rs != [] {
      RankedIs(rs[..|rs| - 1], e);
      var d := rs[|rs| - 1].duration;
      if d.Some? {
        InsertAscending(Ranked(rs[..|rs| - 1]), d.value);
        InsertCounts(Ranked(rs[..|rs| - 1]), d.value, e);
      }
    }
  }

  lemma {:induction false} UpToOfAscending(s: seq<int>, k: nat, e: int)
    requires Ascending(s) && k <= |s|
    ensures (k > 0 && s[k - 1] <= e) ==> UpTo(s, e) >= k
    ensures (k < |s| && s[k] > e) ==> UpTo(s, e) <= k
    ensures UpTo(s, e) <= |s|
  {
    if s != [] {
      var front := s[..|s| - 1];
      if k < |s| { UpToOfAscending(front, k, e); } else { UpToOfAscending(front, |front|, e); }
    }
  }

  lemma {:induction false} FirstReachingIs(s: seq<int>, rank: nat, count: nat)
    requires rank >= 1 && count > 0 && forall j :: 0 <= j < rank ==> j * 100 < count * 95
    ensures var d := FirstReaching(s, rank, count);
            if d.Some? then exists k: nat :: 1 <= k <= |s| && d.value == s[k - 1] && k * 100 >= count * 95 && (k - 1) * 100 < count * 95
            else forall j :: 1 <= j <= |s| ==> j * 100 < count * 95
    decreases |s| - rank
  {
    if rank <= |s| && rank * 100 < count * 95 { FirstReachingIs(s, rank + 1, count); }
  }

  lemma {:induction false} RankOfSome(rs: seq<Record>, k: nat, e: int)
    requires 1 <= k <= |Ranked(rs)| && k * 100 >= |rs| * 95 && (k - 1) * 100 < |rs| * 95
    ensures var d := Ranked(rs)[k - 1];
            CountUpTo(rs, d) * 100 >= |rs| * 95 && (e < d ==> CountUpTo(rs, e) * 100 < |rs| * 95)
  {
    var s := Ranked(rs);
    RankedIs(rs, s[k - 1]);
    UpToOfAscending(s, k, s[k - 1]);
    if e < s[k - 1] {
      RankedIs(rs, e);
      UpToOfAscending(s, k - 1, e);
    }
  }

  lemma {:induction false} RankOfNone(rs: seq<Record>, e: int)
    requires rs != [] && |Ranked(rs)| * 100 < |rs| * 95
    ensures CountUpTo(rs, e) * 100 < |rs| * 95
  {
    RankedIs(rs, e);
    UpToOfAscending(Ranked(rs), |Ranked(rs)|, e);
  }

  /** The reported latency is the nearest-rank 95th percentile: at least 95 per cent of the calls took no longer,
      and for every shorter time fewer than that did. There is none exactly when too few durations are known. */
  lemma {:induction false} P95IsNearestRank(rs: seq<Record>, e: int)
    requires rs != []
    ensures var d := P95(rs);
            if d.Some? then CountUpTo(rs, d.value) * 100 >= |rs| * 95 && (e < d.value ==> CountUpTo(rs, e) * 100 < |rs| * 95)
            else CountUpTo(rs, e) * 100 < |rs| * 95
  {
    var s, d := Ranked(rs), P95(rs);
    FirstReachingIs(s, 1, |rs|);
    if d.Some? {
      var k: nat :| 1 <= k <= |s| && d.value == s[k - 1] && k * 100 >= |rs| * 95 && (k - 1) * 100 < |rs| * 95;
      RankOfSome(rs, k, e);
    } else {
      RankOfNone(rs, e);
    }
  }
}
