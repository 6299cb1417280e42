/** The circuit breaker over the log of provider calls. */
module Breaker {
  import opened Results

  datatype Status = Prepared | Submitted | Polling | Succeeded | Failed | TimedOut | Cancelled

  datatype Code = CircuitOpen | ProviderTimeout | QuotaExceeded | OtherCode(name: string)

  /** One invocation row; duration is null while a call is under way. */
  datatype Record = Record(profile: Option<string>, startedAt: int, status: Status, code: Option<Code>, duration: Option<int>)

  /** threshold and hours as the settings hold them. */
  datatype Config = Config(enabled: bool, threshold: real, hours: int)

  datatype Health = Health(
    calls: nat, successes: nat, failures: nat, timeouts: nat, errorRate: real, timeoutRate: real, p95: Option<int>, open: bool)

  const HOUR := 3600

  function Window(cfg: Config): int { (if cfg.hours > 1 then cfg.hours else 1) * HOUR }

  function Threshold(cfg: Config): real {
    if cfg.threshold < 0.0 then 0.0 else if cfg.threshold > 1.0 then 1.0 else cfg.threshold
  }

  /** The breaker's own fail-fast records. */
  predicate IsBlock(r: Record) { r.code == Some(CircuitOpen) }

  predicate Counted(r: Record, profile: string, since: int) {
    r.startedAt >= since && r.profile == Some(profile) && !IsBlock(r)
  }

  function Selected(log: seq<Record>, profile: string, since: int): seq<Record> {
    if log == [] then []
    else Selected(log[..|log| - 1], profile, since) + if Counted(log[|log| - 1], profile, since) then [log[|log| - 1]] else []
  }

  function Count(rs: seq<Record>, p: Record -> bool): nat {
    if rs == [] then 0 else Count(rs[..|rs| - 1], p) + if p(rs[|rs| - 1]) then 1 else 0
  }

  predicate IsSuccess(r: Record) { r.status.Succeeded? }
  predicate IsFailure(r: Record) { r.status.Failed? || r.status.TimedOut? }
  predicate IsTimeout(r: Record) {
    r.status.TimedOut? || r.code == Some(ProviderTimeout) || r.code == Some(QuotaExceeded)
  }

  function Rate(n: nat, calls: nat): real { if calls == 0 then 0.0 else n as real / calls as real }

  // ---- the nearest-rank percentile ----------------------------------------

  /** Known durations in ascending order; rows without one rank after them. */
  function InsertDuration(s: seq<int>, d: int): seq<int> {
    if s == [] || s[|s| - 1] <= d then s + [d] else InsertDuration(s[..|s| - 1], d) + [s[|s| - 1]]
  }

  function Ranked(rs: seq<Record>): seq<int> {
    if rs == [] then []
    else
      var front, d := Ranked(rs[..|rs| - 1]), rs[|rs| - 1].duration;
      if d.Some? then InsertDuration(front, d.value) else front
  }

  /** The least duration whose rank, from the given one on, reaches 95 per cent of count. */
  function FirstReaching(ranked: seq<int>, rank: nat, count: nat): Option<int>
    requires rank >= 1
    decreases |ranked| - rank
  {
    if rank > |ranked| then None
    else if rank * 100 >= count * 95 then Some(ranked[rank - 1])
    else FirstReaching(ranked, rank + 1, count)
  }

  function P95(rs: seq<Record>): Option<int> { FirstReaching(Ranked(rs), 1, |rs|) }

  // ---- the decision -------------------------------------------------------

  /** The health of a profile, or None when it has no counted call in the window. */
  function HealthOf(log: seq<Record>, profile: string, now: int, cfg: Config): Option<Health> {
    var rs := Selected(log, profile, now - Window(cfg));
    if rs == [] then None
    else
      var failures, timeouts := Count(rs, IsFailure), Count(rs, IsTimeout);
      var rate := Rate(failures, |rs|);
      Some(Health(|rs|, Count(rs, IsSuccess), failures, timeouts, rate, Rate(timeouts, |rs|), P95(rs), rate > Threshold(cfg)))
  }

  predicate Blocks(log: seq<Record>, profile: string, now: int, cfg: Config) {
    && cfg.enabled && profile != ""
    && HealthOf(log, profile, now, cfg).Some? && HealthOf(log, profile, now, cfg).value.open
  }

  // ---- calls --------------------------------------------------------------

  /** A call at a time: what happens to it if it is not blocked. Rejected before the breaker is asked, it is
      recorded whatever the breaker would say. */
  datatype Attempt = Attempt(profile: string, at: int, rejected: bool, status: Status, code: Option<Code>, duration: Option<int>)

  function BlockRecord(a: Attempt): Record { Record(Some(a.profile), a.at, Failed, Some(CircuitOpen), Some(0)) }

  function OutcomeRecord(a: Attempt): Record { Record(Some(a.profile), a.at, a.status, a.code, a.duration) }

  function RecordOf(log: seq<Record>, a: Attempt, cfg: Config): Record {
    if !a.rejected && Blocks(log, a.profile, a.at, cfg) then BlockRecord(a) else OutcomeRecord(a)
  }

  function Calls(log: seq<Record>, as_: seq<Attempt>, cfg: Config): seq<Record> {
    if as_ == [] then log
    else
      var front := Calls(log, as_[..|as_| - 1], cfg);
      front + [RecordOf(front, as_[|as_| - 1], cfg)]
  }
}
