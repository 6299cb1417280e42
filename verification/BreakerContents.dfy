/** What the breaker counts, and what a call leaves in the log, in the fields of the records. */
module BreakerContents {
  import opened Results
  import opened Breaker
  import opened BreakerLaws

  /** How long a window the settings ask for: at least one hour. */
  function Reach(hours: int): int { if hours < 1 then 3600 else hours * 3600 }

  /** A call of the profile in the window, other than those the breaker turned away. */
  predicate Call(r: Record, profile: string, from: int) {
    r.profile == Some(profile) && r.startedAt >= from && r.code != Some(CircuitOpen)
  }

  datatype Kind = All | Success | Failure | Late

  predicate Is(r: Record, kind: Kind) {
    match kind
    case All => true
    case Success => r.status == Succeeded
    case Failure => r.status == Failed || r.status == TimedOut
    case Late => r.status == TimedOut || r.code == Some(ProviderTimeout) || r.code == Some(QuotaExceeded)
  }

  /** The calls of a profile in a window that are of a kind. */
  function Number(log: seq<Record>, profile: string, from: int, kind: Kind): nat {
    if log == [] then 0 else Number(log[1..], profile, from, kind) + if Call(log[0], profile, from) && Is(log[0], kind) then 1 else 0
  }

  lemma {:induction false} NumberLast(log: seq<Record>, r: Record, profile: string, from: int, kind: Kind)
    ensures Number(log + [r], profile, from, kind) == Number(log, profile, from, kind) + if Call(r, profile, from) && Is(r, kind) then 1 else 0
  {
    if log == [] {
      assert [] + [r] == [r] && [r][1..] == [];
    } else {
      assert (log + [r])[0] == log[0] && (log + [r])[1..] == log[1..] + [r];
      NumberLast(log[1..], r, profile, from, kind);
    }
  }

  lemma {:induction false} CountAppend(rs: seq<Record>, r: Record, p: Record -> bool)
    ensures Count(rs + [r], p) == Count(rs, p) + if p(r) then 1 else 0
  {
    assert (rs + [r])[..|rs|] == rs;
  }

  /** Counting what is selected counts the calls of the profile in the window. */
  lemma {:induction false} SelectedCount(log: seq<Record>, profile: string, from: int, kind: Kind, p: Record -> bool)
    requires forall r :: p(r) <==> Is(r, kind)
    ensures Count(Selected(log, profile, from), p) == Number(log, profile, from, kind)
  {
    if log != [] {
      var front, r := log[..|log| - 1], log[|log| - 1];
      SelectedCount(front, profile, from, kind, p);
      NumberLast(front, r, profile, from, kind);
      assert log == front + [r];
      if Counted(r, profile, from) {
        CountAppend(Selected(front, profile, from), r, p);
      } else {
        assert Selected(front, profile, from) + [] == Selected(front, profile, from);
      }
    }
  }

  lemma {:induction false} SelectedAll(log: seq<Record>, profile: string, from: int)
    ensures |Selected(log, profile, from)| == Number(log, profile, from, All)
  {
    if log != [] {
      var front, r := log[..|log| - 1], log[|log| - 1];
      SelectedAll(front, profile, from);
      NumberLast(front, r, profile, from, All);
      assert log == front + [r];
    }
  }

  predicate Share(rate: real, part: nat, whole: nat) { rate * whole as real == part as real }

  lemma {:induction false} RateIsShare(n: nat, calls: nat)
    requires calls > 0
    ensures Share(Rate(n, calls), n, calls)
  {
  }

  /** The health of a profile counts its calls of the window: all of them, those that succeeded, those that failed or
      ran out of time, and those that were late or over quota. A profile without calls has no health. */
  lemma {:induction false} HealthExactly(log: seq<Record>, profile: string, now: int, cfg: Config)
    ensures var from := now - Reach(cfg.hours);
            var calls, health := Number(log, profile, from, All), HealthOf(log, profile, now, cfg);
            if calls == 0 then health.None?
            else
              && health.Some? && health.value.calls == calls
              && health.value.successes == Number(log, profile, from, Success)
              && health.value.failures == Number(log, profile, from, Failure)
              && health.value.timeouts == Number(log, profile, from, Late)
  {
    var from := now - Reach(cfg.hours);
    assert from == now - Window(cfg);
    SelectedAll(log, profile, from);
    SelectedCount(log, profile, from, Success, IsSuccess);
    SelectedCount(log, profile, from, Failure, IsFailure);
    SelectedCount(log, profile, from, Late, IsTimeout);
  }

  /** Both rates are shares of all calls. */
  lemma {:induction false} RatesExactly(log: seq<Record>, profile: string, now: int, cfg: Config)
    requires HealthOf(log, profile, now, cfg).Some?
    ensures var h := HealthOf(log, profile, now, cfg).value;
            Share(h.errorRate, h.failures, h.calls) && Share(h.timeoutRate, h.timeouts, h.calls)
  {
    var h := HealthOf(log, profile, now, cfg).value;
    HealthCounts(log, profile, now, cfg);
    RateIsShare(h.failures, h.calls);
    RateIsShare(h.timeouts, h.calls);
  }

  lemma {:induction false} SomeCalls(log: seq<Record>, profile: string, from: int)
    ensures Number(log, profile, from, Failure) <= Number(log, profile, from, All)
  {
    if log != [] { SomeCalls(log[1..], profile, from); }
  }

  /** More failed than the threshold allows, which is held to be from nothing to all of them. */
  predicate TooMany(failed: nat, calls: nat, threshold: real) {
    failed > 0 && (threshold <= 0.0 || (threshold < 1.0 && failed as real > threshold * calls as real))
  }

  lemma {:induction false} TooManyExactly(log: seq<Record>, profile: string, now: int, cfg: Config)
    requires HealthOf(log, profile, now, cfg).Some?
    ensures var h := HealthOf(log, profile, now, cfg).value; h.open <==> TooMany(h.failures, h.calls, cfg.threshold)
  {
    var h := HealthOf(log, profile, now, cfg).value;
    OpenExactly(log, profile, now, cfg);
    if 0.0 < cfg.threshold < 1.0 {
      assert Threshold(cfg) == cfg.threshold;
      assert cfg.threshold * h.calls as real >= 0.0;
    }
  }

  /** A call is blocked exactly when the breaker is on, the call names its profile, and more of the profile's calls
      of the window failed than the threshold allows. */
  lemma {:induction false} BlocksExactly(log: seq<Record>, profile: string, now: int, cfg: Config)
    ensures var from := now - Reach(cfg.hours);
            Blocks(log, profile, now, cfg) <==>
            cfg.enabled && profile != "" && TooMany(Number(log, profile, from, Failure), Number(log, profile, from, All), cfg.threshold)
  {
    HealthExactly(log, profile, now, cfg);
    SomeCalls(log, profile, now - Reach(cfg.hours));
    if HealthOf(log, profile, now, cfg).Some? { TooManyExactly(log, profile, now, cfg); }
  }

  /** Each call leaves one record of its profile and time: its own outcome if it was rejected beforehand or went
      through, and otherwise a failure at once with the breaker's code. */
  lemma {:induction false} CallLeaves(log: seq<Record>, attempts: seq<Attempt>, a: Attempt, cfg: Config)
    ensures var before, after := Calls(log, attempts, cfg), Calls(log, attempts + [a], cfg);
            && |after| == |before| + 1 && after[..|before|] == before
            && var r := after[|before|];
            && r.profile == Some(a.profile) && r.startedAt == a.at
            && if a.rejected || !Blocks(before, a.profile, a.at, cfg) then r.status == a.status && r.code == a.code && r.duration == a.duration
               else r.status == Failed && r.code == Some(CircuitOpen) && r.duration == Some(0)
  {
    assert (attempts + [a])[..|attempts|] == attempts;
  }
}
