/** What each planned segment takes from its timeline entry and its source. */
module TimelinePlans {
  import opened Results
  import opened Timeline

  // ---- numbers ------------------------------------------------------------

  /** r is the whole number nearest to x, the even one of two. */
  predicate Nearest(r: int, x: real) {
    var d := r as real - x;
    -0.5 <= d <= 0.5 && (d == 0.5 || d == -0.5 ==> r % 2 == 0)
  }

  lemma {:induction false} RoundIsNearest(x: real)
    ensures Nearest(Round(x), x)
  {
  }

  lemma {:induction false} NearestIsRound(r: int, x: real)
    requires Nearest(r, x)
    ensures r == Round(x)
  {
    var q := Round(x);
    RoundIsNearest(x);
    assert -1.0 <= (r - q) as real <= 1.0;
  }

  lemma {:induction false} NearestExactly(r: int, x: real)
    ensures Nearest(r, x) <==> r == Round(x)
  {
    RoundIsNearest(x);
    if Nearest(r, x) { NearestIsRound(r, x); }
  }

  /** Truncation keeps the whole part, toward zero. */
  lemma {:induction false} TruncateExactly(x: real)
    ensures var t := Truncate(x); if x >= 0.0 then t as real <= x < (t + 1) as real else (t - 1) as real < x <= t as real
  {
  }

  function Abs(x: int): nat { if x < 0 then -x else x }

  /** q times size is whole, cut toward zero. */
  predicate CutTo(q: int, size: int, whole: int) {
    var part := q * size;
    && Abs(part) <= Abs(whole) < Abs(part) + Abs(size)
    && (part > 0 ==> whole > 0) && (part < 0 ==> whole < 0)
  }

  lemma {:induction false} CutIs(q: int, size: int, whole: int, m: int)
    requires 0 <= m <= Abs(whole) < m + Abs(size) && q * size == if whole >= 0 then m else -m
    ensures CutTo(q, size, whole)
  {
  }

  lemma {:induction false} Euclid(m: nat, n: nat) returns (k: nat)
    requires n > 0
    ensures k == m / n && k * n <= m < k * n + n
  {
    k := m / n;
    assert m == m / n * n + m % n;
  }

  lemma {:induction false} QuotientIs(a: int, b: int) returns (k: nat)
    requires b != 0
    ensures k * Abs(b) <= Abs(a) < k * Abs(b) + Abs(b)
    ensures Quotient(a, b) == if (a >= 0) == (b >= 0) then k else 0 - k
  {
    k := Euclid(Abs(a), Abs(b));
    assert Quotient(a, b) == if (a >= 0) == (b >= 0) then Abs(a) / Abs(b) else -(Abs(a) / Abs(b));
  }

  lemma {:induction false} SignedTimes(k: int, b: int)
    ensures k * b == (if b >= 0 then k * Abs(b) else -(k * Abs(b))) && (-k) * b == -(k * b)
  {
  }

  lemma {:induction false} WholePart(a: int, b: int) returns (m: int)
    requires b != 0
    ensures 0 <= m <= Abs(a) < m + Abs(b)
    ensures Quotient(a, b) * b == if a >= 0 then m else -m
  {
    var k := QuotientIs(a, b);
    SignedTimes(k, b);
    m := k * Abs(b);
  }

  lemma {:induction false} QuotientCuts(a: int, b: int)
    requires b != 0
    ensures CutTo(Quotient(a, b), b, a)
  {
    var m := WholePart(a, b);
    CutIs(Quotient(a, b), b, a, m);
  }

  /** A frame is at the whole number of microseconds its share of the rate comes to, cut toward zero; a rate of zero
      stands for 30. */
  lemma {:induction false} MicrosExactly(frame: int, fps: int)
    ensures CutTo(FrameToUs(frame, fps), if fps == 0 then 30 else fps, frame * 1_000_000)
  {
    QuotientCuts(frame * 1_000_000, if fps == 0 then 30 else fps);
  }

  // ---- one position -------------------------------------------------------

  /** The frame of a position: as given, or nearest to its seconds, or to the seconds it falls back to, or zero. */
  predicate FrameIs(p: Position, fps: int, frame: int) {
    if p.frame.Some? then frame == p.frame.value
    else if p.seconds.Some? then Nearest(frame, p.seconds.value * fps as real)
    else if p.fallback.Some? then Nearest(frame, p.fallback.value * fps as real)
    else frame == 0
  }

  lemma {:induction false} SecondsExactly(p: Position, fps: int, frame: int)
    requires p.frame.None? && p.seconds.Some?
    ensures FrameIs(p, fps, frame) <==> frame == FrameOf(p, fps)
  {
    NearestExactly(frame, p.seconds.value * fps as real);
  }

  lemma {:induction false} FallbackExactly(p: Position, fps: int, frame: int)
    requires p.frame.None? && p.seconds.None? && p.fallback.Some?
    ensures FrameIs(p, fps, frame) <==> frame == FrameOf(p, fps)
  {
    NearestExactly(frame, p.fallback.value * fps as real);
  }

  lemma {:induction false} FrameExactly(p: Position, fps: int, frame: int)
    ensures FrameIs(p, fps, frame) <==> frame == FrameOf(p, fps)
  {
    if p.frame.None? && p.seconds.Some? {
      SecondsExactly(p, fps, frame);
    } else if p.frame.None? && p.fallback.Some? {
      FallbackExactly(p, fps, frame);
    }
  }

  // ---- one segment --------------------------------------------------------

  predicate FromSource(s: VideoSegment, e: Entry, src: Source, fps: int, resolve: string -> string) {
    && src.assetId == Some(s.assetId) && s.source == resolve(s.assetId)
    && FrameIs(e.sourceStart.(fallback := src.start), fps, s.sourceStart) && FrameIs(e.sourceEnd.(fallback := src.end), fps, s.sourceEnd)
  }

  /** s is what entry e asks for: on the main or the b-roll track, the asset of the source its own plan names, from
      its path, with the frames the entry gives, or the source's seconds for the frames in the source. */
  predicate TakenFrom(
      s: VideoSegment, e: Entry, portrait: map<string, Source>, broll: map<string, Source>, fps: int, resolve: string -> string)
  {
    && (e.kind.PortraitTrack? || e.kind.BrollTrack?)
    && s.track == (if e.kind.PortraitTrack? then "main" else "broll")
    && (if e.kind.PortraitTrack? then e.segmentId in portrait && FromSource(s, e, portrait[e.segmentId], fps, resolve)
        else e.segmentId in broll && FromSource(s, e, broll[e.segmentId], fps, resolve))
    && FrameIs(e.start, fps, s.start) && FrameIs(e.end, fps, s.end)
  }

  predicate TakesTime(s: VideoSegment) { s.start < s.end && s.sourceStart < s.sourceEnd }

  lemma {:induction false} OneSegment(e: Entry, portrait: map<string, Source>, broll: map<string, Source>, fps: int, resolve: string -> string, s: VideoSegment)
    ensures SegmentOf(e, portrait, broll, fps, resolve) == Some(s) <==> TakenFrom(s, e, portrait, broll, fps, resolve) && TakesTime(s)
  {
    if !e.kind.OtherTrack? {
      var sources := if e.kind.PortraitTrack? then portrait else broll;
      FrameExactly(e.start, fps, s.start);
      FrameExactly(e.end, fps, s.end);
      if e.segmentId in sources {
        FrameExactly(e.sourceStart.(fallback := sources[e.segmentId].start), fps, s.sourceStart);
        FrameExactly(e.sourceEnd.(fallback := sources[e.segmentId].end), fps, s.sourceEnd);
      }
    }
  }

  /** The entries that yield segments: increasing positions. */
  predicate Increasing(at: seq<nat>, n: nat) {
    (forall j :: 0 <= j < |at| ==> at[j] < n) && forall j, k :: 0 <= j < k < |at| ==> at[j] < at[k]
  }

  predicate AllTaken(
      ss: seq<VideoSegment>, es: seq<Entry>, at: seq<nat>, portrait: map<string, Source>, broll: map<string, Source>, fps: int, resolve: string -> string)
  {
    && |at| == |ss| && Increasing(at, |es|)
    && forall n :: 0 <= n < |ss| ==> TakenFrom(ss[n], es[at[n]], portrait, broll, fps, resolve) && TakesTime(ss[n])
  }

  lemma {:induction false} TakenOneMore(
      ss: seq<VideoSegment>, es: seq<Entry>, at: seq<nat>, portrait: map<string, Source>, broll: map<string, Source>, fps: int,
      resolve: string -> string, e: Entry, s: Option<VideoSegment>)
    requires AllTaken(ss, es, at, portrait, broll, fps, resolve)
    requires s.Some? ==> TakenFrom(s.value, e, portrait, broll, fps, resolve) && TakesTime(s.value)
    ensures if s.Some? then AllTaken(ss + [s.value], es + [e], at + [|es|], portrait, broll, fps, resolve)
            else AllTaken(ss, es + [e], at, portrait, broll, fps, resolve)
  {
    forall n | 0 <= n < |ss| ensures (es + [e])[at[n]] == es[at[n]] { }
  }

  /** Every entry that asks for a segment that takes time is one of those. */
  ghost predicate NoneLeft(es: seq<Entry>, at: seq<nat>, portrait: map<string, Source>, broll: map<string, Source>, fps: int, resolve: string -> string) {
    forall k, s :: 0 <= k < |es| && TakenFrom(s, es[k], portrait, broll, fps, resolve) && TakesTime(s) ==> k in at
  }

  lemma {:induction false} NoneLeftNext(
      es: seq<Entry>, at: seq<nat>, portrait: map<string, Source>, broll: map<string, Source>, fps: int, resolve: string -> string, e: Entry)
    requires NoneLeft(es, at, portrait, broll, fps, resolve)
    ensures NoneLeft(es + [e], if SegmentOf(e, portrait, broll, fps, resolve).Some? then at + [|es|] else at, portrait, broll, fps, resolve)
  {
    var all := es + [e];
    forall k, s | 0 <= k < |all| && TakenFrom(s, all[k], portrait, broll, fps, resolve) && TakesTime(s)
      ensures if k < |es| then k in at else SegmentOf(e, portrait, broll, fps, resolve).Some?
    {
      if k < |es| { assert all[k] == es[k]; } else { OneSegment(e, portrait, broll, fps, resolve, s); }
    }
  }

  /** The plan is exactly what its entries ask for, in order: each segment is taken from an entry of its own, and every
      entry that asks for a segment that takes time has it. */
  lemma {:induction false} SegmentsAreTaken(es: seq<Entry>, portrait: map<string, Source>, broll: map<string, Source>, fps: int, resolve: string -> string)
    returns (at: seq<nat>)
    ensures AllTaken(SegmentsOf(es, portrait, broll, fps, resolve), es, at, portrait, broll, fps, resolve)
    ensures NoneLeft(es, at, portrait, broll, fps, resolve)
  {
    if es == [] {
      at := [];
    } else {
      var front, e := es[..|es| - 1], es[|es| - 1];
      assert es == front + [e];
      var rest := SegmentsAreTaken(front, portrait, broll, fps, resolve);
      var x := SegmentOf(e, portrait, broll, fps, resolve);
      if x.Some? { OneSegment(e, portrait, broll, fps, resolve, x.value); }
      TakenOneMore(SegmentsOf(front, portrait, broll, fps, resolve), front, rest, portrait, broll, fps, resolve, e, x);
      NoneLeftNext(front, rest, portrait, broll, fps, resolve, e);
      at := if x.Some? then rest + [|front|] else rest;
    }
  }

  /** The rate of a plan is what its timeline carries, or else the portrait plan, cut to a whole number, or 30. */
  lemma {:induction false} PlanRate(timeline: Option<real>, portrait: Option<real>)
    ensures var r := PlanFps(timeline, portrait);
            if timeline.Some? && timeline.value != 0.0 then r == Truncate(timeline.value)
            else if portrait.Some? && portrait.value != 0.0 then r == Truncate(portrait.value)
            else r == 30
  {
  }
}
