/** Timeline plans in frames compiled to microseconds. */
module Timeline {
  import opened Results

  const MICROS: int := 1_000_000

  /** int(a / b) of two numbers: the quotient truncated toward zero. */
  function Quotient(a: int, b: int): int
    requires b != 0
  {
    var q := (if a >= 0 then a else -a) / (if b >= 0 then b else -b);
    if (a >= 0) == (b >= 0) then q else -q
  }

  function Truncate(x: real): int {
    if x >= 0.0 then x.Floor else -((-x).Floor)
  }

  /** round(x): halves go to the even neighbour. */
  function Round(x: real): int {
    var f := x.Floor;
    var d := x - f as real;
    if d < 0.5 || (d == 0.5 && f % 2 == 0) then f else f + 1
  }

  /** The rate a conversion divides by: a zero one is falsy. */
  function Effective(fps: int): int { if fps == 0 then 30 else fps }

  /** _frame_to_us, on exact rationals. */
  function FrameToUs(frame: int, fps: int): int {
    Quotient(frame * MICROS, Effective(fps))
  }

  // ---- plans --------------------------------------------------------------

  /** A plan's fps value; an absent or zero one is falsy. */
  function Given(fps: Option<real>): bool { fps.Some? && fps.value != 0.0 }

  /** The rate frames are computed with. */
  function PlanFps(timeline: Option<real>, portrait: Option<real>): int {
    if Given(timeline) then Truncate(timeline.value) else if Given(portrait) then Truncate(portrait.value) else 30
  }

  /** The rate the draft converts them back with: the portrait plan is not consulted. */
  function DraftFps(timeline: Option<real>): int {
    if Given(timeline) then Truncate(timeline.value) else 30
  }

  /** A position given in frames, in seconds, or through the source segment's own seconds. */
  datatype Position = Position(frame: Option<int>, seconds: Option<real>, fallback: Option<real>)

  function FrameOf(p: Position, fps: int): int {
    if p.frame.Some? then p.frame.value
    else if p.seconds.Some? then Round(p.seconds.value * fps as real)
    else if p.fallback.Some? then Round(p.fallback.value * fps as real)
    else 0
  }

  datatype TrackKind = PortraitTrack | BrollTrack | OtherTrack

  /** One entry of the timeline's tracks; fallbacks are None for the timeline positions. */
  datatype Entry = Entry(kind: TrackKind, segmentId: string, start: Position, end: Position, sourceStart: Position, sourceEnd: Position)

  datatype VideoSegment = VideoSegment(
    track: string, source: string, start: int, end: int, sourceStart: int, sourceEnd: int, assetId: string)

  /** A source segment as the entry sees it: its asset, if it names one. */
  datatype Source = Source(assetId: Option<string>, start: Option<real>, end: Option<real>)

  function TrackName(k: TrackKind): string { if k.PortraitTrack? then "main" else "broll" }

  /** The segment an entry contributes, if any. resolve maps an asset to its media path. */
  function SegmentOf(e: Entry, portrait: map<string, Source>, broll: map<string, Source>, fps: int, resolve: string -> string): Option<VideoSegment> {
    if e.kind.OtherTrack? then None
    else
      var sources := if e.kind.PortraitTrack? then portrait else broll;
      if e.segmentId !in sources || sources[e.segmentId].assetId.None? then None
      else
        var src := sources[e.segmentId];
        var start, end := FrameOf(e.start, fps), FrameOf(e.end, fps);
        var from := FrameOf(e.sourceStart.(fallback := src.start), fps);
        var to := FrameOf(e.sourceEnd.(fallback := src.end), fps);
        if end <= start || to <= from then None
        else Some(VideoSegment(TrackName(e.kind), resolve(src.assetId.value), start, end, from, to, src.assetId.value))
  }

  function SegmentsOf(es: seq<Entry>, portrait: map<string, Source>, broll: map<string, Source>, fps: int, resolve: string -> string): seq<VideoSegment> {
    if es == [] then []
    else
      var front := SegmentsOf(es[..|es| - 1], portrait, broll, fps, resolve);
      var s := SegmentOf(es[|es| - 1], portrait, broll, fps, resolve);
      if s.Some? then front + [s.value] else front
  }

  method BuildVideoSegments(es: seq<Entry>, timelineFps: Option<real>, portraitFps: Option<real>,
                            portrait: map<string, Source>, broll: map<string, Source>, resolve: string -> string)
    returns (segments: seq<VideoSegment>)
    ensures segments == SegmentsOf(es, portrait, broll, PlanFps(timelineFps, portraitFps), resolve)
  {
    var fps := PlanFps(timelineFps, portraitFps);
    segments := [];
    for k := 0 to |es|
      invariant segments == SegmentsOf(es[..k], portrait, broll, fps, resolve)
    {
      assert es[..k + 1][..k] == es[..k];
      var e := es[k];
      if !e.kind.OtherTrack? {
        var sources := if e.kind.PortraitTrack? then portrait else broll;
        if e.segmentId in sources && sources[e.segmentId].assetId.Some? {
          var src := sources[e.segmentId];
          var start, end := FrameOf(e.start, fps), FrameOf(e.end, fps);
          var from := FrameOf(e.sourceStart.(fallback := src.start), fps);
          var to := FrameOf(e.sourceEnd.(fallback := src.end), fps);
          if start < end && from < to {
            segments := segments + [VideoSegment(TrackName(e.kind), resolve(src.assetId.value), start, end, from, to, src.assetId.value)];
          }
        }
      }
    }
    assert es[..|es|] == es;
  }

  /** Whatever the plans say, only segments that take time on both sides pass the frame filter. */
  lemma {:induction false} SegmentsTakeFrames(es: seq<Entry>, portrait: map<string, Source>, broll: map<string, Source>, fps: int, resolve: string -> string)
    ensures forall s <- SegmentsOf(es, portrait, broll, fps, resolve) :: s.start < s.end && s.sourceStart < s.sourceEnd
  {
    if es != [] {
      SegmentsTakeFrames(es[..|es| - 1], portrait, broll, fps, resolve);
    }
  }

  // ---- division -----------------------------------------------------------

  lemma {:induction false} MulAtLeast(k: int, f: int)
    requires k >= 1 && f > 0
    ensures k * f >= f
  {
  }

  /** Division is the only quotient with a remainder below the divisor. */
  lemma {:induction false} DivideExactly(a: nat, f: int, q: int, r: int)
    requires f > 0 && a == q * f + r && 0 <= r < f
    ensures a / f == q
  {
    if a / f > q {
      MulAtLeast(a / f - q, f);
    } else if q > a / f {
      MulAtLeast(q - a / f, f);
    }
  }

  /** The floor of a sum is the sum of the floors, or one more when the remainders fill the divisor. */
  lemma {:induction false} FloorOfSum(a: nat, b: nat, f: int)
    requires f > 0
    ensures (a + b) / f == a / f + b / f + if a % f + b % f >= f then 1 else 0
  {
    var q, r := a / f + b / f, a % f + b % f;
    if r < f {
      DivideExactly(a + b, f, q, r);
    } else {
      DivideExactly(a + b, f, q + 1, r - f);
    }
  }

  lemma {:induction false} DivideAtLeastOne(a: nat, f: int)
    requires a >= f > 0
    ensures a / f >= 1
  {
    FloorOfSum(a - f, f, f);
    DivideExactly(f, f, 1, 0);
  }

  /** Microseconds of n frames, and what is left of one, in fractions of the rate. */
  function Us(n: nat, f: int): (us: nat)
    requires f > 0
  {
    n * MICROS / f
  }

  function Left(n: nat, f: int): nat
    requires f > 0
  {
    n * MICROS % f
  }

  /** Whether two remainders make up another microsecond. */
  function Fills(a: nat, b: nat, f: int): int
    requires f > 0
  {
    if Left(a, f) + Left(b, f) >= f then 1 else 0
  }

  lemma {:induction false} UsOfSum(a: nat, n: nat, f: int)
    requires f > 0
    ensures Us(a + n, f) == Us(a, f) + Us(n, f) + Fills(a, n, f)
  {
    FloorOfSum(a * MICROS, n * MICROS, f);
  }

  lemma {:induction false} UsPositive(n: nat, f: int)
    requires n > 0 && 0 < f <= MICROS
    ensures Us(n, f) >= 1
  {
    DivideAtLeastOne(n * MICROS, f);
  }

  // ---- frames to microseconds ---------------------------------------------

  /** A rate without its sign. */
  function Rate(fps: int): (f: int)
    ensures f > 0
  {
    if Effective(fps) > 0 then Effective(fps) else -Effective(fps)
  }

  /** The conversion at a positive rate, by the sign of the frame. */
  function Signed(frame: int, f: int): int
    requires f > 0
  {
    if frame >= 0 then Us(frame, f) else 0 - Us(-frame, f)
  }

  lemma {:induction false} FrameToUsBySign(frame: int, fps: int)
    ensures FrameToUs(frame, fps) == if Effective(fps) > 0 then Signed(frame, Rate(fps)) else 0 - Signed(frame, Rate(fps))
  {
    assert (-frame) * MICROS == -(frame * MICROS);
  }

  lemma {:induction false} SignedIsMonotone(a: int, b: int, f: int)
    requires a <= b && f > 0
    ensures Signed(a, f) <= Signed(b, f)
    ensures a < b && f <= MICROS ==> Signed(a, f) < Signed(b, f)
  {
    if a < b && f <= MICROS { UsPositive(b - a, f); }
    if a >= 0 {
      UsOfSum(a, b - a, f);
    } else if b < 0 {
      UsOfSum(-b, b - a, f);
    } else if f <= MICROS {
      UsPositive(-a, f);
    }
  }

  /** Frame order survives compilation at a positive rate, and turns round at a negative one; strictly up to a
      million frames per second. */
  lemma {:induction false} CompilationIsMonotone(a: int, b: int, fps: int)
    requires a <= b
    ensures Effective(fps) > 0 ==> FrameToUs(a, fps) <= FrameToUs(b, fps)
    ensures Effective(fps) < 0 ==> FrameToUs(a, fps) >= FrameToUs(b, fps)
    ensures a < b && Rate(fps) <= MICROS ==> FrameToUs(a, fps) != FrameToUs(b, fps)
  {
    FrameToUsBySign(a, fps);
    FrameToUsBySign(b, fps);
    SignedIsMonotone(a, b, Rate(fps));
  }

  predicate PassesFrames(s: VideoSegment) { s.start < s.end && s.sourceStart < s.sourceEnd }

  predicate PassesMicros(s: VideoSegment, fps: int) {
    FrameToUs(s.start, fps) < FrameToUs(s.end, fps) && FrameToUs(s.sourceStart, fps) < FrameToUs(s.sourceEnd, fps)
  }

  /** One frame, on both sides. */
  function OneFrame(): VideoSegment { VideoSegment("", "", 0, 1, 0, 1, "") }

  lemma {:induction false} OneFrameIsLost(fps: int)
    requires Effective(fps) < 0 || Effective(fps) > MICROS
    ensures !PassesMicros(OneFrame(), fps)
  {
    CompilationIsMonotone(0, 1, fps);
    if Effective(fps) > MICROS {
      DivideExactly(0, fps, 0, 0);
      DivideExactly(MICROS, fps, 0, MICROS);
    }
  }

  /** No segment that passes the frame filter is lost to the microsecond filter, exactly when the rate divided
      by, 30 for a zero one, is positive and at most a million frames per second. */
  lemma {:induction false} NothingLostExactly(fps: int)
    ensures 0 < Effective(fps) <= MICROS <==> forall s: VideoSegment :: PassesFrames(s) ==> PassesMicros(s, fps)
  {
    if 0 < Effective(fps) <= MICROS {
      forall s: VideoSegment | PassesFrames(s) ensures PassesMicros(s, fps) {
        CompilationIsMonotone(s.start, s.end, fps);
        CompilationIsMonotone(s.sourceStart, s.sourceEnd, fps);
      }
    } else {
      OneFrameIsLost(fps);
      assert PassesFrames(OneFrame());
    }
  }

  function Duration(start: int, end: int, fps: int): int {
    FrameToUs(end, fps) - FrameToUs(start, fps)
  }

  predicate Contiguous(ss: seq<VideoSegment>) {
    forall k :: 0 <= k < |ss| - 1 ==> ss[k].end == ss[k + 1].start
  }

  function TotalMicros(ss: seq<VideoSegment>, fps: int): int {
    if ss == [] then 0 else Duration(ss[0].start, ss[0].end, fps) + TotalMicros(ss[1..], fps)
  }

  /** A track contiguous in frames is contiguous in microseconds: each segment starts where the one before
      stops, and the durations add up to the whole span with no rounding drift. */
  lemma {:induction false} DurationsTelescope(ss: seq<VideoSegment>, fps: int)
    requires ss != [] && Contiguous(ss)
    ensures TotalMicros(ss, fps) == Duration(ss[0].start, ss[|ss| - 1].end, fps)
    ensures forall k :: 0 <= k < |ss| - 1 ==>
              FrameToUs(ss[k].start, fps) + Duration(ss[k].start, ss[k].end, fps) == FrameToUs(ss[k + 1].start, fps)
  {
    if |ss| > 1 {
      forall k | 0 <= k < |ss[1..]| - 1 ensures ss[1..][k].end == ss[1..][k + 1].start {
        assert ss[k + 1].end == ss[k + 1 + 1].start;
      }
      DurationsTelescope(ss[1..], fps);
    } else {
      assert ss[1..] == [];
    }
  }

  /** What the position of a span adds to the microseconds its length is worth: one more or nothing on one side
      of frame zero, one less or nothing across it, read off the remainders at its ends. */
  function Carry(a: int, n: nat, f: int): int
    requires f > 0
  {
    if a >= 0 then Fills(a, n, f)
    else if a + n <= 0 then Fills(-(a + n), n, f)
    else 0 - Fills(a + n, -a, f)
  }

  lemma {:induction false} SpanOfFrames(a: int, n: nat, f: int)
    requires f > 0
    ensures Signed(a + n, f) - Signed(a, f) == Us(n, f) + Carry(a, n, f)
  {
    if a >= 0 {
      UsOfSum(a, n, f);
    } else if a + n <= 0 {
      UsOfSum(-(a + n), n, f);
    } else {
      UsOfSum(a + n, -a, f);
    }
  }

  /** At every rate a span lasts what its length is worth and its carry, turned round at a negative rate. */
  lemma {:induction false} DurationIsLengthAndCarry(a: int, n: nat, fps: int)
    ensures var d := Us(n, Rate(fps)) + Carry(a, n, Rate(fps));
            Duration(a, a + n, fps) == if Effective(fps) > 0 then d else 0 - d
  {
    FrameToUsBySign(a, fps);
    FrameToUsBySign(a + n, fps);
    SpanOfFrames(a, n, Rate(fps));
  }

  /** One span gains a microsecond from its position and the other, across frame zero, loses one. */
  predicate Opposed(a: int, b: int, n: nat, f: int)
    requires f > 0
  {
    (Carry(a, n, f) == 1 && Carry(b, n, f) == -1) || (Carry(a, n, f) == -1 && Carry(b, n, f) == 1)
  }

  /** Equal frame counts on the timeline and in the source give durations at most a microsecond apart, at every
      rate, exactly unless their carries are opposed; then the durations are two microseconds apart. */
  lemma {:induction false} EqualCountsAgreeExactly(a: int, b: int, n: nat, fps: int)
    ensures var gap := Duration(a, a + n, fps) - Duration(b, b + n, fps);
            && (-1 <= gap <= 1 <==> !Opposed(a, b, n, Rate(fps)))
            && (Opposed(a, b, n, Rate(fps)) ==> gap == 2 || gap == -2)
  {
    DurationIsLengthAndCarry(a, n, fps);
    DurationIsLengthAndCarry(b, n, fps);
  }

  /** Two frames across zero at 24 frames per second do lose two microseconds. */
  lemma CrossingZeroLosesTwo()
    ensures Opposed(1, -1, 2, 24) && Duration(1, 3, 24) - Duration(-1, 1, 24) == 2
  {
    assert Left(1, 24) == 16 && Left(2, 24) == 8;
    EqualCountsAgreeExactly(1, -1, 2, 24);
    assert FrameToUs(3, 24) == 125000 && FrameToUs(1, 24) == 41666 && FrameToUs(-1, 24) == -41666;
  }

  // ---- seconds round trip -------------------------------------------------

  /** The distance between us and t seconds, in frames times a million. */
  function Offset(us: int, t: real, rate: int): real {
    (us as real - t * 1000000.0) * rate as real
  }

  function Size(x: real): real { if x >= 0.0 then x else -x }

  /** us is within half a frame and a microsecond of t seconds. */
  predicate Near(us: int, t: real, rate: int) {
    Size(Offset(us, t, rate)) < Size(rate as real) + 500000.0
  }

  lemma {:induction false} RoundIsNear(x: real)
    ensures -0.5 <= Round(x) as real - x <= 0.5
  {
  }

  lemma {:induction false} QuotientTimes(a: int, f: int)
    requires f != 0
    ensures var n, d := if a >= 0 then a else -a, if f >= 0 then f else -f;
            Quotient(a, f) * f == if a >= 0 then (n / d) * d else -((n / d) * d)
  {
    var n, d := if a >= 0 then a else -a, if f >= 0 then f else -f;
    var q := n / d;
    assert (-q) * d == -(q * d) && q * (-d) == -(q * d) && (-q) * (-d) == q * d;
  }

  lemma {:induction false} QuotientIsNear(a: int, f: int)
    requires f != 0
    ensures Size((Quotient(a, f) * f - a) as real) < Size(f as real)
  {
    var n, d := if a >= 0 then a else -a, if f >= 0 then f else -f;
    assert n == (n / d) * d + n % d;
    QuotientTimes(a, f);
  }

  lemma {:induction false} OffsetByFrames(us: int, t: real, rate: int, frame: int)
    ensures Offset(us, t, rate) == (us * rate - frame * MICROS) as real + (frame as real - t * rate as real) * 1000000.0
  {
    assert (us * rate) as real == us as real * rate as real;
    assert (us as real - t * 1000000.0) * rate as real == us as real * rate as real - t * rate as real * 1000000.0;
  }

  /** A conversion loses less than a frame, and rounding at most half of one. */
  lemma {:induction false} SmallOffset(gap: real, rounding: real, f: real)
    requires Size(gap) < Size(f) && -0.5 <= rounding <= 0.5
    ensures Size(gap + rounding * 1000000.0) < Size(f) + 500000.0
  {
  }

  lemma {:induction false} NearByParts(us: int, t: real, rate: int, frame: int)
    requires Size((us * rate - frame * MICROS) as real) < Size(rate as real)
    requires -0.5 <= frame as real - t * rate as real <= 0.5
    ensures Near(us, t, rate)
  {
    OffsetByFrames(us, t, rate, frame);
    SmallOffset((us * rate - frame * MICROS) as real, frame as real - t * rate as real, rate as real);
  }

  lemma {:induction false} ConvertedIsNear(frame: int, t: real, rate: int)
    requires rate != 0 && -0.5 <= frame as real - t * rate as real <= 0.5
    ensures Near(FrameToUs(frame, rate), t, rate)
  {
    QuotientIsNear(frame * MICROS, rate);
    NearByParts(FrameToUs(frame, rate), t, rate, frame);
  }

  lemma {:induction false} RoundOfInt(n: int)
    ensures Round(n as real) == n
  {
  }

  lemma {:induction false} FrameOfWholeSeconds(planFps: int, t: int)
    ensures Round(t as real * planFps as real) == t * planFps
  {
    assert t as real * planFps as real == (t * planFps) as real;
    RoundOfInt(t * planFps);
  }

  lemma {:induction false} ProductSign(m: int, rate: int)
    requires m != 0 && rate != 0
    ensures rate * m > 0 <==> (m > 0 <==> rate > 0)
    ensures rate * m != 0
  {
    if m > 0 && rate > 0 { MulAtLeast(rate, m); }
    if m > 0 && rate < 0 { MulAtLeast(-rate, m); }
    if m < 0 && rate > 0 { MulAtLeast(rate, -m); }
    if m < 0 && rate < 0 { MulAtLeast(-rate, -m); }
  }

  lemma {:induction false} ProductSize(m: int, rate: int)
    requires rate != 0
    ensures var a, d := rate * m, if rate >= 0 then rate else -rate;
            && (if a >= 0 then a else -a) == (if m >= 0 then m else -m) * d
            && (m != 0 ==> (a >= 0 <==> (m >= 0 <==> rate >= 0)))
  {
    if m != 0 { ProductSign(m, rate); }
  }

  /** Frames of a multiple of the rate are whole seconds. */
  lemma {:induction false} WholeSeconds(s: int, rate: int)
    requires rate != 0
    ensures FrameToUs(rate * s, rate) == s * MICROS
  {
    var a, m := rate * s * MICROS, s * MICROS;
    var n, d := if a >= 0 then a else -a, if rate >= 0 then rate else -rate;
    var q := if m >= 0 then m else -m;
    ProductSize(m, rate);
    DivideExactly(n, d, q, 0);
  }

  lemma {:induction false} ScaledSize(x: real, y: real)
    requires x >= 1000000.0 && y >= 1.0
    ensures x * y >= y + 500000.0
  {
    assert (x - 1000000.0) * y >= 0.0;
  }

  lemma {:induction false} SizeOfProduct(d: real, f: real)
    ensures Size(d * f) == Size(d) * Size(f)
  {
    if d >= 0.0 && f < 0.0 { assert d * -f >= 0.0; }
    if d < 0.0 && f >= 0.0 { assert -d * f >= 0.0; }
    if d < 0.0 && f < 0.0 { assert -d * -f > 0.0; }
  }

  lemma {:induction false} ScaledGap(d: real, f: real)
    requires Size(f) >= 1.0 && Size(d) >= 1000000.0
    ensures Size(d * f) >= Size(f) + 500000.0
  {
    SizeOfProduct(d, f);
    ScaledSize(Size(d), Size(f));
  }

  lemma {:induction false} WholeSecondsFar(s: int, rate: int)
    requires rate != 0 && s != rate
    ensures !Near(s * MICROS, rate as real, rate)
  {
    ScaledGap((s * MICROS) as real - rate as real * 1000000.0, rate as real);
  }

  /** As many seconds as the draft's rate, planned in frames of another rate, come back at least a second off. */
  lemma {:induction false} OtherRateIsFar(planFps: int, rate: int)
    requires rate != 0 && planFps != rate
    ensures !Near(FrameToUs(Round(rate as real * planFps as real), rate), rate as real, rate)
  {
    FrameOfWholeSeconds(planFps, rate);
    WholeSeconds(planFps, rate);
    WholeSecondsFar(planFps, rate);
  }

  /** A position planned at t seconds is t seconds in the draft, up to half a frame and a microsecond. */
  predicate ComesBack(t: real, planFps: int, draftFps: int) {
    Near(FrameToUs(FrameOf(Position(None, Some(t), None), planFps), draftFps), t, Effective(draftFps))
  }

  lemma {:induction false} FrameOfSeconds(t: real, fps: int)
    ensures FrameOf(Position(None, Some(t), None), fps) == Round(t * fps as real)
  {
  }

  lemma {:induction false} SameConversion(frame: int, fps: int)
    ensures FrameToUs(frame, fps) == FrameToUs(frame, Effective(fps))
  {
  }

  lemma {:induction false} ComesBackAtSameRate(t: real, draftFps: int)
    ensures ComesBack(t, Effective(draftFps), draftFps)
  {
    var rate := Effective(draftFps);
    var frame := FrameOf(Position(None, Some(t), None), rate);
    FrameOfSeconds(t, rate);
    RoundIsNear(t * rate as real);
    SameConversion(frame, draftFps);
    ConvertedIsNear(frame, t, rate);
  }

  lemma {:induction false} LostAtOtherRate(planFps: int, draftFps: int)
    requires planFps != Effective(draftFps)
    ensures !ComesBack(Effective(draftFps) as real, planFps, draftFps)
  {
    var rate := Effective(draftFps);
    FrameOfSeconds(rate as real, planFps);
    SameConversion(Round(rate as real * planFps as real), draftFps);
    OtherRateIsFar(planFps, rate);
  }

  /** Whatever the rates, positions given in seconds come back, for every position, exactly when the plan uses
      the rate the draft divides by. */
  lemma {:induction false} RatesRoundTripExactly(planFps: int, draftFps: int)
    ensures (forall t: real :: ComesBack(t, planFps, draftFps)) <==> planFps == Effective(draftFps)
  {
    if planFps == Effective(draftFps) {
      forall t: real ensures ComesBack(t, planFps, draftFps) {
        ComesBackAtSameRate(t, draftFps);
      }
    } else {
      LostAtOtherRate(planFps, draftFps);
    }
  }

  /** Positions given in seconds come back exactly when the timeline carries a rate that does not truncate to
      zero, or carries none and the portrait plan carries none either, or one that truncates to 30. */
  lemma {:induction false} SecondsRoundTripExactly(timeline: Option<real>, portrait: Option<real>)
    ensures (forall t: real :: ComesBack(t, PlanFps(timeline, portrait), DraftFps(timeline))) <==>
            if Given(timeline) then timeline.value >= 1.0 || timeline.value <= -1.0
            else !Given(portrait) || 30.0 <= portrait.value < 31.0
  {
    RatesRoundTripExactly(PlanFps(timeline, portrait), DraftFps(timeline));
  }
}
