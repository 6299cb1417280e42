/** What each segment of a finished draft plays, told from the plan it was built from. */
module DraftSegments {
  import opened Results
  import opened Sequences
  import opened Timeline
  import opened TimelinePlans
  import opened DraftNames
  import opened Draft
  import opened DraftClosure

  // ---- a part of a file ---------------------------------------------------

  /** A video segment that plays that part of source at that time, from its staged copy. */
  predicate VideoPlays(d: Package, s: MediaSegment, source: Path, start: int, duration: int, from: int, length: int) {
    && s.start == start && s.duration == duration && s.sourceStart == from && s.sourceDuration == length
    && source in d.stage.videos
    && exists m <- d.videos :: m.id == s.material && m.path == "Resources/video/" + d.stage.videos[source]
  }

  /** And an audio segment. */
  predicate AudioPlays(d: Package, s: MediaSegment, source: Path, start: int, duration: int, from: int, length: int) {
    && s.start == start && s.duration == duration && s.sourceStart == from && s.sourceDuration == length
    && source in d.stage.audios
    && exists m <- d.audios :: m.id == s.material && m.path == "Resources/audio/" + d.stage.audios[source]
  }

  lemma {:induction false} PlaysVideo(d: Package, s: MediaSegment, c: Cut)
    requires Plays(d, Video, s, c)
    ensures VideoPlays(d, s, c.source, c.start, c.duration, c.sourceStart, c.sourceDuration)
  {
  }

  lemma {:induction false} PlaysAudio(d: Package, s: MediaSegment, c: Cut)
    requires Plays(d, Audio, s, c)
    ensures AudioPlays(d, s, c.source, c.start, c.duration, c.sourceStart, c.sourceDuration)
  {
  }

  // ---- planned video ------------------------------------------------------

  /** The planned segments of a track that take time both on the timeline and in their source. */
  function Surviving(ss: seq<VideoSegment>, t: string, fps: int): seq<VideoSegment> {
    if ss == [] then []
    else Surviving(ss[..|ss| - 1], t, fps) + (if ss[|ss| - 1].track == t && PassesMicros(ss[|ss| - 1], fps) then [ss[|ss| - 1]] else [])
  }

  lemma {:induction false} SurvivingNext(ss: seq<VideoSegment>, t: string, fps: int)
    requires ss != []
    ensures var front, x := ss[..|ss| - 1], ss[|ss| - 1];
            Surviving(ss, t, fps) == if x.track == t && PassesMicros(x, fps) then Surviving(front, t, fps) + [x] else Surviving(front, t, fps)
  {
  }

  /** The cut takes the segment's frames, in microseconds. */
  predicate TakesFrames(c: Cut, s: VideoSegment, fps: int) {
    && c.track == s.track && c.source == s.source
    && c.start == FrameToUs(s.start, fps) && c.start + c.duration == FrameToUs(s.end, fps)
    && c.sourceStart == FrameToUs(s.sourceStart, fps) && c.sourceStart + c.sourceDuration == FrameToUs(s.sourceEnd, fps)
  }

  lemma {:induction false} OneCut(s: VideoSegment, fps: int)
    ensures VideoCut(s, fps).Some? <==> PassesMicros(s, fps)
    ensures VideoCut(s, fps).Some? ==> TakesFrames(VideoCut(s, fps).value, s, fps)
  {
  }

  predicate AllTake(cs: seq<Cut>, xs: seq<VideoSegment>, fps: int) {
    |cs| == |xs| && forall n :: 0 <= n < |xs| ==> TakesFrames(cs[n], xs[n], fps)
  }

  lemma {:induction false} TakeOneMore(cs: seq<Cut>, xs: seq<VideoSegment>, c: Cut, x: VideoSegment, fps: int)
    requires AllTake(cs, xs, fps) && TakesFrames(c, x, fps)
    ensures AllTake(cs + [c], xs + [x], fps)
  {
  }

  lemma {:induction false} CutsOnNext(ss: seq<VideoSegment>, t: string, fps: int)
    requires ss != []
    ensures var front, x := ss[..|ss| - 1], ss[|ss| - 1];
            CutsOn(VideoCuts(ss, fps), t) ==
            CutsOn(VideoCuts(front, fps), t) + if x.track == t && PassesMicros(x, fps) then [VideoCut(x, fps).value] else []
  {
    var front, x := ss[..|ss| - 1], ss[|ss| - 1];
    assert ss == front + [x];
    OneCut(x, fps);
    VideoCutsAppend(front, x, fps);
    if VideoCut(x, fps).Some? {
      CutsOnAppend(VideoCuts(front, fps), VideoCut(x, fps).value, t);
    } else {
      assert VideoCuts(front, fps) + [] == VideoCuts(front, fps);
    }
  }

  lemma {:induction false} SurvivingCuts(ss: seq<VideoSegment>, t: string, fps: int)
    ensures AllTake(CutsOn(VideoCuts(ss, fps), t), Surviving(ss, t, fps), fps)
  {
    if ss != [] {
      var front, x := ss[..|ss| - 1], ss[|ss| - 1];
      SurvivingCuts(front, t, fps);
      OneCut(x, fps);
      SurvivingNext(ss, t, fps);
      CutsOnNext(ss, t, fps);
      if x.track == t && PassesMicros(x, fps) {
        TakeOneMore(CutsOn(VideoCuts(front, fps), t), Surviving(front, t, fps), VideoCut(x, fps).value, x, fps);
      }
    }
  }

  lemma {:induction false} VideoCutsHas(ss: seq<VideoSegment>, x: VideoSegment, fps: int)
    requires x in ss && PassesMicros(x, fps)
    ensures exists c <- VideoCuts(ss, fps) :: c.track == x.track
  {
    if ss[0] == x {
      OneCut(x, fps);
      assert VideoCuts(ss, fps)[0].track == x.track;
    } else {
      VideoCutsHas(ss[1..], x, fps);
      var c :| c in VideoCuts(ss[1..], fps) && c.track == x.track;
      assert c in VideoCuts(ss, fps);
    }
  }

  /** The rate a draft converts frames with: what its timeline carries, cut to a whole number, or 30. */
  predicate RateIs(i: Input, fps: int) {
    if i.timelineFps.Some? && i.timelineFps.value != 0.0 then fps == Truncate(i.timelineFps.value) else fps == 30
  }

  /** The segment plays the planned one: at the microseconds of its frames, the microseconds of its source frames, from
      the staged copy of its source. */
  predicate PlaysPlanned(d: Package, s: MediaSegment, x: VideoSegment, fps: int) {
    var start, from := FrameToUs(x.start, fps), FrameToUs(x.sourceStart, fps);
    VideoPlays(d, s, x.source, start, FrameToUs(x.end, fps) - start, from, FrameToUs(x.sourceEnd, fps) - from)
  }

  lemma {:induction false} CutPlays(d: Package, s: MediaSegment, c: Cut, x: VideoSegment, fps: int)
    requires Plays(d, Video, s, c) && TakesFrames(c, x, fps)
    ensures PlaysPlanned(d, s, x, fps)
  {
    PlaysVideo(d, s, c);
  }

  /** The segments of a track play its cuts. */
  lemma {:induction false} TrackPlays(i: Input, files: map<Path, Media>, t: Track)
    requires Build(i, files).Ok? && t in Build(i, files).value.tracks
    ensures var d, cs := Build(i, files).value, CutsOn(Work(i, files, t.kind), t.name);
            |t.segments| == |cs| && forall n :: 0 <= n < |cs| ==> Plays(d, t.kind, t.segments[n], cs[n])
  {
    BuildIsClosed(i, files, t.kind);
  }

  /** Each video track of a draft of planned segments plays those of its own name that survive, in order. */
  lemma {:induction false} PlannedVideoPlays(i: Input, files: map<Path, Media>, fps: int, t: Track)
    requires Build(i, files).Ok? && i.videos != [] && RateIs(i, fps)
    requires t in Build(i, files).value.tracks && t.kind.Video?
    ensures var xs := Surviving(i.videos, t.name, fps);
            |t.segments| == |xs| && forall n :: 0 <= n < |xs| ==> PlaysPlanned(Build(i, files).value, t.segments[n], xs[n], fps)
  {
    var cs, xs := CutsOn(VideoCuts(i.videos, fps), t.name), Surviving(i.videos, t.name, fps);
    assert Work(i, files, t.kind) == VideoCuts(i.videos, fps);
    TrackPlays(i, files, t);
    SurvivingCuts(i.videos, t.name, fps);
    forall n | 0 <= n < |xs| ensures PlaysPlanned(Build(i, files).value, t.segments[n], xs[n], fps) {
      CutPlays(Build(i, files).value, t.segments[n], cs[n], xs[n], fps);
    }
  }

  /** And every planned segment that survives has its track. */
  lemma {:induction false} PlannedVideoHasTrack(i: Input, files: map<Path, Media>, fps: int, x: VideoSegment)
    requires Build(i, files).Ok? && RateIs(i, fps) && x in i.videos && PassesMicros(x, fps)
    ensures exists t <- Build(i, files).value.tracks :: t.kind == Video && t.name == x.track
  {
    BuildIsClosed(i, files, Video);
    VideoCutsHas(i.videos, x, fps);
  }

  // ---- planned audio ------------------------------------------------------

  function SurvivingAudio(ss: seq<AudioSegment>, t: string): seq<AudioSegment> {
    if ss == [] then []
    else SurvivingAudio(ss[..|ss| - 1], t) + (if ss[|ss| - 1].track == t && ss[|ss| - 1].duration > 0 then [ss[|ss| - 1]] else [])
  }

  /** How much of its source an audio segment plays: what it says, at least a microsecond, or as much as it lasts. */
  predicate SourceLengthIs(s: AudioSegment, length: int) {
    if s.sourceDuration.None? || s.sourceDuration == Some(0) then length == s.duration
    else if s.sourceDuration.value > 0 then length == s.sourceDuration.value
    else length == 1
  }

  predicate TakesAudio(c: Cut, s: AudioSegment) {
    && c.track == s.track && c.source == s.source && c.start == s.start && c.duration == s.duration
    && c.sourceStart == s.sourceStart && SourceLengthIs(s, c.sourceDuration)
  }

  lemma {:induction false} OneAudioCut(s: AudioSegment)
    ensures AudioCut(s).Some? <==> s.duration > 0
    ensures AudioCut(s).Some? ==> TakesAudio(AudioCut(s).value, s)
  {
  }

  lemma {:induction false} AudioCutsAppend(ss: seq<AudioSegment>, x: AudioSegment)
    ensures AudioCuts(ss + [x]) == AudioCuts(ss) + (if AudioCut(x).Some? then [AudioCut(x).value] else [])
  {
    if ss == [] {
      assert ss + [x] == [x];
    } else {
      assert (ss + [x])[0] == ss[0] && (ss + [x])[1..] == ss[1..] + [x];
      AudioCutsAppend(ss[1..], x);
      var tail := if AudioCut(x).Some? then [AudioCut(x).value] else [];
      if AudioCut(ss[0]).Some? { Associates([AudioCut(ss[0]).value], AudioCuts(ss[1..]), tail); }
    }
  }

  predicate AllTakeAudio(cs: seq<Cut>, xs: seq<AudioSegment>) {
    |cs| == |xs| && forall n :: 0 <= n < |xs| ==> TakesAudio(cs[n], xs[n])
  }

  lemma {:induction false} TakeOneMoreAudio(cs: seq<Cut>, xs: seq<AudioSegment>, c: Cut, x: AudioSegment)
    requires AllTakeAudio(cs, xs) && TakesAudio(c, x)
    ensures AllTakeAudio(cs + [c], xs + [x])
  {
  }

  lemma {:induction false} SurvivingAudioNext(ss: seq<AudioSegment>, t: string)
    requires ss != []
    ensures var front, x := ss[..|ss| - 1], ss[|ss| - 1];
            SurvivingAudio(ss, t) == if x.track == t && x.duration > 0 then SurvivingAudio(front, t) + [x] else SurvivingAudio(front, t)
  {
  }

  lemma {:induction false} AudioCutsOnNext(ss: seq<AudioSegment>, t: string)
    requires ss != []
    ensures var front, x := ss[..|ss| - 1], ss[|ss| - 1];
            CutsOn(AudioCuts(ss), t) == CutsOn(AudioCuts(front), t) + if x.track == t && x.duration > 0 then [AudioCut(x).value] else []
  {
    var front, x := ss[..|ss| - 1], ss[|ss| - 1];
    assert ss == front + [x];
    OneAudioCut(x);
    AudioCutsAppend(front, x);
    if AudioCut(x).Some? {
      CutsOnAppend(AudioCuts(front), AudioCut(x).value, t);
    } else {
      assert AudioCuts(front) + [] == AudioCuts(front);
    }
  }

  lemma {:induction false} SurvivingAudioCuts(ss: seq<AudioSegment>, t: string)
    ensures AllTakeAudio(CutsOn(AudioCuts(ss), t), SurvivingAudio(ss, t))
  {
    if ss != [] {
      var front, x := ss[..|ss| - 1], ss[|ss| - 1];
      SurvivingAudioCuts(front, t);
      OneAudioCut(x);
      SurvivingAudioNext(ss, t);
      AudioCutsOnNext(ss, t);
      if x.track == t && x.duration > 0 {
        TakeOneMoreAudio(CutsOn(AudioCuts(front), t), SurvivingAudio(front, t), AudioCut(x).value, x);
      }
    }
  }

  /** The segment plays the planned one: at its time, from where it starts in its source, from the staged copy of its
      source. */
  predicate PlaysPlannedAudio(d: Package, s: MediaSegment, x: AudioSegment) {
    && SourceLengthIs(x, s.sourceDuration)
    && AudioPlays(d, s, x.source, x.start, x.duration, x.sourceStart, s.sourceDuration)
  }

  lemma {:induction false} AudioCutPlays(d: Package, s: MediaSegment, c: Cut, x: AudioSegment)
    requires Plays(d, Audio, s, c) && TakesAudio(c, x)
    ensures PlaysPlannedAudio(d, s, x)
  {
    PlaysAudio(d, s, c);
  }

  /** Each audio track of a draft of planned segments plays those of its own name that last at all, in order. */
  lemma {:induction false} PlannedAudioPlays(i: Input, files: map<Path, Media>, t: Track)
    requires Build(i, files).Ok? && i.audios != [] && t in Build(i, files).value.tracks && t.kind.Audio?
    ensures var xs := SurvivingAudio(i.audios, t.name);
            |t.segments| == |xs| && forall n :: 0 <= n < |xs| ==> PlaysPlannedAudio(Build(i, files).value, t.segments[n], xs[n])
  {
    var cs, xs := CutsOn(AudioCuts(i.audios), t.name), SurvivingAudio(i.audios, t.name);
    TrackPlays(i, files, t);
    SurvivingAudioCuts(i.audios, t.name);
    forall n | 0 <= n < |xs| ensures PlaysPlannedAudio(Build(i, files).value, t.segments[n], xs[n]) {
      AudioCutPlays(Build(i, files).value, t.segments[n], cs[n], xs[n]);
    }
  }

  lemma {:induction false} AudioCutsHas(ss: seq<AudioSegment>, x: AudioSegment)
    requires x in ss && x.duration > 0
    ensures exists c <- AudioCuts(ss) :: c.track == x.track
  {
    if ss[0] == x {
      assert AudioCuts(ss)[0].track == x.track;
    } else {
      AudioCutsHas(ss[1..], x);
      var c :| c in AudioCuts(ss[1..]) && c.track == x.track;
      assert c in AudioCuts(ss);
    }
  }

  /** And every planned segment that lasts has its track. */
  lemma {:induction false} PlannedAudioHasTrack(i: Input, files: map<Path, Media>, x: AudioSegment)
    requires Build(i, files).Ok? && x in i.audios && x.duration > 0
    ensures exists t <- Build(i, files).value.tracks :: t.kind == Audio && t.name == x.track
  {
    BuildIsClosed(i, files, Audio);
    AudioCutsHas(i.audios, x);
  }

  // ---- one video and one narration ----------------------------------------

  /** The entry is of the kind and takes time. */
  predicate Lasts(e: PlanEntry, kind: TrackKind, fps: int) { e.kind == kind && FrameToUs(e.start, fps) < FrameToUs(e.end, fps) }

  /** The timeline entries of a kind that take time. */
  function Lasting(es: seq<PlanEntry>, kind: TrackKind, fps: int): seq<PlanEntry> {
    if es == [] then []
    else
      (if Lasts(es[0], kind, fps) then [es[0]] else []) + Lasting(es[1..], kind, fps)
  }

  /** How much of the video an entry plays: up to its source end, or to its end when it gives none, at least a
      microsecond. */
  predicate EntryLengthIs(e: PlanEntry, fps: int, length: int) {
    var to := FrameToUs(if e.sourceEnd == 0 then e.end else e.sourceEnd, fps);
    var from := FrameToUs(e.sourceStart, fps);
    if to > from then length == to - from else length == 1
  }

  predicate TakesEntry(c: Cut, e: PlanEntry, track: string, source: Path, fps: int) {
    && c.track == track && c.source == source
    && c.start == FrameToUs(e.start, fps) && c.start + c.duration == FrameToUs(e.end, fps)
    && c.sourceStart == FrameToUs(e.sourceStart, fps) && EntryLengthIs(e, fps, c.sourceDuration)
  }

  lemma {:induction false} OneEntryCut(e: PlanEntry, kind: TrackKind, track: string, source: Path, fps: int)
    ensures var c := PlanCut(e, kind, track, source, fps);
            (c.Some? <==> Lasts(e, kind, fps)) && (c.Some? ==> TakesEntry(c.value, e, track, source, fps))
  {
  }

  predicate AllTakeEntries(cs: seq<Cut>, xs: seq<PlanEntry>, track: string, source: Path, fps: int) {
    |cs| == |xs| && forall n :: 0 <= n < |xs| ==> TakesEntry(cs[n], xs[n], track, source, fps)
  }

  lemma {:induction false} TakeFirstEntry(c: Cut, e: PlanEntry, cs: seq<Cut>, xs: seq<PlanEntry>, track: string, source: Path, fps: int)
    requires TakesEntry(c, e, track, source, fps) && AllTakeEntries(cs, xs, track, source, fps)
    ensures AllTakeEntries([c] + cs, [e] + xs, track, source, fps)
  {
  }

  lemma {:induction false} LastingCuts(es: seq<PlanEntry>, kind: TrackKind, track: string, source: Path, fps: int)
    ensures AllTakeEntries(PlanCuts(es, kind, track, source, fps), Lasting(es, kind, fps), track, source, fps)
  {
    if es != [] {
      var c, cs, xs := PlanCut(es[0], kind, track, source, fps), PlanCuts(es[1..], kind, track, source, fps), Lasting(es[1..], kind, fps);
      LastingCuts(es[1..], kind, track, source, fps);
      OneEntryCut(es[0], kind, track, source, fps);
      if c.Some? { TakeFirstEntry(c.value, es[0], cs, xs, track, source, fps); } else { assert [] + xs == xs; }
    }
  }

  lemma {:induction false} CutsOfOneTrack(cs: seq<Cut>, track: string, t: string)
    requires forall c <- cs :: c.track == track
    ensures CutsOn(cs, t) == if t == track then cs else []
  {
    if cs != [] {
      var front, last := cs[..|cs| - 1], cs[|cs| - 1];
      assert cs == front + [last];
      CutsOfOneTrack(front, track, t);
    }
  }

  lemma {:induction false} CutsOnJoin(a: seq<Cut>, b: seq<Cut>, t: string)
    ensures CutsOn(a + b, t) == CutsOn(a, t) + CutsOn(b, t)
    decreases |b|
  {
    if b == [] {
      assert a + b == a;
    } else {
      var front, last := b[..|b| - 1], b[|b| - 1];
      assert a + b == a + front + [last] && b == front + [last];
      CutsOnJoin(a, front, t);
      CutsOnAppend(a + front, last, t);
      CutsOnAppend(front, last, t);
      Associates(CutsOn(a, t), CutsOn(front, t), if last.track == t then [last] else []);
    }
  }

  lemma {:induction false} PlanCutsAre(es: seq<PlanEntry>, kind: TrackKind, track: string, source: Path, fps: int)
    ensures forall c <- PlanCuts(es, kind, track, source, fps) :: c.track == track
    ensures PlanCuts(es, kind, track, source, fps) == [] <==> Lasting(es, kind, fps) == []
  {
    if es != [] { PlanCutsAre(es[1..], kind, track, source, fps); }
  }

  lemma {:induction false} CutsOfTwo(a: seq<Cut>, b: seq<Cut>, first: string, second: string, t: string)
    requires first != second && (forall c <- a :: c.track == first) && forall c <- b :: c.track == second
    ensures CutsOn(a + b, t) == if t == first then a else if t == second then b else []
  {
    CutsOfOneTrack(a, first, t);
    CutsOfOneTrack(b, second, t);
    CutsOnJoin(a, b, t);
  }

  lemma {:induction false} MainCutsAre(es: seq<PlanEntry>, source: Path, fps: int, duration: int)
    ensures MainCuts(es, source, fps, duration) != [] && forall c <- MainCuts(es, source, fps, duration) :: c.track == "video"
  {
    PlanCutsAre(es, PortraitTrack, "video", source, fps);
  }

  lemma {:induction false} AloneCuts(i: Input, files: map<Path, Media>, fps: int, t: string)
    requires i.videos == [] && RateIs(i, fps)
    ensures CutsOn(VideoWork(i, files), t) ==
            if t == "video" then MainCuts(i.entries, i.videoPath, fps, DraftDuration(i, files))
            else if t == "broll" then PlanCuts(i.entries, BrollTrack, "broll", i.videoPath, fps) else []
  {
    MainCutsAre(i.entries, i.videoPath, fps, DraftDuration(i, files));
    PlanCutsAre(i.entries, BrollTrack, "broll", i.videoPath, fps);
    CutsOfTwo(MainCuts(i.entries, i.videoPath, fps, DraftDuration(i, files)), PlanCuts(i.entries, BrollTrack, "broll", i.videoPath, fps),
              "video", "broll", t);
  }

  predicate PlaysEntry(d: Package, s: MediaSegment, e: PlanEntry, source: Path, fps: int) {
    && EntryLengthIs(e, fps, s.sourceDuration)
    && VideoPlays(d, s, source, FrameToUs(e.start, fps), FrameToUs(e.end, fps) - FrameToUs(e.start, fps), FrameToUs(e.sourceStart, fps), s.sourceDuration)
  }

  lemma {:induction false} EntryCutPlays(d: Package, s: MediaSegment, c: Cut, e: PlanEntry, track: string, source: Path, fps: int)
    requires Plays(d, Video, s, c) && TakesEntry(c, e, track, source, fps)
    ensures PlaysEntry(d, s, e, source, fps)
  {
    PlaysVideo(d, s, c);
  }

  predicate AllPlayed(d: Package, ss: seq<MediaSegment>, es: seq<PlanEntry>, source: Path, fps: int) {
    |ss| == |es| && forall n :: 0 <= n < |es| ==> PlaysEntry(d, ss[n], es[n], source, fps)
  }

  lemma {:induction false} EntriesPlayed(d: Package, t: Track, cs: seq<Cut>, es: seq<PlanEntry>, track: string, source: Path, fps: int)
    requires |t.segments| == |cs| == |es| && forall n :: 0 <= n < |cs| ==> Plays(d, Video, t.segments[n], cs[n])
    requires forall n :: 0 <= n < |es| ==> TakesEntry(cs[n], es[n], track, source, fps)
    ensures AllPlayed(d, t.segments, es, source, fps)
  {
    forall n | 0 <= n < |es| ensures PlaysEntry(d, t.segments[n], es[n], source, fps) {
      EntryCutPlays(d, t.segments[n], cs[n], es[n], track, source, fps);
    }
  }

  /** Without planned segments the main track plays the portrait entries that last, in order, or the whole video when
      there are none. */
  lemma {:induction false} AloneMainPlays(i: Input, files: map<Path, Media>, fps: int, t: Track)
    requires Build(i, files).Ok? && i.videos == [] && RateIs(i, fps) && t in Build(i, files).value.tracks && t.kind.Video? && t.name == "video"
    ensures var d, xs := Build(i, files).value, Lasting(i.entries, PortraitTrack, fps);
            if xs == [] then |t.segments| == 1 && VideoPlays(d, t.segments[0], i.videoPath, 0, d.duration, 0, d.duration)
            else AllPlayed(d, t.segments, xs, i.videoPath, fps)
  {
    var d, xs := Build(i, files).value, Lasting(i.entries, PortraitTrack, fps);
    var cs := MainCuts(i.entries, i.videoPath, fps, DraftDuration(i, files));
    TrackPlays(i, files, t);
    AloneCuts(i, files, fps, "video");
    LastingCuts(i.entries, PortraitTrack, "video", i.videoPath, fps);
    if xs == [] { PlaysVideo(d, t.segments[0], cs[0]); } else { EntriesPlayed(d, t, cs, xs, "video", i.videoPath, fps); }
  }

  /** The b-roll track plays its own entries that last, and there is no other track that plays anything. */
  lemma {:induction false} AloneBrollPlays(i: Input, files: map<Path, Media>, fps: int, t: Track)
    requires Build(i, files).Ok? && i.videos == [] && RateIs(i, fps) && t in Build(i, files).value.tracks && t.kind.Video? && t.name != "video"
    ensures if t.name == "broll" then AllPlayed(Build(i, files).value, t.segments, Lasting(i.entries, BrollTrack, fps), i.videoPath, fps)
            else t.segments == []
  {
    TrackPlays(i, files, t);
    AloneCuts(i, files, fps, t.name);
    LastingCuts(i.entries, BrollTrack, "broll", i.videoPath, fps);
    if t.name == "broll" {
      EntriesPlayed(Build(i, files).value, t, PlanCuts(i.entries, BrollTrack, "broll", i.videoPath, fps), Lasting(i.entries, BrollTrack, fps),
                    "broll", i.videoPath, fps);
    }
  }

  /** A narration alone plays whole, from the start, for as long as its file lasts or, unknown, as the draft was to. */
  lemma {:induction false} NarrationPlays(i: Input, files: map<Path, Media>, t: Track)
    requires Build(i, files).Ok? && i.audios == [] && t in Build(i, files).value.tracks && t.kind.Audio? && t.segments != []
    ensures i.audioPath.Some? && t.name == "audio" && |t.segments| == 1
    ensures var p := i.audioPath.value; var length := t.segments[0].duration;
            && AudioPlays(Build(i, files).value, t.segments[0], p, 0, length, 0, length)
            && length >= 1
            && (p in files && files[p].duration != 0.0 ==> length == 1 || length == SecToUs(files[p].duration))
            && (p !in files || files[p].duration == 0.0 ==> length == 1 || length == SecToUs(i.duration))
  {
    var d := Build(i, files).value;
    BuildIsClosed(i, files, Audio);
    var cs := AudioWork(i, files);
    if i.audioPath.Some? {
      CutsOfOneTrack(cs, "audio", t.name);
      PlaysAudio(d, t.segments[0], cs[0]);
    }
  }

  /** Seconds are the nearest whole number of microseconds. */
  lemma {:induction false} SecondsExactly(t: real)
    ensures Nearest(SecToUs(t), t * 1_000_000.0)
  {
    RoundIsNearest(t * 1000000.0);
  }

  /** A draft lasts as long as the longest of what was asked for, the probed video and the narration, and a microsecond
      at least. */
  lemma {:induction false} DurationExactly(i: Input, files: map<Path, Media>)
    requires Build(i, files).Ok?
    ensures var d := Build(i, files).value.duration;
            var video := if i.videos != [] then i.videos[0].source else i.videoPath;
            && d >= 1 && d >= SecToUs(i.duration)
            && (video in files ==> d >= SecToUs(files[video].duration))
            && (i.audioPath.Some? && i.audioPath.value in files ==> d >= SecToUs(files[i.audioPath.value].duration))
            && (|| d == 1 || d == SecToUs(i.duration)
                || (video in files && d == SecToUs(files[video].duration))
                || (i.audioPath.Some? && i.audioPath.value in files && d == SecToUs(files[i.audioPath.value].duration)))
  {
  }

  // ---- the order of tracks ------------------------------------------------

  /** Each name once, where it first occurs. */
  function Firsts(names: seq<string>): seq<string> {
    if names == [] then []
    else
      var front, last := Firsts(names[..|names| - 1]), names[|names| - 1];
      if last in front then front else front + [last]
  }

  lemma {:induction false} FirstsNext(names: seq<string>, name: string)
    ensures Firsts(names + [name]) == if name in Firsts(names) then Firsts(names) else Firsts(names) + [name]
  {
    assert (names + [name])[..|names|] == names;
  }

  function CutTracks(cs: seq<Cut>): seq<string> { if cs == [] then [] else [cs[0].track] + CutTracks(cs[1..]) }

  lemma {:induction false} CutTracksJoin(a: seq<Cut>, b: seq<Cut>)
    ensures CutTracks(a + b) == CutTracks(a) + CutTracks(b)
  {
    if a == [] {
      assert a + b == b;
    } else {
      assert (a + b)[0] == a[0] && (a + b)[1..] == a[1..] + b;
      CutTracksJoin(a[1..], b);
    }
  }

  lemma {:induction false} CutTracksOfOne(c: Cut)
    ensures CutTracks([c]) == [c.track]
  {
    assert [c][1..] == [];
  }

  function Names(gs: seq<Group>): seq<string> { seq(|gs|, (n: nat) requires n < |gs| => gs[n].name) }

  lemma {:induction false} AddOrder(gs: seq<Group>, name: string, s: MediaSegment)
    ensures Names(Add(gs, name, s)) == if name in Names(gs) then Names(gs) else Names(gs) + [name]
  {
    if gs != [] {
      assert Names(gs) == [gs[0].name] + Names(gs[1..]);
      if gs[0].name != name {
        AddOrder(gs[1..], name, s);
        assert Names(Add(gs, name, s)) == [gs[0].name] + Names(Add(gs[1..], name, s));
      } else {
        assert Names(Add(gs, name, s)) == [name] + Names(gs[1..]);
      }
    }
  }

  lemma {:induction false} PlaceAdds(a: Assembly, k: Kind, c: Cut, files: map<Path, Media>)
    requires Place(a, k, c, files).Ok?
    ensures Names(Place(a, k, c, files).value.groups) == if c.track in Names(a.groups) then Names(a.groups) else Names(a.groups) + [c.track]
  {
    var m := WithMaterial(a, k, c, files).value;
    MaterialAdds(a, k, c, files);
    var n := m.stage.next;
    AddOrder(a.groups, c.track, MediaSegment(n + 1, m.byPath[c.source], c.start, c.duration, c.sourceStart, c.sourceDuration, n));
  }

  lemma {:induction false} PlaceOrder(a: Assembly, k: Kind, done: seq<string>, cs: seq<Cut>, files: map<Path, Media>)
    requires Names(a.groups) == Firsts(done)
    ensures var r := PlaceAll(a, k, cs, files); r.Ok? ==> Names(r.value.groups) == Firsts(done + CutTracks(cs))
    decreases |cs|
  {
    if cs == [] {
      assert done + CutTracks(cs) == done;
    } else {
      var b := Place(a, k, cs[0], files);
      if b.Ok? {
        PlaceAdds(a, k, cs[0], files);
        FirstsNext(done, cs[0].track);
        PlaceOrder(b.value, k, done + [cs[0].track], cs[1..], files);
        Associates(done, [cs[0].track], CutTracks(cs[1..]));
      }
    }
  }

  lemma {:induction false} VideoOrder(i: Input, files: map<Path, Media>)
    requires VideoPart(i, files).Ok?
    ensures Names(VideoPart(i, files).value.groups) == Firsts(CutTracks(VideoWork(i, files)))
  {
    FirstStageHas(i, files);
    var start := VideoStart(i, FirstStage(i, files).value, files);
    assert Names(start.groups) == [];
    PlaceOrder(start, Video, [], VideoWork(i, files), files);
    assert [] + CutTracks(VideoWork(i, files)) == CutTracks(VideoWork(i, files));
  }

  lemma {:induction false} AudioOrder(i: Input, files: map<Path, Media>)
    requires AudioPart(i, files).Ok?
    ensures Names(AudioPart(i, files).value.groups) == Firsts(CutTracks(AudioWork(i, files)))
  {
    VideoPartKeepsAudio(i, files);
    var start := AudioStart(i, VideoPart(i, files).value.stage, files);
    assert Names(start.groups) == [];
    PlaceOrder(start, Audio, [], AudioWork(i, files), files);
    assert [] + CutTracks(AudioWork(i, files)) == CutTracks(AudioWork(i, files));
  }

  // ---- whose tracks they are ----------------------------------------------

  /** The tracks of the planned segments that survive. */
  function SurvivingTracks(ss: seq<VideoSegment>, fps: int): seq<string> {
    if ss == [] then [] else (if PassesMicros(ss[0], fps) then [ss[0].track] else []) + SurvivingTracks(ss[1..], fps)
  }

  function LastingTracks(ss: seq<AudioSegment>): seq<string> {
    if ss == [] then [] else (if ss[0].duration > 0 then [ss[0].track] else []) + LastingTracks(ss[1..])
  }

  lemma {:induction false} VideoCutTracks(ss: seq<VideoSegment>, fps: int)
    ensures CutTracks(VideoCuts(ss, fps)) == SurvivingTracks(ss, fps)
  {
    if ss != [] {
      OneCut(ss[0], fps);
      VideoCutTracks(ss[1..], fps);
    }
  }

  lemma {:induction false} AudioCutTracks(ss: seq<AudioSegment>)
    ensures CutTracks(AudioCuts(ss)) == LastingTracks(ss)
  {
    if ss != [] {
      OneAudioCut(ss[0]);
      AudioCutTracks(ss[1..]);
    }
  }

  /** The names of the video tracks in order. */
  function VideoNames(i: Input, fps: int): seq<string> {
    if i.videos != [] then Firsts(SurvivingTracks(i.videos, fps))
    else ["video"] + if Lasting(i.entries, BrollTrack, fps) != [] then ["broll"] else []
  }

  function AudioNames(i: Input): seq<string> {
    if i.audios != [] then Firsts(LastingTracks(i.audios)) else if i.audioPath.Some? then ["audio"] else []
  }

  lemma {:induction false} SameTracks(cs: seq<Cut>, name: string)
    requires forall c <- cs :: c.track == name
    ensures Firsts(CutTracks(cs)) == if cs == [] then [] else [name]
  {
    if cs != [] {
      var front, last := cs[..|cs| - 1], cs[|cs| - 1];
      assert cs == front + [last];
      SameTracks(front, name);
      CutTracksJoin(front, [last]);
      CutTracksOfOne(last);
      FirstsNext(CutTracks(front), last.track);
    }
  }

  /** Two tracks, one after the other. */
  lemma {:induction false} TwoTracks(a: seq<Cut>, b: seq<Cut>, first: string, second: string)
    requires a != [] && first != second && (forall c <- a :: c.track == first) && forall c <- b :: c.track == second
    ensures Firsts(CutTracks(a + b)) == [first] + if b == [] then [] else [second]
  {
    if b == [] {
      assert a + b == a;
      SameTracks(a, first);
    } else {
      var front, last := b[..|b| - 1], b[|b| - 1];
      assert b == front + [last];
      Associates(a, front, [last]);
      TwoTracks(a, front, first, second);
      CutTracksJoin(a + front, [last]);
      CutTracksOfOne(last);
      FirstsNext(CutTracks(a + front), last.track);
    }
  }

  lemma {:induction false} VideoNamesAre(i: Input, files: map<Path, Media>, fps: int)
    requires RateIs(i, fps)
    ensures Firsts(CutTracks(VideoWork(i, files))) == VideoNames(i, fps)
  {
    if i.videos != [] {
      VideoCutTracks(i.videos, fps);
    } else {
      MainCutsAre(i.entries, i.videoPath, fps, DraftDuration(i, files));
      PlanCutsAre(i.entries, BrollTrack, "broll", i.videoPath, fps);
      TwoTracks(MainCuts(i.entries, i.videoPath, fps, DraftDuration(i, files)), PlanCuts(i.entries, BrollTrack, "broll", i.videoPath, fps),
                "video", "broll");
    }
  }

  lemma {:induction false} AudioNamesAre(i: Input, files: map<Path, Media>)
    ensures Firsts(CutTracks(AudioWork(i, files))) == AudioNames(i)
  {
    if i.audios != [] {
      AudioCutTracks(i.audios);
    } else if i.audioPath.Some? {
      SameTracks(AudioWork(i, files), "audio");
    }
  }

  lemma {:induction false} PackOrder(i: Input, v: Assembly, a: Assembly, files: map<Path, Media>)
    ensures var ts, videos, audios := Pack(i, v, a, files).tracks, Names(v.groups), Names(a.groups);
            && |ts| == |videos| + |audios|
            && (forall n :: 0 <= n < |videos| ==> ts[n].kind.Video? && ts[n].name == videos[n] && ts[n].renderIndex == n)
            && (forall n :: 0 <= n < |audios| ==>
                  ts[|videos| + n].kind.Audio? && ts[|videos| + n].name == audios[n] && ts[|videos| + n].renderIndex == n)
  {
  }

  /** The video tracks come first and the audio tracks after them, each numbered among its kind: those of the planned
      segments that survive, in the order their names first occur, or else the video, the b-roll if any of it lasts,
      and the narration if there is one. */
  lemma {:induction false} TracksInOrder(i: Input, files: map<Path, Media>, fps: int)
    requires Build(i, files).Ok? && RateIs(i, fps)
    ensures var ts, videos, audios := Build(i, files).value.tracks, VideoNames(i, fps), AudioNames(i);
            && |ts| == |videos| + |audios|
            && (forall n :: 0 <= n < |videos| ==> ts[n].kind.Video? && ts[n].name == videos[n] && ts[n].renderIndex == n)
            && (forall n :: 0 <= n < |audios| ==>
                  ts[|videos| + n].kind.Audio? && ts[|videos| + n].name == audios[n] && ts[|videos| + n].renderIndex == n)
  {
    VideoOrder(i, files);
    VideoNamesAre(i, files, fps);
    AudioOrder(i, files);
    AudioNamesAre(i, files);
    PackOrder(i, VideoPart(i, files).value, AudioPart(i, files).value, files);
  }
}
