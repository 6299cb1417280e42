/** Assembly of a draft: staged files, materials, tracks and speeds. */
module Draft {
  import opened Results
  import opened Timeline
  import opened DraftNames

  /** A resolved source path. */
  type Path = string

  datatype Kind = Video | Audio

  /** An existing source file: its name made safe for the package, and its probed length (0 when unknown). */
  datatype Media = Media(name: string, duration: real)

  /** What one build has used so far: file names, staged files of either kind, and ids. */
  datatype Stage = Stage(used: set<string>, videos: map<Path, string>, audios: map<Path, string>, next: nat)

  datatype Material = Material(id: nat, path: string, duration: int)

  datatype MediaSegment = MediaSegment(
    id: nat, material: nat, start: int, duration: int, sourceStart: int, sourceDuration: int, speed: nat)

  /** An entry of the tracks dictionary, in insertion order. */
  datatype Group = Group(name: string, segments: seq<MediaSegment>)

  /** sources lists the keys of byPath in insertion order, so it is in step with materials. */
  datatype Assembly = Assembly(
    stage: Stage, byPath: map<Path, nat>, sources: seq<Path>, materials: seq<Material>, groups: seq<Group>)

  datatype Track = Track(kind: Kind, name: string, renderIndex: nat, segments: seq<MediaSegment>)

  datatype Package = Package(
    stage: Stage, videos: seq<Material>, audios: seq<Material>, tracks: seq<Track>, speeds: seq<nat>, duration: int)

  /** One media segment to place, in microseconds. */
  datatype Cut = Cut(track: string, source: Path, start: int, duration: int, sourceStart: int, sourceDuration: int)

  datatype AudioSegment = AudioSegment(
    track: string, source: Path, start: int, duration: int, sourceStart: int, sourceDuration: Option<int>)

  function Max(a: int, b: int): int { if a >= b then a else b }

  function SecToUs(t: real): int { Round(t * 1000000.0) }

  // ---- staging ------------------------------------------------------------

  function Staged(s: Stage, k: Kind): map<Path, string> { if k.Video? then s.videos else s.audios }

  function PortablePath(k: Kind, name: string): string {
    (if k.Video? then "Resources/video/" else "Resources/audio/") + name
  }

  function WithStaged(s: Stage, k: Kind, p: Path, name: string): Stage {
    var t := s.(used := s.used + {name});
    if k.Video? then t.(videos := s.videos[p := name]) else t.(audios := s.audios[p := name])
  }

  /** _stage_once: the file's own copy if it has one, a new one under a free name otherwise. */
  function StageOnce(s: Stage, k: Kind, p: Path, files: map<Path, Media>): Result<Stage, Path> {
    if p in Staged(s, k) then Ok(s)
    else if p !in files then Err(p)
    else Ok(WithStaged(s, k, p, FreeName(files[p].name, s.used)))
  }

  /** What probing the staged copy of p says, in microseconds. */
  function Probe(files: map<Path, Media>, p: Path): int {
    if p in files then SecToUs(files[p].duration) else 0
  }

  // ---- placing segments ---------------------------------------------------

  function Add(gs: seq<Group>, name: string, s: MediaSegment): seq<Group> {
    if gs == [] then [Group(name, [s])]
    else if gs[0].name == name then [Group(name, gs[0].segments + [s])] + gs[1..]
    else [gs[0]] + Add(gs[1..], name, s)
  }

  /** p gets the next id and a material on its staged copy. */
  function AddMaterial(a: Assembly, s: Stage, k: Kind, p: Path, duration: int): Assembly
    requires p in Staged(s, k)
  {
    Assembly(s.(next := s.next + 1), a.byPath[p := s.next], a.sources + [p],
             a.materials + [Material(s.next, PortablePath(k, Staged(s, k)[p]), duration)], a.groups)
  }

  /** A material is as long as its file, or as the cut that introduces it needs. */
  function MaterialLength(files: map<Path, Media>, c: Cut): int {
    Max(Max(Probe(files, c.source), c.sourceStart + c.sourceDuration), 1)
  }

  function WithMaterial(a: Assembly, k: Kind, c: Cut, files: map<Path, Media>): (r: Result<Assembly, Path>)
    ensures r.Ok? ==> c.source in r.value.byPath
  {
    if c.source in a.byPath then Ok(a)
    else
      var s := StageOnce(a.stage, k, c.source, files);
      if s.Err? then Err(s.error)
      else Ok(AddMaterial(a, s.value, k, c.source, MaterialLength(files, c)))
  }

  function WithSegment(a: Assembly, c: Cut): Assembly
    requires c.source in a.byPath
  {
    var n := a.stage.next;
    a.(stage := a.stage.(next := n + 2),
       groups := Add(a.groups, c.track,
         MediaSegment(n + 1, a.byPath[c.source], c.start, c.duration, c.sourceStart, c.sourceDuration, n)))
  }

  function Place(a: Assembly, k: Kind, c: Cut, files: map<Path, Media>): Result<Assembly, Path> {
    var m := WithMaterial(a, k, c, files);
    if m.Err? then m else Ok(WithSegment(m.value, c))
  }

  function PlaceAll(a: Assembly, k: Kind, cs: seq<Cut>, files: map<Path, Media>): Result<Assembly, Path>
    decreases |cs|
  {
    if cs == [] then Ok(a)
    else
      var b := Place(a, k, cs[0], files);
      if b.Err? then b else PlaceAll(b.value, k, cs[1..], files)
  }

  // ---- what is placed -----------------------------------------------------

  function VideoCut(s: VideoSegment, fps: int): Option<Cut> {
    var start, end := FrameToUs(s.start, fps), FrameToUs(s.end, fps);
    var from, to := FrameToUs(s.sourceStart, fps), FrameToUs(s.sourceEnd, fps);
    if end <= start || to <= from then None
    else Some(Cut(s.track, s.source, start, end - start, from, to - from))
  }

  function VideoCuts(ss: seq<VideoSegment>, fps: int): seq<Cut> {
    if ss == [] then []
    else
      var c := VideoCut(ss[0], fps);
      if c.Some? then [c.value] + VideoCuts(ss[1..], fps) else VideoCuts(ss[1..], fps)
  }

  function AudioCut(s: AudioSegment): Option<Cut> {
    if s.duration <= 0 then None
    else
      // a source duration of 0 is falsy
      var d := if s.sourceDuration.Some? && s.sourceDuration.value != 0 then s.sourceDuration.value else s.duration;
      Some(Cut(s.track, s.source, s.start, s.duration, s.sourceStart, Max(1, d)))
  }

  function AudioCuts(ss: seq<AudioSegment>): seq<Cut> {
    if ss == [] then []
    else
      var c := AudioCut(ss[0]);
      if c.Some? then [c.value] + AudioCuts(ss[1..]) else AudioCuts(ss[1..])
  }

  /** A timeline entry as the draft reads it when no segments were planned; absent frames read 0. */
  datatype PlanEntry = PlanEntry(kind: TrackKind, start: int, end: int, sourceStart: int, sourceEnd: int)

  function PlanCut(e: PlanEntry, kind: TrackKind, track: string, source: Path, fps: int): Option<Cut> {
    var start, end := FrameToUs(e.start, fps), FrameToUs(e.end, fps);
    var from := FrameToUs(e.sourceStart, fps);
    var to := FrameToUs(if e.sourceEnd != 0 then e.sourceEnd else e.end, fps);
    if e.kind != kind || end <= start then None
    else Some(Cut(track, source, start, end - start, from, Max(1, to - from)))
  }

  function PlanCuts(es: seq<PlanEntry>, kind: TrackKind, track: string, source: Path, fps: int): seq<Cut> {
    if es == [] then []
    else
      var c := PlanCut(es[0], kind, track, source, fps);
      if c.Some? then [c.value] + PlanCuts(es[1..], kind, track, source, fps) else PlanCuts(es[1..], kind, track, source, fps)
  }

  /** The main track is never empty: without a usable entry it shows the whole video. */
  function MainCuts(es: seq<PlanEntry>, source: Path, fps: int, duration: int): seq<Cut> {
    var cs := PlanCuts(es, PortraitTrack, "video", source, fps);
    if cs == [] then [Cut("video", source, 0, duration, 0, duration)] else cs
  }

  // ---- the whole build ----------------------------------------------------

  datatype Input = Input(
    videoPath: Path, audioPath: Option<Path>, duration: real, timelineFps: Option<real>, entries: seq<PlanEntry>,
    videos: seq<VideoSegment>, audios: seq<AudioSegment>)

  function ProbePath(i: Input): Path { if i.videos != [] then i.videos[0].source else i.videoPath }

  /** The probed video and the narration are staged first. */
  function FirstStage(i: Input, files: map<Path, Media>): Result<Stage, Path> {
    var s := StageOnce(Stage({}, map[], map[], 0), Video, ProbePath(i), files);
    if s.Ok? && i.audioPath.Some? then StageOnce(s.value, Audio, i.audioPath.value, files) else s
  }

  function DraftDuration(i: Input, files: map<Path, Media>): int {
    Max(Max(Max(SecToUs(i.duration), Probe(files, ProbePath(i))), if i.audioPath.Some? then Probe(files, i.audioPath.value) else 0), 1)
  }

  /** An assembly whose only material, of the given length, is the staged copy of p. */
  function Single(s: Stage, k: Kind, p: Path, duration: int): Assembly
    requires p in Staged(s, k)
  {
    Assembly(s.(next := s.next + 1), map[p := s.next], [p], [Material(s.next, PortablePath(k, Staged(s, k)[p]), duration)], [])
  }

  function NarrationDuration(i: Input, files: map<Path, Media>, p: Path): int {
    Max(1, SecToUs(if p in files && files[p].duration != 0.0 then files[p].duration else i.duration))
  }

  function VideoStart(i: Input, s: Stage, files: map<Path, Media>): Assembly
    requires ProbePath(i) in s.videos
  {
    if i.videos != [] then Assembly(s, map[], [], [], []) else Single(s, Video, i.videoPath, DraftDuration(i, files))
  }

  function VideoWork(i: Input, files: map<Path, Media>): seq<Cut> {
    var fps := DraftFps(i.timelineFps);
    if i.videos != [] then VideoCuts(i.videos, fps)
    else
      MainCuts(i.entries, i.videoPath, fps, DraftDuration(i, files)) + PlanCuts(i.entries, BrollTrack, "broll", i.videoPath, fps)
  }

  function AudioStart(i: Input, s: Stage, files: map<Path, Media>): Assembly
    requires i.audioPath.Some? ==> i.audioPath.value in s.audios
  {
    if i.audios != [] || i.audioPath.None? then Assembly(s, map[], [], [], [])
    else Single(s, Audio, i.audioPath.value, NarrationDuration(i, files, i.audioPath.value))
  }

  function AudioWork(i: Input, files: map<Path, Media>): seq<Cut> {
    if i.audios != [] then AudioCuts(i.audios)
    else if i.audioPath.Some? then
      var d := NarrationDuration(i, files, i.audioPath.value);
      [Cut("audio", i.audioPath.value, 0, d, 0, d)]
    else []
  }

  function Tracks(k: Kind, gs: seq<Group>): seq<Track> {
    seq(|gs|, (n: nat) requires n < |gs| => Track(k, gs[n].name, n, gs[n].segments))
  }

  function SpeedsOf(ss: seq<MediaSegment>): seq<nat> {
    seq(|ss|, (n: nat) requires n < |ss| => ss[n].speed)
  }

  /** One speed material per segment, track after track. */
  function Speeds(gs: seq<Group>): seq<nat> {
    if gs == [] then [] else SpeedsOf(gs[0].segments) + Speeds(gs[1..])
  }

  function Pack(i: Input, v: Assembly, a: Assembly, files: map<Path, Media>): Package {
    Package(a.stage, v.materials, a.materials, Tracks(Video, v.groups) + Tracks(Audio, a.groups),
            Speeds(v.groups) + Speeds(a.groups), DraftDuration(i, files))
  }

  lemma {:induction false} StagingKeeps(s: Stage, k: Kind, p: Path, files: map<Path, Media>)
    ensures var r := StageOnce(s, k, p, files);
            r.Ok? ==> p in Staged(r.value, k) && s.used <= r.value.used && r.value.next == s.next
                      && (forall q <- s.videos :: q in r.value.videos && r.value.videos[q] == s.videos[q])
                      && (forall q <- s.audios :: q in r.value.audios && r.value.audios[q] == s.audios[q])
  {
  }

  lemma {:induction false} FirstStageHas(i: Input, files: map<Path, Media>)
    ensures var r := FirstStage(i, files);
            r.Ok? ==> ProbePath(i) in r.value.videos && (i.audioPath.Some? ==> i.audioPath.value in r.value.audios)
  {
    var s := StageOnce(Stage({}, map[], map[], 0), Video, ProbePath(i), files);
    StagingKeeps(Stage({}, map[], map[], 0), Video, ProbePath(i), files);
    if s.Ok? && i.audioPath.Some? { StagingKeeps(s.value, Audio, i.audioPath.value, files); }
  }

  lemma {:induction false} PlacingKeepsStaged(a: Assembly, k: Kind, cs: seq<Cut>, files: map<Path, Media>)
    ensures var r := PlaceAll(a, k, cs, files);
            r.Ok? ==> (forall q <- a.stage.videos :: q in r.value.stage.videos && r.value.stage.videos[q] == a.stage.videos[q])
                      && (forall q <- a.stage.audios :: q in r.value.stage.audios && r.value.stage.audios[q] == a.stage.audios[q])
    decreases |cs|
  {
    if cs != [] {
      StagingKeeps(a.stage, k, cs[0].source, files);
      var b := Place(a, k, cs[0], files);
      if b.Ok? { PlacingKeepsStaged(b.value, k, cs[1..], files); }
    }
  }

  function VideoPart(i: Input, files: map<Path, Media>): Result<Assembly, Path> {
    var s := FirstStage(i, files);
    if s.Err? then Err(s.error)
    else
      FirstStageHas(i, files);
      PlaceAll(VideoStart(i, s.value, files), Video, VideoWork(i, files), files)
  }

  lemma {:induction false} VideoPartKeepsAudio(i: Input, files: map<Path, Media>)
    ensures var v := VideoPart(i, files);
            v.Ok? && i.audioPath.Some? ==> i.audioPath.value in v.value.stage.audios
  {
    var s := FirstStage(i, files);
    if s.Ok? {
      FirstStageHas(i, files);
      PlacingKeepsStaged(VideoStart(i, s.value, files), Video, VideoWork(i, files), files);
    }
  }

  function AudioPart(i: Input, files: map<Path, Media>): Result<Assembly, Path> {
    var v := VideoPart(i, files);
    if v.Err? then v
    else
      VideoPartKeepsAudio(i, files);
      PlaceAll(AudioStart(i, v.value.stage, files), Audio, AudioWork(i, files), files)
  }

  function Build(i: Input, files: map<Path, Media>): Result<Package, Path> {
    var v, a := VideoPart(i, files), AudioPart(i, files);
    if v.Err? then Err(v.error) else if a.Err? then Err(a.error) else Ok(Pack(i, v.value, a.value, files))
  }
}
