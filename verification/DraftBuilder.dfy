/** The builder as it runs: names, staged files and ids are used up in place. */
module DraftBuilder {
  import opened Results
  import opened Sequences
  import opened Timeline
  import opened DraftNames
  import opened Draft

  // ---- segments that share one material -----------------------------------

  /** The segments of cs on one material, their ids drawn from next on. */
  function SegmentsFrom(cs: seq<Cut>, id: nat, next: nat): seq<MediaSegment> {
    if cs == [] then []
    else
      var c := cs[0];
      [MediaSegment(next + 1, id, c.start, c.duration, c.sourceStart, c.sourceDuration, next)] + SegmentsFrom(cs[1..], id, next + 2)
  }

  lemma {:induction false} AddLast(gs: seq<Group>, t: string, ss: seq<MediaSegment>, s: MediaSegment)
    requires forall g <- gs :: g.name != t
    ensures Add(gs, t, s) == gs + [Group(t, [s])]
    ensures Add(gs + [Group(t, ss)], t, s) == gs + [Group(t, ss + [s])]
  {
    if gs == [] {
      assert [Group(t, ss)][1..] == [];
    } else {
      AddLast(gs[1..], t, ss, s);
      assert (gs + [Group(t, ss)])[1..] == gs[1..] + [Group(t, ss)];
    }
  }

  predicate OneSource(cs: seq<Cut>, t: string, a: Assembly, id: nat) {
    forall c <- cs :: c.track == t && c.source in a.byPath && a.byPath[c.source] == id
  }

  /** a with other tracks and with ids used up to next. */
  function WithTracks(a: Assembly, gs: seq<Group>, next: nat): Assembly {
    a.(stage := a.stage.(next := next), groups := gs)
  }

  function FirstSegment(c: Cut, id: nat, next: nat): MediaSegment {
    MediaSegment(next + 1, id, c.start, c.duration, c.sourceStart, c.sourceDuration, next)
  }

  lemma {:induction false} PlacingKnown(a: Assembly, k: Kind, c: Cut, id: nat, files: map<Path, Media>)
    requires c.source in a.byPath && a.byPath[c.source] == id
    ensures Place(a, k, c, files) ==
            Ok(WithTracks(a, Add(a.groups, c.track, FirstSegment(c, id, a.stage.next)), a.stage.next + 2))
  {
  }

  lemma {:induction false} PlacingOnLast(a: Assembly, k: Kind, gs: seq<Group>, t: string, ss: seq<MediaSegment>, cs: seq<Cut>, id: nat, files: map<Path, Media>)
    requires (forall g <- gs :: g.name != t) && a.groups == gs + [Group(t, ss)] && OneSource(cs, t, a, id)
    ensures PlaceAll(a, k, cs, files) ==
            Ok(WithTracks(a, gs + [Group(t, ss + SegmentsFrom(cs, id, a.stage.next))], a.stage.next + 2 * |cs|))
    decreases |cs|
  {
    var n := a.stage.next;
    if cs == [] {
      assert ss + [] == ss;
    } else {
      var s := FirstSegment(cs[0], id, n);
      PlacingKnown(a, k, cs[0], id, files);
      AddLast(gs, t, ss, s);
      PlacingOnLast(WithTracks(a, gs + [Group(t, ss + [s])], n + 2), k, gs, t, ss + [s], cs[1..], id, files);
      assert SegmentsFrom(cs, id, n) == [s] + SegmentsFrom(cs[1..], id, n + 2);
      Associates(ss, [s], SegmentsFrom(cs[1..], id, n + 2));
    }
  }

  /** Placing cuts of one source on a track of their own adds that track, if there are any. */
  lemma {:induction false} PlacingOnNew(a: Assembly, k: Kind, t: string, cs: seq<Cut>, id: nat, files: map<Path, Media>)
    requires (forall g <- a.groups :: g.name != t) && OneSource(cs, t, a, id)
    ensures PlaceAll(a, k, cs, files) ==
            Ok(WithTracks(a, a.groups + if cs == [] then [] else [Group(t, SegmentsFrom(cs, id, a.stage.next))], a.stage.next + 2 * |cs|))
  {
    if cs != [] {
      var n := a.stage.next;
      var s := FirstSegment(cs[0], id, n);
      PlacingKnown(a, k, cs[0], id, files);
      AddLast(a.groups, t, [], s);
      PlacingOnLast(WithTracks(a, a.groups + [Group(t, [s])], n + 2), k, a.groups, t, [s], cs[1..], id, files);
    } else {
      assert a.groups + [] == a.groups;
    }
  }

  lemma {:induction false} PlaceAllJoin(a: Assembly, k: Kind, cs: seq<Cut>, ds: seq<Cut>, files: map<Path, Media>)
    ensures PlaceAll(a, k, cs + ds, files) ==
            if PlaceAll(a, k, cs, files).Ok? then PlaceAll(PlaceAll(a, k, cs, files).value, k, ds, files) else PlaceAll(a, k, cs, files)
    decreases |cs|
  {
    if cs == [] {
      assert cs + ds == ds;
    } else {
      assert (cs + ds)[1..] == cs[1..] + ds;
      var b := Place(a, k, cs[0], files);
      if b.Ok? { PlaceAllJoin(b.value, k, cs[1..], ds, files); }
    }
  }

  lemma {:induction false} PlanCutsHave(es: seq<PlanEntry>, kind: TrackKind, track: string, source: Path, fps: int)
    ensures forall c <- PlanCuts(es, kind, track, source, fps) :: c.track == track && c.source == source
  {
    if es != [] { PlanCutsHave(es[1..], kind, track, source, fps); }
  }

  lemma {:induction false} PlaceAllFirst(a: Assembly, k: Kind, c: Cut, cs: seq<Cut>, files: map<Path, Media>)
    ensures var b := Place(a, k, c, files);
            PlaceAll(a, k, [c] + cs, files) == if b.Err? then b else PlaceAll(b.value, k, cs, files)
  {
    assert ([c] + cs)[1..] == cs;
  }

  lemma {:induction false} SegmentsFirst(ss: seq<MediaSegment>, c: Cut, cs: seq<Cut>, id: nat, next: nat)
    ensures ss + SegmentsFrom([c] + cs, id, next) ==
            ss + [MediaSegment(next + 1, id, c.start, c.duration, c.sourceStart, c.sourceDuration, next)] + SegmentsFrom(cs, id, next + 2)
  {
    assert ([c] + cs)[1..] == cs;
  }

  lemma {:induction false} SegmentsFromCount(cs: seq<Cut>, id: nat, next: nat)
    ensures |SegmentsFrom(cs, id, next)| == |cs|
  {
    if cs != [] { SegmentsFromCount(cs[1..], id, next + 2); }
  }

  lemma {:induction false} OneSegment(c: Cut, id: nat, next: nat)
    ensures SegmentsFrom([c], id, next) == [MediaSegment(next + 1, id, c.start, c.duration, c.sourceStart, c.sourceDuration, next)]
  {
    assert [c][1..] == [];
  }

  /** The tracks of a draft whose only video material has the given id, and the next free id. */
  function SingleGroups(es: seq<PlanEntry>, p: Path, fps: int, duration: int, id: nat): (seq<Group>, nat) {
    var main, broll := MainCuts(es, p, fps, duration), PlanCuts(es, BrollTrack, "broll", p, fps);
    var n := id + 1 + 2 * |main|;
    ([Group("video", SegmentsFrom(main, id, id + 1))] + if broll == [] then [] else [Group("broll", SegmentsFrom(broll, id, n))],
     n + 2 * |broll|)
  }

  /** The single-material assembly once its main track is placed. */
  function AfterMain(es: seq<PlanEntry>, s: Stage, p: Path, fps: int, duration: int): Assembly
    requires p in s.videos
  {
    var main := MainCuts(es, p, fps, duration);
    WithTracks(Single(s, Video, p, duration), [Group("video", SegmentsFrom(main, s.next, s.next + 1))], s.next + 1 + 2 * |main|)
  }

  lemma {:induction false} MainPlaces(es: seq<PlanEntry>, s: Stage, p: Path, fps: int, duration: int, files: map<Path, Media>)
    requires p in s.videos
    ensures PlaceAll(Single(s, Video, p, duration), Video, MainCuts(es, p, fps, duration), files) == Ok(AfterMain(es, s, p, fps, duration))
  {
    var main := MainCuts(es, p, fps, duration);
    PlanCutsHave(es, PortraitTrack, "video", p, fps);
    PlacingOnNew(Single(s, Video, p, duration), Video, "video", main, s.next, files);
    assert [] + [Group("video", SegmentsFrom(main, s.next, s.next + 1))] == [Group("video", SegmentsFrom(main, s.next, s.next + 1))];
  }

  lemma {:induction false} BrollPlaces(es: seq<PlanEntry>, s: Stage, p: Path, fps: int, duration: int, files: map<Path, Media>)
    requires p in s.videos
    ensures var (gs, n) := SingleGroups(es, p, fps, duration, s.next);
            PlaceAll(AfterMain(es, s, p, fps, duration), Video, PlanCuts(es, BrollTrack, "broll", p, fps), files)
            == Ok(WithTracks(Single(s, Video, p, duration), gs, n))
  {
    PlanCutsHave(es, BrollTrack, "broll", p, fps);
    PlacingOnNew(AfterMain(es, s, p, fps, duration), Video, "broll", PlanCuts(es, BrollTrack, "broll", p, fps), s.next, files);
  }

  lemma {:induction false} SingleGroupsPlace(es: seq<PlanEntry>, s: Stage, p: Path, fps: int, duration: int, files: map<Path, Media>)
    requires p in s.videos
    ensures var r := PlaceAll(Single(s, Video, p, duration), Video,
                              MainCuts(es, p, fps, duration) + PlanCuts(es, BrollTrack, "broll", p, fps), files);
            var (gs, n) := SingleGroups(es, p, fps, duration, s.next);
            r == Ok(WithTracks(Single(s, Video, p, duration), gs, n))
  {
    MainPlaces(es, s, p, fps, duration, files);
    BrollPlaces(es, s, p, fps, duration, files);
    PlaceAllJoin(Single(s, Video, p, duration), Video, MainCuts(es, p, fps, duration), PlanCuts(es, BrollTrack, "broll", p, fps), files);
  }

  lemma {:induction false} SingleAudioPlaces(s: Stage, p: Path, d: int, files: map<Path, Media>)
    requires p in s.audios
    ensures PlaceAll(Single(s, Audio, p, d), Audio, [Cut("audio", p, 0, d, 0, d)], files) ==
            Ok(WithTracks(Single(s, Audio, p, d), [Group("audio", [MediaSegment(s.next + 2, s.next, 0, d, 0, d, s.next + 1)])], s.next + 3))
  {
    var a := Single(s, Audio, p, d);
    var c := Cut("audio", p, 0, d, 0, d);
    PlacingKnown(a, Audio, c, s.next, files);
    assert [c][1..] == [];
  }

  /** The audio half for either kind of input. */
  lemma {:induction false} AudioPartIs(i: Input, s: Stage, files: map<Path, Media>)
    requires VideoPart(i, files).Ok? && VideoPart(i, files).value.stage == s
    ensures i.audios != [] ==> AudioPart(i, files) == PlaceAll(Assembly(s, map[], [], [], []), Audio, AudioCuts(i.audios), files)
    ensures i.audios == [] && i.audioPath.None? ==> AudioPart(i, files) == Ok(Assembly(s, map[], [], [], []))
    ensures i.audios == [] && i.audioPath.Some? ==>
              var p := i.audioPath.value;
              p in s.audios
              && AudioPart(i, files) == PlaceAll(Single(s, Audio, p, NarrationDuration(i, files, p)), Audio, AudioWork(i, files), files)
  {
    VideoPartKeepsAudio(i, files);
  }

  lemma {:induction false} NarrationAlone(i: Input, s: Stage, files: map<Path, Media>)
    requires VideoPart(i, files).Ok? && VideoPart(i, files).value.stage == s && i.audios == [] && i.audioPath.Some?
    ensures var p := i.audioPath.value; var d := NarrationDuration(i, files, p);
            p in s.audios
            && AudioPart(i, files) ==
               Ok(WithTracks(Single(s, Audio, p, d), [Group("audio", [MediaSegment(s.next + 2, s.next, 0, d, 0, d, s.next + 1)])], s.next + 3))
  {
    AudioPartIs(i, s, files);
    SingleAudioPlaces(s, i.audioPath.value, NarrationDuration(i, files, i.audioPath.value), files);
  }

  lemma {:induction false} SpeedsNext(done: seq<nat>, gs: seq<Group>, n: nat)
    requires n < |gs|
    ensures done + Speeds(gs[n..]) == done + SpeedsOf(gs[n].segments) + Speeds(gs[n + 1..])
  {
    assert gs[n..][0] == gs[n] && gs[n..][1..] == gs[n + 1..];
    Associates(done, SpeedsOf(gs[n].segments), Speeds(gs[n + 1..]));
  }

  // ---- the builder --------------------------------------------------------

  class Builder {
    const files: map<Path, Media>
    var used: set<string>
    var videos: map<Path, string>
    var audios: map<Path, string>
    var next: nat

    function State(): Stage
      reads this
    {
      Stage(used, videos, audios, next)
    }

    constructor (files: map<Path, Media>)
      ensures this.files == files && State() == Stage({}, map[], map[], 0)
    {
      this.files := files;
      used, videos, audios, next := {}, map[], map[], 0;
    }

    method UniqueName(name: string) returns (candidate: string)
      modifies this`used
      ensures candidate == FreeName(name, old(used)) && used == old(used) + {candidate}
    {
      candidate := name;
      var index := 1;
      while candidate in used
        invariant index >= 1 && candidate == NthName(name, index - 1)
        invariant forall j: nat :: j < index - 1 ==> NthName(name, j) in used
        invariant used == old(used)
        decreases |used| + 1 - index
      {
        TakenNamesBound(name, used, index);
        candidate := NthName(name, index);
        index := index + 1;
      }
      FreeNameIsFirst(name, used, index - 1);
      used := used + {candidate};
    }

    method StageOnce(k: Kind, p: Path) returns (r: Result<string, Path>)
      modifies this
      ensures var s := Draft.StageOnce(old(State()), k, p, files);
              if s.Err? then r == Err(s.error) && State() == old(State())
              else State() == s.value && p in Staged(s.value, k) && r == Ok(Staged(s.value, k)[p])
    {
      var staged := if k.Video? then videos else audios;
      if p in staged { return Ok(staged[p]); }
      if p !in files { return Err(p); }
      var name := UniqueName(files[p].name);
      if k.Video? { videos := videos[p := name]; } else { audios := audios[p := name]; }
      r := Ok(name);
    }

    method NewSegment(material: nat, c: Cut) returns (s: MediaSegment)
      modifies this`next
      ensures s == MediaSegment(old(next) + 1, material, c.start, c.duration, c.sourceStart, c.sourceDuration, old(next))
      ensures next == old(next) + 2
    {
      s := MediaSegment(next + 1, material, c.start, c.duration, c.sourceStart, c.sourceDuration, next);
      next := next + 2;
    }

    /** One round of the loops over planned segments: a material for the source if it has none yet, and the
        segment on its track. */
    method PlaceCut(k: Kind, c: Cut, byPath: map<Path, nat>, ghost sources: seq<Path>, materials: seq<Material>, groups: seq<Group>)
      returns (missing: Option<Path>, byPath': map<Path, nat>, ghost sources': seq<Path>, materials': seq<Material>, groups': seq<Group>)
      modifies this
      ensures var r := Draft.Place(Assembly(old(State()), byPath, sources, materials, groups), k, c, files);
              if r.Err? then missing == Some(r.error)
              else missing == None && r.value == Assembly(State(), byPath', sources', materials', groups')
    {
      byPath', sources', materials', groups' := byPath, sources, materials, groups;
      missing := None;
      if c.source !in byPath {
        var staged := StageOnce(k, c.source);
        if staged.Err? { missing := Some(staged.error); return; }
        byPath', sources' := byPath[c.source := next], sources + [c.source];
        materials' := materials + [Material(next, PortablePath(k, staged.value), MaterialLength(files, c))];
        next := next + 1;
      }
      var s := NewSegment(byPath'[c.source], c);
      groups' := Add(groups, c.track, s);
    }

    method ExplicitVideoTracks(ss: seq<VideoSegment>, fps: int)
      returns (missing: Option<Path>, groups: seq<Group>, materials: seq<Material>)
      modifies this
      ensures var s := PlaceAll(Assembly(old(State()), map[], [], [], []), Video, VideoCuts(ss, fps), files);
              if s.Err? then missing == Some(s.error)
              else missing == None && groups == s.value.groups && materials == s.value.materials && State() == s.value.stage
    {
      var byPath: map<Path, nat> := map[];
      materials, groups, missing := [], [], None;
      ghost var sources: seq<Path> := [];
      for n := 0 to |ss|
        invariant missing == None
        invariant PlaceAll(Assembly(old(State()), map[], [], [], []), Video, VideoCuts(ss, fps), files)
                  == PlaceAll(Assembly(State(), byPath, sources, materials, groups), Video, VideoCuts(ss[n..], fps), files)
      {
        assert ss[n..][0] == ss[n] && ss[n..][1..] == ss[n + 1..];
        var c := VideoCut(ss[n], fps);
        if c.Some? {
          PlaceAllFirst(Assembly(State(), byPath, sources, materials, groups), Video, c.value, VideoCuts(ss[n + 1..], fps), files);
          missing, byPath, sources, materials, groups := PlaceCut(Video, c.value, byPath, sources, materials, groups);
          if missing.Some? { return; }
        }
      }
    }

    method ExplicitAudioTracks(ss: seq<AudioSegment>)
      returns (missing: Option<Path>, groups: seq<Group>, materials: seq<Material>)
      modifies this
      ensures var s := PlaceAll(Assembly(old(State()), map[], [], [], []), Audio, AudioCuts(ss), files);
              if s.Err? then missing == Some(s.error)
              else missing == None && groups == s.value.groups && materials == s.value.materials && State() == s.value.stage
    {
      var byPath: map<Path, nat> := map[];
      materials, groups, missing := [], [], None;
      ghost var sources: seq<Path> := [];
      for n := 0 to |ss|
        invariant missing == None
        invariant PlaceAll(Assembly(old(State()), map[], [], [], []), Audio, AudioCuts(ss), files)
                  == PlaceAll(Assembly(State(), byPath, sources, materials, groups), Audio, AudioCuts(ss[n..]), files)
      {
        assert ss[n..][0] == ss[n] && ss[n..][1..] == ss[n + 1..];
        var c := AudioCut(ss[n]);
        if c.Some? {
          PlaceAllFirst(Assembly(State(), byPath, sources, materials, groups), Audio, c.value, AudioCuts(ss[n + 1..]), files);
          missing, byPath, sources, materials, groups := PlaceCut(Audio, c.value, byPath, sources, materials, groups);
          if missing.Some? { return; }
        }
      }
    }

    /** The loop that main and b-roll segments share; every segment shows the one material. */
    method PlanSegments(es: seq<PlanEntry>, kind: TrackKind, track: string, source: Path, fps: int, material: nat)
      returns (segments: seq<MediaSegment>)
      modifies this`next
      ensures var cs := PlanCuts(es, kind, track, source, fps);
              segments == SegmentsFrom(cs, material, old(next)) && next == old(next) + 2 * |cs|
    {
      segments := [];
      for n := 0 to |es|
        invariant SegmentsFrom(PlanCuts(es, kind, track, source, fps), material, old(next))
                  == segments + SegmentsFrom(PlanCuts(es[n..], kind, track, source, fps), material, next)
        invariant old(next) + 2 * |PlanCuts(es, kind, track, source, fps)| == next + 2 * |PlanCuts(es[n..], kind, track, source, fps)|
      {
        assert es[n..][0] == es[n] && es[n..][1..] == es[n + 1..];
        var c := PlanCut(es[n], kind, track, source, fps);
        if c.Some? {
          SegmentsFirst(segments, c.value, PlanCuts(es[n + 1..], kind, track, source, fps), material, next);
          var s := NewSegment(material, c.value);
          segments := segments + [s];
        }
      }
    }

    /** The video half when no segments were planned: one material, a main track and perhaps a b-roll track. */
    method SingleVideo(es: seq<PlanEntry>, p: Path, name: string, fps: int, duration: int) returns (groups: seq<Group>, materials: seq<Material>)
      requires p in videos && videos[p] == name
      modifies this`next
      ensures materials == [Material(old(next), PortablePath(Video, name), duration)]
      ensures var (gs, n) := SingleGroups(es, p, fps, duration, old(next));
              groups == gs && next == n
    {
      var id := next;
      materials := [Material(id, PortablePath(Video, name), duration)];
      next := next + 1;
      var segments := PlanSegments(es, PortraitTrack, "video", p, fps, id);
      SegmentsFromCount(PlanCuts(es, PortraitTrack, "video", p, fps), id, id + 1);
      if segments == [] {
        OneSegment(Cut("video", p, 0, duration, 0, duration), id, next);
        var s := NewSegment(id, Cut("video", p, 0, duration, 0, duration));
        segments := [s];
      }
      assert segments == SegmentsFrom(MainCuts(es, p, fps, duration), id, id + 1);
      assert next == id + 1 + 2 * |MainCuts(es, p, fps, duration)|;
      groups := [Group("video", segments)];
      SegmentsFromCount(PlanCuts(es, BrollTrack, "broll", p, fps), id, next);
      var broll := PlanSegments(es, BrollTrack, "broll", p, fps, id);
      if broll != [] { groups := groups + [Group("broll", broll)]; }
    }

    /** The audio half when no segments were planned: the narration, if there is one. */
    method SingleAudio(p: Path, name: string, d: int) returns (groups: seq<Group>, materials: seq<Material>)
      modifies this`next
      ensures materials == [Material(old(next), PortablePath(Audio, name), d)]
      ensures groups == [Group("audio", [MediaSegment(old(next) + 2, old(next), 0, d, 0, d, old(next) + 1)])]
      ensures next == old(next) + 3
    {
      materials := [Material(next, PortablePath(Audio, name), d)];
      var id := next;
      next := next + 1;
      var s := NewSegment(id, Cut("audio", p, 0, d, 0, d));
      groups := [Group("audio", [s])];
    }

    /** The tracks of one half and, segment by segment, its speeds. */
    method Tracked(k: Kind, groups: seq<Group>) returns (tracks: seq<Track>, speeds: seq<nat>)
      ensures tracks == Tracks(k, groups) && speeds == Speeds(groups)
    {
      tracks, speeds := [], [];
      for n := 0 to |groups|
        invariant tracks == Tracks(k, groups)[..n] && speeds + Speeds(groups[n..]) == Speeds(groups)
      {
        SpeedsNext(speeds, groups, n);
        tracks := tracks + [Track(k, groups[n].name, n, groups[n].segments)];
        var own := SpeedMaterials(groups[n].segments);
        speeds := speeds + own;
      }
    }

    method SpeedMaterials(ss: seq<MediaSegment>) returns (speeds: seq<nat>)
      ensures speeds == SpeedsOf(ss)
    {
      speeds := [];
      for n := 0 to |ss|
        invariant speeds == SpeedsOf(ss)[..n]
      {
        speeds := speeds + [ss[n].speed];
      }
    }

    method VideoHalf(i: Input) returns (missing: Option<Path>, groups: seq<Group>, materials: seq<Material>)
      modifies this
      requires State() == Stage({}, map[], map[], 0)
      ensures var v := VideoPart(i, files);
              if v.Err? then missing == Some(v.error)
              else missing == None && groups == v.value.groups && materials == v.value.materials && State() == v.value.stage
    {
      groups, materials := [], [];
      FirstStageHas(i, files);
      var video := StageOnce(Video, if i.videos != [] then i.videos[0].source else i.videoPath);
      if video.Err? { return Some(video.error), [], []; }
      if i.audioPath.Some? {
        var audio := StageOnce(Audio, i.audioPath.value);
        if audio.Err? { return Some(audio.error), [], []; }
      }
      if i.videos != [] {
        missing, groups, materials := ExplicitVideoTracks(i.videos, DraftFps(i.timelineFps));
      } else {
        var fps, duration := DraftFps(i.timelineFps), DraftDuration(i, files);
        SingleGroupsPlace(i.entries, State(), i.videoPath, fps, duration, files);
        missing := None;
        groups, materials := SingleVideo(i.entries, i.videoPath, video.value, fps, duration);
      }
    }

    method AudioHalf(i: Input) returns (missing: Option<Path>, groups: seq<Group>, materials: seq<Material>)
      modifies this
      requires VideoPart(i, files).Ok? && State() == VideoPart(i, files).value.stage
      ensures var a := AudioPart(i, files);
              if a.Err? then missing == Some(a.error)
              else missing == None && groups == a.value.groups && materials == a.value.materials && State() == a.value.stage
    {
      missing, groups, materials := None, [], [];
      AudioPartIs(i, State(), files);
      if i.audios != [] {
        missing, groups, materials := ExplicitAudioTracks(i.audios);
      } else if i.audioPath.Some? {
        var p := i.audioPath.value;
        NarrationAlone(i, State(), files);
        groups, materials := SingleAudio(p, audios[p], NarrationDuration(i, files, p));
      }
    }

    method Build(i: Input) returns (r: Result<Package, Path>)
      modifies this
      requires State() == Stage({}, map[], map[], 0)
      ensures r == Draft.Build(i, files)
    {
      var missing, videoGroups, videoMaterials := VideoHalf(i);
      if missing.Some? { return Err(missing.value); }
      var missing', audioGroups, audioMaterials := AudioHalf(i);
      if missing'.Some? { return Err(missing'.value); }
      var videoTracks, videoSpeeds := Tracked(Video, videoGroups);
      var audioTracks, audioSpeeds := Tracked(Audio, audioGroups);
      r := Ok(Package(State(), videoMaterials, audioMaterials, videoTracks + audioTracks, videoSpeeds + audioSpeeds, DraftDuration(i, files)));
    }
  }
}
