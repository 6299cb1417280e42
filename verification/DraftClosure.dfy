/** Every reference in a finished draft resolves, to its own source. */
module DraftClosure {
  import opened Results
  import opened Sequences
  import opened Timeline
  import opened DraftNames
  import opened Draft

  // ---- what a draft promises ----------------------------------------------

  function RefsOf(gs: seq<Group>): multiset<nat> {
    if gs == [] then multiset{} else multiset(SpeedsOf(gs[0].segments)) + RefsOf(gs[1..])
  }

  /** The segments placed on the track called t. */
  function On(gs: seq<Group>, t: string): seq<MediaSegment> {
    if gs == [] then [] else if gs[0].name == t then gs[0].segments else On(gs[1..], t)
  }

  function CutsOn(cs: seq<Cut>, t: string): seq<Cut> {
    if cs == [] then []
    else CutsOn(cs[..|cs| - 1], t) + (if cs[|cs| - 1].track == t then [cs[|cs| - 1]] else [])
  }

  predicate Shows(s: MediaSegment, c: Cut, byPath: map<Path, nat>) {
    && c.source in byPath && s.material == byPath[c.source]
    && s.start == c.start && s.duration == c.duration
    && s.sourceStart == c.sourceStart && s.sourceDuration == c.sourceDuration
  }

  predicate Matches(ss: seq<MediaSegment>, cs: seq<Cut>, byPath: map<Path, nat>) {
    |ss| == |cs| && forall n :: 0 <= n < |ss| ==> Shows(ss[n], cs[n], byPath)
  }

  predicate Has(ms: seq<Material>, id: nat, path: string) {
    exists m <- ms :: m.id == id && m.path == path
  }

  predicate DistinctIds(ms: seq<Material>) {
    forall j, k :: 0 <= j < k < |ms| ==> ms[j].id != ms[k].id
  }

  predicate Apart(f: map<Path, string>) {
    forall p, q :: p in f && q in f && p != q ==> f[p] != f[q]
  }

  /** No two staged files share a name, whether they are videos or audios. */
  predicate NamesOk(s: Stage) {
    && Apart(s.videos) && Apart(s.audios)
    && (forall p <- s.videos :: s.videos[p] in s.used)
    && (forall p <- s.audios :: s.audios[p] in s.used)
    && (forall p, q :: p in s.videos && q in s.audios ==> s.videos[p] != s.audios[q])
  }

  /** The n-th material is the staged copy of the n-th source. */
  predicate MaterialsOk(a: Assembly, k: Kind) {
    && |a.sources| == |a.materials|
    && (forall n :: 0 <= n < |a.sources| ==>
          && a.sources[n] in a.byPath && a.byPath[a.sources[n]] == a.materials[n].id
          && a.materials[n].id < a.stage.next
          && a.sources[n] in Staged(a.stage, k)
          && a.materials[n].path == PortablePath(k, Staged(a.stage, k)[a.sources[n]]))
    && (forall p <- a.byPath :: p in a.sources)
    && DistinctIds(a.materials)
  }

  predicate Distinct(gs: seq<Group>) {
    forall j, k :: 0 <= j < k < |gs| ==> gs[j].name != gs[k].name
  }

  /** Ids drawn before next, each at most once. */
  predicate Once(ids: multiset<nat>, next: nat) {
    forall x <- ids :: ids[x] == 1 && x < next
  }

  /** Segments are in step with the cuts placed so far, and each has a speed reference of its own. */
  ghost predicate TracksOk(a: Assembly, done: seq<Cut>) {
    && Distinct(a.groups)
    && (forall t: string :: Matches(On(a.groups, t), CutsOn(done, t), a.byPath))
    && Once(RefsOf(a.groups), a.stage.next)
  }

  ghost predicate Sound(a: Assembly, k: Kind, done: seq<Cut>) {
    NamesOk(a.stage) && MaterialsOk(a, k) && TracksOk(a, done)
  }

  // ---- staging ------------------------------------------------------------

  lemma {:induction false} StagingIsApart(s: Stage, k: Kind, p: Path, files: map<Path, Media>)
    requires NamesOk(s)
    ensures var r := StageOnce(s, k, p, files); r.Ok? ==> NamesOk(r.value)
  {
  }

  // ---- adding to a track --------------------------------------------------

  lemma {:induction false} AddOn(gs: seq<Group>, name: string, s: MediaSegment, t: string)
    ensures On(Add(gs, name, s), t) == On(gs, t) + (if t == name then [s] else [])
  {
    if gs != [] && gs[0].name != name {
      AddOn(gs[1..], name, s, t);
    }
  }

  lemma {:induction false} AddNames(gs: seq<Group>, name: string, s: MediaSegment)
    requires Distinct(gs)
    ensures Distinct(Add(gs, name, s))
    ensures forall g <- Add(gs, name, s) :: g.name == name || exists h <- gs :: h.name == g.name
  {
    if gs != [] && gs[0].name != name {
      var rest := gs[1..];
      AddNames(rest, name, s);
      forall g | g in Add(rest, name, s) ensures g.name != gs[0].name {
        if g.name != name {
          var h :| h in rest && h.name == g.name;
        }
      }
    }
  }

  lemma {:induction false} AddRefs(gs: seq<Group>, name: string, s: MediaSegment)
    ensures RefsOf(Add(gs, name, s)) == RefsOf(gs) + multiset{s.speed}
  {
    if gs == [] {
      assert SpeedsOf([s]) == [s.speed];
    } else if gs[0].name == name {
      assert SpeedsOf(gs[0].segments + [s]) == SpeedsOf(gs[0].segments) + [s.speed];
    } else {
      AddRefs(gs[1..], name, s);
    }
  }

  lemma {:induction false} CutsOnAppend(cs: seq<Cut>, c: Cut, t: string)
    ensures CutsOn(cs + [c], t) == CutsOn(cs, t) + (if c.track == t then [c] else [])
  {
    assert (cs + [c])[..|cs|] == cs;
  }

  // ---- one placement ------------------------------------------------------

  /** s has staged p and kept whatever a had staged. */
  predicate Extends(s: Stage, a: Assembly, k: Kind, p: Path) {
    && p !in a.byPath && p in Staged(s, k) && a.stage.next == s.next
    && forall q <- Staged(a.stage, k) :: q in Staged(s, k) && Staged(s, k)[q] == Staged(a.stage, k)[q]
  }

  lemma {:induction false} NewMaterial(a: Assembly, k: Kind, p: Path, s: Stage, duration: int)
    requires MaterialsOk(a, k) && Extends(s, a, k, p)
    ensures MaterialsOk(AddMaterial(a, s, k, p, duration), k)
  {
    var b := AddMaterial(a, s, k, p, duration);
    assert b.sources[|a.sources|] == p;
    forall q | q in a.byPath ensures q in b.sources {
      assert q in a.sources;
    }
  }

  lemma {:induction false} StagingExtends(a: Assembly, k: Kind, p: Path, files: map<Path, Media>)
    requires p !in a.byPath
    ensures var s := StageOnce(a.stage, k, p, files); s.Ok? ==> Extends(s.value, a, k, p)
  {
    StagingKeeps(a.stage, k, p, files);
  }

  lemma {:induction false} MaterialKeeps(a: Assembly, k: Kind, c: Cut, files: map<Path, Media>)
    requires MaterialsOk(a, k)
    ensures var r := WithMaterial(a, k, c, files); r.Ok? ==> MaterialsOk(r.value, k)
  {
    if c.source !in a.byPath {
      var s := StageOnce(a.stage, k, c.source, files);
      StagingExtends(a, k, c.source, files);
      if s.Ok? { NewMaterial(a, k, c.source, s.value, MaterialLength(files, c)); }
    }
  }

  lemma {:induction false} MaterialAdds(a: Assembly, k: Kind, c: Cut, files: map<Path, Media>)
    ensures var r := WithMaterial(a, k, c, files);
            r.Ok? ==> r.value.groups == a.groups && a.stage.next <= r.value.stage.next
                      && forall p <- a.byPath :: p in r.value.byPath && r.value.byPath[p] == a.byPath[p]
  {
    StagingKeeps(a.stage, k, c.source, files);
  }

  lemma {:induction false} NewOnce(ids: multiset<nat>, next: nat, later: nat)
    requires Once(ids, next) && next < later
    ensures Once(ids + multiset{next}, later)
  {
  }

  lemma {:induction false} SegmentOn(a: Assembly, done: seq<Cut>, c: Cut, t: string)
    requires c.source in a.byPath && Matches(On(a.groups, t), CutsOn(done, t), a.byPath)
    ensures Matches(On(WithSegment(a, c).groups, t), CutsOn(done + [c], t), a.byPath)
  {
    var n := a.stage.next;
    var s := MediaSegment(n + 1, a.byPath[c.source], c.start, c.duration, c.sourceStart, c.sourceDuration, n);
    AddOn(a.groups, c.track, s, t);
    CutsOnAppend(done, c, t);
  }

  lemma {:induction false} SegmentRefs(a: Assembly, c: Cut)
    requires c.source in a.byPath
    ensures RefsOf(WithSegment(a, c).groups) == RefsOf(a.groups) + multiset{a.stage.next}
  {
    var n := a.stage.next;
    AddRefs(a.groups, c.track, MediaSegment(n + 1, a.byPath[c.source], c.start, c.duration, c.sourceStart, c.sourceDuration, n));
  }

  lemma {:induction false} SegmentKeeps(a: Assembly, done: seq<Cut>, c: Cut)
    requires c.source in a.byPath && TracksOk(a, done)
    ensures TracksOk(WithSegment(a, c), done + [c])
  {
    var b := WithSegment(a, c);
    var n := a.stage.next;
    var s := MediaSegment(n + 1, a.byPath[c.source], c.start, c.duration, c.sourceStart, c.sourceDuration, n);
    AddNames(a.groups, c.track, s);
    SegmentRefs(a, c);
    NewOnce(RefsOf(a.groups), n, n + 2);
    forall t: string ensures Matches(On(b.groups, t), CutsOn(done + [c], t), b.byPath) {
      SegmentOn(a, done, c, t);
    }
  }

  lemma {:induction false} TracksFollow(a: Assembly, b: Assembly, done: seq<Cut>)
    requires TracksOk(a, done) && b.groups == a.groups && a.stage.next <= b.stage.next
    requires forall p <- a.byPath :: p in b.byPath && b.byPath[p] == a.byPath[p]
    ensures TracksOk(b, done)
  {
    forall t: string ensures Matches(On(b.groups, t), CutsOn(done, t), b.byPath) {
      assert Matches(On(a.groups, t), CutsOn(done, t), a.byPath);
    }
  }

  lemma {:induction false} PlaceTracks(a: Assembly, k: Kind, done: seq<Cut>, c: Cut, files: map<Path, Media>)
    requires TracksOk(a, done)
    ensures var r := Place(a, k, c, files); r.Ok? ==> TracksOk(r.value, done + [c])
  {
    var m := WithMaterial(a, k, c, files);
    if m.Ok? {
      MaterialAdds(a, k, c, files);
      TracksFollow(a, m.value, done);
      SegmentKeeps(m.value, done, c);
    }
  }

  lemma {:induction false} PlaceMaterials(a: Assembly, k: Kind, c: Cut, files: map<Path, Media>)
    requires MaterialsOk(a, k)
    ensures var r := Place(a, k, c, files); r.Ok? ==> MaterialsOk(r.value, k)
  {
    MaterialKeeps(a, k, c, files);
  }

  lemma {:induction false} PlaceNames(a: Assembly, k: Kind, c: Cut, files: map<Path, Media>)
    requires NamesOk(a.stage)
    ensures var r := Place(a, k, c, files); r.Ok? ==> NamesOk(r.value.stage)
  {
    StagingIsApart(a.stage, k, c.source, files);
  }

  lemma {:induction false} Regroup<T>(a: seq<T>, cs: seq<T>)
    requires cs != []
    ensures a + [cs[0]] + cs[1..] == a + cs
  {
  }

  lemma {:induction false} PlaceAllKeeps(a: Assembly, k: Kind, done: seq<Cut>, cs: seq<Cut>, files: map<Path, Media>)
    requires Sound(a, k, done)
    ensures var r := PlaceAll(a, k, cs, files); r.Ok? ==> Sound(r.value, k, done + cs)
    decreases |cs|
  {
    if cs == [] {
      assert done + cs == done;
    } else {
      var b := Place(a, k, cs[0], files);
      PlaceTracks(a, k, done, cs[0], files);
      PlaceMaterials(a, k, cs[0], files);
      PlaceNames(a, k, cs[0], files);
      Regroup(done, cs);
      if b.Ok? {
        PlaceAllKeeps(b.value, k, done + [cs[0]], cs[1..], files);
      }
    }
  }

  // ---- the two halves -----------------------------------------------------

  lemma {:induction false} FirstStageApart(i: Input, files: map<Path, Media>)
    ensures var r := FirstStage(i, files); r.Ok? ==> NamesOk(r.value)
  {
    var s0 := Stage({}, map[], map[], 0);
    StagingIsApart(s0, Video, ProbePath(i), files);
    var s := StageOnce(s0, Video, ProbePath(i), files);
    if s.Ok? && i.audioPath.Some? { StagingIsApart(s.value, Audio, i.audioPath.value, files); }
  }

  lemma {:induction false} EmptySound(s: Stage, k: Kind)
    requires NamesOk(s)
    ensures Sound(Assembly(s, map[], [], [], []), k, [])
  {
  }

  lemma {:induction false} SingleSound(s: Stage, k: Kind, p: Path, duration: int)
    requires NamesOk(s) && p in Staged(s, k)
    ensures Sound(Single(s, k, p, duration), k, [])
  {
    assert Single(s, k, p, duration).sources[0] == p;
  }

  lemma {:induction false} VideoPartSound(i: Input, files: map<Path, Media>)
    ensures var v := VideoPart(i, files); v.Ok? ==> Sound(v.value, Video, VideoWork(i, files))
  {
    var s := FirstStage(i, files);
    if s.Ok? {
      FirstStageApart(i, files);
      FirstStageHas(i, files);
      if i.videos != [] { EmptySound(s.value, Video); }
      else { SingleSound(s.value, Video, i.videoPath, DraftDuration(i, files)); }
      PlaceAllKeeps(VideoStart(i, s.value, files), Video, [], VideoWork(i, files), files);
      assert [] + VideoWork(i, files) == VideoWork(i, files);
    }
  }

  lemma {:induction false} AudioPartSound(i: Input, files: map<Path, Media>)
    ensures var a := AudioPart(i, files); a.Ok? ==> Sound(a.value, Audio, AudioWork(i, files))
  {
    var v := VideoPart(i, files);
    if v.Ok? {
      VideoPartSound(i, files);
      VideoPartKeepsAudio(i, files);
      var s := v.value.stage;
      if i.audios != [] || i.audioPath.None? { EmptySound(s, Audio); }
      else { SingleSound(s, Audio, i.audioPath.value, NarrationDuration(i, files, i.audioPath.value)); }
      PlaceAllKeeps(AudioStart(i, s, files), Audio, [], AudioWork(i, files), files);
      assert [] + AudioWork(i, files) == AudioWork(i, files);
    }
  }

  function Work(i: Input, files: map<Path, Media>, k: Kind): seq<Cut> {
    if k.Video? then VideoWork(i, files) else AudioWork(i, files)
  }

  // ---- missing files ------------------------------------------------------

  predicate Known(a: Assembly, k: Kind, files: map<Path, Media>) {
    && a.stage.videos.Keys <= files.Keys && a.stage.audios.Keys <= files.Keys
    && a.byPath.Keys <= Staged(a.stage, k).Keys
  }

  lemma {:induction false} PlacesExactly(a: Assembly, k: Kind, cs: seq<Cut>, files: map<Path, Media>)
    requires Known(a, k, files)
    ensures var r := PlaceAll(a, k, cs, files);
            (r.Ok? <==> forall c <- cs :: c.source in files) && (r.Ok? ==> Known(r.value, k, files))
    decreases |cs|
  {
    if cs != [] {
      StagingKeeps(a.stage, k, cs[0].source, files);
      var b := Place(a, k, cs[0], files);
      assert b.Ok? <==> cs[0].source in files;
      if b.Ok? { PlacesExactly(b.value, k, cs[1..], files); }
    }
  }

  /** A build fails exactly when a file it needs is missing: the probed video, the narration, or the source of
      a segment that survives the filters. */
  lemma {:induction false} BuildSucceedsExactly(i: Input, files: map<Path, Media>)
    ensures Build(i, files).Ok? <==>
            && ProbePath(i) in files && (i.audioPath.Some? ==> i.audioPath.value in files)
            && (forall k, c :: c in Work(i, files, k) ==> c.source in files)
  {
    var s := FirstStage(i, files);
    FirstStageHas(i, files);
    if s.Ok? {
      var v := VideoPart(i, files);
      PlacesExactly(VideoStart(i, s.value, files), Video, Work(i, files, Video), files);
      if v.Ok? {
        VideoPartKeepsAudio(i, files);
        PlacesExactly(AudioStart(i, v.value.stage, files), Audio, Work(i, files, Audio), files);
      }
    }
  }

  // ---- lengths ------------------------------------------------------------

  function End(c: Cut): int { c.sourceStart + c.sourceDuration }

  /** Where the first cut of p stops in its source. */
  function FirstEnd(cs: seq<Cut>, p: Path): Option<int> {
    if cs == [] then None
    else
      var e := FirstEnd(cs[..|cs| - 1], p);
      if e.None? && cs[|cs| - 1].source == p then Some(End(cs[|cs| - 1])) else e
  }

  /** Each material is as long as the file, or as its first cut needs. */
  predicate LengthsOk(a: Assembly, done: seq<Cut>, files: map<Path, Media>) {
    && |a.sources| == |a.materials|
    && (forall n :: 0 <= n < |a.sources| ==>
          && FirstEnd(done, a.sources[n]).Some?
          && a.materials[n].duration == Max(Max(Probe(files, a.sources[n]), FirstEnd(done, a.sources[n]).value), 1))
    && (forall c <- done :: c.source in a.byPath)
  }

  lemma {:induction false} FirstEndAppend(cs: seq<Cut>, c: Cut, p: Path)
    ensures FirstEnd(cs + [c], p) == if FirstEnd(cs, p).None? && c.source == p then Some(End(c)) else FirstEnd(cs, p)
  {
    assert (cs + [c])[..|cs|] == cs;
  }

  lemma {:induction false} FirstEndOfUsed(cs: seq<Cut>, p: Path)
    ensures FirstEnd(cs, p).Some? <==> exists c <- cs :: c.source == p
  {
    if cs != [] {
      FirstEndOfUsed(cs[..|cs| - 1], p);
      assert cs == cs[..|cs| - 1] + [cs[|cs| - 1]];
    }
  }

  lemma {:induction false} PlaceLengths(a: Assembly, k: Kind, done: seq<Cut>, c: Cut, files: map<Path, Media>)
    requires LengthsOk(a, done, files)
    ensures var r := Place(a, k, c, files); r.Ok? ==> LengthsOk(r.value, done + [c], files)
  {
    var r := Place(a, k, c, files);
    if r.Ok? {
      var b := r.value;
      FirstEndOfUsed(done, c.source);
      forall n | 0 <= n < |r.value.sources|
        ensures FirstEnd(done + [c], r.value.sources[n]) == if n < |a.sources| then FirstEnd(done, a.sources[n]) else Some(End(c))
      {
        FirstEndAppend(done, c, r.value.sources[n]);
      }
    }
  }

  lemma {:induction false} PlaceAllLengths(a: Assembly, k: Kind, done: seq<Cut>, cs: seq<Cut>, files: map<Path, Media>)
    requires LengthsOk(a, done, files)
    ensures var r := PlaceAll(a, k, cs, files); r.Ok? ==> LengthsOk(r.value, done + cs, files)
    decreases |cs|
  {
    if cs == [] {
      assert done + cs == done;
    } else {
      var b := Place(a, k, cs[0], files);
      PlaceLengths(a, k, done, cs[0], files);
      Regroup(done, cs);
      if b.Ok? { PlaceAllLengths(b.value, k, done + [cs[0]], cs[1..], files); }
    }
  }

  // ---- speeds -------------------------------------------------------------

  predicate From(ids: multiset<nat>, low: nat) { forall x <- ids :: x >= low }

  lemma {:induction false} PlaceIsNew(a: Assembly, k: Kind, c: Cut, files: map<Path, Media>, low: nat)
    requires From(RefsOf(a.groups), low) && low <= a.stage.next
    ensures var r := Place(a, k, c, files); r.Ok? ==> From(RefsOf(r.value.groups), low) && low <= r.value.stage.next
  {
    MaterialAdds(a, k, c, files);
    var m := WithMaterial(a, k, c, files);
    if m.Ok? { SegmentRefs(m.value, c); }
  }

  lemma {:induction false} RefsAreNew(a: Assembly, k: Kind, cs: seq<Cut>, files: map<Path, Media>, low: nat)
    requires From(RefsOf(a.groups), low) && low <= a.stage.next
    ensures var r := PlaceAll(a, k, cs, files); r.Ok? ==> From(RefsOf(r.value.groups), low) && low <= r.value.stage.next
    decreases |cs|
  {
    if cs != [] {
      PlaceIsNew(a, k, cs[0], files, low);
      var b := Place(a, k, cs[0], files);
      if b.Ok? { RefsAreNew(b.value, k, cs[1..], files, low); }
    }
  }

  lemma {:induction false} OnceTogether(a: multiset<nat>, b: multiset<nat>, low: nat, next: nat)
    requires Once(a, low) && Once(b, next) && From(b, low) && low <= next
    ensures Once(a + b, next)
  {
  }

  // ---- the theorems -------------------------------------------------------

  function Materials(d: Package, k: Kind): seq<Material> { if k.Video? then d.videos else d.audios }

  /** The segment plays its cut, from the material that is the staged copy of the cut's own source. */
  predicate Plays(d: Package, k: Kind, s: MediaSegment, c: Cut) {
    && s.start == c.start && s.duration == c.duration
    && s.sourceStart == c.sourceStart && s.sourceDuration == c.sourceDuration
    && c.source in Staged(d.stage, k)
    && Has(Materials(d, k), s.material, PortablePath(k, Staged(d.stage, k)[c.source]))
  }

  lemma {:induction false} OnAt(gs: seq<Group>, n: nat)
    requires n < |gs| && Distinct(gs)
    ensures On(gs, gs[n].name) == gs[n].segments
  {
    if n > 0 {
      OnAt(gs[1..], n - 1);
    }
  }

  lemma {:induction false} OnSome(gs: seq<Group>, t: string)
    requires On(gs, t) != []
    ensures exists n :: 0 <= n < |gs| && gs[n].name == t
  {
    if gs[0].name != t {
      OnSome(gs[1..], t);
      var n :| 0 <= n < |gs[1..]| && gs[1..][n].name == t;
      assert gs[n + 1].name == t;
    }
  }

  /** Every track of that kind plays exactly its own cuts, in order, and every cut has its track. */
  predicate TracksPlay(d: Package, k: Kind, cs: seq<Cut>) {
    && (forall t <- d.tracks :: t.kind == k ==>
          |t.segments| == |CutsOn(cs, t.name)|
          && forall n :: 0 <= n < |t.segments| ==> Plays(d, k, t.segments[n], CutsOn(cs, t.name)[n]))
    && (forall c <- cs :: exists t <- d.tracks :: t.kind == k && t.name == c.track)
  }

  /** No two tracks of one kind share a name. */
  predicate TracksDiffer(ts: seq<Track>) {
    forall m, n :: 0 <= m < n < |ts| && ts[m].kind == ts[n].kind ==> ts[m].name != ts[n].name
  }

  lemma {:induction false} CutsOnHas(cs: seq<Cut>, c: Cut)
    requires c in cs
    ensures c in CutsOn(cs, c.track)
  {
    if c != cs[|cs| - 1] {
      assert cs == cs[..|cs| - 1] + [cs[|cs| - 1]];
      CutsOnHas(cs[..|cs| - 1], c);
    }
  }

  lemma {:induction false} SpeedsAreRefs(gs: seq<Group>)
    ensures multiset(Speeds(gs)) == RefsOf(gs)
  {
    if gs != [] { SpeedsAreRefs(gs[1..]); }
  }

  lemma {:induction false} AssemblyPlays(d: Package, k: Kind, a: Assembly, cs: seq<Cut>)
    requires MaterialsOk(a, k) && TracksOk(a, cs) && Materials(d, k) == a.materials
    requires forall p <- Staged(a.stage, k) :: p in Staged(d.stage, k) && Staged(d.stage, k)[p] == Staged(a.stage, k)[p]
    requires forall t <- d.tracks :: t.kind == k ==> t in Tracks(k, a.groups)
    requires forall t <- Tracks(k, a.groups) :: t in d.tracks
    ensures TracksPlay(d, k, cs)
  {
    forall t | t in d.tracks && t.kind == k
      ensures Matches(t.segments, CutsOn(cs, t.name), a.byPath)
    {
      var n :| 0 <= n < |a.groups| && t == Tracks(k, a.groups)[n];
      OnAt(a.groups, n);
      assert Matches(On(a.groups, t.name), CutsOn(cs, t.name), a.byPath);
    }
    forall c | c in cs ensures exists t <- d.tracks :: t.kind == k && t.name == c.track {
      CutsOnHas(cs, c);
      assert Matches(On(a.groups, c.track), CutsOn(cs, c.track), a.byPath);
      OnSome(a.groups, c.track);
      var n :| 0 <= n < |a.groups| && a.groups[n].name == c.track;
      assert Tracks(k, a.groups)[n] in d.tracks;
    }
  }

  lemma {:induction false} TracksAreGroups(i: Input, files: map<Path, Media>)
    requires Build(i, files).Ok?
    ensures var d, v, a := Build(i, files).value, VideoPart(i, files).value, AudioPart(i, files).value;
            && (forall t <- d.tracks :: if t.kind.Video? then t in Tracks(Video, v.groups) else t in Tracks(Audio, a.groups))
            && (forall t <- Tracks(Video, v.groups) :: t in d.tracks)
            && (forall t <- Tracks(Audio, a.groups) :: t in d.tracks)
  {
  }

  /** The media part of every finished draft is closed: material ids are distinct, and each segment plays its
      own cut from the material that is the staged copy of that cut's source. */
  lemma {:induction false} BuildIsClosed(i: Input, files: map<Path, Media>, k: Kind)
    requires Build(i, files).Ok?
    ensures var d := Build(i, files).value;
            DistinctIds(Materials(d, k)) && TracksPlay(d, k, Work(i, files, k))
  {
    var d, v, a := Build(i, files).value, VideoPart(i, files).value, AudioPart(i, files).value;
    VideoPartSound(i, files);
    AudioPartSound(i, files);
    VideoPartKeepsAudio(i, files);
    PlacingKeepsStaged(AudioStart(i, v.stage, files), Audio, AudioWork(i, files), files);
    TracksAreGroups(i, files);
    AssemblyPlays(d, k, if k.Video? then v else a, Work(i, files, k));
  }

  lemma {:induction false} BothDiffer(v: seq<Group>, a: seq<Group>)
    requires Distinct(v) && Distinct(a)
    ensures TracksDiffer(Tracks(Video, v) + Tracks(Audio, a))
  {
  }

  lemma {:induction false} TrackNamesDiffer(i: Input, files: map<Path, Media>)
    requires Build(i, files).Ok?
    ensures TracksDiffer(Build(i, files).value.tracks)
  {
    var v, a := VideoPart(i, files).value, AudioPart(i, files).value;
    VideoPartSound(i, files);
    AudioPartSound(i, files);
    BothDiffer(v.groups, a.groups);
  }

  /** Staged files never share a name. */
  lemma {:induction false} StagedNamesDiffer(i: Input, files: map<Path, Media>)
    requires Build(i, files).Ok?
    ensures NamesOk(Build(i, files).value.stage)
  {
    AudioPartSound(i, files);
  }

  predicate DistinctPaths(ms: seq<Material>) {
    forall j, k :: 0 <= j < k < |ms| ==> ms[j].path != ms[k].path
  }

  lemma {:induction false} PathsApart(k: Kind, a: string, b: string)
    requires a != b
    ensures PortablePath(k, a) != PortablePath(k, b)
  {
    var n := |PortablePath(k, "")|;
    assert PortablePath(k, a)[n..] == a && PortablePath(k, b)[n..] == b;
  }

  lemma {:induction false} PathsDiffer(a: Assembly, k: Kind)
    requires NamesOk(a.stage) && MaterialsOk(a, k)
    ensures DistinctPaths(a.materials)
  {
    forall j, n | 0 <= j < n < |a.materials| ensures a.materials[j].path != a.materials[n].path {
      assert a.sources[j] != a.sources[n];
      PathsApart(k, Staged(a.stage, k)[a.sources[j]], Staged(a.stage, k)[a.sources[n]]);
    }
  }

  lemma {:induction false} MaterialPathsDiffer(i: Input, files: map<Path, Media>, k: Kind)
    requires Build(i, files).Ok?
    ensures DistinctPaths(Materials(Build(i, files).value, k))
  {
    VideoPartSound(i, files);
    AudioPartSound(i, files);
    PathsDiffer(VideoPart(i, files).value, Video);
    PathsDiffer(AudioPart(i, files).value, Audio);
  }

  /** Two segments of one kind share a material exactly when their cuts have the same source. */
  lemma {:induction false} SharedExactly(i: Input, files: map<Path, Media>, k: Kind, s: MediaSegment, c: Cut, s': MediaSegment, c': Cut)
    requires Build(i, files).Ok?
    requires Plays(Build(i, files).value, k, s, c) && Plays(Build(i, files).value, k, s', c')
    ensures s.material == s'.material <==> c.source == c'.source
  {
    var d := Build(i, files).value;
    MaterialPathsDiffer(i, files, k);
    BuildIsClosed(i, files, k);
    StagedNamesDiffer(i, files);
    if c.source != c'.source {
      PathsApart(k, Staged(d.stage, k)[c.source], Staged(d.stage, k)[c'.source]);
    }
  }

  lemma {:induction false} BothOnce(i: Input, files: map<Path, Media>)
    requires Build(i, files).Ok?
    ensures var d := Build(i, files).value; Once(multiset(d.speeds), d.stage.next)
  {
    var v, a := VideoPart(i, files).value, AudioPart(i, files).value;
    VideoPartSound(i, files);
    AudioPartSound(i, files);
    VideoPartKeepsAudio(i, files);
    RefsAreNew(AudioStart(i, v.stage, files), Audio, AudioWork(i, files), files, v.stage.next);
    SpeedsAreRefs(v.groups);
    SpeedsAreRefs(a.groups);
    OnceTogether(RefsOf(v.groups), RefsOf(a.groups), v.stage.next, a.stage.next);
  }

  /** The speeds the segments of the tracks refer to, track after track. */
  function TrackSpeeds(ts: seq<Track>): seq<nat> {
    if ts == [] then [] else SpeedsOf(ts[0].segments) + TrackSpeeds(ts[1..])
  }

  lemma {:induction false} GroupSpeeds(k: Kind, gs: seq<Group>, n: nat)
    requires n <= |gs|
    ensures TrackSpeeds(Tracks(k, gs)[n..]) == Speeds(gs[n..])
    decreases |gs| - n
  {
    if n < |gs| {
      var ts := Tracks(k, gs);
      assert ts[n..][0] == ts[n] && ts[n..][1..] == ts[n + 1..];
      assert gs[n..][0] == gs[n] && gs[n..][1..] == gs[n + 1..];
      GroupSpeeds(k, gs, n + 1);
    }
  }

  lemma {:induction false} SpeedsJoin(a: seq<Track>, b: seq<Track>)
    ensures TrackSpeeds(a + b) == TrackSpeeds(a) + TrackSpeeds(b)
  {
    if a == [] {
      assert a + b == b;
    } else {
      assert (a + b)[0] == a[0] && (a + b)[1..] == a[1..] + b;
      SpeedsJoin(a[1..], b);
      Associates(SpeedsOf(a[0].segments), TrackSpeeds(a[1..]), TrackSpeeds(b));
    }
  }

  lemma {:induction false} OnceEach(ids: seq<nat>, next: nat)
    requires Once(multiset(ids), next)
    ensures forall m, n :: 0 <= m < n < |ids| ==> ids[m] != ids[n]
  {
    forall m, n | 0 <= m < n < |ids| ensures ids[m] != ids[n] {
      assert ids == ids[..n] + [ids[n]] + ids[n + 1..];
      assert ids[m] in ids[..n];
      assert multiset(ids)[ids[n]] >= multiset(ids[..n])[ids[n]] + 1;
      assert multiset(ids)[ids[n]] <= 1;
    }
  }

  /** The speed materials of a finished draft are those its tracks' segments refer to, in order, and no two segments
      share one. */
  lemma {:induction false} SpeedsOnce(i: Input, files: map<Path, Media>)
    requires Build(i, files).Ok?
    ensures var d := Build(i, files).value;
            d.speeds == TrackSpeeds(d.tracks) && forall m, n :: 0 <= m < n < |d.speeds| ==> d.speeds[m] != d.speeds[n]
  {
    var v, a := VideoPart(i, files).value, AudioPart(i, files).value;
    BothOnce(i, files);
    OnceEach(Build(i, files).value.speeds, a.stage.next);
    GroupSpeeds(Video, v.groups, 0);
    GroupSpeeds(Audio, a.groups, 0);
    assert v.groups[0..] == v.groups && a.groups[0..] == a.groups;
    assert Tracks(Video, v.groups)[0..] == Tracks(Video, v.groups) && Tracks(Audio, a.groups)[0..] == Tracks(Audio, a.groups);
    SpeedsJoin(Tracks(Video, v.groups), Tracks(Audio, a.groups));
  }

  /** The source range lies inside one of the segment's materials. */
  predicate FitsSome(ms: seq<Material>, s: MediaSegment) {
    exists m <- ms :: m.id == s.material && 0 <= s.sourceStart && s.sourceStart + s.sourceDuration <= m.duration
  }

  /** The material of a source is that long. */
  predicate LengthIs(a: Assembly, p: Path, length: int) {
    && |a.sources| == |a.materials| && p in a.sources
    && forall n :: 0 <= n < |a.sources| && a.sources[n] == p ==> a.materials[n].duration == length
  }

  lemma {:induction false} RangeFits(d: Package, a: Assembly, k: Kind, length: int, s: MediaSegment, c: Cut)
    requires Materials(d, k) == a.materials && MaterialsOk(a, k) && NamesOk(a.stage) && LengthIs(a, c.source, length)
    requires forall p <- Staged(a.stage, k) :: p in Staged(d.stage, k) && Staged(d.stage, k)[p] == Staged(a.stage, k)[p]
    requires Plays(d, k, s, c)
    ensures FitsSome(Materials(d, k), s) <==> 0 <= c.sourceStart && End(c) <= length
  {
    var n :| 0 <= n < |a.sources| && a.sources[n] == c.source;
    PathsDiffer(a, k);
    assert a.materials[n] in a.materials && a.materials[n].id == s.material;
  }

  /** The segments of this kind were planned, so there is no single material to start from. */
  predicate Planned(i: Input, k: Kind) { if k.Video? then i.videos != [] else i.audios != [] }

  /** How long the material of a source is: planned, as its probed file or its first cut; alone, as the draft or as
      the narration. */
  function SourceLength(i: Input, files: map<Path, Media>, k: Kind, p: Path): int {
    if Planned(i, k) then
      var first := FirstEnd(Work(i, files, k), p);
      Max(Max(Probe(files, p), if first.Some? then first.value else 0), 1)
    else if k.Video? then DraftDuration(i, files)
    else NarrationDuration(i, files, p)
  }

  function Part(i: Input, files: map<Path, Media>, k: Kind): Result<Assembly, Path> {
    if k.Video? then VideoPart(i, files) else AudioPart(i, files)
  }

  lemma {:induction false} PlannedLengths(i: Input, files: map<Path, Media>, k: Kind, c: Cut)
    requires Build(i, files).Ok? && Planned(i, k) && c in Work(i, files, k) && MaterialsOk(Part(i, files, k).value, k)
    ensures LengthIs(Part(i, files, k).value, c.source, SourceLength(i, files, k, c.source))
  {
    var start := if k.Video? then FirstStage(i, files).value else VideoPart(i, files).value.stage;
    PlaceAllLengths(Assembly(start, map[], [], [], []), k, [], Work(i, files, k), files);
    assert [] + Work(i, files, k) == Work(i, files, k);
  }

  lemma {:induction false} KnownAddNone(a: Assembly, k: Kind, cs: seq<Cut>, files: map<Path, Media>)
    requires forall c <- cs :: c.source in a.byPath
    ensures var r := PlaceAll(a, k, cs, files); r.Ok? && r.value.materials == a.materials && r.value.sources == a.sources
    decreases |cs|
  {
    if cs != [] { KnownAddNone(Place(a, k, cs[0], files).value, k, cs[1..], files); }
  }

  lemma {:induction false} PlanCutsSource(es: seq<PlanEntry>, kind: TrackKind, track: string, source: Path, fps: int)
    ensures forall c <- PlanCuts(es, kind, track, source, fps) :: c.source == source
  {
    if es != [] { PlanCutsSource(es[1..], kind, track, source, fps); }
  }

  /** The one source of a kind that was not planned. */
  lemma {:induction false} AloneSource(i: Input, files: map<Path, Media>, k: Kind)
    requires !Planned(i, k)
    ensures forall c <- Work(i, files, k) :: if k.Video? then c.source == i.videoPath else i.audioPath == Some(c.source)
  {
    if k.Video? {
      PlanCutsSource(i.entries, PortraitTrack, "video", i.videoPath, DraftFps(i.timelineFps));
      PlanCutsSource(i.entries, BrollTrack, "broll", i.videoPath, DraftFps(i.timelineFps));
    }
  }

  lemma {:induction false} AloneLengths(i: Input, files: map<Path, Media>, k: Kind, c: Cut)
    requires Build(i, files).Ok? && !Planned(i, k) && c in Work(i, files, k)
    ensures LengthIs(Part(i, files, k).value, c.source, SourceLength(i, files, k, c.source))
  {
    AloneSource(i, files, k);
    FirstStageHas(i, files);
    if k.Video? {
      KnownAddNone(VideoStart(i, FirstStage(i, files).value, files), k, Work(i, files, k), files);
    } else {
      VideoPartKeepsAudio(i, files);
      KnownAddNone(AudioStart(i, VideoPart(i, files).value.stage, files), k, Work(i, files, k), files);
    }
  }

  /** A segment's source range fits its material exactly when it does not start before the file and stops no later
      than the material of its source lasts. Of planned segments that is the probed file or the first cut of the
      source, for later cuts do not lengthen a material; otherwise the draft, or the narration. */
  lemma {:induction false} RangeFitsExactly(i: Input, files: map<Path, Media>, k: Kind, s: MediaSegment, c: Cut)
    requires Build(i, files).Ok? && c in Work(i, files, k) && Plays(Build(i, files).value, k, s, c)
    ensures FitsSome(Materials(Build(i, files).value, k), s) <==>
            0 <= c.sourceStart && End(c) <= SourceLength(i, files, k, c.source)
  {
    VideoPartSound(i, files);
    AudioPartSound(i, files);
    if Planned(i, k) { PlannedLengths(i, files, k, c); } else { AloneLengths(i, files, k, c); }
    var v := VideoPart(i, files).value;
    VideoPartKeepsAudio(i, files);
    PlacingKeepsStaged(AudioStart(i, v.stage, files), Audio, AudioWork(i, files), files);
    RangeFits(Build(i, files).value, Part(i, files, k).value, k, SourceLength(i, files, k, c.source), s, c);
  }

  /** So a narration alone always fits. */
  lemma {:induction false} NarrationFits(i: Input, files: map<Path, Media>, s: MediaSegment, c: Cut)
    requires Build(i, files).Ok? && i.audios == [] && c in Work(i, files, Audio) && Plays(Build(i, files).value, Audio, s, c)
    ensures FitsSome(Materials(Build(i, files).value, Audio), s)
  {
    RangeFitsExactly(i, files, Audio, s, c);
  }

  /** No material of the segment reaches the end of its source range. */
  predicate Overruns(d: Package, k: Kind, s: MediaSegment) {
    forall m <- Materials(d, k) :: m.id == s.material ==> s.sourceStart + s.sourceDuration > m.duration
  }

  /** One recording played twice, the second time for longer than the file is known to be. */
  function Twice(p: Path, short: int, long: int): seq<AudioSegment> {
    [AudioSegment("voice", p, 0, short, 0, None), AudioSegment("voice", p, short, long, 0, None)]
  }

  lemma {:induction false} TwiceCuts(p: Path, short: int, long: int)
    requires 0 < short < long
    ensures var c, c' := Cut("voice", p, 0, short, 0, short), Cut("voice", p, short, long, 0, long);
            && AudioCuts(Twice(p, short, long)) == [c, c']
            && CutsOn([c, c'], "voice") == [c, c'] && FirstEnd([c, c'], p) == Some(short)
  {
    var c, c' := Cut("voice", p, 0, short, 0, short), Cut("voice", p, short, long, 0, long);
    var ss := Twice(p, short, long);
    assert ss[1..] == [ss[1]] && ss[1..][1..] == [];
    assert AudioCuts(ss[1..]) == [c'];
    assert [] + [c] == [c] && [c] + [c'] == [c, c'];
    CutsOnAppend([], c, "voice");
    CutsOnAppend([c], c', "voice");
    FirstEndAppend([], c, p);
    FirstEndAppend([c], c', p);
  }

  lemma {:induction false} TwiceBuilds(i: Input, files: map<Path, Media>, p: Path, short: int, long: int)
    requires 0 < short < long && p in files && i.videoPath in files && i.videos == [] && i.audioPath.None? && i.audios == Twice(p, short, long)
    ensures Build(i, files).Ok?
  {
    TwiceCuts(p, short, long);
    BuildSucceedsExactly(i, files);
    PlanCutsSource(i.entries, PortraitTrack, "video", i.videoPath, DraftFps(i.timelineFps));
    PlanCutsSource(i.entries, BrollTrack, "broll", i.videoPath, DraftFps(i.timelineFps));
  }

  lemma {:induction false} SecondPlayed(i: Input, files: map<Path, Media>, p: Path, short: int, long: int) returns (t: Track, s: MediaSegment)
    requires 0 < short < long && i.audios == Twice(p, short, long) && Build(i, files).Ok?
    ensures t in Build(i, files).value.tracks && t.kind.Audio? && s in t.segments
    ensures Plays(Build(i, files).value, Audio, s, Cut("voice", p, short, long, 0, long))
  {
    var cs := Work(i, files, Audio);
    TwiceCuts(p, short, long);
    BuildIsClosed(i, files, Audio);
    assert cs[1] in cs;
    t :| t in Build(i, files).value.tracks && t.kind == Audio && t.name == "voice";
    s := t.segments[1];
  }

  /** A build that succeeds with a segment that reads past the end of its material. */
  lemma {:induction false} LaterCutOverruns(i: Input, files: map<Path, Media>, p: Path, short: int, long: int)
    requires 0 < short < long && p in files && Probe(files, p) <= short
    requires i.videos == [] && i.videoPath in files && i.audioPath.None? && i.audios == Twice(p, short, long)
    ensures Build(i, files).Ok?
    ensures exists t <- Build(i, files).value.tracks :: exists s <- t.segments :: t.kind.Audio? && Overruns(Build(i, files).value, Audio, s)
  {
    TwiceBuilds(i, files, p, short, long);
    var t, s := SecondPlayed(i, files, p, short, long);
    TwiceCuts(p, short, long);
    RangeFitsExactly(i, files, Audio, s, Work(i, files, Audio)[1]);
    assert Overruns(Build(i, files).value, Audio, s);
  }

  // ---- contiguous tracks --------------------------------------------------

  function VideosOn(ss: seq<VideoSegment>, t: string): seq<VideoSegment> {
    if ss == [] then []
    else VideosOn(ss[..|ss| - 1], t) + (if ss[|ss| - 1].track == t then [ss[|ss| - 1]] else [])
  }

  lemma {:induction false} VideoCutsAppend(ss: seq<VideoSegment>, x: VideoSegment, fps: int)
    ensures VideoCuts(ss + [x], fps) == VideoCuts(ss, fps) + (if VideoCut(x, fps).Some? then [VideoCut(x, fps).value] else [])
  {
    if ss == [] {
      assert ss + [x] == [x];
    } else {
      assert (ss + [x])[1..] == ss[1..] + [x];
      VideoCutsAppend(ss[1..], x, fps);
    }
  }

  lemma {:induction false} PassingCut(x: VideoSegment, fps: int)
    requires 0 < Effective(fps) <= MICROS && PassesFrames(x)
    ensures VideoCut(x, fps).Some? && VideoCut(x, fps).value.track == x.track
  {
    CompilationIsMonotone(x.start, x.end, fps);
    CompilationIsMonotone(x.sourceStart, x.sourceEnd, fps);
  }

  lemma {:induction false} CutsOfTrack(ss: seq<VideoSegment>, t: string, fps: int)
    requires 0 < Effective(fps) <= MICROS && forall s <- ss :: PassesFrames(s)
    ensures forall s <- VideosOn(ss, t) :: PassesFrames(s)
    ensures |CutsOn(VideoCuts(ss, fps), t)| == |VideosOn(ss, t)|
    ensures forall n :: 0 <= n < |VideosOn(ss, t)| ==> VideoCut(VideosOn(ss, t)[n], fps) == Some(CutsOn(VideoCuts(ss, fps), t)[n])
  {
    if ss != [] {
      var front, x := ss[..|ss| - 1], ss[|ss| - 1];
      assert ss == front + [x] && x in ss;
      CutsOfTrack(front, t, fps);
      VideoCutsAppend(front, x, fps);
      PassingCut(x, fps);
      CutsOnAppend(VideoCuts(front, fps), VideoCut(x, fps).value, t);
    }
  }

  function TotalDuration(ss: seq<MediaSegment>): int {
    if ss == [] then 0 else ss[0].duration + TotalDuration(ss[1..])
  }

  lemma {:induction false} TotalsAgree(ss: seq<MediaSegment>, vs: seq<VideoSegment>, fps: int)
    requires |ss| == |vs| && forall n :: 0 <= n < |ss| ==> ss[n].duration == Duration(vs[n].start, vs[n].end, fps)
    ensures TotalDuration(ss) == TotalMicros(vs, fps)
  {
    if ss != [] { TotalsAgree(ss[1..], vs[1..], fps); }
  }

  /** From planned frames to the finished draft: up to a million frames per second no segment is lost, and a
      track contiguous in frames is contiguous in microseconds, its durations adding up to its whole span. */
  lemma {:induction false} ContiguousTracksStayContiguous(i: Input, files: map<Path, Media>, t: Track)
    requires Build(i, files).Ok? && t in Build(i, files).value.tracks && t.kind.Video? && i.videos != []
    requires 0 < Effective(DraftFps(i.timelineFps)) <= MICROS && forall s <- i.videos :: PassesFrames(s)
    ensures var vs := VideosOn(i.videos, t.name); var fps := DraftFps(i.timelineFps);
            && |t.segments| == |vs|
            && (forall n :: 0 <= n < |vs| ==>
                  t.segments[n].start == FrameToUs(vs[n].start, fps) && t.segments[n].duration == Duration(vs[n].start, vs[n].end, fps))
            && (vs != [] && Contiguous(vs) ==>
                  && (forall n :: 0 <= n < |vs| - 1 ==> t.segments[n].start + t.segments[n].duration == t.segments[n + 1].start)
                  && TotalDuration(t.segments) == Duration(vs[0].start, vs[|vs| - 1].end, fps))
  {
    var vs, fps := VideosOn(i.videos, t.name), DraftFps(i.timelineFps);
    var d := Build(i, files).value;
    BuildIsClosed(i, files, Video);
    CutsOfTrack(i.videos, t.name, fps);
    forall n | 0 <= n < |vs|
      ensures t.segments[n].start == FrameToUs(vs[n].start, fps) && t.segments[n].duration == Duration(vs[n].start, vs[n].end, fps)
    {
      assert Plays(d, Video, t.segments[n], CutsOn(VideoCuts(i.videos, fps), t.name)[n]);
    }
    TotalsAgree(t.segments, vs, fps);
    if vs != [] && Contiguous(vs) { DurationsTelescope(vs, fps); }
  }
}
