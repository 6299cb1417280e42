/** What every patch keeps: replay, canonical ownership of the projection, and the frame of light edits. */
module AnnotationLaws {
  import opened Results
  import opened JsonTree
  import opened AnnotationPatch

  // ---- one key of the carried projection at a time ------------------------

  /** What one operation does to the value carried under a key. */
  function EffectAt(e: Effect, key: string, o: Option<Json>): Result<Option<Json>, Error> {
    match e
    case Write(parts, v) => if parts != [] && parts[0] == key then Ok(Some(SetIn(o, parts[1..], v))) else Ok(o)
    case Note(parts, v) =>
      if key != NOTES then Ok(o)
      else if parts == [] then Ok(Some(Or(o, JObj(map[]))))
      else if o.Some? && !o.value.JObj? then Err(TypeFailure)
      else Ok(Some(SetIn(o, parts, v)))
    case _ => Ok(o)
  }

  function FoldAt(ops: seq<Operation>, key: string, o: Option<Json>): Result<Option<Json>, Error>
    decreases |ops|
  {
    if ops == [] then Ok(o)
    else
      var r := EffectAt(Classify(ops[0]), key, o);
      if r.Err? then r else FoldAt(ops[1..], key, r.value)
  }

  lemma {:induction false} NoteByKey(light: Object, parts: seq<string>, v: Json, key: string)
    requires WriteNote(light, parts, v).Ok?
    ensures EffectAt(Note(parts, v), key, At(light, key)) == Ok(At(WriteNote(light, parts, v).value, key))
  {
    if parts != [] {
      assert FieldsOf(At(Default(light, NOTES, JObj(map[])), NOTES)) == FieldsOf(At(light, NOTES));
    }
  }

  lemma {:induction false} WriteByKey(light: Object, parts: seq<string>, v: Json, key: string)
    requires parts != []
    ensures EffectAt(Write(parts, v), key, At(light, key)) == Ok(At(FieldsOf(Some(SetIn(Some(JObj(light)), parts, v))), key))
  {
  }

  lemma {:induction false} AnyEffectByKey(schema: Schema, duration: real, d: Draft, e: Effect, key: string)
    requires ApplyEffect(schema, duration, d, e).Ok? && (e.Write? ==> e.parts != [])
    ensures EffectAt(e, key, At(d.light, key)) == Ok(At(ApplyEffect(schema, duration, d, e).value.light, key))
  {
    match e
    case Write(parts, v) => WriteByKey(d.light, parts, v, key);
    case Note(parts, v) => NoteByKey(d.light, parts, v, key);
    case _ =>
  }

  lemma {:induction false} WritesBelow(o: Operation)
    ensures Classify(o).Write? ==> Classify(o).parts != []
  {
  }

  lemma {:induction false} EffectByKey(schema: Schema, duration: real, d: Draft, o: Operation, key: string)
    requires ApplyEffect(schema, duration, d, Classify(o)).Ok?
    ensures EffectAt(Classify(o), key, At(d.light, key)) == Ok(At(ApplyEffect(schema, duration, d, Classify(o)).value.light, key))
  {
    WritesBelow(o);
    AnyEffectByKey(schema, duration, d, Classify(o), key);
  }

  lemma {:induction false} FoldByKey(schema: Schema, duration: real, d: Draft, ops: seq<Operation>, key: string)
    requires Fold(schema, duration, d, ops).Ok?
    ensures FoldAt(ops, key, At(d.light, key)) == Ok(At(Fold(schema, duration, d, ops).value.light, key))
    decreases |ops|
  {
    if ops != [] {
      EffectByKey(schema, duration, d, ops[0], key);
      FoldByKey(schema, duration, ApplyEffect(schema, duration, d, Classify(ops[0])).value, ops[1..], key);
    }
  }

  /** The writes an operation list makes below a key. */
  function WritesAt(ops: seq<Operation>, key: string): seq<PathWrite> {
    if ops == [] then []
    else
      var e := Classify(ops[0]);
      (if e.Write? && e.parts != [] && e.parts[0] == key then [(e.parts[1..], e.value)]
       else if e.Note? && e.parts != [] && key == NOTES then [(e.parts, e.value)]
       else []) + WritesAt(ops[1..], key)
  }

  predicate OnlyEnsures(o: Operation) {
    Classify(o).Note? && Classify(o).parts == []
  }

  predicate AnyEnsures(ops: seq<Operation>) {
    ops != [] && (OnlyEnsures(ops[0]) || AnyEnsures(ops[1..]))
  }

  /** The value a key effectively starts from: a bare /canonical/ path makes the notes an object first. */
  function Seeded(ops: seq<Operation>, key: string, o: Option<Json>): Option<Json> {
    if key == NOTES && o.None? && AnyEnsures(ops) then Some(JObj(map[])) else o
  }

  lemma {:induction false} FoldAtIsWrites(ops: seq<Operation>, key: string, o: Option<Json>)
    requires FoldAt(ops, key, o).Ok?
    ensures FoldAt(ops, key, o).value == PutAll(Seeded(ops, key, o), WritesAt(ops, key))
    decreases |ops|
  {
    if ops != [] {
      var e := Classify(ops[0]);
      var o' := EffectAt(e, key, o).value;
      FoldAtIsWrites(ops[1..], key, o');
      var rest := WritesAt(ops[1..], key);
      if WritesAt(ops, key) != rest {
        var w := WritesAt(ops, key)[0];
        assert WritesAt(ops, key)[1..] == rest;
        assert FieldsOf(Seeded(ops, key, o)) == FieldsOf(o);
        assert o' == Some(SetIn(Seeded(ops, key, o), w.0, w.1));
      }
    }
  }

  // ---- when the notes can be written again --------------------------------

  predicate Touches(o: Operation) {
    var e := Classify(o);
    (e.Write? && e.parts != [] && e.parts[0] == NOTES) || (e.Note? && e.parts != [])
  }

  predicate AnyTouch(ops: seq<Operation>) {
    ops != [] && (Touches(ops[0]) || AnyTouch(ops[1..]))
  }

  /** The first operation writing the notes does so through /canonical/. */
  predicate StartsWithNote(ops: seq<Operation>) {
    ops != [] && if Touches(ops[0]) then Classify(ops[0]).Note? else StartsWithNote(ops[1..])
  }

  predicate IsScalarReplacement(o: Operation) {
    var e := Classify(o);
    e.Write? && e.parts == [NOTES] && !e.value.JObj?
  }

  /** The last operation writing the notes replaces them, through /projection/, by something that is no object. */
  predicate EndsInScalar(ops: seq<Operation>) {
    ops != [] && if AnyTouch(ops[1..]) then EndsInScalar(ops[1..]) else IsScalarReplacement(ops[0])
  }

  predicate NotesClash(ops: seq<Operation>) {
    StartsWithNote(ops) && EndsInScalar(ops)
  }

  predicate ObjectOrAbsent(o: Option<Json>) {
    o.None? || o.value.JObj?
  }

  lemma {:induction false} SameShapeSameVerdict(ops: seq<Operation>, o1: Option<Json>, o2: Option<Json>)
    requires ObjectOrAbsent(o1) == ObjectOrAbsent(o2)
    ensures FoldAt(ops, NOTES, o1).Ok? <==> FoldAt(ops, NOTES, o2).Ok?
    decreases |ops|
  {
    if ops != [] {
      var e := Classify(ops[0]);
      var r1, r2 := EffectAt(e, NOTES, o1), EffectAt(e, NOTES, o2);
      if r1.Ok? && r2.Ok? {
        SameShapeSameVerdict(ops[1..], r1.value, r2.value);
      }
    }
  }

  lemma {:induction false} VerdictFrom(ops: seq<Operation>, o1: Option<Json>, o2: Option<Json>)
    requires FoldAt(ops, NOTES, o1).Ok?
    ensures FoldAt(ops, NOTES, o2).Ok? <==> !StartsWithNote(ops) || ObjectOrAbsent(o2)
    decreases |ops|
  {
    if ops != [] {
      var e := Classify(ops[0]);
      var r1, r2 := EffectAt(e, NOTES, o1), EffectAt(e, NOTES, o2);
      if r2.Ok? {
        if Touches(ops[0]) {
          SameShapeSameVerdict(ops[1..], r1.value, r2.value);
        } else {
          VerdictFrom(ops[1..], r1.value, r2.value);
        }
      }
    }
  }

  lemma {:induction false} ShapeAfter(ops: seq<Operation>, o: Option<Json>)
    requires FoldAt(ops, NOTES, o).Ok?
    ensures ObjectOrAbsent(FoldAt(ops, NOTES, o).value) <==> if AnyTouch(ops) then !EndsInScalar(ops) else ObjectOrAbsent(o)
    decreases |ops|
  {
    if ops != [] {
      ShapeAfter(ops[1..], EffectAt(Classify(ops[0]), NOTES, o).value);
    }
  }

  lemma {:induction false} NoteTouches(ops: seq<Operation>)
    requires StartsWithNote(ops)
    ensures AnyTouch(ops)
  {
    if !Touches(ops[0]) {
      NoteTouches(ops[1..]);
    }
  }

  lemma {:induction false} OtherKeysNeverFail(ops: seq<Operation>, key: string, o: Option<Json>)
    requires key != NOTES
    ensures FoldAt(ops, key, o).Ok?
    decreases |ops|
  {
    if ops != [] {
      OtherKeysNeverFail(ops[1..], key, EffectAt(Classify(ops[0]), key, o).value);
    }
  }

  lemma {:induction false} PutAllSome(o: Option<Json>, ps: seq<PathWrite>)
    ensures PutAll(o, ps).None? <==> o.None? && ps == []
    decreases |ps|
  {
    if ps != [] {
      PutAllSome(Some(SetIn(o, ps[0].0, ps[0].1)), ps[1..]);
    }
  }

  lemma {:induction false} NothingHappened(ops: seq<Operation>, key: string, s: Option<Json>)
    requires PutAll(s, WritesAt(ops, key)).None?
    ensures s.None? && WritesAt(ops, key) == []
  {
    PutAllSome(s, WritesAt(ops, key));
  }

  /** Replaying the list on the value it left under a key: possible unless the key is the notes and they clash,
      and then without effect. */
  lemma {:induction false} ReplayAt(ops: seq<Operation>, key: string, o: Option<Json>)
    requires FoldAt(ops, key, o).Ok?
    ensures var x := FoldAt(ops, key, o).value;
            && (FoldAt(ops, key, x).Ok? <==> key != NOTES || !NotesClash(ops))
            && (FoldAt(ops, key, x).Ok? ==> FoldAt(ops, key, x).value == x)
  {
    var x := FoldAt(ops, key, o).value;
    FoldAtIsWrites(ops, key, o);
    if key == NOTES {
      VerdictFrom(ops, o, x);
      ShapeAfter(ops, o);
      if StartsWithNote(ops) { NoteTouches(ops); }
    } else {
      OtherKeysNeverFail(ops, key, x);
    }
    if FoldAt(ops, key, x).Ok? {
      FoldAtIsWrites(ops, key, x);
      ReplayIsIdempotent(Seeded(ops, key, o), WritesAt(ops, key));
      if x.None? { NothingHappened(ops, key, Seeded(ops, key, o)); }
    }
  }

  // ---- two runs of one list -----------------------------------------------

  predicate SameEdits(d1: Draft, d2: Draft) {
    && d1.clips == d2.clips && d1.events == d2.events && d1.bgm == d2.bgm
    && d1.touched == d2.touched && (d1.touched ==> d1.labels == d2.labels)
  }

  lemma {:induction false} TwoEffects(schema: Schema, duration: real, d1: Draft, d2: Draft, e: Effect)
    requires ApplyEffect(schema, duration, d1, e).Ok? && SameEdits(d1, d2)
    ensures ApplyEffect(schema, duration, d2, e).Ok? <==> EffectAt(e, NOTES, At(d2.light, NOTES)).Ok?
    ensures ApplyEffect(schema, duration, d2, e).Ok? ==>
              SameEdits(ApplyEffect(schema, duration, d1, e).value, ApplyEffect(schema, duration, d2, e).value)
  {
  }

  /** Whatever projection they start from, two runs of a list make the same structural and label edits, and
      the second can only fail on its notes. */
  lemma {:induction false} TwoRuns(schema: Schema, duration: real, d1: Draft, d2: Draft, ops: seq<Operation>)
    requires Fold(schema, duration, d1, ops).Ok? && SameEdits(d1, d2)
    ensures var r1, r2 := Fold(schema, duration, d1, ops), Fold(schema, duration, d2, ops);
            && (r2.Ok? <==> FoldAt(ops, NOTES, At(d2.light, NOTES)).Ok?)
            && (r2.Ok? ==> SameEdits(r1.value, r2.value))
    decreases |ops|
  {
    if ops != [] {
      var e := Classify(ops[0]);
      var s1, s2 := ApplyEffect(schema, duration, d1, e), ApplyEffect(schema, duration, d2, e);
      TwoEffects(schema, duration, d1, d2, e);
      if s2.Ok? {
        EffectByKey(schema, duration, d2, ops[0], NOTES);
        TwoRuns(schema, duration, s1.value, s2.value, ops[1..]);
      }
    }
  }

  lemma {:induction false} UntouchedLabels(schema: Schema, duration: real, d: Draft, ops: seq<Operation>)
    requires Fold(schema, duration, d, ops).Ok?
    ensures var r := Fold(schema, duration, d, ops).value;
            (d.touched ==> r.touched) && (!r.touched ==> r.labels == d.labels)
    decreases |ops|
  {
    if ops != [] {
      UntouchedLabels(schema, duration, ApplyEffect(schema, duration, d, Classify(ops[0])).value, ops[1..]);
    }
  }

  lemma {:induction false} ProjectAt(a: Annotation, asset: Asset, light: Object, key: string)
    ensures At(Project(a, asset, light), key) ==
            if key == "title" then Some(if key in light then light[key] else JStr(asset.title))
            else if key == "usable" then Some(if key in light then light[key] else JBool(a.meta.status != "failed" && a.windows != []))
            else if key in BUILT then At(Layers(a), key)
            else At(light, key)
  {
  }

  lemma {:induction false} ProjectLayers(a: Annotation, asset: Asset, light: Object)
    ensures var p := Project(a, asset, light);
            && (forall key <- Layers(a).Keys :: key in p && p[key] == Layers(a)[key])
            && "title" in p && "usable" in p
  {
    forall key | key in Layers(a) ensures At(Project(a, asset, light), key) == At(Layers(a), key) {
      ProjectAt(a, asset, light, key);
    }
    ProjectAt(a, asset, light, "title");
    ProjectAt(a, asset, light, "usable");
  }

  lemma {:induction false} RebuiltLayers(schema: Schema, stored: Stored, projection: Object, asset: Asset, ops: seq<Operation>)
    requires Apply(schema, stored, projection, asset, ops).Ok?
    ensures var (a, p) := Apply(schema, stored, projection, asset, ops).value;
            && WellTimed(a)
            && (forall key <- Layers(a).Keys :: key in p && p[key] == Layers(a)[key])
            && "title" in p && "usable" in p
  {
    var a0 := Load(stored, asset).value;
    var d := Fold(schema, a0.meta.duration, Begin(stored, projection), ops).value;
    ProjectLayers(Merge(a0, d).value, asset, FinishLabels(d));
  }

  /** An array of the elements' dumps, in order. */
  predicate Shows(v: Json, xs: seq<Timed>) {
    v.JArr? && |v.items| == |xs| && forall k :: 0 <= k < |xs| ==> v.items[k] == xs[k].dump
  }

  predicate ShownAt(p: Object, key: string, xs: seq<Timed>) { key in p && Shows(p[key], xs) }

  lemma {:induction false} ProjectShows(a: Annotation, asset: Asset, light: Object)
    ensures var p := Project(a, asset, light);
            && ShownAt(p, "segments", a.clips) && ShownAt(p, "quality_events", a.events)
            && ShownAt(p, "usage_windows", a.windows) && ShownAt(p, "bgm_segments", a.bgm)
            && At(p, "quality_report") == Some(a.report) && At(p, "annotation_status") == Some(JStr(a.meta.status))
  {
    ProjectAt(a, asset, light, "segments");
    ProjectAt(a, asset, light, "quality_events");
    ProjectAt(a, asset, light, "usage_windows");
    ProjectAt(a, asset, light, "bgm_segments");
    ProjectAt(a, asset, light, "quality_report");
    ProjectAt(a, asset, light, "annotation_status");
  }

  /** The canonical owns the projection: whatever the editor wrote there, after every patch it shows the new canonical's
      clips as segments, its events, windows and BGM under their own keys, its report and its status. */
  lemma {:induction false} LayersComeFromCanonical(schema: Schema, stored: Stored, projection: Object, asset: Asset, ops: seq<Operation>)
    requires Apply(schema, stored, projection, asset, ops).Ok?
    ensures var (a, p) := Apply(schema, stored, projection, asset, ops).value;
            && ShownAt(p, "segments", a.clips) && ShownAt(p, "quality_events", a.events)
            && ShownAt(p, "usage_windows", a.windows) && ShownAt(p, "bgm_segments", a.bgm)
            && At(p, "quality_report") == Some(a.report) && At(p, "annotation_status") == Some(JStr(a.meta.status))
  {
    var a0 := Load(stored, asset).value;
    var d := Fold(schema, a0.meta.duration, Begin(stored, projection), ops).value;
    ProjectShows(Merge(a0, d).value, asset, FinishLabels(d));
  }

  /** The value a key has in the projection, from the value the fold left for it. */
  lemma {:induction false} CarriedAt(a: Annotation, asset: Asset, d: Draft, key: string)
    requires key !in BUILT && key != "labels"
    ensures At(Project(a, asset, FinishLabels(d)), key) == At(d.light, key)
  {
    ProjectAt(a, asset, FinishLabels(d), key);
  }

  lemma {:induction false} PresentStays(ops: seq<Operation>, key: string, o: Option<Json>)
    requires o.Some?
    ensures FoldAt(ops, key, o).Ok? ==> FoldAt(ops, key, o).value.Some?
    decreases |ops|
  {
    if ops != [] && EffectAt(Classify(ops[0]), key, o).Ok? {
      PresentStays(ops[1..], key, EffectAt(Classify(ops[0]), key, o).value);
    }
  }

  /** A key the list leaves absent is one it never writes. */
  lemma {:induction false} UnwrittenStays(ops: seq<Operation>, key: string, o: Option<Json>, x: Option<Json>)
    requires FoldAt(ops, key, o) == Ok(None)
    ensures FoldAt(ops, key, x) == Ok(x)
    decreases |ops|
  {
    if ops != [] {
      var o' := EffectAt(Classify(ops[0]), key, o).value;
      if o'.Some? {
        PresentStays(ops[1..], key, o');
      } else {
        UnwrittenStays(ops[1..], key, o', x);
      }
    }
  }

  /** What the replay carries under a key: what the first application left there, or, where it left nothing, what the
      projection has. */
  lemma {:induction false} ReplayLight(schema: Schema, duration: real, b1: Draft, b2: Draft, ops: seq<Operation>, key: string)
    requires Fold(schema, duration, b1, ops).Ok? && Fold(schema, duration, b2, ops).Ok? && !NotesClash(ops)
    ensures var x, y := At(Fold(schema, duration, b1, ops).value.light, key), At(Fold(schema, duration, b2, ops).value.light, key);
            (x == At(b2.light, key) ==> y == x) && (x.None? ==> y == At(b2.light, key))
  {
    FoldByKey(schema, duration, b1, ops, key);
    FoldByKey(schema, duration, b2, ops, key);
    ReplayAt(ops, key, At(b1.light, key));
    if At(Fold(schema, duration, b1, ops).value.light, key).None? { UnwrittenStays(ops, key, At(b1.light, key), At(b2.light, key)); }
  }

  lemma {:induction false} ReplayKey(schema: Schema, duration: real, stored: Stored, projection: Object, asset: Asset, a: Annotation, d1: Draft, d2: Draft, ops: seq<Operation>, key: string)
    requires Fold(schema, duration, Begin(stored, projection), ops) == Ok(d1)
    requires Fold(schema, duration, Begin(V4(a), Project(a, asset, FinishLabels(d1))), ops) == Ok(d2)
    requires SameEdits(d1, d2) && !NotesClash(ops)
    requires (!d1.touched ==> d1.labels == StoredLabels(stored)) && (!d2.touched ==> d2.labels == None)
    ensures At(Project(a, asset, FinishLabels(d2)), key) == At(Project(a, asset, FinishLabels(d1)), key)
  {
    ReplayLight(schema, duration, Begin(stored, projection), Begin(V4(a), Project(a, asset, FinishLabels(d1))), ops, key);
    ProjectAt(a, asset, FinishLabels(d1), key);
    ProjectAt(a, asset, FinishLabels(d2), key);
  }

  lemma {:induction false} CarriesNoParameter(a: Annotation, asset: Asset, light: Object)
    ensures NamesParameter(light) <==> NamesParameter(Project(a, asset, light))
  {
    ProjectAt(a, asset, light, "annotation");
    ProjectAt(a, asset, light, "asset");
  }

  /** A carried key named like a parameter of build_projection is never lost, so every patch of a projection that
      has one raises, and none leaves one behind. */
  lemma {:induction false} ParameterNamesRaise(schema: Schema, stored: Stored, projection: Object, asset: Asset, ops: seq<Operation>)
    ensures NamesParameter(projection) ==> Apply(schema, stored, projection, asset, ops).Err?
    ensures Apply(schema, stored, projection, asset, ops).Ok? ==>
              !NamesParameter(Apply(schema, stored, projection, asset, ops).value.1)
  {
    if Apply(schema, stored, projection, asset, ops).Ok? {
      var a0 := Load(stored, asset).value;
      var d := Fold(schema, a0.meta.duration, Begin(stored, projection), ops).value;
      CarriesNoParameter(Merge(a0, d).value, asset, FinishLabels(d));
      forall key | key in projection ensures key in d.light {
        FoldByKey(schema, a0.meta.duration, Begin(stored, projection), ops, key);
        PresentStays(ops, key, At(projection, key));
      }
    }
  }

  /** Applying an operation list again to its own result changes neither the canonical nor the projection,
      exactly when the list does not first note something below /canonical/ and last overwrite the notes
      with a non-object; then the second application raises. */
  lemma {:induction false} ReplayExactly(schema: Schema, stored: Stored, projection: Object, asset: Asset, ops: seq<Operation>)
    requires Apply(schema, stored, projection, asset, ops).Ok?
    ensures var once := Apply(schema, stored, projection, asset, ops);
            var twice := Apply(schema, V4(once.value.0), once.value.1, asset, ops);
            && (twice == once <==> !NotesClash(ops))
            && (NotesClash(ops) ==> twice.Err?)
  {
    var a0 := Load(stored, asset).value;
    var duration := a0.meta.duration;
    var b1 := Begin(stored, projection);
    var d1 := Fold(schema, duration, b1, ops).value;
    var (a1, p1) := Apply(schema, stored, projection, asset, ops).value;
    var b2 := Begin(V4(a1), p1);
    RebuiltLayers(schema, stored, projection, asset, ops);
    TwoRuns(schema, duration, b1, b2, ops);
    FoldByKey(schema, duration, b1, ops, NOTES);
    CarriedAt(a1, asset, d1, NOTES);
    ReplayAt(ops, NOTES, At(projection, NOTES));
    if !NotesClash(ops) {
      var d2 := Fold(schema, duration, b2, ops).value;
      UntouchedLabels(schema, duration, b1, ops);
      UntouchedLabels(schema, duration, b2, ops);
      assert Merge(a1, d2) == Ok(a1);
      forall key ensures At(Project(a1, asset, FinishLabels(d2)), key) == At(p1, key) {
        ReplayKey(schema, duration, stored, projection, asset, a1, d1, d2, ops, key);
      }
      SameFields(Project(a1, asset, FinishLabels(d2)), p1);
      CarriesNoParameter(a1, asset, FinishLabels(d1));
      CarriesNoParameter(a1, asset, FinishLabels(d2));
    }
  }

  lemma {:induction false} Component(current: string, name: string, rest: string)
    requires forall c <- name :: c != '/'
    requires current + name != "" && (rest == "" || rest[0] == '/')
    ensures PartsFrom(name + rest, current) == [current + name] + (if rest == "" then [] else Parts(rest[1..]))
    decreases |name|
  {
    if name == "" {
      assert name + rest == rest && current + name == current;
    } else {
      assert name[0] in name && forall c <- name[1..] :: c in name;
      assert (name + rest)[0] == name[0] && (name + rest)[1..] == name[1..] + rest;
      assert (current + [name[0]]) + name[1..] == current + name;
      Component(current + [name[0]], name[1..], rest);
    }
  }

  lemma {:induction false} OneComponent(name: string)
    requires name != "" && forall c <- name :: c != '/'
    ensures Parts(name) == [name]
  {
    Component("", name, "");
    assert name + "" == name && "" + name == name;
  }

  lemma {:induction false} TwoComponents(a: string, b: string)
    requires a != "" && b != "" && (forall c <- a + b :: c != '/')
    ensures Parts("/" + a + "/" + b) == [a, b]
  {
    var path := "/" + a + "/" + b;
    var tail := "/" + b;
    assert path[1..] == a + tail && tail[1..] == b;
    assert forall c <- a :: c in a + b;
    assert forall c <- b :: c in a + b;
    Component("", a, tail);
    OneComponent(b);
    assert "" + a == a;
  }

  lemma {:induction false} CanonicalPath(name: string, v: Json)
    requires |name| == 1 && name[0] != '/'
    ensures Classify(Operation(None, Some("/canonical/" + name), Some(v))) == Note([name], v)
  {
    TwoComponents("canonical", name);
    OneComponent(name);
    var path := "/canonical/" + name;
    assert path == "/" + "canonical" + "/" + name;
    assert path[|"/canonical/"|..] == name;
    assert |path| == 12 && path[1] == 'c' && "/projection/"[1] == 'p';
  }

  lemma {:induction false} ProjectionPath(name: string, v: Json)
    requires |name| == 15 && forall c <- name :: c != '/'
    ensures Classify(Operation(None, Some("/projection/" + name), Some(v))) == Write([name], v)
  {
    TwoComponents("projection", name);
    OneComponent(name);
    var path := "/projection/" + name;
    assert path == "/" + "projection" + "/" + name;
    assert path[|"/projection/"|..] == name;
    assert |path| == 27;
  }

  lemma {:induction false} FoldTwo(schema: Schema, duration: real, d: Draft, o1: Operation, o2: Operation)
    requires ApplyEffect(schema, duration, d, Classify(o1)).Ok?
    ensures Fold(schema, duration, d, [o1, o2]) ==
            ApplyEffect(schema, duration, ApplyEffect(schema, duration, d, Classify(o1)).value, Classify(o2))
  {
    var d1 := ApplyEffect(schema, duration, d, Classify(o1)).value;
    assert [o1, o2][1..] == [o2] && [o2][1..] == [];
    var r := ApplyEffect(schema, duration, d1, Classify(o2));
    assert Fold(schema, duration, d1, [o2]) == if r.Err? then r else Fold(schema, duration, r.value, []);
  }

  lemma {:induction false} FirstNote(schema: Schema, name: string, v: Json)
    ensures var r := ApplyEffect(schema, 0.0, Begin(Stub(None), map[]), Note([name], v));
            r.Ok? && r.value == Begin(Stub(None), r.value.light) && r.value.light.Keys == {NOTES}
  {
  }

  lemma {:induction false} OverNotes(schema: Schema, light: Object, v: Json)
    requires light.Keys == {NOTES}
    ensures ApplyEffect(schema, 0.0, Begin(Stub(None), light), Write([NOTES], v)) == Ok(Begin(Stub(None), map[NOTES := v]))
  {
    assert SetIn(Some(JObj(light)), [NOTES], v) == JObj(light[NOTES := v]);
    assert light[NOTES := v] == map[NOTES := v];
  }

  lemma {:induction false} ProjectsOne(schema: Schema, asset: Asset, ops: seq<Operation>, v: Json)
    requires Fold(schema, 0.0, Begin(Stub(None), map[]), ops) == Ok(Begin(Stub(None), map[NOTES := v]))
    ensures Apply(schema, Stub(None), map[], asset, ops).Ok?
  {
    assert FinishLabels(Begin(Stub(None), map[NOTES := v])) == map[NOTES := v];
  }

  function NoteThenString(name: char, text: string): seq<Operation> {
    [Operation(None, Some("/canonical/" + [name]), Some(JStr(text))), Operation(None, Some("/projection/" + NOTES), Some(JStr(text)))]
  }

  lemma {:induction false} NoteThenStringClashes(name: char, text: string)
    requires name != '/'
    ensures NotesClash(NoteThenString(name, text))
  {
    var ops := NoteThenString(name, text);
    CanonicalPath([name], JStr(text));
    ProjectionPath(NOTES, JStr(text));
    assert ops[1..] == [ops[1]] && ops[1..][1..] == [];
  }

  /** The replay does fail on every list of this shape: a note, then a string over all notes. */
  lemma {:induction false} ReplayCanFail(schema: Schema, asset: Asset, name: char, text: string)
    requires name != '/'
    ensures var ops := NoteThenString(name, text); var once := Apply(schema, Stub(None), map[], asset, ops);
            once.Ok? && Apply(schema, V4(once.value.0), once.value.1, asset, ops).Err?
  {
    var ops := NoteThenString(name, text);
    CanonicalPath([name], JStr(text));
    ProjectionPath(NOTES, JStr(text));
    FirstNote(schema, [name], JStr(text));
    OverNotes(schema, ApplyEffect(schema, 0.0, Begin(Stub(None), map[]), Note([[name]], JStr(text))).value.light, JStr(text));
    FoldTwo(schema, 0.0, Begin(Stub(None), map[]), ops[0], ops[1]);
    ProjectsOne(schema, asset, ops, JStr(text));
    NoteThenStringClashes(name, text);
    ReplayExactly(schema, Stub(None), map[], asset, ops);
  }

  /** Every clip, event and BGM edit outside the listed structural paths leaves the canonical alone. */
  lemma {:induction false} NoStructuralEdit(schema: Schema, duration: real, d: Draft, ops: seq<Operation>)
    requires Fold(schema, duration, d, ops).Ok?
    requires forall k :: 0 <= k < |ops| ==> !Classify(ops[k]).Structural?
    ensures var d' := Fold(schema, duration, d, ops).value; d'.clips == d.clips && d'.events == d.events && d'.bgm == d.bgm
    decreases |ops|
  {
    if ops != [] {
      NoStructuralEdit(schema, duration, ApplyEffect(schema, duration, d, Classify(ops[0])).value, ops[1..]);
    }
  }

  /** Lightweight operations never change the canonical. */
  lemma {:induction false} LightOpsKeepCanonical(schema: Schema, stored: Stored, projection: Object, asset: Asset, ops: seq<Operation>)
    requires Apply(schema, stored, projection, asset, ops).Ok?
    requires forall k :: 0 <= k < |ops| ==> !Classify(ops[k]).Structural?
    ensures Apply(schema, stored, projection, asset, ops).value.0 == Load(stored, asset).value
  {
    NoStructuralEdit(schema, Load(stored, asset).value.meta.duration, Begin(stored, projection), ops);
  }

  predicate Edits(o: Operation, kind: Kind) {
    Classify(o).Structural? && Classify(o).kind == kind
  }

  function Edited(d: Draft, kind: Kind): Option<seq<Timed>> {
    match kind
    case ClipKind => d.clips
    case EventKind => d.events
    case BgmKind => d.bgm
  }

  function LayerOf(a: Annotation, kind: Kind): seq<Timed> {
    match kind
    case ClipKind => a.clips
    case EventKind => a.events
    case BgmKind => a.bgm
  }

  lemma {:induction false} UneditedOnce(schema: Schema, duration: real, d: Draft, o: Operation, kind: Kind)
    requires ApplyEffect(schema, duration, d, Classify(o)).Ok? && !Edits(o, kind)
    ensures Edited(ApplyEffect(schema, duration, d, Classify(o)).value, kind) == Edited(d, kind)
  {
  }

  lemma {:induction false} UneditedKind(schema: Schema, duration: real, d: Draft, ops: seq<Operation>, kind: Kind)
    requires Fold(schema, duration, d, ops).Ok? && forall j :: 0 <= j < |ops| ==> !Edits(ops[j], kind)
    ensures Edited(Fold(schema, duration, d, ops).value, kind) == Edited(d, kind)
    decreases |ops|
  {
    if ops != [] {
      UneditedOnce(schema, duration, d, ops[0], kind);
      UneditedKind(schema, duration, ApplyEffect(schema, duration, d, Classify(ops[0])).value, ops[1..], kind);
    }
  }

  lemma {:induction false} LastEditHolds(schema: Schema, duration: real, d: Draft, ops: seq<Operation>, k: nat)
    requires Fold(schema, duration, d, ops).Ok? && k < |ops| && Classify(ops[k]).Structural?
    requires forall j :: k < j < |ops| ==> !Edits(ops[j], Classify(ops[k]).kind)
    ensures var e := Classify(ops[k]);
            Validate(schema, e.kind, duration, e.value).Ok? &&
            Edited(Fold(schema, duration, d, ops).value, e.kind) == Some(Validate(schema, e.kind, duration, e.value).value)
    decreases |ops|
  {
    var d' := ApplyEffect(schema, duration, d, Classify(ops[0])).value;
    if k > 0 {
      LastEditHolds(schema, duration, d', ops[1..], k - 1);
    } else {
      UneditedKind(schema, duration, d', ops[1..], Classify(ops[0]).kind);
    }
  }

  /** The last structural edit of each kind becomes that canonical layer, validated and never coerced away;
      a layer no operation edits, and everything else in the canonical, is kept. */
  lemma {:induction false} LastEditWins(schema: Schema, stored: Stored, projection: Object, asset: Asset, ops: seq<Operation>, kind: Kind)
    requires Apply(schema, stored, projection, asset, ops).Ok?
    ensures var a0, a := Load(stored, asset).value, Apply(schema, stored, projection, asset, ops).value.0;
            && a == a0.(clips := a.clips, events := a.events, bgm := a.bgm)
            && ((forall j :: 0 <= j < |ops| ==> !Edits(ops[j], kind)) ==> LayerOf(a, kind) == LayerOf(a0, kind))
            && (forall k :: 0 <= k < |ops| && Edits(ops[k], kind) && (forall j :: k < j < |ops| ==> !Edits(ops[j], kind)) ==>
                 Validate(schema, kind, a0.meta.duration, Classify(ops[k]).value) == Ok(LayerOf(a, kind)))
  {
    var a0 := Load(stored, asset).value;
    var b := Begin(stored, projection);
    if forall j :: 0 <= j < |ops| ==> !Edits(ops[j], kind) {
      UneditedKind(schema, a0.meta.duration, b, ops, kind);
    }
    forall k | 0 <= k < |ops| && Edits(ops[k], kind) && (forall j :: k < j < |ops| ==> !Edits(ops[j], kind))
      ensures Validate(schema, kind, a0.meta.duration, Classify(ops[k]).value) ==
              Ok(LayerOf(Apply(schema, stored, projection, asset, ops).value.0, kind))
    {
      LastEditHolds(schema, a0.meta.duration, b, ops, k);
    }
  }
}
